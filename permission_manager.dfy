/**
 * The app's permission tables, as functions of the platform's API level and
 * the set of permissions the user has granted.
 */
module PermissionManager {
  import opened Wrappers

  /** `Build.VERSION_CODES.TIRAMISU` and `Build.VERSION_CODES.R` */
  const TIRAMISU: int := 33
  const R: int := 30

  const READ_MEDIA_IMAGES: string := "android.permission.READ_MEDIA_IMAGES"
  const READ_MEDIA_VIDEO: string := "android.permission.READ_MEDIA_VIDEO"
  const READ_EXTERNAL_STORAGE: string := "android.permission.READ_EXTERNAL_STORAGE"
  const WRITE_EXTERNAL_STORAGE: string := "android.permission.WRITE_EXTERNAL_STORAGE"
  const QUERY_ALL_PACKAGES: string := "android.permission.QUERY_ALL_PACKAGES"

  const ACTION_MANAGE_APP_ALL_FILES_ACCESS_PERMISSION: string := "android.settings.MANAGE_APP_ALL_FILES_ACCESS_PERMISSION"
  const ACTION_MANAGE_ALL_FILES_ACCESS_PERMISSION: string := "android.settings.MANAGE_ALL_FILES_ACCESS_PERMISSION"
  const CATEGORY_DEFAULT: string := "android.intent.category.DEFAULT"

  const STORAGE_PERMISSION_REQUEST_CODE: int := 1001

  /** `REQUIRED_PERMISSIONS` on a device of API level `level`. */
  function RequiredPermissions(level: int): seq<string> {
    if level >= TIRAMISU then [READ_MEDIA_IMAGES, READ_MEDIA_VIDEO]
    else if level >= R then [READ_EXTERNAL_STORAGE]
    else [READ_EXTERNAL_STORAGE, WRITE_EXTERNAL_STORAGE]
  }

  /** `hasStoragePermission`, with `checkSelfPermission` as membership in `granted`. */
  function HasStoragePermission(level: int, granted: set<string>): bool {
    if level >= TIRAMISU then READ_MEDIA_IMAGES in granted && READ_MEDIA_VIDEO in granted
    else if level >= R then READ_EXTERNAL_STORAGE in granted
    else READ_EXTERNAL_STORAGE in granted && WRITE_EXTERNAL_STORAGE in granted
  }

  /** The storage check holds exactly when every required permission is granted. */
  lemma HasStoragePermissionIffAllRequired(level: int, granted: set<string>)
    ensures HasStoragePermission(level, granted) <==> forall p :: p in RequiredPermissions(level) ==> p in granted
  {
    var req := RequiredPermissions(level);
    if forall p :: p in req ==> p in granted {
      assert req[0] in req;
      if |req| == 2 { assert req[1] in req; }
    }
  }

  /** What `requestStoragePermission` starts. */
  datatype PermissionRequest =
    | OpenSettings(action: string, category: Option<string>, data: Option<string>, requestCode: int)
    | RuntimeRequest(permissions: seq<string>, requestCode: int)

  /**
   * `requestStoragePermission`. `appSettingsOk` says whether the per-app
   * all-files-access screen can be started; when it cannot, the general
   * screen is opened instead.
   */
  function RequestStoragePermission(level: int, packageName: string, requestCode: int, appSettingsOk: bool): PermissionRequest {
    if level >= R then
      if appSettingsOk then
        OpenSettings(ACTION_MANAGE_APP_ALL_FILES_ACCESS_PERMISSION, Some(CATEGORY_DEFAULT), Some("package:" + packageName), requestCode)
      else
        OpenSettings(ACTION_MANAGE_ALL_FILES_ACCESS_PERMISSION, None, None, requestCode)
    else if level >= TIRAMISU then
      RuntimeRequest([READ_MEDIA_IMAGES, READ_MEDIA_VIDEO], requestCode)
    else
      RuntimeRequest([READ_EXTERNAL_STORAGE, WRITE_EXTERNAL_STORAGE], requestCode)
  }

  /**
   * From API 30 on the request always opens a settings screen, so the
   * media-permission request meant for API 33 is never made; below 30 the
   * read and write permissions are requested at run time.
   */
  lemma RequestNeverAsksForMedia(level: int, packageName: string, requestCode: int, appSettingsOk: bool)
    ensures var q := RequestStoragePermission(level, packageName, requestCode, appSettingsOk);
      && q.requestCode == requestCode
      && (q.OpenSettings? <==> level >= R)
      && (q.RuntimeRequest? ==> q.permissions == [READ_EXTERNAL_STORAGE, WRITE_EXTERNAL_STORAGE])
      && (q.OpenSettings? && appSettingsOk ==> q.data == Some("package:" + packageName))
      && (level >= TIRAMISU ==> q.OpenSettings?)
  {
  }

  /**
   * `shouldShowRationale`; `rationale` holds the permissions for which the
   * platform advises a rationale.
   */
  function ShouldShowRationale(level: int, rationale: set<string>): bool {
    if level >= TIRAMISU then READ_MEDIA_IMAGES in rationale || READ_MEDIA_VIDEO in rationale
    else READ_EXTERNAL_STORAGE in rationale
  }

  /**
   * From API 30 on the rationale is asked for exactly the required
   * permissions; below 30 only the read permission is asked, although the
   * write permission is required too.
   */
  lemma RationaleCoversRequired(level: int, rationale: set<string>)
    ensures level >= R ==>
      (ShouldShowRationale(level, rationale) <==> exists p :: p in RequiredPermissions(level) && p in rationale)
    ensures level < R ==> !ShouldShowRationale(level, {WRITE_EXTERNAL_STORAGE})
  {
    if level >= R && ShouldShowRationale(level, rationale) {
      var req := RequiredPermissions(level);
      if READ_MEDIA_IMAGES in rationale && level >= TIRAMISU {
        assert req[0] in req;
      } else if level >= TIRAMISU {
        assert req[1] in req;
      } else {
        assert req[0] in req;
      }
    }
  }

  /** `hasWhatsAppQueryPermission` */
  function HasWhatsAppQueryPermission(level: int, granted: set<string>): (r: bool)
    ensures level < R ==> r
  {
    if level >= R then QUERY_ALL_PACKAGES in granted else true
  }

  /** `getAllRequiredPermissions`: the storage list, then the package query from API 30 on. */
  method GetAllRequiredPermissions(level: int) returns (r: seq<string>)
    ensures r == RequiredPermissions(level) + (if level >= R then [QUERY_ALL_PACKAGES] else [])
    ensures QUERY_ALL_PACKAGES in r <==> level >= R
  {
    var permissions: seq<string> := [];
    permissions := permissions + RequiredPermissions(level);
    if level >= R {
      permissions := permissions + [QUERY_ALL_PACKAGES];
    }
    r := permissions;
  }

  /** `isWhatsAppInstalled` and `isWhatsAppBusinessInstalled`, over the installed package names. */
  function IsWhatsAppInstalled(installed: set<string>): bool {
    "com.whatsapp" in installed
  }

  function IsWhatsAppBusinessInstalled(installed: set<string>): bool {
    "com.whatsapp.w4b" in installed
  }

  /**
   * The two checks look for different packages: each holds exactly when its
   * own package is installed, whatever is done to the other's, and either
   * app can be present without the other.
   */
  lemma InstalledChecksIndependent(installed: set<string>)
    ensures IsWhatsAppInstalled(installed + {"com.whatsapp.w4b"}) == IsWhatsAppInstalled(installed)
    ensures IsWhatsAppInstalled(installed - {"com.whatsapp.w4b"}) == IsWhatsAppInstalled(installed)
    ensures IsWhatsAppBusinessInstalled(installed + {"com.whatsapp"}) == IsWhatsAppBusinessInstalled(installed)
    ensures IsWhatsAppBusinessInstalled(installed - {"com.whatsapp"}) == IsWhatsAppBusinessInstalled(installed)
    ensures IsWhatsAppInstalled({"com.whatsapp"}) && !IsWhatsAppBusinessInstalled({"com.whatsapp"})
    ensures !IsWhatsAppInstalled({"com.whatsapp.w4b"}) && IsWhatsAppBusinessInstalled({"com.whatsapp.w4b"})
    ensures !IsWhatsAppInstalled({}) && !IsWhatsAppBusinessInstalled({})
  {
    assert "com.whatsapp" != "com.whatsapp.w4b" by {
      assert |"com.whatsapp"| != |"com.whatsapp.w4b"|;
    }
  }
}
