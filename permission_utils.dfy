/** The second permission table, used by the permission screen. */
module PermissionUtils {
  import PM = PermissionManager

  const READ_MEDIA_VISUAL_USER_SELECTED: string := "android.permission.READ_MEDIA_VISUAL_USER_SELECTED"

  /** `getRequiredStoragePermissions` */
  function RequiredStoragePermissions(level: int): seq<string> {
    if level >= PM.TIRAMISU then [PM.READ_MEDIA_IMAGES, PM.READ_MEDIA_VIDEO, READ_MEDIA_VISUAL_USER_SELECTED]
    else if level >= PM.R then [PM.READ_EXTERNAL_STORAGE]
    else [PM.READ_EXTERNAL_STORAGE, PM.WRITE_EXTERNAL_STORAGE]
  }

  /** `isPermissionGranted` */
  predicate IsPermissionGranted(granted: set<string>, permission: string) {
    permission in granted
  }

  /** `hasStoragePermissions` */
  function HasStoragePermissions(level: int, granted: set<string>): bool {
    if level >= PM.TIRAMISU then
      IsPermissionGranted(granted, PM.READ_MEDIA_IMAGES) && IsPermissionGranted(granted, PM.READ_MEDIA_VIDEO) &&
      IsPermissionGranted(granted, READ_MEDIA_VISUAL_USER_SELECTED)
    else if level >= PM.R then IsPermissionGranted(granted, PM.READ_EXTERNAL_STORAGE)
    else IsPermissionGranted(granted, PM.READ_EXTERNAL_STORAGE) && IsPermissionGranted(granted, PM.WRITE_EXTERNAL_STORAGE)
  }

  /** The check holds exactly when every permission of the level's list is granted. */
  lemma HasStoragePermissionsIffAllRequired(level: int, granted: set<string>)
    ensures HasStoragePermissions(level, granted) <==>
            forall p :: p in RequiredStoragePermissions(level) ==> p in granted
  {
    var req := RequiredStoragePermissions(level);
    if forall p :: p in req ==> p in granted {
      assert req[0] in req;
      if |req| >= 2 { assert req[1] in req; }
      if |req| == 3 { assert req[2] in req; }
    }
  }

  /** `shouldShowPermissionRationale(context)`: some required permission is denied. */
  predicate ShouldShowPermissionRationale(level: int, granted: set<string>) {
    exists p :: p in RequiredStoragePermissions(level) && p !in granted
  }

  /** The rationale is advised exactly when the storage check fails. */
  lemma RationaleIffNotGranted(level: int, granted: set<string>)
    ensures ShouldShowPermissionRationale(level, granted) <==> !HasStoragePermissions(level, granted)
  {
    HasStoragePermissionsIffAllRequired(level, granted);
  }

  /** `shouldShowPermissionRationale(activity)`: some required permission has a rationale. */
  predicate ShouldShowRationaleFor(level: int, rationale: set<string>) {
    exists p :: p in RequiredStoragePermissions(level) && p in rationale
  }

  /**
   * Level by level, the rationale is shown when one of these has one: the
   * two media permissions or the user-selected one from level 33, the read
   * permission from level 30, and the read or the write permission below.
   * Whenever the first table's rationale check holds, this one does too;
   * below level 30 the write permission alone is enough here but not there.
   */
  lemma ShouldShowRationaleForLevels(level: int, rationale: set<string>)
    ensures level >= PM.TIRAMISU ==>
              (ShouldShowRationaleFor(level, rationale) <==>
                 PM.READ_MEDIA_IMAGES in rationale || PM.READ_MEDIA_VIDEO in rationale ||
                 READ_MEDIA_VISUAL_USER_SELECTED in rationale)
    ensures PM.R <= level < PM.TIRAMISU ==>
              (ShouldShowRationaleFor(level, rationale) <==> PM.READ_EXTERNAL_STORAGE in rationale)
    ensures level < PM.R ==>
              (ShouldShowRationaleFor(level, rationale) <==>
                 PM.READ_EXTERNAL_STORAGE in rationale || PM.WRITE_EXTERNAL_STORAGE in rationale)
    ensures PM.ShouldShowRationale(level, rationale) ==> ShouldShowRationaleFor(level, rationale)
    ensures level < PM.R ==>
              ShouldShowRationaleFor(level, {PM.WRITE_EXTERNAL_STORAGE}) &&
              !PM.ShouldShowRationale(level, {PM.WRITE_EXTERNAL_STORAGE})
  {
    var req := RequiredStoragePermissions(level);
    if ShouldShowRationaleFor(level, rationale) {
      var p :| p in req && p in rationale;
    }
    if PM.READ_MEDIA_IMAGES in rationale || PM.READ_EXTERNAL_STORAGE in rationale { assert req[0] in req; }
    if |req| >= 2 { assert req[1] in req; }
    if |req| == 3 { assert req[2] in req; }
    if level < PM.R { assert req[1] in req; }
  }

  /** `arePermissionsPermanentlyDenied`: never. */
  function ArePermissionsPermanentlyDenied(granted: set<string>, permissions: seq<string>): (r: bool)
    ensures !r
  {
    false
  }

  /** `hasAllFilesAccess`; `isStorageManager` is the platform's all-files answer. */
  function HasAllFilesAccess(level: int, isStorageManager: bool): (r: bool)
    ensures level < PM.R ==> r
    ensures level >= PM.R ==> (r <==> isStorageManager)
  {
    if level >= PM.R then isStorageManager else true
  }

  function PermissionDescription(level: int): string {
    if level >= PM.TIRAMISU then "This app needs access to your photos and videos to find and save WhatsApp statuses."
    else "This app needs storage access to find WhatsApp statuses and save them to your device."
  }

  const PermissionDeniedMessage: string :=
    "Storage permission is required to access WhatsApp statuses. Please grant permission in Settings."

  /**
   * Below API 33 both tables agree; from 33 on this one also needs
   * READ_MEDIA_VISUAL_USER_SELECTED, so it is the stricter check.
   */
  lemma TablesAgreeBelowTiramisu(level: int, granted: set<string>)
    ensures level < PM.TIRAMISU ==> RequiredStoragePermissions(level) == PM.RequiredPermissions(level)
    ensures level >= PM.TIRAMISU ==> RequiredStoragePermissions(level) == PM.RequiredPermissions(level) + [READ_MEDIA_VISUAL_USER_SELECTED]
    ensures HasStoragePermissions(level, granted) ==> PM.HasStoragePermission(level, granted)
  {
  }

  /** On API 33, granting images and video satisfies the manager but not this table. */
  lemma TablesDifferOnTiramisu()
    ensures PM.HasStoragePermission(33, {PM.READ_MEDIA_IMAGES, PM.READ_MEDIA_VIDEO})
    ensures !HasStoragePermissions(33, {PM.READ_MEDIA_IMAGES, PM.READ_MEDIA_VIDEO})
  {
    assert READ_MEDIA_VISUAL_USER_SELECTED != PM.READ_MEDIA_IMAGES;
    assert READ_MEDIA_VISUAL_USER_SELECTED != PM.READ_MEDIA_VIDEO;
  }
}
