/**
 * The home screen state: which tab is selected, whether storage access is
 * granted, what the status list shows, the category counts, and the items
 * handed to the viewer.
 */
module HomeViewModel {
  import opened Wrappers
  import opened Text
  import opened StatusItems
  import SR = StatusRepository
  import PM = PermissionManager

  datatype HomeUiState = Loading | Empty | Success(statusItems: seq<StatusItem>) | Error(message: string)

  datatype PermissionState = Checking | Required | Granted

  /**
   * What the device answers while the screen works: its API level, the
   * granted permissions, whether the status folder is accessible, the
   * granted document tree and date format the repository reads, and
   * whether loading throws (with the exception's message, possibly null).
   * A load lists the folder twice, once for the counts (`tree`) and once
   * for the tab's list (`tabTree`); the folder can change in between.
   */
  datatype Device = Device(level: int, granted: set<string>, folderAccess: bool, tree: Option<SR.DocTree>,
                           tabTree: Option<SR.DocTree>, dateFormat: SR.DateFormat,
                           loadFault: Option<Option<string>>)

  /** `indexOfFirst { it.path == path }` */
  function IndexOfFirst(items: seq<StatusItem>, path: string): (r: int)
    ensures -1 <= r < |items|
    ensures r >= 0 ==> items[r].path == path && forall j :: 0 <= j < r ==> items[j].path != path
    ensures r == -1 ==> forall j :: 0 <= j < |items| ==> items[j].path != path
  {
    if items == [] then -1
    else if items[0].path == path then 0
    else
      var r := IndexOfFirst(items[1..], path);
      assert forall j :: 1 <= j < |items| ==> items[j] == items[1..][j - 1];
      if r == -1 then -1 else r + 1
  }

  /** The list a tab shows: images on tab 1, videos on tab 2, everything otherwise. */
  function ItemsForTab(tab: int, all: seq<StatusItem>): seq<StatusItem> {
    if tab == 1 then SR.ImagesOf(all) else if tab == 2 then SR.VideosOf(all) else all
  }

  /** The count a tab's badge shows: images on tab 1, videos on tab 2, the total otherwise. */
  function TabCount(c: SR.StatusCount, tab: int): int {
    if tab == 1 then c.images else if tab == 2 then c.videos else c.total
  }

  /** Over one listing, the list shown on a tab is as long as that tab's category count. */
  lemma TabAgreesWithCount(tab: int, all: seq<StatusItem>)
    ensures |ItemsForTab(tab, all)| == TabCount(SR.CountOf(all), tab)
  {
    SR.CountOfMatchesFilters(all);
  }

  /** A loaded list becomes Empty when it has no items and Success with the same list otherwise. */
  function UiStateFor(items: seq<StatusItem>): (r: HomeUiState)
    ensures r == Empty <==> items == []
    ensures r.Success? <==> items != []
    ensures r.Success? ==> r.statusItems == items
  {
    if |items| == 0 then Empty else Success(items)
  }

  /** The screen state a load leaves on tab `tab`. */
  function UiAfterLoad(d: Device, tab: int): HomeUiState {
    if d.loadFault.Some? then Error(d.loadFault.value.GetOr("Failed to load status files"))
    else UiStateFor(ItemsForTab(tab, SR.StatusFiles(d.tabTree, d.dateFormat)))
  }

  /** The category counts a load leaves; a throw keeps the previous counts. */
  function CountAfterLoad(d: Device, previous: SR.StatusCount): SR.StatusCount {
    if d.loadFault.Some? then previous else SR.CountOf(SR.StatusFiles(d.tree, d.dateFormat))
  }

  /**
   * When the folder is the same for both listings, a load that does not
   * throw shows a list exactly as long as its tab's count, and Empty
   * exactly when that count is 0.
   */
  lemma LoadShowsCountedList(d: Device, tab: int, previous: SR.StatusCount)
    ensures d.loadFault.None? && d.tabTree == d.tree ==>
      (UiAfterLoad(d, tab) == Empty <==> TabCount(CountAfterLoad(d, previous), tab) == 0) &&
      (UiAfterLoad(d, tab).Success? ==>
         |UiAfterLoad(d, tab).statusItems| == TabCount(CountAfterLoad(d, previous), tab))
  {
    TabAgreesWithCount(tab, SR.StatusFiles(d.tree, d.dateFormat));
  }

  /** Storage permission and folder access together grant the screen. */
  function PermissionAfterCheck(d: Device): PermissionState {
    if PM.HasStoragePermission(d.level, d.granted) && d.folderAccess then Granted else Required
  }

  /** What a download attempt gave: the use case's result, or a throw with its message. */
  datatype Attempt = Returned(result: DownloadResult) | Threw(message: Option<string>)

  /** The pair handed to `onResult`. */
  datatype Report = Report(success: bool, errorMessage: Option<string>)

  /** `downloadStatus`: passes on the result's flag and error, or reports the throw. */
  function DownloadReport(a: Attempt): Report {
    match a
    case Returned(r) => Report(r.success, r.errorMessage)
    case Threw(m) => Report(false, Some("Download failed: " + m.GetOr("null")))
  }

  /**
   * A returned result is passed on with its own flag and message, and a
   * well-formed one carries a message exactly when it failed; a throw is
   * reported as a failure with "Download failed: " and the exception's
   * message ("null" when it has none).
   */
  lemma DownloadReportAgrees(a: Attempt)
    ensures a.Returned? ==>
      DownloadReport(a).success == a.result.success && DownloadReport(a).errorMessage == a.result.errorMessage
    ensures a.Returned? && WellFormed(a.result) ==>
      (DownloadReport(a).success <==> DownloadReport(a).errorMessage.None?)
    ensures a.Threw? ==> DownloadReport(a).errorMessage == Some("Download failed: " + a.message.GetOr("null"))
    ensures a.Threw? ==>
      !DownloadReport(a).success && DownloadReport(a).errorMessage.Some? &&
      StartsWith(DownloadReport(a).errorMessage.value, "Download failed: ")
  {
  }

  class HomeViewModel {
    var uiState: HomeUiState
    var selectedTabIndex: int
    var permissionState: PermissionState
    var statusCount: SR.StatusCount
    var viewerItems: seq<StatusItem>
    var initialViewerIndex: int

    /** The counts add up, and a Success state never shows an empty list. */
    ghost predicate Valid()
      reads this
    {
      && statusCount.total == statusCount.images + statusCount.videos
      && (uiState.Success? ==> uiState.statusItems != [])
    }

    /** `init { checkPermissions() }` */
    constructor(d: Device)
      ensures Valid()
      ensures permissionState == PermissionAfterCheck(d)
      ensures selectedTabIndex == 0 && viewerItems == [] && initialViewerIndex == 0
      ensures permissionState == Granted ==> uiState == UiAfterLoad(d, 0) &&
                                              statusCount == CountAfterLoad(d, SR.StatusCount(0, 0, 0))
      ensures permissionState != Granted ==> uiState == Loading && statusCount == SR.StatusCount(0, 0, 0)
    {
      uiState := Loading;
      selectedTabIndex := 0;
      permissionState := Checking;
      statusCount := SR.StatusCount(0, 0, 0);
      viewerItems := [];
      initialViewerIndex := 0;
      new;
      CheckPermissions(d);
    }

    /** `openViewer`: the viewer opens on the first item with the selected path, or -1. */
    method OpenViewer(tabIndex: int, selectedItem: StatusItem, allItems: seq<StatusItem>)
      modifies this
      ensures selectedTabIndex == tabIndex && viewerItems == allItems
      ensures initialViewerIndex == IndexOfFirst(allItems, selectedItem.path)
      ensures uiState == old(uiState) && permissionState == old(permissionState) && statusCount == old(statusCount)
    {
      selectedTabIndex := tabIndex;
      viewerItems := allItems;
      initialViewerIndex := IndexOfFirst(allItems, selectedItem.path);
    }

    /** `loadStatusFiles`: counts first, then the selected tab's list. */
    method LoadStatusFiles(d: Device)
      requires Valid()
      modifies this
      ensures Valid()
      ensures uiState == UiAfterLoad(d, selectedTabIndex)
      ensures statusCount == CountAfterLoad(d, old(statusCount))
      ensures selectedTabIndex == old(selectedTabIndex) && permissionState == old(permissionState)
      ensures viewerItems == old(viewerItems) && initialViewerIndex == old(initialViewerIndex)
    {
      uiState := Loading;
      if d.loadFault.Some? {
        uiState := Error(d.loadFault.value.GetOr("Failed to load status files"));
        return;
      }
      var count := SR.GetStatusCount(d.tree, d.dateFormat);  // the first listing
      statusCount := count;
      var statusItems: seq<StatusItem>;
      if selectedTabIndex == 0 {
        statusItems := SR.GetStatusFiles(d.tabTree, d.dateFormat);
      } else if selectedTabIndex == 1 {
        statusItems := SR.GetImageStatuses(d.tabTree, d.dateFormat);
      } else if selectedTabIndex == 2 {
        statusItems := SR.GetVideoStatuses(d.tabTree, d.dateFormat);
      } else {
        statusItems := SR.GetStatusFiles(d.tabTree, d.dateFormat);
      }
      uiState := if |statusItems| == 0 then Empty else Success(statusItems);
    }

    /** `checkPermissions`: Granted (and a load) exactly when both checks pass, Required otherwise. */
    method CheckPermissions(d: Device)
      requires Valid()
      modifies this
      ensures Valid()
      ensures permissionState == PermissionAfterCheck(d)
      ensures permissionState == Granted ==> uiState == UiAfterLoad(d, selectedTabIndex) &&
                                              statusCount == CountAfterLoad(d, old(statusCount))
      ensures permissionState != Granted ==> uiState == old(uiState) && statusCount == old(statusCount)
      ensures selectedTabIndex == old(selectedTabIndex)
      ensures viewerItems == old(viewerItems) && initialViewerIndex == old(initialViewerIndex)
    {
      permissionState := Checking;
      var hasStoragePermission := PM.HasStoragePermission(d.level, d.granted);
      var hasFolderAccess := d.folderAccess;
      if hasStoragePermission && hasFolderAccess {
        LoadStatusFiles(d);
        permissionState := Granted;
      } else {
        permissionState := Required;
      }
    }

    /** `setSelectedTab`: always stores the tab, reloads only when granted. */
    method SetSelectedTab(index: int, d: Device)
      requires Valid()
      modifies this
      ensures Valid()
      ensures selectedTabIndex == index && permissionState == old(permissionState)
      ensures old(permissionState) == Granted ==> uiState == UiAfterLoad(d, index) &&
                                                   statusCount == CountAfterLoad(d, old(statusCount))
      ensures old(permissionState) != Granted ==> uiState == old(uiState) && statusCount == old(statusCount)
      ensures viewerItems == old(viewerItems) && initialViewerIndex == old(initialViewerIndex)
    {
      selectedTabIndex := index;
      if permissionState == Granted {
        LoadStatusFiles(d);
      }
    }

    /** `onPermissionGranted` */
    method OnPermissionGranted(d: Device)
      requires Valid()
      modifies this
      ensures Valid()
      ensures permissionState == Granted
      ensures uiState == UiAfterLoad(d, selectedTabIndex) && statusCount == CountAfterLoad(d, old(statusCount))
      ensures selectedTabIndex == old(selectedTabIndex)
      ensures viewerItems == old(viewerItems) && initialViewerIndex == old(initialViewerIndex)
    {
      permissionState := Granted;
      LoadStatusFiles(d);
    }

    /** `refreshStatuses`: reloads when granted, re-checks the permissions otherwise. */
    method RefreshStatuses(d: Device)
      requires Valid()
      modifies this
      ensures Valid()
      ensures old(permissionState) == Granted ==>
                permissionState == Granted && uiState == UiAfterLoad(d, selectedTabIndex) &&
                statusCount == CountAfterLoad(d, old(statusCount))
      ensures old(permissionState) != Granted ==> permissionState == PermissionAfterCheck(d)
      ensures old(permissionState) != Granted && permissionState == Granted ==>
                uiState == UiAfterLoad(d, selectedTabIndex) && statusCount == CountAfterLoad(d, old(statusCount))
      ensures old(permissionState) != Granted && permissionState != Granted ==>
                uiState == old(uiState) && statusCount == old(statusCount)
      ensures selectedTabIndex == old(selectedTabIndex)
      ensures viewerItems == old(viewerItems) && initialViewerIndex == old(initialViewerIndex)
    {
      if permissionState == Granted {
        LoadStatusFiles(d);
      } else {
        CheckPermissions(d);
      }
    }

    /** `refreshPermissions` is `checkPermissions`. */
    method RefreshPermissions(d: Device)
      requires Valid()
      modifies this
      ensures Valid()
      ensures permissionState == PermissionAfterCheck(d)
      ensures permissionState == Granted ==> uiState == UiAfterLoad(d, selectedTabIndex) &&
                                              statusCount == CountAfterLoad(d, old(statusCount))
      ensures permissionState != Granted ==> uiState == old(uiState) && statusCount == old(statusCount)
      ensures selectedTabIndex == old(selectedTabIndex)
      ensures viewerItems == old(viewerItems) && initialViewerIndex == old(initialViewerIndex)
    {
      CheckPermissions(d);
    }
  }

  /** The screen is granted exactly when every required storage permission is granted and the folder is accessible. */
  lemma GrantedIffPermissionsAndFolder(d: Device)
    ensures PermissionAfterCheck(d) == Granted <==>
            (forall p :: p in PM.RequiredPermissions(d.level) ==> p in d.granted) && d.folderAccess
  {
    PM.HasStoragePermissionIffAllRequired(d.level, d.granted);
  }
}
