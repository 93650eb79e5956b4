/**
 * The records every layer passes around: a discovered status file and the
 * outcome of a download.
 */
module StatusItems {
  import opened Wrappers
  import Lists

  datatype MediaType = IMAGE | VIDEO

  /** A status file: its path (a file path or a `content://` URI), its
      formatted time text and its media type. */
  datatype StatusItem = StatusItem(path: string, timestamp: string, mediaType: MediaType)

  /** What a download reports. */
  datatype DownloadResult = DownloadResult(success: bool, savedPath: Option<string>, errorMessage: Option<string>)

  function ItemPath(x: StatusItem): string { x.path }

  function TimestampOf(x: StatusItem): string { x.timestamp }

  /** A successful download names the saved file; a failed one says why. */
  predicate WellFormed(r: DownloadResult) {
    && (r.success <==> r.savedPath.Some?)
    && (r.success <==> r.errorMessage.None?)
  }

  function Succeeded(savedPath: string): (r: DownloadResult)
    ensures WellFormed(r) && r.success
  {
    DownloadResult(true, Some(savedPath), None)
  }

  function Failed(message: string): (r: DownloadResult)
    ensures WellFormed(r) && !r.success && r.errorMessage == Some(message)
  {
    DownloadResult(false, None, Some(message))
  }

  /** `sortedByDescending { it.timestamp }`: by the timestamp text, stable. */
  function SortByTimestamp(s: seq<StatusItem>): (r: seq<StatusItem>)
    ensures multiset(r) == multiset(s)
    ensures |r| == |s|
    ensures Lists.NonIncreasing(r, TimestampOf, Lists.StringLess)
    ensures forall k :: Lists.WithKey(r, TimestampOf, k) == Lists.WithKey(s, TimestampOf, k)
  {
    var r := Lists.SortDesc(s, TimestampOf, Lists.StringLess);
    assert |r| == |multiset(r)| == |multiset(s)| == |s|;
    Lists.StringLessIsStrictTotalOrder();
    Lists.SortDescNonIncreasing(s, TimestampOf, Lists.StringLess);
    forall k ensures Lists.WithKey(r, TimestampOf, k) == Lists.WithKey(s, TimestampOf, k) {
      Lists.SortDescStable(s, TimestampOf, Lists.StringLess, k);
    }
    r
  }
}
