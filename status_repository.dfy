/**
 * The document-tree repository: lists the status folder the user granted
 * through the storage access framework, classifies each document by MIME
 * type or extension, and counts images and videos.
 */
module StatusRepository {
  import opened Wrappers
  import opened Text
  import Lists
  import opened StatusItems

  /** What `DocumentFile` reports about one document. */
  datatype DocFile = DocFile(name: Option<string>, isFile: bool, readable: bool, mimeType: Option<string>,
                             lastModified: int, uri: string)

  /** The granted tree: absent when no folder was granted or it cannot be opened. */
  datatype DocTree = DocTree(readable: bool, files: seq<DocFile>)

  /**
   * The "MMM dd, yyyy" date format of the device locale: rendering a time,
   * and reading text back (absent when the text does not parse).
   */
  datatype DateFormat = DateFormat(format: int -> string, parse: string -> Option<int>)

  /** Hidden files and `.nomedia` markers are skipped. */
  predicate IsSkippedName(name: string) {
    StartsWith(name, ".") || Contains(name, "nomedia")
  }

  predicate IsImageName(name: string) {
    EndsWithIgnoreCase(name, ".jpg") || EndsWithIgnoreCase(name, ".jpeg") ||
    EndsWithIgnoreCase(name, ".png") || EndsWithIgnoreCase(name, ".webp")
  }

  predicate IsVideoName(name: string) {
    EndsWithIgnoreCase(name, ".mp4") || EndsWithIgnoreCase(name, ".3gp") || EndsWithIgnoreCase(name, ".mkv")
  }

  /** The MIME type decides first (case-sensitively); the extension second. */
  function MediaTypeOf(name: string, mimeType: Option<string>): Option<MediaType> {
    if mimeType.Some? && StartsWith(mimeType.value, "image/") then Some(IMAGE)
    else if mimeType.Some? && StartsWith(mimeType.value, "video/") then Some(VIDEO)
    else if IsImageName(name) then Some(IMAGE)
    else if IsVideoName(name) then Some(VIDEO)
    else None
  }

  /**
   * A media MIME type wins over the name; without one, the image
   * extensions give IMAGE, the video extensions VIDEO, and any other name
   * is not a status.
   */
  lemma MediaTypeRules(name: string, mimeType: Option<string>)
    ensures mimeType.Some? && StartsWith(mimeType.value, "image/") ==> MediaTypeOf(name, mimeType) == Some(IMAGE)
    ensures mimeType.Some? && StartsWith(mimeType.value, "video/") ==> MediaTypeOf(name, mimeType) == Some(VIDEO)
    ensures MediaTypeOf(name, mimeType).None? <==>
              !IsImageName(name) && !IsVideoName(name) &&
              (mimeType.Some? ==> !StartsWith(mimeType.value, "image/") && !StartsWith(mimeType.value, "video/"))
  {
    if mimeType.Some? && StartsWith(mimeType.value, "video/") {
      assert mimeType.value[0] == 'v';
    }
  }

  /** The time text: the formatted date, or "Unknown" for a time that is not positive. */
  function FormattedDate(t: int, df: DateFormat): string {
    if t > 0 then df.format(t) else "Unknown"
  }

  /** One document's item, when it is a readable, visible media file. */
  function Classify(f: DocFile, df: DateFormat): Option<StatusItem> {
    if !f.isFile || !f.readable || f.name.None? || IsSkippedName(f.name.value) then None
    else match MediaTypeOf(f.name.value, f.mimeType)
      case None => None
      case Some(t) => Some(StatusItem(f.uri, FormattedDate(f.lastModified, df), t))
  }

  /**
   * A document gives an item exactly when it is a readable file with a
   * visible name and a media type; the item's path is the document URI.
   */
  lemma ClassifyAccepts(f: DocFile, df: DateFormat)
    ensures var r := Classify(f, df);
      && (r.Some? <==> f.isFile && f.readable && f.name.Some? && !IsSkippedName(f.name.value) &&
                       MediaTypeOf(f.name.value, f.mimeType).Some?)
      && (r.Some? ==> r.value.path == f.uri && Some(r.value.mediaType) == MediaTypeOf(f.name.value, f.mimeType))
      && (r.Some? && f.lastModified <= 0 ==> r.value.timestamp == "Unknown")
  {
  }

  /** The items of the documents, in listing order. */
  function Scan(files: seq<DocFile>, df: DateFormat): seq<StatusItem>
    decreases |files|
  {
    if files == [] then []
    else
      var last := files[|files| - 1];
      Scan(files[..|files| - 1], df) + (match Classify(last, df) case None => [] case Some(x) => [x])
  }

  /** An item is listed exactly when some document classifies to it. */
  lemma {:induction false} ScanMembers(files: seq<DocFile>, df: DateFormat, x: StatusItem)
    ensures x in Scan(files, df) <==> exists i :: 0 <= i < |files| && Classify(files[i], df) == Some(x)
    decreases |files|
  {
    if files != [] {
      var front := files[..|files| - 1];
      ScanMembers(front, df, x);
      assert forall i :: 0 <= i < |front| ==> front[i] == files[i];
    }
  }

  /** The sort key: the parsed time text, or 0 when it does not parse. */
  function SortKey(df: DateFormat): StatusItem -> int {
    (x: StatusItem) => df.parse(x.timestamp).GetOr(0)
  }

  function Scanned(tree: Option<DocTree>, df: DateFormat): seq<StatusItem> {
    if tree.Some? && tree.value.readable then Scan(tree.value.files, df) else []
  }

  /** `getStatusFiles`, as a value. */
  function StatusFiles(tree: Option<DocTree>, df: DateFormat): seq<StatusItem> {
    Lists.SortDesc(Scanned(tree, df), SortKey(df), Lists.IntLess)
  }

  /**
   * The listing is the scanned items reordered, newest parsed date first,
   * with items of equal date in listing order; no tree gives no items.
   */
  lemma StatusFilesSorted(tree: Option<DocTree>, df: DateFormat)
    ensures var r := StatusFiles(tree, df);
      && multiset(r) == multiset(Scanned(tree, df))
      && Lists.NonIncreasing(r, SortKey(df), Lists.IntLess)
      && (forall k :: Lists.WithKey(r, SortKey(df), k) == Lists.WithKey(Scanned(tree, df), SortKey(df), k))
      && ((tree.None? || !tree.value.readable) ==> r == [])
  {
    Lists.IntLessIsStrictTotalOrder();
    Lists.SortDescNonIncreasing(Scanned(tree, df), SortKey(df), Lists.IntLess);
    forall k ensures Lists.WithKey(StatusFiles(tree, df), SortKey(df), k) == Lists.WithKey(Scanned(tree, df), SortKey(df), k) {
      Lists.SortDescStable(Scanned(tree, df), SortKey(df), Lists.IntLess, k);
    }
  }

  /** `getStatusFiles` */
  method GetStatusFiles(tree: Option<DocTree>, df: DateFormat) returns (r: seq<StatusItem>)
    ensures r == StatusFiles(tree, df)
  {
    var statusItems: seq<StatusItem> := [];
    if tree.Some? && tree.value.readable {
      var files := tree.value.files;
      for i := 0 to |files|
        invariant statusItems == Scan(files[..i], df)
      {
        var file := files[i];
        assert files[..i + 1][..i] == files[..i];
        if file.isFile && file.readable {
          var mimeType := file.mimeType;
          if file.name.None? {
            continue;
          }
          var name := file.name.value;
          if StartsWith(name, ".") || Contains(name, "nomedia") {
            continue;
          }
          var mediaType: MediaType;
          if mimeType.Some? && StartsWith(mimeType.value, "image/") {
            mediaType := IMAGE;
          } else if mimeType.Some? && StartsWith(mimeType.value, "video/") {
            mediaType := VIDEO;
          } else if IsImageName(name) {
            mediaType := IMAGE;
          } else if IsVideoName(name) {
            mediaType := VIDEO;
          } else {
            continue;
          }
          var timestamp := file.lastModified;
          var formattedDate := if timestamp > 0 then df.format(timestamp) else "Unknown";
          statusItems := statusItems + [StatusItem(file.uri, formattedDate, mediaType)];
        }
      }
      assert files[..|files|] == files;
    }
    r := Lists.SortDesc(statusItems, SortKey(df), Lists.IntLess);
  }

  function ImagesOf(items: seq<StatusItem>): seq<StatusItem> {
    Lists.Filter(items, (x: StatusItem) => x.mediaType == IMAGE)
  }

  function VideosOf(items: seq<StatusItem>): seq<StatusItem> {
    Lists.Filter(items, (x: StatusItem) => x.mediaType == VIDEO)
  }

  /** Every item is an image or a video, never both. */
  lemma {:induction false} ImagesPlusVideos(items: seq<StatusItem>)
    ensures |ImagesOf(items)| + |VideosOf(items)| == |items|
  {
    if items != [] {
      ImagesPlusVideos(items[1..]);
    }
  }

  datatype StatusCount = StatusCount(total: int, images: int, videos: int)

  /** `count { it.type == t }`: how many items have media type `t`. */
  function CountType(items: seq<StatusItem>, t: MediaType): nat {
    if items == [] then 0
    else (if items[0].mediaType == t then 1 else 0) + CountType(items[1..], t)
  }

  /** Counting the items of a type gives the length of that type's filtered list. */
  lemma {:induction false} CountTypeIsFilterLength(items: seq<StatusItem>)
    ensures CountType(items, IMAGE) == |ImagesOf(items)|
    ensures CountType(items, VIDEO) == |VideosOf(items)|
  {
    if items != [] {
      CountTypeIsFilterLength(items[1..]);
    }
  }

  /** The counts of a listing; the images and videos always add up to the total. */
  function CountOf(items: seq<StatusItem>): (c: StatusCount)
    ensures c.total == |items|
    ensures c.total == c.images + c.videos
  {
    ImagesPlusVideos(items);
    CountTypeIsFilterLength(items);
    StatusCount(|items|, CountType(items, IMAGE), CountType(items, VIDEO))
  }

  /** The image and video counts are the lengths of the image and video lists. */
  lemma CountOfMatchesFilters(items: seq<StatusItem>)
    ensures CountOf(items).images == |ImagesOf(items)|
    ensures CountOf(items).videos == |VideosOf(items)|
  {
    CountTypeIsFilterLength(items);
  }

  /** `getImageStatuses` */
  method GetImageStatuses(tree: Option<DocTree>, df: DateFormat) returns (r: seq<StatusItem>)
    ensures r == ImagesOf(StatusFiles(tree, df))
  {
    var all := GetStatusFiles(tree, df);
    r := ImagesOf(all);
  }

  /** `getVideoStatuses` */
  method GetVideoStatuses(tree: Option<DocTree>, df: DateFormat) returns (r: seq<StatusItem>)
    ensures r == VideosOf(StatusFiles(tree, df))
  {
    var all := GetStatusFiles(tree, df);
    r := VideosOf(all);
  }

  /** `getStatusCount` */
  method GetStatusCount(tree: Option<DocTree>, df: DateFormat) returns (c: StatusCount)
    ensures c == CountOf(StatusFiles(tree, df))
    ensures c.total == c.images + c.videos
  {
    var allStatuses := GetStatusFiles(tree, df);
    c := CountOf(allStatuses);
  }
}
