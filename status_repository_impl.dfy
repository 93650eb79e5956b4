/**
 * The file-path repository: lists the WhatsApp and WhatsApp Business status
 * folders and the app's saved folders, downloads (copies) a status into the
 * public download folder, deletes saved copies, and formats video lengths.
 */
module StatusRepositoryImpl {
  import opened Wrappers
  import opened Text
  import Lists
  import opened Storage
  import opened StatusItems

  /** The two platform roots the paths hang from. */
  datatype Roots = Roots(external: string, downloads: string)

  const WhatsAppPaths: seq<string> := [
    "/Android/media/com.whatsapp/WhatsApp/Media/.Statuses",
    "/WhatsApp/Media/.Statuses"
  ]

  const BusinessPaths: seq<string> := [
    "/Android/media/com.whatsapp.w4b/WhatsApp Business/Media/.Statuses",
    "/WhatsApp Business/Media/.Statuses"
  ]

  /** Where a missing source file is looked for, in this order. */
  const AlternativePaths: seq<string> := [
    "/Android/media/com.whatsapp/WhatsApp/Media/.Statuses",
    "/WhatsApp/Media/.Statuses",
    "/Android/media/com.whatsapp.w4b/WhatsApp Business/Media/.Statuses",
    "/WhatsApp Business/Media/.Statuses"
  ]

  /** The fallback search covers exactly the two listing families, WhatsApp first. */
  lemma AlternativePathsAreStatusFolders()
    ensures AlternativePaths == WhatsAppPaths + BusinessPaths
  {
  }

  function SavedStatusPath(r: Roots): string { r.external + "/Status Saver" }

  function PublicSavedPath(r: Roots): string { r.downloads + "/StatusSaver" }

  function AppSpecificPath(r: Roots): string { r.external + "/Android/media/com.mg.statussaver/Status Saver" }

  /** Each relative path hung from the external-storage root. */
  function FullPaths(external: string, paths: seq<string>): (r: seq<string>)
    ensures |r| == |paths|
    ensures forall i :: 0 <= i < |r| ==> r[i] == external + paths[i]
  {
    seq(|paths|, i requires 0 <= i < |paths| => external + paths[i])
  }

  // ---------------------------------------------------------------------
  // Listing one folder

  /** The `listFiles` filter: a file with a picture or video extension, any case. */
  predicate IsSupportedMedia(e: Entry) {
    e.isFile &&
    (EndsWithIgnoreCase(e.name, ".jpg") || EndsWithIgnoreCase(e.name, ".jpeg") ||
     EndsWithIgnoreCase(e.name, ".png") || EndsWithIgnoreCase(e.name, ".mp4"))
  }

  function TypeOfName(name: string): MediaType {
    if EndsWithIgnoreCase(name, ".mp4") then VIDEO else IMAGE
  }

  function LastModifiedOf(e: Entry): int { e.lastModified }

  /** The accepted entries of a folder, newest first. */
  function ListedMedia(fs: FileSystem, folder: string): seq<Entry>
    requires folder in fs
  {
    Lists.SortDesc(Lists.Filter(fs[folder], IsSupportedMedia), LastModifiedOf, Lists.IntLess)
  }

  function ItemOf(folder: string, e: Entry, format: int -> string): StatusItem {
    StatusItem(PathOf(Loc(folder, e.name)), format(e.lastModified), TypeOfName(e.name))
  }

  /**
   * `getStatusesFromFolder`: nothing for a folder that does not exist,
   * otherwise one item per accepted entry. `format` is the "hh:mm a"
   * rendering of a modification time, which depends on locale and zone.
   */
  function StatusesFromFolder(fs: FileSystem, folder: string, format: int -> string): (r: seq<StatusItem>)
    ensures folder !in fs ==> r == []
  {
    if folder !in fs then []
    else
      var l := ListedMedia(fs, folder);
      seq(|l|, i requires 0 <= i < |l| => ItemOf(folder, l[i], format))
  }

  /**
   * A folder's items are its accepted entries and only those, newest first:
   * the path is the folder joined with the name, the time text is the
   * formatted modification time, and the type is VIDEO exactly for ".mp4".
   */
  lemma FolderListing(fs: FileSystem, folder: string, format: int -> string)
    requires folder in fs
    ensures var r := StatusesFromFolder(fs, folder, format);
      var l := ListedMedia(fs, folder);
      && |r| == |l|
      && multiset(l) == multiset(Lists.Filter(fs[folder], IsSupportedMedia))
      && (forall e :: e in fs[folder] && IsSupportedMedia(e) ==> e in l)
      && (forall i :: 0 <= i < |l| ==> l[i] in fs[folder] && IsSupportedMedia(l[i]))
      && (forall i :: 0 <= i < |l| ==>
            && r[i].path == folder + "/" + l[i].name
            && r[i].timestamp == format(l[i].lastModified)
            && (r[i].mediaType == VIDEO <==> EndsWithIgnoreCase(l[i].name, ".mp4")))
      && (forall i, j :: 0 <= i < j < |l| ==> l[i].lastModified >= l[j].lastModified)
  {
    var accepted := Lists.Filter(fs[folder], IsSupportedMedia);
    var l := ListedMedia(fs, folder);
    Lists.IntLessIsStrictTotalOrder();
    Lists.SortDescNonIncreasing(accepted, LastModifiedOf, Lists.IntLess);
    assert forall i, j :: 0 <= i < j < |l| ==> !Lists.IntLess(LastModifiedOf(l[i]), LastModifiedOf(l[j]));
    forall e | e in fs[folder] && IsSupportedMedia(e) ensures e in l {
      assert e in multiset(accepted);
    }
    forall i | 0 <= i < |l| ensures l[i] in fs[folder] && IsSupportedMedia(l[i]) {
      assert l[i] in multiset(accepted);
    }
  }

  // ---------------------------------------------------------------------
  // The status lists

  /** Each folder's items, folder by folder. */
  function FolderLists(fs: FileSystem, folders: seq<string>, format: int -> string): (r: seq<seq<StatusItem>>)
    ensures |r| == |folders|
    ensures forall i :: 0 <= i < |folders| ==> r[i] == StatusesFromFolder(fs, folders[i], format)
  {
    seq(|folders|, i requires 0 <= i < |folders| => StatusesFromFolder(fs, folders[i], format))
  }

  /** Every folder's items, folder after folder. */
  function Gathered(fs: FileSystem, folders: seq<string>, format: int -> string): seq<StatusItem> {
    Lists.Concat(FolderLists(fs, folders, format))
  }

  /** An item is gathered exactly when one of the folders lists it. */
  lemma GatheredMembers(fs: FileSystem, folders: seq<string>, format: int -> string, x: StatusItem)
    ensures x in Gathered(fs, folders, format) <==>
            exists i :: 0 <= i < |folders| && x in StatusesFromFolder(fs, folders[i], format)
  {
    var lists := FolderLists(fs, folders, format);
    Lists.ConcatMembers(lists, x);
    assert forall i :: 0 <= i < |folders| ==> lists[i] == StatusesFromFolder(fs, folders[i], format);
  }

  /** The statuses of a list of folders under `external`, sorted by time text. */
  method CollectStatuses(fs: FileSystem, external: string, paths: seq<string>, format: int -> string)
    returns (r: seq<StatusItem>)
    ensures r == SortByTimestamp(Gathered(fs, FullPaths(external, paths), format))
  {
    ghost var lists := FolderLists(fs, FullPaths(external, paths), format);
    var statusList: seq<StatusItem> := [];
    for i := 0 to |paths|
      invariant statusList == Lists.Concat(lists[..i])
    {
      var fullPath := external + paths[i];
      assert lists[..i + 1][..i] == lists[..i];
      statusList := statusList + StatusesFromFolder(fs, fullPath, format);
    }
    assert lists[..|paths|] == lists;
    r := SortByTimestamp(statusList);
  }

  /** `getWhatsAppStatuses` */
  method GetWhatsAppStatuses(fs: FileSystem, roots: Roots, format: int -> string) returns (r: seq<StatusItem>)
    ensures r == SortByTimestamp(Gathered(fs, FullPaths(roots.external, WhatsAppPaths), format))
  {
    r := CollectStatuses(fs, roots.external, WhatsAppPaths, format);
  }

  /** `getWhatsAppBusinessStatuses` */
  method GetWhatsAppBusinessStatuses(fs: FileSystem, roots: Roots, format: int -> string) returns (r: seq<StatusItem>)
    ensures r == SortByTimestamp(Gathered(fs, FullPaths(roots.external, BusinessPaths), format))
  {
    r := CollectStatuses(fs, roots.external, BusinessPaths, format);
  }

  /** The three saved folders' items: public, then app-specific, then legacy. */
  function SavedSources(fs: FileSystem, roots: Roots, format: int -> string): seq<StatusItem> {
    StatusesFromFolder(fs, PublicSavedPath(roots), format) +
    StatusesFromFolder(fs, AppSpecificPath(roots), format) +
    StatusesFromFolder(fs, SavedStatusPath(roots), format)
  }

  /** `getDownloadedStatuses`: the saved folders merged, one item per path, sorted. */
  function DownloadedStatuses(fs: FileSystem, roots: Roots, format: int -> string): seq<StatusItem> {
    SortByTimestamp(Lists.DistinctBy(SavedSources(fs, roots, format), ItemPath))
  }

  /**
   * The saved list has no two items with one path; every saved path appears
   * and each item is the first one found for its path; the list is sorted.
   */
  lemma DownloadedStatusesDistinct(fs: FileSystem, roots: Roots, format: int -> string)
    ensures var r := DownloadedStatuses(fs, roots, format);
      var all := SavedSources(fs, roots, format);
      && (forall i, j :: 0 <= i < j < |r| ==> r[i].path != r[j].path)
      && (forall x :: x in all ==> exists y :: y in r && y.path == x.path)
      && (forall y :: y in r ==> exists i :: 0 <= i < |all| && all[i] == y &&
                                  forall j :: 0 <= j < i ==> all[j].path != y.path)
      && Lists.NonIncreasing(r, TimestampOf, Lists.StringLess)
  {
    MergedByPath(SavedSources(fs, roots, format));
  }

  lemma MergedByPath(all: seq<StatusItem>)
    ensures var r := SortByTimestamp(Lists.DistinctBy(all, ItemPath));
      && (forall i, j :: 0 <= i < j < |r| ==> r[i].path != r[j].path)
      && (forall x :: x in all ==> exists y :: y in r && y.path == x.path)
      && (forall y :: y in r ==> exists i :: 0 <= i < |all| && all[i] == y &&
                                  forall j :: 0 <= j < i ==> all[j].path != y.path)
  {
    var d := Lists.DistinctBy(all, ItemPath);
    var r := SortByTimestamp(d);
    Lists.PermutationKeepsDistinctKeys(d, r, ItemPath);
    Lists.DistinctFromKeepsFirst(all, ItemPath, {});
    Lists.DistinctFromCovers(all, ItemPath, {});
    forall x | x in all ensures exists y :: y in r && y.path == x.path {
      var y :| y in d && ItemPath(y) == ItemPath(x);
      assert y in multiset(r);
    }
    forall y | y in r ensures exists i :: 0 <= i < |all| && all[i] == y &&
                               forall j :: 0 <= j < i ==> all[j].path != y.path {
      assert y in multiset(d);
      assert y in Lists.DistinctFrom(all, ItemPath, {});
      var i :| 0 <= i < |all| && all[i] == y && Lists.FirstOfKey(all, ItemPath, {}, i);
      assert forall j :: 0 <= j < i ==> ItemPath(all[j]) != ItemPath(all[i]);
    }
  }

  // ---------------------------------------------------------------------
  // Downloads

  /**
   * What the platform contributes to one download: the clock reading used
   * for a unique name, whether `mkdirs` of the public folder succeeds,
   * whether writing the bytes throws (and the exception's message, which
   * may be null), and whether the optional backup copy succeeds.
   */
  datatype Env = Env(now: int, mkdirsOk: bool, writeFault: Option<Option<string>>, backupOk: bool)

  /** The report and the filesystem afterwards. */
  datatype Outcome = Outcome(result: DownloadResult, fs: FileSystem)

  /** `"${e.message}"`: a null message prints as "null". */
  function MessageText(m: Option<string>): string {
    m.GetOr("null")
  }

  /**
   * The name a download is saved under: the file's own name, or, when that
   * is taken, `<before last dot>_<now>.<after last dot>`. A name without a
   * dot is used whole on both sides, as `substringBeforeLast` and
   * `substringAfterLast` return the whole string then.
   */
  function UniqueName(fileName: string, taken: bool, now: int): string {
    if taken then SubstringBeforeLast(fileName, '.') + "_" + IntToString(now) + "." + SubstringAfterLast(fileName, '.')
    else fileName
  }

  /**
   * A renamed download is never the taken name itself, keeps the extension,
   * and stays a plain name (no slash); a dot-free name is doubled.
   */
  lemma UniqueNameProperties(fileName: string, now: int)
    ensures UniqueName(fileName, true, now) != fileName
    ensures '.' in fileName ==>
              SubstringAfterLast(UniqueName(fileName, true, now), '.') == SubstringAfterLast(fileName, '.')
    ensures '.' !in fileName ==>
              UniqueName(fileName, true, now) == fileName + "_" + IntToString(now) + "." + fileName
    ensures '/' !in fileName ==> '/' !in UniqueName(fileName, true, now)
  {
    var before := SubstringBeforeLast(fileName, '.');
    var after := SubstringAfterLast(fileName, '.');
    var ts := IntToString(now);
    var r := UniqueName(fileName, true, now);
    assert r == (before + "_" + ts) + ['.'] + after;
    if '.' in fileName {
      SplitAtLast(fileName, '.');
      assert |r| == |fileName| + 1 + |ts|;
      JoinThenSplit(before + "_" + ts, '.', after);
    } else {
      SplitWithout(fileName, '.');
      assert |r| > |fileName|;
    }
    if '/' !in fileName {
      assert r == before + "_" + ts + "." + after;
      assert '/' !in ts;
      assert '/' !in before && '/' !in after by {
        if '.' in fileName {
          assert before == fileName[..LastIndexOf(fileName, '.')];
          assert after == fileName[LastIndexOf(fileName, '.') + 1..];
        }
      }
    }
  }

  /** The optional backup into the app-specific folder; its failures are ignored. */
  function Backup(fs: FileSystem, roots: Roots, copy: Entry, ok: bool): (fs': FileSystem)
    ensures forall m :: m != Loc(AppSpecificPath(roots), copy.name) ==> EntryAt(fs', m) == EntryAt(fs, m)
    ensures forall m :: Exists(fs, m) ==> EntryAt(fs', m) == EntryAt(fs, m)
  {
    var app := AppSpecificPath(roots);
    if !ok then fs
    else
      var fs1 := MakeDir(fs, app);
      if Exists(fs1, Loc(app, copy.name)) then fs1 else Put(fs1, app, copy)
  }

  /**
   * `copyFileToDestination`: copies `src` (found at `srcPath`) into the
   * public download folder without overwriting, checks the copy is not
   * empty, then tries the backup. `copyTo(overwrite = false)` throws when
   * the target exists; its message names both files.
   */
  function CopyFileToDestination(fs: FileSystem, roots: Roots, srcPath: string, src: Entry, fileName: string, env: Env): (o: Outcome)
    ensures WellFormed(o.result)
    ensures forall m :: Exists(fs, m) ==> EntryAt(o.fs, m) == EntryAt(fs, m)
  {
    var pub := PublicSavedPath(roots);
    if pub !in fs && !env.mkdirsOk then
      Outcome(Failed("Failed to create download directory: " + pub), fs)
    else
      var fs1 := MakeDir(fs, pub);
      var unique := UniqueName(fileName, Exists(fs1, Loc(pub, fileName)), env.now);
      var dest := Loc(pub, unique);
      if Exists(fs1, dest) then
        Outcome(Failed("Failed to copy file: " + srcPath + " -> " + PathOf(dest) + ": The destination file already exists."), fs1)
      else if env.writeFault.Some? then
        Outcome(Failed("Failed to copy file: " + MessageText(env.writeFault.value)), fs1)
      else
        var copy := Entry(unique, true, true, src.length, env.now);
        var fs2 := Put(fs1, pub, copy);
        if src.length == 0 then Outcome(Failed("File copy verification failed"), fs2)
        else Outcome(Succeeded(PathOf(dest)), Backup(fs2, roots, copy, env.backupOk))
  }

  /** The name a file-path download is saved under. */
  function SavedName(fs: FileSystem, roots: Roots, fileName: string, now: int): string {
    UniqueName(fileName, Exists(fs, Loc(PublicSavedPath(roots), fileName)), now)
  }

  /**
   * A successful copy lands in the public folder under the saved name, a
   * name that was free before, holding the source's length; only that file
   * and its backup change. It succeeds exactly when the folder exists or
   * can be made, the name is free, the write does not fail and the source
   * is not empty.
   */
  lemma CopySucceeds(fs: FileSystem, roots: Roots, srcPath: string, src: Entry, fileName: string, env: Env)
    ensures var o := CopyFileToDestination(fs, roots, srcPath, src, fileName, env);
      var dest := Loc(PublicSavedPath(roots), SavedName(fs, roots, fileName, env.now));
      && (o.result.success <==>
            (PublicSavedPath(roots) in fs || env.mkdirsOk) && !Exists(fs, dest) &&
            env.writeFault.None? && src.length != 0)
      && (o.result.success ==>
            && o.result.savedPath == Some(PathOf(dest))
            && EntryAt(o.fs, dest) == Some(Entry(dest.name, true, true, src.length, env.now))
            && forall m :: m != dest && m != Loc(AppSpecificPath(roots), dest.name) ==>
                 EntryAt(o.fs, m) == EntryAt(fs, m))
  {
    var pub := PublicSavedPath(roots);
    if pub in fs || env.mkdirsOk {
      var fs1 := MakeDir(fs, pub);
      assert Exists(fs1, Loc(pub, fileName)) == Exists(fs, Loc(pub, fileName));
    }
  }

  /**
   * `handleContentUriDownload`. The name comes from the URI (`name`; absent
   * when it cannot be determined) and the content from the resolver
   * (`stream`, its byte count; absent when it cannot be opened). The output
   * stream replaces any file already under the chosen name.
   */
  function ContentUriDownload(fs: FileSystem, roots: Roots, name: Option<string>, stream: Option<nat>, env: Env): (o: Outcome)
    ensures WellFormed(o.result)
  {
    if name.None? then Outcome(Failed("Could not determine filename from URI"), fs)
    else
      var pub := PublicSavedPath(roots);
      if pub !in fs && !env.mkdirsOk then Outcome(Failed("Failed to create download directory"), fs)
      else
        var fs1 := MakeDir(fs, pub);
        var unique := UniqueName(name.value, Exists(fs1, Loc(pub, name.value)), env.now);
        if stream.None? then Outcome(Failed("Could not access source file"), fs1)
        else if env.writeFault.Some? then
          Outcome(Failed("Failed to download from content URI: " + MessageText(env.writeFault.value)), fs1)
        else
          var fs2 := Put(fs1, pub, Entry(unique, true, true, stream.value, env.now));
          if stream.value == 0 then Outcome(Failed("File copy verification failed"), fs2)
          else Outcome(Succeeded(PathOf(Loc(pub, unique))), fs2)
  }

  /**
   * A content download succeeds exactly when the name and the stream are
   * available, the folder exists or can be made, the write does not fail
   * and the stream is not empty; the saved file then holds the stream.
   * Unlike a file-path download it replaces a file already holding the
   * timestamped name.
   */
  lemma ContentUriDownloadSaves(fs: FileSystem, roots: Roots, name: Option<string>, stream: Option<nat>, env: Env)
    ensures var o := ContentUriDownload(fs, roots, name, stream, env);
      && (o.result.success <==>
            name.Some? && (PublicSavedPath(roots) in fs || env.mkdirsOk) && stream.Some? &&
            env.writeFault.None? && stream.value > 0)
      && (o.result.success ==>
            var dest := Loc(PublicSavedPath(roots), SavedName(fs, roots, name.value, env.now));
            && o.result.savedPath == Some(PathOf(dest))
            && EntryAt(o.fs, dest) == Some(Entry(dest.name, true, true, stream.value, env.now))
            && forall m :: m != dest ==> EntryAt(o.fs, m) == EntryAt(fs, m))
  {
    if name.Some? && (PublicSavedPath(roots) in fs || env.mkdirsOk) {
      var fs1 := MakeDir(fs, PublicSavedPath(roots));
      assert Exists(fs1, Loc(PublicSavedPath(roots), name.value)) == Exists(fs, Loc(PublicSavedPath(roots), name.value));
    }
  }

  /** The folders searched for a missing source, in order. */
  function AlternativeDirs(roots: Roots): seq<string> {
    FullPaths(roots.external, AlternativePaths)
  }

  /** The first folder, in order, holding a readable entry of this name. */
  function FirstReadable(fs: FileSystem, dirs: seq<string>, name: string): (r: Option<Loc>)
    ensures r.None? <==> forall i :: 0 <= i < |dirs| ==> !ReadableAt(fs, Loc(dirs[i], name))
    ensures r.Some? ==> exists i :: 0 <= i < |dirs| && r.value == Loc(dirs[i], name) &&
                          ReadableAt(fs, r.value) &&
                          forall j :: 0 <= j < i ==> !ReadableAt(fs, Loc(dirs[j], name))
  {
    if dirs == [] then None
    else if ReadableAt(fs, Loc(dirs[0], name)) then Some(Loc(dirs[0], name))
    else
      var r := FirstReadable(fs, dirs[1..], name);
      assert forall i :: 1 <= i < |dirs| ==> dirs[i] == dirs[1..][i - 1];
      r
  }

  /** `findFileInAlternativeLocations` */
  method FindFileInAlternativeLocations(fs: FileSystem, roots: Roots, fileName: string) returns (found: Option<Loc>)
    ensures found == FirstReadable(fs, AlternativeDirs(roots), fileName)
  {
    ghost var dirs := AlternativeDirs(roots);
    for i := 0 to |AlternativePaths|
      invariant FirstReadable(fs, dirs, fileName) == FirstReadable(fs, dirs[i..], fileName)
    {
      assert dirs[i..][1..] == dirs[i + 1..];
      var fullPath := roots.external + AlternativePaths[i];
      if fullPath in fs {
        var file := Loc(fullPath, fileName);
        if Exists(fs, file) && EntryAt(fs, file).value.readable {
          return Some(file);
        }
      }
    }
    return None;
  }

  /**
   * `handleFilePathDownload`: a missing source is looked for by name in the
   * WhatsApp folders; an unreadable one is refused.
   */
  function FilePathDownload(fs: FileSystem, roots: Roots, path: string, env: Env): (o: Outcome)
    ensures WellFormed(o.result)
    ensures forall m :: Exists(fs, m) ==> EntryAt(o.fs, m) == EntryAt(fs, m)
  {
    var src := LocOf(path);
    if !Exists(fs, src) then
      var fileName := SubstringAfterLast(path, '/');
      match FirstReadable(fs, AlternativeDirs(roots), fileName)
      case None => Outcome(Failed("Source file not found: " + path), fs)
      case Some(alt) => CopyFileToDestination(fs, roots, PathOf(alt), EntryAt(fs, alt).value, fileName, env)
    else if !EntryAt(fs, src).value.readable then
      Outcome(Failed("Source file is not readable: " + path), fs)
    else
      CopyFileToDestination(fs, roots, path, EntryAt(fs, src).value, src.name, env)
  }

  /**
   * A successful file-path download copied a readable source: the file at
   * `path` itself, or, when that does not exist, the first readable file of
   * that name in the WhatsApp folders. The copy has the source's length.
   */
  lemma FilePathDownloadCopiesSource(fs: FileSystem, roots: Roots, path: string, env: Env)
    requires FilePathDownload(fs, roots, path, env).result.success
    ensures var o := FilePathDownload(fs, roots, path, env);
      var src := if Exists(fs, LocOf(path)) then Some(LocOf(path))
                 else FirstReadable(fs, AlternativeDirs(roots), LocOf(path).name);
      && src.Some? && ReadableAt(fs, src.value)
      && var dest := Loc(PublicSavedPath(roots), SavedName(fs, roots, src.value.name, env.now));
         && !Exists(fs, dest)
         && o.result.savedPath == Some(PathOf(dest))
         && EntryAt(o.fs, dest) == Some(Entry(dest.name, true, true, EntryAt(fs, src.value).value.length, env.now))
  {
    var src := LocOf(path);
    if !Exists(fs, src) {
      var alt := FirstReadable(fs, AlternativeDirs(roots), src.name);
      CopySucceeds(fs, roots, PathOf(alt.value), EntryAt(fs, alt.value).value, src.name, env);
    } else {
      CopySucceeds(fs, roots, path, EntryAt(fs, src).value, src.name, env);
    }
  }

  method HandleFilePathDownload(fs: FileSystem, roots: Roots, status: StatusItem, env: Env) returns (o: Outcome)
    ensures o == FilePathDownload(fs, roots, status.path, env)
  {
    var srcFile := LocOf(status.path);
    if !Exists(fs, srcFile) {
      var fileName := SubstringAfterLast(status.path, '/');
      var alternativeFile := FindFileInAlternativeLocations(fs, roots, fileName);
      if alternativeFile.None? {
        return Outcome(Failed("Source file not found: " + status.path), fs);
      }
      var alt := alternativeFile.value;
      return CopyFileToDestination(fs, roots, PathOf(alt), EntryAt(fs, alt).value, fileName, env);
    }
    if !EntryAt(fs, srcFile).value.readable {
      return Outcome(Failed("Source file is not readable: " + status.path), fs);
    }
    o := CopyFileToDestination(fs, roots, status.path, EntryAt(fs, srcFile).value, srcFile.name, env);
  }

  /**
   * `downloadStatus`: a `content://` path goes through the content
   * resolver, anything else is a file path. `uriName` and `stream` are what
   * the resolver yields for a content URI.
   */
  method DownloadStatus(fs: FileSystem, roots: Roots, status: StatusItem, uriName: Option<string>, stream: Option<nat>, env: Env)
    returns (o: Outcome)
    ensures StartsWith(status.path, "content://") ==> o == ContentUriDownload(fs, roots, uriName, stream, env)
    ensures !StartsWith(status.path, "content://") ==> o == FilePathDownload(fs, roots, status.path, env)
    ensures WellFormed(o.result)
  {
    if StartsWith(status.path, "content://") {
      o := ContentUriDownload(fs, roots, uriName, stream, env);
    } else {
      o := HandleFilePathDownload(fs, roots, status, env);
    }
  }

  // ---------------------------------------------------------------------
  // Deleting a saved status

  /** Where a saved status may sit: its own path, then the three saved folders. */
  function DeleteCandidates(roots: Roots, path: string): seq<Loc> {
    var fileName := SubstringAfterLast(path, '/');
    [LocOf(path), Loc(PublicSavedPath(roots), fileName), Loc(AppSpecificPath(roots), fileName),
     Loc(SavedStatusPath(roots), fileName)]
  }

  /**
   * `deleteDownloadedStatus`: deletes every existing candidate. `locked`
   * holds the files whose `delete()` returns false. The answer is whether
   * any deletion succeeded; every unlocked candidate is gone afterwards and
   * nothing else changes.
   */
  method DeleteDownloadedStatus(fs: FileSystem, roots: Roots, status: StatusItem, locked: set<Loc>)
    returns (deleted: bool, fs': FileSystem)
    ensures deleted <==> exists c :: c in DeleteCandidates(roots, status.path) && Exists(fs, c) && c !in locked
    ensures forall m :: EntryAt(fs', m) ==
              if m in DeleteCandidates(roots, status.path) && m !in locked then None else EntryAt(fs, m)
  {
    ghost var candidates := DeleteCandidates(roots, status.path);
    var fileName := SubstringAfterLast(status.path, '/');
    deleted := false;
    fs' := fs;

    var primaryFile := LocOf(status.path);
    if Exists(fs', primaryFile) {
      var result := primaryFile !in locked;
      if result {
        fs' := Delete(fs', primaryFile);
      }
      deleted := result || deleted;
    }
    assert candidates[..1] == [primaryFile];

    var possibleLocations := [PublicSavedPath(roots), AppSpecificPath(roots), SavedStatusPath(roots)];
    for i := 0 to |possibleLocations|
      invariant deleted <==> exists c :: c in candidates[..i + 1] && Exists(fs, c) && c !in locked
      invariant forall m :: EntryAt(fs', m) == if m in candidates[..i + 1] && m !in locked then None else EntryAt(fs, m)
    {
      var potentialFile := Loc(possibleLocations[i], fileName);
      assert candidates[i + 1] == potentialFile;
      assert candidates[..i + 2] == candidates[..i + 1] + [potentialFile];
      if Exists(fs', potentialFile) {
        var result := potentialFile !in locked;
        if result {
          fs' := Delete(fs', potentialFile);
        }
        deleted := deleted || result;
      }
    }
    assert candidates[..4] == candidates;
  }

  /** No listing entry's name holds a slash. */
  predicate PlainNames(fs: FileSystem) {
    forall dir, i :: dir in fs && 0 <= i < |fs[dir]| ==> '/' !in fs[dir][i].name
  }

  /**
   * Once every candidate is deleted, the saved list no longer shows an item
   * with that path.
   */
  lemma DeletedStatusLeavesSavedList(fs: FileSystem, fs': FileSystem, roots: Roots, path: string, format: int -> string)
    requires PlainNames(fs')
    requires forall m :: m in DeleteCandidates(roots, path) ==> EntryAt(fs', m).None?
    ensures forall x :: x in DownloadedStatuses(fs', roots, format) ==> x.path != path
  {
    var all := SavedSources(fs', roots, format);
    MergedByPath(all);
    var pub := StatusesFromFolder(fs', PublicSavedPath(roots), format);
    var app := StatusesFromFolder(fs', AppSpecificPath(roots), format);
    var legacy := StatusesFromFolder(fs', SavedStatusPath(roots), format);
    assert all == pub + app + legacy;
    assert EntryAt(fs', LocOf(path)).None? by {
      assert LocOf(path) in DeleteCandidates(roots, path);
    }
    forall x | x in DownloadedStatuses(fs', roots, format) ensures x.path != path {
      assert x in all;
      if x in pub {
        NotListedAfterDelete(fs', PublicSavedPath(roots), path, format, x);
      } else if x in app {
        NotListedAfterDelete(fs', AppSpecificPath(roots), path, format, x);
      } else {
        NotListedAfterDelete(fs', SavedStatusPath(roots), path, format, x);
      }
    }
  }

  /** A folder lists nothing under `path` when the file `path` names is gone. */
  lemma NotListedAfterDelete(fs: FileSystem, folder: string, path: string, format: int -> string, x: StatusItem)
    requires PlainNames(fs)
    requires EntryAt(fs, LocOf(path)).None?
    requires x in StatusesFromFolder(fs, folder, format)
    ensures x.path != path
  {
    FolderListing(fs, folder, format);
    var l := ListedMedia(fs, folder);
    var i :| 0 <= i < |l| && x == StatusesFromFolder(fs, folder, format)[i];
    var e := l[i];
    var j :| 0 <= j < |fs[folder]| && fs[folder][j] == e;
    assert Lookup(fs[folder], e.name).Some?;
    LocOfPathOf(Loc(folder, e.name));
  }

  // ---------------------------------------------------------------------
  // Video length

  /** Kotlin's `/` on `Long`: rounds toward zero. */
  function TruncDiv(a: int, b: int): int
    requires b > 0
  {
    if a >= 0 then a / b else -((-a) / b)
  }

  /** Kotlin's `%` on `Long`: takes the sign of the dividend. */
  function TruncRem(a: int, b: int): int
    requires b > 0
  {
    a - TruncDiv(a, b) * b
  }

  /**
   * `getVideoDuration` once the metadata is read: `duration` is the length
   * in milliseconds, absent when the metadata is missing or not a number.
   */
  function VideoDuration(duration: Option<int>): (r: Option<string>)
    ensures r.Some? <==> duration.Some?
  {
    match duration
    case None => None
    case Some(d) =>
      var minutes := TruncDiv(d, 60000);
      var seconds := TruncDiv(TruncRem(d, 60000), 1000);
      Some(IntToString(minutes) + ":" + TwoDigits(seconds))
  }

  /**
   * A length of `d` milliseconds reads as whole minutes, a colon and two
   * digits of whole seconds below 60; together they fall within a second
   * below `d`.
   */
  lemma VideoDurationOfLength(d: int)
    requires d >= 0
    ensures var m := d / 60000;
      var sec := (d % 60000) / 1000;
      && VideoDuration(Some(d)) == Some(NatToString(m) + ":" + TwoDigits(sec))
      && 0 <= sec < 60 && |TwoDigits(sec)| == 2
      && m * 60000 + sec * 1000 <= d < m * 60000 + sec * 1000 + 1000
  {
    var sec := (d % 60000) / 1000;
    assert TruncRem(d, 60000) == d % 60000;
    TwoDigitsOfSmall(sec);
  }

  /** A negative length keeps its sign in the seconds field: -5000 ms reads "0:-5". */
  lemma VideoDurationOfNegative()
    ensures VideoDuration(Some(-5000)) == Some("0:-5")
  {
    assert TruncDiv(-5000, 60000) == 0;
    assert TruncRem(-5000, 60000) == -5000;
    assert TruncDiv(-5000, 1000) == -5;
    assert IntToString(0) == "0";
    assert NatToString(5) == "5";
    assert TwoDigits(-5) == "-5";
    assert VideoDuration(Some(-5000)) == Some(IntToString(0) + ":" + TwoDigits(-5));
    assert "0" + ":" + "-5" == "0:-5";
  }
}
