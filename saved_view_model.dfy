/** The saved-statuses screen state: the list shown and a loading flag. */
module SavedViewModel {
  import opened Wrappers
  import Lists
  import opened Storage
  import opened StatusItems

  /** The list after removing every item with path `path`. */
  function WithoutPath(items: seq<StatusItem>, path: string): seq<StatusItem> {
    Lists.Filter(items, (x: StatusItem) => x.path != path)
  }

  /** The list after removing every item whose path is in `paths`. */
  function WithoutPaths(items: seq<StatusItem>, paths: seq<string>): seq<StatusItem> {
    Lists.Filter(items, (x: StatusItem) => x.path !in paths)
  }

  /**
   * Removing a path drops exactly the items with that path and keeps the
   * others in order; doing it twice is doing it once, and removing a path
   * no item has changes nothing.
   */
  lemma WithoutPathProperties(items: seq<StatusItem>, path: string)
    ensures var r := WithoutPath(items, path);
      && Lists.Subsequence(r, items)
      && (forall i :: 0 <= i < |r| ==> r[i].path != path)
      && (forall x :: x in items && x.path != path ==> x in r)
      && WithoutPath(r, path) == r
      && ((forall x :: x in items ==> x.path != path) ==> r == items)
  {
    Lists.FilterIsSubsequence(items, (x: StatusItem) => x.path != path);
    Lists.FilterIdempotent(items, (x: StatusItem) => x.path != path);
    if forall x :: x in items ==> x.path != path {
      Lists.FilterKeepsAll(items, (x: StatusItem) => x.path != path);
    }
  }

  /** Removing several paths keeps exactly the items whose path is not among them, in order. */
  lemma WithoutPathsProperties(items: seq<StatusItem>, paths: seq<string>)
    ensures var r := WithoutPaths(items, paths);
      && Lists.Subsequence(r, items)
      && (forall i :: 0 <= i < |r| ==> r[i].path !in paths)
      && (forall x :: x in items && x.path !in paths ==> x in r)
  {
    Lists.FilterIsSubsequence(items, (x: StatusItem) => x.path !in paths);
  }

  /** Removing the one-element list `[path]` is removing `path`. */
  lemma {:induction false} WithoutSinglePath(items: seq<StatusItem>, path: string)
    ensures WithoutPaths(items, [path]) == WithoutPath(items, path)
  {
    if items != [] {
      WithoutSinglePath(items[1..], path);
    }
  }

  /** `File(path).delete()` after an `exists()` check; `locked` files refuse. */
  function DeleteFile(fs: FileSystem, path: string, locked: set<Loc>): FileSystem {
    if Exists(fs, LocOf(path)) && LocOf(path) !in locked then Delete(fs, LocOf(path)) else fs
  }

  /** Deleting the files one after another. */
  function DeleteFiles(fs: FileSystem, paths: seq<string>, locked: set<Loc>): FileSystem
    decreases |paths|
  {
    if paths == [] then fs
    else DeleteFile(DeleteFiles(fs, paths[..|paths| - 1], locked), paths[|paths| - 1], locked)
  }

  /** After deleting `paths`, exactly the files they name that are not locked are gone. */
  lemma {:induction false} DeleteFilesEffect(fs: FileSystem, paths: seq<string>, locked: set<Loc>)
    ensures forall m :: EntryAt(DeleteFiles(fs, paths, locked), m) ==
              if (exists p :: p in paths && LocOf(p) == m) && m !in locked then None else EntryAt(fs, m)
    decreases |paths|
  {
    if paths != [] {
      var front := paths[..|paths| - 1];
      var last := paths[|paths| - 1];
      DeleteFilesEffect(fs, front, locked);
      forall m ensures EntryAt(DeleteFiles(fs, paths, locked), m) ==
                       if (exists p :: p in paths && LocOf(p) == m) && m !in locked then None else EntryAt(fs, m) {
        assert (exists p :: p in paths && LocOf(p) == m) <==>
               (exists p :: p in front && LocOf(p) == m) || LocOf(last) == m by {
          assert paths == front + [last];
        }
      }
    }
  }

  class SavedViewModel {
    var savedStatuses: seq<StatusItem>
    var isLoading: bool
    /** The values `isLoading` has taken, in order. */
    ghost var loadingTrace: seq<bool>

    /**
     * `init { loadStatuses() }`. `fetched` is what the saved-statuses use
     * case returns, absent when it throws.
     */
    constructor(fetched: Option<seq<StatusItem>>)
      ensures savedStatuses == fetched.GetOr([])
      ensures !isLoading
      ensures loadingTrace == [false, true, false]
    {
      savedStatuses := [];
      isLoading := false;
      loadingTrace := [false];
      new;
      LoadStatuses(fetched);
    }

    /** `loadStatuses`: the flag is raised, the list replaced (emptied on a throw), the flag lowered. */
    method LoadStatuses(fetched: Option<seq<StatusItem>>)
      modifies this
      ensures savedStatuses == fetched.GetOr([])
      ensures !isLoading
      ensures loadingTrace == old(loadingTrace) + [true, false]
    {
      isLoading := true;
      loadingTrace := loadingTrace + [true];
      if fetched.Some? {
        savedStatuses := fetched.value;
      } else {
        savedStatuses := [];
      }
      isLoading := false;
      loadingTrace := loadingTrace + [false];
    }

    /**
     * `deleteStatus`. The list is filtered whether or not the file
     * deletion succeeds. `throws` says the file access throws, in which
     * case the list is reloaded from `reload`.
     */
    method DeleteStatus(fs: FileSystem, path: string, locked: set<Loc>, throws: bool, reload: Option<seq<StatusItem>>)
      returns (fs': FileSystem)
      modifies this
      ensures !throws ==> fs' == DeleteFile(fs, path, locked) && savedStatuses == WithoutPath(old(savedStatuses), path)
      ensures !throws ==> isLoading == old(isLoading) && loadingTrace == old(loadingTrace)
      ensures throws ==> fs' == fs && savedStatuses == reload.GetOr([]) && !isLoading
      ensures throws ==> loadingTrace == old(loadingTrace) + [true, false]
    {
      if throws {
        fs' := fs;
        LoadStatuses(reload);
        return;
      }
      fs' := fs;
      var file := LocOf(path);
      if Exists(fs', file) && file !in locked {
        fs' := Delete(fs', file);
      }
      savedStatuses := WithoutPath(savedStatuses, path);
    }

    /**
     * `deleteMultipleStatuses`: deletes each file in turn, then filters the
     * list once. `throwAt` is the index of the path whose file access
     * throws, if any: the files before it are already deleted, that one and
     * the rest are left, and the list is reloaded from `reload`.
     */
    method DeleteMultipleStatuses(fs: FileSystem, paths: seq<string>, locked: set<Loc>, throwAt: Option<nat>,
                                  reload: Option<seq<StatusItem>>)
      returns (fs': FileSystem)
      modifies this
      ensures (throwAt.None? || throwAt.value >= |paths|) ==>
                fs' == DeleteFiles(fs, paths, locked) && savedStatuses == WithoutPaths(old(savedStatuses), paths) &&
                isLoading == old(isLoading) && loadingTrace == old(loadingTrace)
      ensures throwAt.Some? && throwAt.value < |paths| ==>
                fs' == DeleteFiles(fs, paths[..throwAt.value], locked) && savedStatuses == reload.GetOr([]) &&
                !isLoading && loadingTrace == old(loadingTrace) + [true, false]
    {
      var stop := if throwAt.Some? && throwAt.value < |paths| then throwAt.value else |paths|;
      fs' := fs;
      for i := 0 to stop
        invariant fs' == DeleteFiles(fs, paths[..i], locked)
        invariant unchanged(this)
      {
        assert paths[..i + 1][..i] == paths[..i];
        fs' := DeleteFile(fs', paths[i], locked);
      }
      if stop < |paths| {
        LoadStatuses(reload);
      } else {
        assert paths[..|paths|] == paths;
        savedStatuses := WithoutPaths(savedStatuses, paths);
      }
    }

    /** `refreshStatuses` is `loadStatuses`. */
    method RefreshStatuses(fetched: Option<seq<StatusItem>>)
      modifies this
      ensures savedStatuses == fetched.GetOr([])
      ensures !isLoading
      ensures loadingTrace == old(loadingTrace) + [true, false]
    {
      LoadStatuses(fetched);
    }
  }
}
