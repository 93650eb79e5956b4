/**
 * The device filesystem as the repository sees it: each existing directory
 * maps to its listing. A file is addressed by its directory and its name.
 */
module Storage {
  import opened Wrappers
  import opened Text
  import Lists

  /** What `java.io.File` reports about one directory entry. */
  datatype Entry = Entry(name: string, isFile: bool, readable: bool, length: int, lastModified: int)

  /** Directory path to its listing; a directory is present when it exists. */
  type FileSystem = map<string, seq<Entry>>

  /** A file location: `File(dir, name)`. */
  datatype Loc = Loc(dir: string, name: string)

  /** `File(dir, name).absolutePath` */
  function PathOf(l: Loc): string {
    l.dir + "/" + l.name
  }

  /** `File(path)`: parent directory and last path segment. */
  function LocOf(path: string): Loc {
    Loc(SubstringBeforeLast(path, '/'), SubstringAfterLast(path, '/'))
  }

  /** A location built from a slash-free name parses back to itself. */
  lemma LocOfPathOf(l: Loc)
    requires '/' !in l.name
    ensures LocOf(PathOf(l)) == l
  {
    assert PathOf(l) == l.dir + ['/'] + l.name;
    JoinThenSplit(l.dir, '/', l.name);
  }

  /** The last segment of a path never holds a slash. */
  lemma NameHasNoSlash(path: string)
    ensures '/' !in LocOf(path).name
  {
    if '/' in path {
      SplitAtLast(path, '/');
    } else {
      SplitWithout(path, '/');
    }
  }

  /** The first listing entry with this name. */
  function Lookup(listing: seq<Entry>, name: string): (r: Option<Entry>)
    ensures r.Some? ==> r.value in listing && r.value.name == name
    ensures r.None? ==> forall i :: 0 <= i < |listing| ==> listing[i].name != name
  {
    if listing == [] then None
    else if listing[0].name == name then Some(listing[0])
    else Lookup(listing[1..], name)
  }

  function EntryAt(fs: FileSystem, l: Loc): Option<Entry> {
    if l.dir in fs then Lookup(fs[l.dir], l.name) else None
  }

  /** `File(dir, name).exists()` */
  predicate Exists(fs: FileSystem, l: Loc) {
    EntryAt(fs, l).Some?
  }

  /** `File(dir, name).exists() && canRead()` */
  predicate ReadableAt(fs: FileSystem, l: Loc) {
    EntryAt(fs, l).Some? && EntryAt(fs, l).value.readable
  }

  function Without(listing: seq<Entry>, name: string): seq<Entry> {
    Lists.Filter(listing, (e: Entry) => e.name != name)
  }

  lemma {:induction false} LookupWithout(listing: seq<Entry>, name: string, other: string)
    ensures Lookup(Without(listing, name), other) == if other == name then None else Lookup(listing, other)
  {
    if listing != [] {
      LookupWithout(listing[1..], name, other);
    }
  }

  /** `File(dir, name).delete()` when it succeeds. */
  function Delete(fs: FileSystem, l: Loc): (fs': FileSystem)
    ensures fs'.Keys == fs.Keys
    ensures forall m :: EntryAt(fs', m) == if m == l then None else EntryAt(fs, m)
  {
    if l.dir in fs then
      var fs' := fs[l.dir := Without(fs[l.dir], l.name)];
      assert forall m: Loc :: m.dir == l.dir ==> EntryAt(fs', m) == Lookup(Without(fs[l.dir], l.name), m.name);
      forall m: Loc ensures m.dir == l.dir ==> EntryAt(fs', m) == if m == l then None else EntryAt(fs, m) {
        LookupWithout(fs[l.dir], l.name, m.name);
      }
      fs'
    else fs
  }

  /** `dir.mkdirs()` when it succeeds: an existing directory is left alone. */
  function MakeDir(fs: FileSystem, dir: string): (fs': FileSystem)
    ensures dir in fs'
    ensures forall m :: EntryAt(fs', m) == EntryAt(fs, m)
  {
    if dir in fs then fs else fs[dir := []]
  }

  /** Writes `e` into `dir`, replacing an entry of the same name. */
  function Put(fs: FileSystem, dir: string, e: Entry): (fs': FileSystem)
    requires dir in fs
    ensures fs'.Keys == fs.Keys
    ensures forall m :: EntryAt(fs', m) == if m == Loc(dir, e.name) then Some(e) else EntryAt(fs, m)
  {
    var listing := Without(fs[dir], e.name) + [e];
    forall name ensures Lookup(listing, name) == if name == e.name then Some(e) else Lookup(fs[dir], name) {
      LookupAppend(Without(fs[dir], e.name), e, name);
      LookupWithout(fs[dir], e.name, name);
    }
    fs[dir := listing]
  }

  lemma {:induction false} LookupAppend(listing: seq<Entry>, e: Entry, name: string)
    ensures Lookup(listing + [e], name) ==
            if Lookup(listing, name).Some? then Lookup(listing, name)
            else if e.name == name then Some(e) else None
  {
    if listing != [] {
      assert (listing + [e])[1..] == listing[1..] + [e];
      LookupAppend(listing[1..], e, name);
    }
  }
}
