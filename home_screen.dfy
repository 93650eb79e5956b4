/**
 * Rules embedded in the home screen: the video-thumbnail memory cache, the
 * category card that picks a tab, and the share intent for a status file.
 */
module HomeScreen {
  import opened Wrappers
  import opened Text
  import opened StatusItems
  import Lists
  import Storage

  /** A decoded thumbnail; its pixels play no part in these rules. */
  datatype Bitmap = Bitmap(id: nat)

  predicate DistinctKeys(keys: seq<string>) {
    forall i, j :: 0 <= i < j < |keys| ==> keys[i] != keys[j]
  }

  /** Removing a key from a distinct insertion order. */
  function RemoveKey(keys: seq<string>, k: string): seq<string> {
    Lists.Filter(keys, (x: string) => x != k)
  }

  /** Removing the eldest key of a distinct insertion order leaves the rest in order. */
  lemma RemoveFirstKey(keys: seq<string>)
    requires keys != [] && DistinctKeys(keys)
    ensures RemoveKey(keys, keys[0]) == keys[1..]
    ensures DistinctKeys(keys[1..])
  {
    forall x | x in keys[1..] ensures x != keys[0] {
      var j :| 0 <= j < |keys[1..]| && keys[1..][j] == x;
      assert keys[j + 1] == x;
    }
    Lists.FilterKeepsAll(keys[1..], (x: string) => x != keys[0]);
    assert forall i :: 0 <= i < |keys[1..]| ==> keys[1..][i] == keys[i + 1];
  }

  /** The category card whose title is "Images" picks tab 1, "Videos" tab 2, and any other tab 0. */
  function TabForCategory(title: string): (tab: int)
    ensures 0 <= tab <= 2
    ensures tab == 1 <==> title == "Images"
    ensures tab == 2 <==> title == "Videos"
  {
    if title == "Images" then 1 else if title == "Videos" then 2 else 0
  }

  /**
   * The video thumbnail state: the memory cache, an insertion-ordered map
   * from path to a bitmap or to a remembered failure, and the thumbnail
   * shown with its loading and error flags.
   */
  class VideoThumbnail {
    var keys: seq<string>
    var cache: map<string, Option<Bitmap>>
    var thumbnail: Option<Bitmap>
    var isLoading: bool
    var hasError: bool

    /** The cache's keys are its insertion order, each key once. */
    ghost predicate Valid()
      reads this
    {
      DistinctKeys(keys) && (forall k :: k in cache <==> k in keys)
    }

    constructor()
      ensures Valid()
      ensures keys == [] && cache == map[] && thumbnail == None && isLoading && !hasError
    {
      keys := [];
      cache := map[];
      thumbnail := None;
      isLoading := true;
      hasError := false;
    }

    /**
     * A new path: the per-path state is remembered under the path, so it
     * starts afresh with no bitmap, and then the cache is checked. Only a
     * stored bitmap is a hit and is shown at once; a missing or failed
     * entry starts a load.
     */
    method CheckCache(path: string) returns (hit: bool)
      requires Valid()
      modifies this
      ensures Valid()
      ensures hit <==> path in cache && cache[path].Some?
      ensures hit ==> thumbnail == cache[path] && !isLoading && !hasError
      ensures !hit ==> thumbnail == None && isLoading && !hasError
      ensures keys == old(keys) && cache == old(cache)
    {
      if path in cache && cache[path].Some? {
        thumbnail := cache[path];
        isLoading := false;
        hasError := false;
        hit := true;
      } else {
        thumbnail := None;
        isLoading := true;
        hasError := false;
        hit := false;
      }
    }

    /**
     * A finished load stores its result, a failure included, under the
     * path; a new path goes last in the insertion order, a known one keeps
     * its place.
     */
    method StoreResult(path: string, bitmap: Option<Bitmap>)
      requires Valid()
      modifies this
      ensures Valid()
      ensures cache == old(cache)[path := bitmap]
      ensures keys == if path in old(cache) then old(keys) else old(keys) + [path]
      ensures thumbnail == bitmap && hasError == bitmap.None? && !isLoading
    {
      if path !in cache {
        keys := keys + [path];
      }
      cache := cache[path := bitmap];
      thumbnail := bitmap;
      hasError := bitmap == None;
      isLoading := false;
    }

    /** A load that throws shows an error and stores nothing. */
    method LoadThrew()
      modifies this
      ensures hasError && thumbnail == None && !isLoading
      ensures keys == old(keys) && cache == old(cache)
    {
      hasError := true;
      thumbnail := None;
      isLoading := false;
    }

    /**
     * On dispose a cache of more than 50 entries drops its eldest entries
     * until 40 remain; a smaller cache is kept as it is.
     */
    method Dispose()
      requires Valid()
      modifies this
      ensures Valid()
      ensures |old(keys)| > 50 ==> keys == old(keys)[|old(keys)| - 40..] && |cache| == 40
      ensures |old(keys)| <= 50 ==> keys == old(keys) && cache == old(cache)
      ensures forall k :: k in cache ==> k in old(cache) && cache[k] == old(cache)[k]
      ensures thumbnail == old(thumbnail) && isLoading == old(isLoading) && hasError == old(hasError)
    {
      if |keys| > 50 {
        var original, stored := keys, cache;
        var keysToRemove := original[..|original| - 40];
        var ks, c := original, stored;
        var i := 0;
        while i < |keysToRemove|
          invariant 0 <= i <= |keysToRemove|
          invariant ks == original[i..]
          invariant DistinctKeys(ks) && forall k :: k in c <==> k in ks
          invariant forall k :: k in c ==> k in stored && c[k] == stored[k]
          invariant unchanged(this)
        {
          var key := keysToRemove[i];
          assert key == ks[0];
          DropEldest(ks, c);
          ks := RemoveKey(ks, key);
          c := c - {key};
          i := i + 1;
        }
        CacheSize(ks, c);
        keys, cache := ks, c;
      }
    }
  }

  /** Dropping the eldest entry keeps the keys the insertion order of the map. */
  lemma DropEldest(keys: seq<string>, cache: map<string, Option<Bitmap>>)
    requires keys != [] && DistinctKeys(keys) && forall k :: k in cache <==> k in keys
    ensures RemoveKey(keys, keys[0]) == keys[1..] && DistinctKeys(keys[1..])
    ensures forall k :: k in cache - {keys[0]} <==> k in keys[1..]
  {
    RemoveFirstKey(keys);
    forall k ensures k in cache - {keys[0]} <==> k in keys[1..] {
      if k in keys && k != keys[0] {
        var j :| 0 <= j < |keys| && keys[j] == k;
        assert keys[1..][j - 1] == k;
      }
    }
  }

  /** A map whose keys are a distinct sequence has as many entries as the sequence. */
  lemma {:induction false} CacheSize(keys: seq<string>, cache: map<string, Option<Bitmap>>)
    requires DistinctKeys(keys) && forall k :: k in cache <==> k in keys
    ensures |cache| == |keys|
  {
    if keys == [] {
      assert cache.Keys == {};
    } else {
      var rest := cache - {keys[0]};
      DropEldest(keys, cache);
      CacheSize(keys[1..], rest);
      assert cache.Keys == rest.Keys + {keys[0]};
    }
  }

  /** The share intent's MIME type follows the media type. */
  function MimeTypeFor(t: MediaType): (r: string)
    ensures r == "image/*" <==> t == IMAGE
    ensures r == "video/*" <==> t == VIDEO
  {
    match t
    case IMAGE => "image/*"
    case VIDEO => "video/*"
  }

  /** The stream handed to the share sheet. */
  datatype ShareUri = ContentUri(uri: string) | FileProviderUri(authority: string, path: string)

  datatype ShareIntent = ShareIntent(mimeType: string, stream: ShareUri, text: string)

  /**
   * What a share attempt comes to: the chooser is opened with the intent,
   * a missing plain file is logged and dropped, or a throw is caught and
   * the user is told "Unable to share file".
   */
  datatype ShareOutcome = Shared(intent: ShareIntent) | FileMissing | ShareFailed

  /**
   * `shareStatusFile`: a content URI is shared as it is, a plain path that
   * exists through the app's file provider, and a missing plain file is
   * not shared at all. `providerOk` is whether the file provider accepts
   * the path; when it throws, the catch reports the failure.
   */
  function ShareStatusFile(fs: Storage.FileSystem, packageName: string, filePath: string, mediaType: MediaType,
                           providerOk: bool): (r: ShareOutcome)
    ensures r.FileMissing? <==> !StartsWith(filePath, "content://") &&
                                !Storage.Exists(fs, Storage.LocOf(filePath)) && filePath !in fs
    ensures r.ShareFailed? <==> !StartsWith(filePath, "content://") &&
                                (Storage.Exists(fs, Storage.LocOf(filePath)) || filePath in fs) && !providerOk
    ensures r.Shared? ==> r.intent.mimeType == MimeTypeFor(mediaType) && r.intent.text == "Shared from Status Saver"
    ensures r.Shared? && StartsWith(filePath, "content://") ==> r.intent.stream == ContentUri(filePath)
    ensures r.Shared? && !StartsWith(filePath, "content://") ==>
              r.intent.stream == FileProviderUri(packageName + ".fileprovider", filePath)
  {
    if StartsWith(filePath, "content://") then
      Shared(ShareIntent(MimeTypeFor(mediaType), ContentUri(filePath), "Shared from Status Saver"))
    else if !(Storage.Exists(fs, Storage.LocOf(filePath)) || filePath in fs) then FileMissing
    else if !providerOk then ShareFailed
    else Shared(ShareIntent(MimeTypeFor(mediaType), FileProviderUri(packageName + ".fileprovider", filePath),
                            "Shared from Status Saver"))
  }
}
