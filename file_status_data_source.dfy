/** The in-memory demonstration store of recent and saved statuses. */
module FileStatusDataSource {
  import opened Wrappers

  /**
   * One status of the domain layer: id, media URL, whether it is a video,
   * its length text, its time text, whether it is saved, and a local path.
   */
  datatype StatusRecord = StatusRecord(id: string, url: string, isVideo: bool, duration: Option<string>,
                                       timestamp: string, isSaved: bool, localPath: Option<string>)

  /**
   * The three demonstration statuses; each is stamped with its own clock
   * reading, `t1`, `t2` and `t3` in order.
   */
  function DemoStatuses(t1: string, t2: string, t3: string): seq<StatusRecord> {
    [
      StatusRecord("1", "https://placekitten.com/200/200", false, None, t1, false, None),
      StatusRecord("2", "https://placekitten.com/201/201", false, None, t2, false, None),
      StatusRecord("3", "https://sample-videos.com/video123/mp4/720/big_buck_bunny_720p_1mb.mp4", true, Some("0:15"),
                   t3, false, None)
    ]
  }

  predicate HasId(list: seq<StatusRecord>, id: string) {
    exists i :: 0 <= i < |list| && list[i].id == id
  }

  /** No two entries share an id. */
  predicate UniqueIds(list: seq<StatusRecord>) {
    forall i, j :: 0 <= i < j < |list| ==> list[i].id != list[j].id
  }

  /** Distinct ids, none saved, and each status carries its own reading. */
  lemma DemoIdsUnique(t1: string, t2: string, t3: string)
    ensures UniqueIds(DemoStatuses(t1, t2, t3))
    ensures |DemoStatuses(t1, t2, t3)| == 3
    ensures forall s :: s in DemoStatuses(t1, t2, t3) ==> !s.isSaved && s.localPath.None?
    ensures DemoStatuses(t1, t2, t3)[0].timestamp == t1 && DemoStatuses(t1, t2, t3)[1].timestamp == t2 &&
            DemoStatuses(t1, t2, t3)[2].timestamp == t3
  {
  }

  /** The saved list after saving `s`: appended only when its id is new. */
  function Saved(list: seq<StatusRecord>, s: StatusRecord): seq<StatusRecord> {
    if HasId(list, s.id) then list else list + [s]
  }

  /**
   * Saving keeps ids unique, never moves an existing entry, adds at most one
   * entry, always leaves the id present, and saving again changes nothing.
   */
  lemma SavedProperties(list: seq<StatusRecord>, s: StatusRecord)
    ensures UniqueIds(list) ==> UniqueIds(Saved(list, s))
    ensures Saved(list, s)[..|list|] == list
    ensures |Saved(list, s)| == if HasId(list, s.id) then |list| else |list| + 1
    ensures HasId(Saved(list, s), s.id)
    ensures Saved(Saved(list, s), s) == Saved(list, s)
  {
    var r := Saved(list, s);
    if !HasId(list, s.id) {
      assert r[|list|] == s;
    }
  }

  class FileStatusDataSource {
    var recentStatuses: seq<StatusRecord>
    var savedStatuses: seq<StatusRecord>

    ghost predicate Valid()
      reads this
    {
      UniqueIds(savedStatuses)
    }

    /** The store reads the clock once per demonstration status; `t1`, `t2`, `t3` are those readings. */
    constructor(t1: string, t2: string, t3: string)
      ensures recentStatuses == DemoStatuses(t1, t2, t3)
      ensures savedStatuses == []
      ensures Valid()
    {
      recentStatuses := DemoStatuses(t1, t2, t3);
      savedStatuses := [];
    }

    function GetRecentStatuses(): seq<StatusRecord>
      reads this
    {
      recentStatuses
    }

    function GetSavedStatuses(): seq<StatusRecord>
      reads this
    {
      savedStatuses
    }

    /** `saveStatus`: appends unless a saved status has the same id; the recent list is untouched. */
    method SaveStatus(status: StatusRecord)
      requires Valid()
      modifies this
      ensures Valid()
      ensures savedStatuses == Saved(old(savedStatuses), status)
      ensures recentStatuses == old(recentStatuses)
    {
      SavedProperties(savedStatuses, status);
      if !(exists i :: 0 <= i < |savedStatuses| && savedStatuses[i].id == status.id) {
        savedStatuses := savedStatuses + [status];
      }
    }
  }
}
