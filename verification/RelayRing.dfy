/** The dedup ring `mx_seen` against the unbounded log of fresh marks it stands for. */
module RelayRing {
  import opened Prelude
  import opened RelayModel

  /** Every mark that was not already in the last 500, for a stream of marked ids. */
  function FreshLog(ids: seq<EventId>): seq<EventId> {
    if ids == [] then []
    else
      var log := FreshLog(ids[..|ids| - 1]);
      if ids[|ids| - 1] in LastN(log, MX_SEEN_LIMIT) then log else log + [ids[|ids| - 1]]
  }

  /** The ring after marking a stream of ids with `mark_mx`. */
  function Ring(ids: seq<EventId>): seq<EventId> {
    if ids == [] then [] else Mark(Ring(ids[..|ids| - 1]), ids[|ids| - 1])
  }

  lemma LastNAppend<T>(s: seq<T>, x: T, n: nat)
    ensures LastN(LastN(s, n) + [x], n) == LastN(s + [x], n)
  {
  }

  /** The ring is always the last 500 fresh marks, or all of them. */
  lemma {:induction false} RingIsTail(ids: seq<EventId>)
    ensures Ring(ids) == LastN(FreshLog(ids), 500)
  {
    if ids != [] {
      RingIsTail(ids[..|ids| - 1]);
      LastNAppend(FreshLog(ids[..|ids| - 1]), ids[|ids| - 1], MX_SEEN_LIMIT);
    }
  }

  /** Equal entries of a log are more than 500 places apart. */
  ghost predicate Spaced(log: seq<EventId>) {
    forall i, j :: 0 <= i < j < |log| && log[i] == log[j] ==> 500 < j - i
  }

  lemma SpacedAppend(log: seq<EventId>, x: EventId)
    requires Spaced(log) && x !in LastN(log, MX_SEEN_LIMIT)
    ensures Spaced(log + [x])
  {
    var t := LastN(log, MX_SEEN_LIMIT);
    forall i | |log| - |t| <= i < |log| ensures log[i] != x {
      assert log[i] == t[i - (|log| - |t|)];
    }
  }

  /** However syncs redeliver, two fresh marks of one event are at least 501 marks apart, and
      the ring itself never holds an event twice. */
  lemma {:induction false} FreshMarksSpaced(ids: seq<EventId>)
    ensures Spaced(FreshLog(ids)) && Distinct(Ring(ids)) && |Ring(ids)| <= 500
  {
    RingIsTail(ids);
    if ids != [] {
      FreshMarksSpaced(ids[..|ids| - 1]);
      if ids[|ids| - 1] !in LastN(FreshLog(ids[..|ids| - 1]), MX_SEEN_LIMIT) {
        SpacedAppend(FreshLog(ids[..|ids| - 1]), ids[|ids| - 1]);
      }
    }
    TailDistinct(FreshLog(ids));
  }

  lemma TailDistinct(log: seq<EventId>)
    requires Spaced(log)
    ensures Distinct(LastN(log, MX_SEEN_LIMIT))
  {
    var t := LastN(log, MX_SEEN_LIMIT);
    forall i, j | 0 <= i < j < |t| ensures t[i] != t[j] {
      assert t[i] == log[|log| - |t| + i] && t[j] == log[|log| - |t| + j];
    }
  }

  // ---- The object that holds the ring ---------------------------------------------

  /** What is at the state path. */
  datatype FileData = Absent | Corrupt | Json(cursors: Cursors)

  /** What a process starts from: a missing file is a first start. */
  function Loaded(d: FileData): Cursors
    requires !d.Corrupt?
  {
    if d.Json? then d.cursors else Cursors(0, [])
  }

  class StateFile {
    var data: FileData
    constructor (data: FileData) ensures this.data == data { this.data := data; }
  }

  /** bridge/relay.py's `State`, with the log its ring abbreviates. `Valid` says that it does:
      so from any file the program itself wrote. */
  class State {
    var tgLastId: nat
    var mxSeen: seq<EventId>
    ghost var freshLog: seq<EventId>

    ghost predicate Valid() reads this {
      Spaced(freshLog) && mxSeen == LastN(freshLog, MX_SEEN_LIMIT)
    }

    function Cursors(): Cursors reads this { RelayModel.Cursors(tgLastId, mxSeen) }

    constructor (tg: nat, seen: seq<EventId>)
      ensures Cursors() == RelayModel.Cursors(tg, seen) && freshLog == seen
      ensures Spaced(seen) && |seen| <= MX_SEEN_LIMIT ==> Valid()
    {
      tgLastId, mxSeen, freshLog := tg, seen, seen;
    }

    /** True exactly when the id was already in the ring; otherwise one entry longer, the
        oldest dropped when 500 are exceeded. */
    method MarkMx(id: EventId) returns (already: bool)
      modifies this`mxSeen, this`freshLog
      ensures already == (id in old(mxSeen)) && mxSeen == Mark(old(mxSeen), id)
      ensures old(Valid()) ==> Valid()
      ensures freshLog == old(freshLog) + if already then [] else [id]
    {
      if id in mxSeen {
        return true;
      }
      if Valid() {
        SpacedAppend(freshLog, id);
        LastNAppend(freshLog, id, MX_SEEN_LIMIT);
      }
      mxSeen := mxSeen + [id];
      if |mxSeen| > MX_SEEN_LIMIT {
        mxSeen := mxSeen[|mxSeen| - MX_SEEN_LIMIT..];
      }
      freshLog := freshLog + [id];
      return false;
    }

    /** The atomic write: what a later load reads is what memory holds now. */
    method Save(file: StateFile)
      modifies file
      ensures file.data == Json(Saved(Cursors()))
      ensures Valid() ==> file.data == Json(Cursors())
    {
      file.data := Json(RelayModel.Cursors(tgLastId, LastN(mxSeen, MX_SEEN_LIMIT)));
    }
  }

  /** `State.load`: a missing file is a first start, a corrupt one stops the process. */
  method Load(file: StateFile) returns (state: Option<State>)
    ensures state.None? <==> file.data.Corrupt?
    ensures state.Some? ==> fresh(state.value) && state.value.Cursors() == Loaded(file.data)
    ensures state.Some? && Spaced(Loaded(file.data).seen) && |Loaded(file.data).seen| <= MX_SEEN_LIMIT
      ==> state.value.Valid()
  {
    match file.data
    case Absent => var s := new State(0, []); state := Some(s);
    case Corrupt => state := None;
    case Json(c) => var s := new State(c.tg, c.seen); state := Some(s);
  }
}
