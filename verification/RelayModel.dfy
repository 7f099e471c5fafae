/** The Telegram/Matrix relay as a step machine. One step is what a process does between
    two `await`s (or less), so every interleaving of the two loops, every failed send and
    every crash is a sequence of labels. Human posts and server answers are labels too. */
module RelayModel {
  import opened Prelude

  const TG_POLL_LIMIT: nat := 200
  const MX_SEEN_LIMIT: nat := 500

  type EventId = string

  /** A Telegram message. `src` is history: the timeline position it forwards, if the relay wrote it. */
  datatype TgMsg = TgMsg(id: nat, own: bool, hasText: bool, src: Option<nat>)

  /** What `_try_deserialize`, the event type and `_mx_body` decide about a decrypted event. */
  datatype MxKind = Malformed | NotMessage | NoBody | Text

  /** A timeline event. `src` is history: the Telegram id it forwards, if the relay wrote it. */
  datatype MxEvent = MxEvent(id: EventId, own: bool, encrypted: bool, kind: MxKind, src: Option<nat>)

  /** The contents of the relay's state file, in memory or on disk. */
  datatype Cursors = Cursors(tg: nat, seen: seq<EventId>)

  /** Where the Telegram loop stands: between polls, with fetched messages left to handle,
      or with the head message posted to Matrix but not yet recorded. */
  datatype TgPc = TgIdle | TgPass(todo: seq<TgMsg>) | TgPosted(msg: TgMsg, todo: seq<TgMsg>)

  /** Where the Matrix loop stands; `MxMarked` is between `mark_mx` and the send. */
  datatype MxPc =
    | MxIdle
    | MxBatch(todo: seq<nat>)
    | MxMarked(pos: nat, todo: seq<nat>)
    | MxPosted(todo: seq<nat>)

  /** A `/sync` answer: not a JSON object, or a timeline slice with an optional next_batch. */
  datatype Answer = Unusable | Answer(next: Option<nat>, from: nat, upTo: nat)

  /** Both logs, the process's memory, its two files, the two program counters and a
      history of sends that no step reads. */
  datatype Sys = Sys(
    tgLog: seq<TgMsg>, mxLog: seq<MxEvent>,
    mem: Cursors, nb: Option<nat>,
    disk: Cursors, diskNb: Option<nat>,
    up: bool, tg: TgPc, mx: MxPc,
    sentMx: seq<nat>, sentTg: seq<nat>, restarts: nat, firstTg: nat, firstNb: Option<nat>)

  datatype Label =
    | HumanTg(msg: TgMsg)
    | HumanMx(ev: MxEvent)
    | Boot(answer: Answer)
    | TgFetch
    | TgSkip
    | TgSend(ok: bool, eventId: EventId)
    | TgCommit
    | TgEnd
    | TgAbort
    | MxSync(reply: Answer)
    | MxSkip
    | MxGiveUp
    | MxMark
    | MxSend(posted: bool, id: nat)
    | MxCommit
    | MxEnd
    | MxAbort
    | Restart(graceful: bool)
    | TornCursor

  // ---- The dedup ring -------------------------------------------------------------

  /** `mark_mx`: the ring after an event id is marked. */
  function Mark(seen: seq<EventId>, id: EventId): seq<EventId> {
    if id in seen then seen else LastN(seen + [id], MX_SEEN_LIMIT)
  }

  /** `State.save`: what reaches the disk. */
  function Saved(c: Cursors): Cursors {
    c.(seen := LastN(c.seen, MX_SEEN_LIMIT))
  }

  // ---- Reading the Telegram log ---------------------------------------------------

  predicate Relayable(m: TgMsg) { !m.own && m.hasText }

  /** The newest-first walk of `iter_messages`, cut at the first id not above the cursor and
      at `limit` messages, returned oldest first. */
  function Newest(log: seq<TgMsg>, cursor: nat, limit: nat): seq<TgMsg> {
    if limit == 0 || log == [] || log[|log| - 1].id <= cursor then []
    else Newest(log[..|log| - 1], cursor, limit - 1) + [log[|log| - 1]]
  }

  ghost predicate Ascending(log: seq<TgMsg>) {
    && (forall i, j :: 0 <= i < j < |log| ==> log[i].id < log[j].id)
    && (forall i :: 0 <= i < |log| ==> 0 < log[i].id)
  }

  // ---- The Matrix answers the server may give -------------------------------------

  predicate Fits(a: Answer, since: Option<nat>, len: nat) {
    a.Answer? ==>
      && a.from <= a.upTo <= len
      && (since.None? ==> a.upTo == len)
      && (since.Some? ==> since.value <= a.from)
      && (a.next.Some? ==> a.next.value == a.upTo)
  }

  /** An event that reaches `mark_mx` as a message and is not already in the ring. */
  predicate Fresh(s: Sys, pos: nat) {
    pos < |s.mxLog| &&
    var e := s.mxLog[pos];
    !e.own && e.kind in {NoBody, Text} && e.id !in s.mem.seen
  }

  // ---- Enabledness ----------------------------------------------------------------

  ghost predicate Enabled(s: Sys, l: Label) {
    match l
    case HumanTg(m) => !m.own && m.src.None? && NewTgId(s, m.id)
    case HumanMx(e) => !e.own && e.src.None? && NewEventId(s, e.id)
    case Boot(a) => !s.up && Fits(a, s.nb, |s.mxLog|)
    case TgFetch => s.up && s.tg.TgIdle?
    case TgSkip => s.tg.TgPass? && s.tg.todo != [] && !Relayable(s.tg.todo[0])
    case TgSend(ok, e) => s.tg.TgPass? && s.tg.todo != [] && Relayable(s.tg.todo[0]) && (ok ==> NewEventId(s, e))
    case TgCommit => s.tg.TgPosted?
    case TgEnd => s.tg == TgPass([])
    case TgAbort => s.tg.TgPass?
    case MxSync(a) => s.up && s.mx.MxIdle? && Fits(a, s.nb, |s.mxLog|)
    case MxSkip => MxHasHead(s) && !(Fresh(s, s.mx.todo[0]) && s.mxLog[s.mx.todo[0]].kind == Text)
    case MxGiveUp => MxHasHead(s) && var e := s.mxLog[s.mx.todo[0]]; !e.own && e.encrypted && e.kind != Malformed
    case MxMark => MxHasHead(s) && Fresh(s, s.mx.todo[0]) && s.mxLog[s.mx.todo[0]].kind == Text
    case MxSend(ok, id) => s.mx.MxMarked? && (ok ==> NewTgId(s, id))
    case MxCommit => s.mx.MxPosted?
    case MxEnd => s.mx == MxBatch([])
    case MxAbort => s.mx.MxBatch?
    case Restart(graceful) => true
    case TornCursor => s.mx.MxIdle?
  }

  ghost predicate NewTgId(s: Sys, id: nat) {
    0 < id && forall i :: 0 <= i < |s.tgLog| ==> s.tgLog[i].id < id
  }

  ghost predicate NewEventId(s: Sys, id: EventId) {
    forall i :: 0 <= i < |s.mxLog| ==> s.mxLog[i].id != id
  }

  predicate MxHasHead(s: Sys) {
    s.mx.MxBatch? && s.mx.todo != [] && s.mx.todo[0] < |s.mxLog|
  }

  // ---- Effects --------------------------------------------------------------------

  function Apply(s: Sys, l: Label): Sys {
    match l
    case HumanTg(m) => s.(tgLog := s.tgLog + [m])
    case HumanMx(e) => s.(mxLog := s.mxLog + [e])
    case Boot(a) => ApplyBoot(s, a)
    case TgFetch => ApplyFetch(s)
    case TgSkip =>
      if s.tg.TgPass? && s.tg.todo != [] then
        s.(mem := s.mem.(tg := Max(s.mem.tg, s.tg.todo[0].id)), tg := TgPass(s.tg.todo[1..]))
      else s
    case TgSend(ok, e) => ApplyTgSend(s, ok, e)
    case TgCommit => ApplyTgCommit(s)
    case TgEnd => s.(disk := Saved(s.mem), tg := TgIdle)
    case TgAbort => s.(tg := TgIdle)
    case MxSync(a) => ApplyMxSync(s, a)
    case MxSkip => ApplyMxSkip(s)
    case MxGiveUp => ApplyMxGiveUp(s)
    case MxMark => ApplyMxMark(s)
    case MxSend(ok, id) => ApplyMxSend(s, ok, id)
    case MxCommit => if s.mx.MxPosted? then s.(disk := Saved(s.mem), mx := MxBatch(s.mx.todo)) else s
    case MxEnd => s.(disk := Saved(s.mem), mx := MxIdle)
    case MxAbort => s.(mx := MxIdle)
    case Restart(graceful) => Reloaded(if graceful then s.(disk := Saved(s.mem)) else s)
    case TornCursor => Reloaded(s.(diskNb := None))
  }

  /** `State.load` and the sync store's constructor in a new process. */
  function Reloaded(s: Sys): Sys {
    s.(mem := s.disk, nb := s.diskNb, up := false, tg := TgIdle, mx := MxIdle, restarts := s.restarts + 1)
  }

  /** `put_next_batch` when the answer carries a next_batch: memory and file together. */
  function PutNext(s: Sys, a: Answer): Sys {
    if a.Answer? && a.next.Some? then
      s.(nb := a.next, diskNb := a.next, firstNb := if s.firstNb.None? then a.next else s.firstNb)
    else s
  }

  /** First start: with no cursor file, one sync whose timeline is thrown away. */
  function ApplyBoot(s: Sys, a: Answer): Sys {
    if s.nb.None? then PutNext(s, a).(up := true) else s.(up := true)
  }

  function ApplyFetch(s: Sys): Sys {
    var new_ := Newest(s.tgLog, s.mem.tg, TG_POLL_LIMIT);
    if new_ == [] then s
    else if s.mem.tg == 0 then
      var m := s.mem.(tg := new_[|new_| - 1].id);
      s.(mem := m, disk := Saved(m), firstTg := m.tg)
    else s.(tg := TgPass(new_))
  }

  function ApplyTgSend(s: Sys, ok: bool, e: EventId): Sys {
    if !(s.tg.TgPass? && s.tg.todo != []) then s
    else if ok then
      s.(mxLog := s.mxLog + [MxEvent(e, true, true, Text, Some(s.tg.todo[0].id))],
         sentMx := s.sentMx + [s.tg.todo[0].id],
         tg := TgPosted(s.tg.todo[0], s.tg.todo[1..]))
    else s.(tg := TgPass(s.tg.todo[1..]))
  }

  function ApplyTgCommit(s: Sys): Sys {
    if s.tg.TgPosted? then
      var m := s.mem.(tg := Max(s.mem.tg, s.tg.msg.id));
      s.(mem := m, disk := Saved(m), tg := TgPass(s.tg.todo))
    else s
  }

  function ApplyMxSync(s: Sys, a: Answer): Sys {
    PutNext(s, a).(mx := MxBatch(if a.Answer? && a.from <= a.upTo then Range(a.from, a.upTo) else []))
  }

  function ApplyMxSkip(s: Sys): Sys {
    if !MxHasHead(s) then s
    else
      var e := s.mxLog[s.mx.todo[0]];
      var seen := if e.kind == Malformed then s.mem.seen else Mark(s.mem.seen, e.id);
      s.(mem := s.mem.(seen := seen), mx := MxBatch(s.mx.todo[1..]))
  }

  function ApplyMxGiveUp(s: Sys): Sys {
    if !MxHasHead(s) then s
    else
      var m := s.mem.(seen := Mark(s.mem.seen, s.mxLog[s.mx.todo[0]].id));
      s.(mem := m, disk := Saved(m), mx := MxBatch(s.mx.todo[1..]))
  }

  function ApplyMxMark(s: Sys): Sys {
    if !MxHasHead(s) then s
    else s.(mem := s.mem.(seen := Mark(s.mem.seen, s.mxLog[s.mx.todo[0]].id)),
            mx := MxMarked(s.mx.todo[0], s.mx.todo[1..]))
  }

  function ApplyMxSend(s: Sys, ok: bool, id: nat): Sys {
    if !s.mx.MxMarked? then s
    else if ok then
      s.(tgLog := s.tgLog + [TgMsg(id, true, true, Some(s.mx.pos))],
         sentTg := s.sentTg + [s.mx.pos],
         mx := MxPosted(s.mx.todo))
    else s.(mx := MxBatch(s.mx.todo))
  }

  // ---- Runs -----------------------------------------------------------------------

  function Exec(s: Sys, ls: seq<Label>): Sys {
    if ls == [] then s else Apply(Exec(s, ls[..|ls| - 1]), ls[|ls| - 1])
  }

  /** Every label is enabled where it is taken. */
  ghost predicate Run(s: Sys, ls: seq<Label>) {
    ls == [] || (Run(s, ls[..|ls| - 1]) && Enabled(Exec(s, ls[..|ls| - 1]), ls[|ls| - 1]))
  }

  /** A run `ls` from `s` that ends in `t`. */
  ghost predicate Ran(s: Sys, ls: seq<Label>, t: Sys) {
    Run(s, ls) && Exec(s, ls) == t
  }

  lemma One(s: Sys, l: Label)
    requires Enabled(s, l)
    ensures Ran(s, [l], Apply(s, l))
  {
    assert [l][..0] == [];
  }

  lemma Two(s: Sys, a: Label, b: Label)
    requires Enabled(s, a) && Enabled(Apply(s, a), b)
    ensures Ran(s, [a, b], Apply(Apply(s, a), b))
  {
    One(s, a);
    More(s, [a], Apply(s, a), b);
    assert [a] + [b] == [a, b];
  }

  lemma Three(s: Sys, a: Label, b: Label, c: Label)
    requires Enabled(s, a) && Enabled(Apply(s, a), b) && Enabled(Apply(Apply(s, a), b), c)
    ensures Ran(s, [a, b, c], Apply(Apply(Apply(s, a), b), c))
  {
    Two(s, a, b);
    More(s, [a, b], Apply(Apply(s, a), b), c);
    assert [a, b] + [c] == [a, b, c];
  }

  lemma More(s: Sys, ls: seq<Label>, t: Sys, l: Label)
    requires Ran(s, ls, t) && Enabled(t, l)
    ensures Ran(s, ls + [l], Apply(t, l))
  {
    assert (ls + [l])[..|ls|] == ls;
  }

  /** Runs compose. */
  lemma {:induction false} Joined(s: Sys, a: seq<Label>, t: Sys, b: seq<Label>, u: Sys)
    requires Ran(s, a, t) && Ran(t, b, u)
    ensures Ran(s, a + b, u)
  {
    if b == [] {
      assert a + b == a;
    } else {
      var f := b[..|b| - 1];
      Joined(s, a, t, f, Exec(t, f));
      assert (a + b)[..|a + b| - 1] == a + f;
    }
  }

  /** A deployment before its first start: arbitrary logs no part of which the relay forwarded. */
  ghost predicate Fresh0(s: Sys) {
    && Ascending(s.tgLog)
    && (forall i :: 0 <= i < |s.tgLog| ==> s.tgLog[i].src.None?)
    && (forall i :: 0 <= i < |s.mxLog| ==> s.mxLog[i].src.None?)
    && (forall i, j :: 0 <= i < j < |s.mxLog| ==> s.mxLog[i].id != s.mxLog[j].id)
    && s.mem == s.disk == Cursors(0, [])
    && s.nb == s.diskNb == None
    && !s.up && s.tg == TgIdle && s.mx == MxIdle
    && s.sentMx == [] && s.sentTg == [] && s.restarts == 0 && s.firstTg == 0 && s.firstNb == None
  }
}
