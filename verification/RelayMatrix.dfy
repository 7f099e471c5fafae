/** Matrix to Telegram: the durable cursor moves before any event of its batch is handled, so
    an event is sent at most once and in order whatever crashes; when nothing fails, nothing
    is left out either. */
module RelayMatrix {
  import opened Prelude
  import opened RelayModel

  predicate MxRelayable(e: MxEvent) { !e.own && e.kind == Text }

  /** The answer brings events. */
  predicate Brings(l: Label) { l.MxSync? && l.reply.Answer? && l.reply.from < l.reply.upTo }

  /** An answer that brings events also says where they end, and is not given to a relay that
      has lost its cursor. Answers that bring nothing, and the first-start sync, are free. */
  predicate Cursored(s: Sys, l: Label) {
    Brings(l) ==> l.reply.next.Some? && (s.nb.Some? || s.firstNb.None?)
  }

  ghost predicate CursoredRun(s: Sys, ls: seq<Label>) {
    ls == [] || (CursoredRun(s, ls[..|ls| - 1]) && Cursored(Exec(s, ls[..|ls| - 1]), ls[|ls| - 1]))
  }

  function Todo(mx: MxPc): seq<nat> {
    match mx
    case MxIdle => []
    case MxBatch(todo) => todo
    case MxMarked(pos, todo) => [pos] + todo
    case MxPosted(todo) => todo
  }

  /** Everything below this position has been handled or given up for good. */
  function Handled(s: Sys): nat {
    if Todo(s.mx) != [] then Todo(s.mx)[0]
    else if s.nb.Some? then s.nb.value
    else if s.firstNb.None? then 0 else |s.mxLog|
  }

  ghost predicate Rising(s: seq<nat>) {
    forall i, j :: 0 <= i < j < |s| ==> s[i] < s[j]
  }

  ghost predicate CursorInv(s: Sys) {
    && s.nb == s.diskNb
    && (s.nb.Some? ==> s.nb.value <= |s.mxLog| && s.firstNb.Some?)
    && (!s.up ==> s.mx == MxIdle)
    && (s.firstNb.None? ==> s.sentTg == [])
  }

  ghost predicate AllBelow(ps: seq<nat>, hi: nat) { forall i :: 0 <= i < |ps| ==> ps[i] < hi }

  ghost predicate Under(nb: Option<nat>, ps: seq<nat>) {
    ps == [] || (nb.Some? && AllBelow(ps, nb.value))
  }

  ghost predicate BatchInv(s: Sys) {
    && Rising(Todo(s.mx)) && Under(s.nb, Todo(s.mx))
    && (s.mx.MxMarked? ==> s.mx.pos < |s.mxLog| && MxRelayable(s.mxLog[s.mx.pos]))
  }

  /** Sent positions rise, are people's messages, and lie below everything still to handle. */
  ghost predicate SentTgInv(s: Sys) {
    && Rising(s.sentTg)
    && forall i :: 0 <= i < |s.sentTg| ==>
         s.sentTg[i] < Handled(s) && s.sentTg[i] < |s.mxLog| && MxRelayable(s.mxLog[s.sentTg[i]])
  }

  ghost predicate MxInv(s: Sys) {
    CursorInv(s) && BatchInv(s) && SentTgInv(s)
  }

  lemma MxLogGrows(s: Sys, t: Sys, e: MxEvent)
    requires MxInv(s) && t.mxLog == s.mxLog + [e]
    requires t.nb == s.nb && t.diskNb == s.diskNb && t.up == s.up && t.mx == s.mx
    requires t.sentTg == s.sentTg && t.firstNb == s.firstNb
    ensures MxInv(t)
  {
    assert forall i :: 0 <= i < |s.mxLog| ==> t.mxLog[i] == s.mxLog[i];
  }

  lemma SyncKeeps(s: Sys, a: Answer)
    requires MxInv(s) && Enabled(s, MxSync(a)) && Cursored(s, MxSync(a))
    ensures MxInv(Apply(s, MxSync(a)))
  {
    var t := Apply(s, MxSync(a));
    assert a.Answer? ==> Todo(t.mx) == Range(a.from, a.upTo);
  }

  lemma TailOk(nb: Option<nat>, ps: seq<nat>)
    requires Rising(ps) && Under(nb, ps) && ps != []
    ensures Rising(ps[1..]) && Under(nb, ps[1..])
  {
    assert forall i :: 0 <= i < |ps| - 1 ==> ps[1..][i] == ps[i + 1];
  }

  lemma DropHead(s: Sys, t: Sys)
    requires MxInv(s) && s.mx.MxBatch? && s.mx.todo != []
    requires t.mx == MxBatch(s.mx.todo[1..]) && t.mxLog == s.mxLog && t.nb == s.nb && t.diskNb == s.diskNb
    requires t.up == s.up && t.sentTg == s.sentTg && t.firstNb == s.firstNb
    ensures MxInv(t)
  {
    assert Todo(t.mx) == Todo(s.mx)[1..];
    TailOk(s.nb, Todo(s.mx));
  }

  lemma MarkKeeps(s: Sys)
    requires MxInv(s) && Enabled(s, MxMark)
    ensures MxInv(Apply(s, MxMark))
  {
    assert Todo(Apply(s, MxMark).mx) == s.mx.todo;
  }

  lemma TodoTail(pos: nat, todo: seq<nat>)
    requires Rising([pos] + todo)
    ensures Rising(todo) && forall i :: 0 <= i < |todo| ==> pos < todo[i]
  {
    var all := [pos] + todo;
    assert forall i :: 0 <= i < |todo| ==> todo[i] == all[i + 1];
    assert all[0] == pos;
  }

  lemma RisingAppend(sent: seq<nat>, pos: nat)
    requires Rising(sent) && forall i :: 0 <= i < |sent| ==> sent[i] < pos
    ensures Rising(sent + [pos])
  {
  }

  lemma SendKeeps(s: Sys, ok: bool, id: nat)
    requires MxInv(s) && Enabled(s, MxSend(ok, id))
    ensures MxInv(Apply(s, MxSend(ok, id)))
  {
    var t := Apply(s, MxSend(ok, id));
    var all := Todo(s.mx);
    assert all[0] == s.mx.pos && Handled(s) == s.mx.pos;
    assert forall i :: 0 <= i < |s.mx.todo| ==> all[i + 1] == s.mx.todo[i];
    TodoTail(s.mx.pos, s.mx.todo);
    RisingAppend(s.sentTg, s.mx.pos);
    assert s.mx.pos < Handled(t);
  }

  predicate ByMatrixLoop(l: Label) {
    l.MxSync? || l.MxSkip? || l.MxGiveUp? || l.MxMark? || l.MxSend? || l.MxCommit? || l.MxEnd? || l.MxAbort?
  }

  lemma MxStepKeeps(s: Sys, l: Label)
    requires MxInv(s) && Enabled(s, l) && Cursored(s, l) && ByMatrixLoop(l)
    ensures MxInv(Apply(s, l))
  {
    match l
    case MxSync(a) => SyncKeeps(s, a);
    case MxSkip => DropHead(s, Apply(s, l));
    case MxGiveUp => DropHead(s, Apply(s, l));
    case MxMark => MarkKeeps(s);
    case MxSend(ok, id) => SendKeeps(s, ok, id);
    case MxCommit =>
    case MxEnd =>
    case MxAbort =>
  }

  lemma TgSendKeeps(s: Sys, ok: bool, e: EventId)
    requires MxInv(s) && Enabled(s, TgSend(ok, e))
    ensures MxInv(Apply(s, TgSend(ok, e)))
  {
    if ok { MxLogGrows(s, Apply(s, TgSend(ok, e)), MxEvent(e, true, true, Text, Some(s.tg.todo[0].id))); }
  }

  /** The Telegram loop never touches the Matrix cursor, batch or history. */
  lemma TelegramSideFrame(s: Sys, l: Label)
    requires Enabled(s, l) && (l.HumanTg? || l in {TgFetch, TgSkip, TgCommit, TgEnd, TgAbort})
    ensures var t := Apply(s, l);
      && t.mxLog == s.mxLog && t.nb == s.nb && t.diskNb == s.diskNb && t.up == s.up && t.mx == s.mx
      && t.sentTg == s.sentTg && t.firstNb == s.firstNb
      && t.mem.seen == s.mem.seen && t.disk.seen in {s.disk.seen, Saved(s.mem).seen}
  {
  }

  lemma StepKeeps(s: Sys, l: Label)
    requires MxInv(s) && Enabled(s, l) && Cursored(s, l)
    ensures MxInv(Apply(s, l))
  {
    if ByMatrixLoop(l) {
      MxStepKeeps(s, l);
    } else if l.TgSend? {
      TgSendKeeps(s, l.ok, l.eventId);
    } else if l.HumanMx? {
      MxLogGrows(s, Apply(s, l), l.ev);
    } else if l.Boot? || l.Restart? || l.TornCursor? {
      ProcessKeeps(s, l);
    } else {
      TelegramSideFrame(s, l);
    }
  }

  lemma ProcessKeeps(s: Sys, l: Label)
    requires MxInv(s) && Enabled(s, l) && Cursored(s, l) && (l.Boot? || l.Restart? || l.TornCursor?)
    ensures MxInv(Apply(s, l))
  {
  }

  lemma {:induction false} RunKeeps(s: Sys, ls: seq<Label>)
    requires Fresh0(s) && Run(s, ls) && CursoredRun(s, ls)
    ensures MxInv(Exec(s, ls))
  {
    if ls != [] {
      RunKeeps(s, ls[..|ls| - 1]);
      StepKeeps(Exec(s, ls[..|ls| - 1]), ls[|ls| - 1]);
    }
  }

  /** At most once and in order: over every cursored run with any crashes (including one that
      tears the cursor file), failed sends, aborted batches and undecryptable events, the sent
      positions strictly rise through people's messages. */
  lemma AtMostOnceInOrder(s: Sys, ls: seq<Label>)
    requires Fresh0(s) && Run(s, ls) && CursoredRun(s, ls)
    ensures var t := Exec(s, ls);
      && Rising(t.sentTg)
      && forall i :: 0 <= i < |t.sentTg| ==>
           t.sentTg[i] < |t.mxLog| && MxRelayable(t.mxLog[t.sentTg[i]])
  {
    RunKeeps(s, ls);
  }

  // ---- Completeness when nothing fails --------------------------------------------

  /** Positions of people's messages in `[lo, hi)`. */
  function RelPos(log: seq<MxEvent>, lo: nat, hi: nat): seq<nat>
    requires hi <= |log|
  {
    if hi <= lo then []
    else RelPos(log, lo, hi - 1) + if MxRelayable(log[hi - 1]) then [hi - 1] else []
  }

  /** Nothing fails: the first-start sync works, sends succeed, everything decrypts, each sync
      returns the whole new segment, and the process stops only between batches. */
  predicate Smooth(s: Sys, l: Label) {
    match l
    case MxSend(ok, _) => ok
    case MxGiveUp => false
    case MxAbort => false
    case TornCursor => false
    case Boot(a) => s.nb.None? ==> a.Answer? && a.next.Some?
    case MxSync(a) => a.Answer? && s.nb.Some? ==> a.from == s.nb.value
    case Restart(_) => s.mx.MxIdle?
    case _ => true
  }

  ghost predicate SmoothRun(s: Sys, ls: seq<Label>) {
    ls == [] || (SmoothRun(s, ls[..|ls| - 1]) && Smooth(Exec(s, ls[..|ls| - 1]), ls[|ls| - 1]))
  }

  /** Event ids at positions below the bound. */
  ghost function IdsBelow(log: seq<MxEvent>, bound: nat): set<EventId> {
    set p | 0 <= p < |log| && p < bound :: log[p].id
  }

  /** The ring only ever holds ids of events already handled (or being sent). */
  ghost predicate SeenBelow(log: seq<MxEvent>, seen: seq<EventId>, bound: nat) {
    Elems(seen) <= IdsBelow(log, bound)
  }

  function MarkedUpTo(s: Sys): nat { if s.mx.MxMarked? then s.mx.pos + 1 else Handled(s) }

  ghost predicate UniqueIds(log: seq<MxEvent>) {
    forall i, j :: 0 <= i < j < |log| ==> log[i].id != log[j].id
  }

  /** A batch is the whole stretch up to the cursor. */
  ghost predicate Contiguous(s: Sys) {
    && (s.firstNb.Some? ==> s.nb.Some? && s.firstNb.value <= Handled(s)) && (s.up ==> s.nb.Some?)
    && (Todo(s.mx) != [] ==>
          s.nb.Some? && Handled(s) <= s.nb.value && Todo(s.mx) == Range(Handled(s), s.nb.value))
  }

  ghost predicate RingsBelow(log: seq<MxEvent>, mem: seq<EventId>, disk: seq<EventId>, bound: nat) {
    SeenBelow(log, mem, bound) && SeenBelow(log, disk, bound)
  }

  ghost predicate Complete(log: seq<MxEvent>, sent: seq<nat>, firstNb: Option<nat>, handled: nat) {
    if firstNb.None? then sent == [] else handled <= |log| && sent == RelPos(log, firstNb.value, handled)
  }

  ghost predicate Whole(s: Sys) {
    && MxInv(s) && UniqueIds(s.mxLog) && Contiguous(s)
    && RingsBelow(s.mxLog, s.mem.seen, s.disk.seen, MarkedUpTo(s))
    && Complete(s.mxLog, s.sentTg, s.firstNb, Handled(s))
  }

  lemma {:induction false} RelPosGrow(log: seq<MxEvent>, e: MxEvent, lo: nat, hi: nat)
    requires hi <= |log|
    ensures RelPos(log + [e], lo, hi) == RelPos(log, lo, hi)
  {
    if lo < hi { RelPosGrow(log, e, lo, hi - 1); }
  }

  lemma UniqueGrows(s: Sys, e: MxEvent)
    requires UniqueIds(s.mxLog) && NewEventId(s, e.id)
    ensures UniqueIds(s.mxLog + [e])
  {
  }

  lemma RingsGrow(log: seq<MxEvent>, e: MxEvent, mem: seq<EventId>, disk: seq<EventId>, a: nat, b: nat)
    requires RingsBelow(log, mem, disk, a) && a <= b
    ensures RingsBelow(log + [e], mem, disk, b)
  {
    IdsBelowGrow(log, e, a);
    IdsBelowWiden(log + [e], a, b);
  }

  lemma WholeLogGrows(s: Sys, t: Sys, e: MxEvent)
    requires Whole(s) && MxInv(t) && t.mxLog == s.mxLog + [e] && NewEventId(s, e.id)
    requires t.nb == s.nb && t.up == s.up && t.mx == s.mx && t.mem.seen == s.mem.seen && t.disk == s.disk
    requires t.sentTg == s.sentTg && t.firstNb == s.firstNb
    ensures Whole(t)
  {
    UniqueGrows(s, e);
    RingsGrow(s.mxLog, e, s.mem.seen, s.disk.seen, MarkedUpTo(s), MarkedUpTo(t));
    if s.firstNb.Some? {
      RelPosGrow(s.mxLog, e, s.firstNb.value, Handled(s));
    }
  }

  lemma RangeTail(lo: nat, hi: nat)
    requires lo < hi
    ensures Range(lo, hi)[0] == lo && Range(lo, hi)[1..] == Range(lo + 1, hi)
  {
  }

  /** Handling the head of a batch moves the frontier by one. */
  lemma HeadHandled(s: Sys, t: Sys)
    requires Whole(s) && MxInv(t) && s.mx.MxBatch? && s.mx.todo != [] && s.mx.todo[0] < |s.mxLog|
    requires !MxRelayable(s.mxLog[s.mx.todo[0]])
    requires t.mx == MxBatch(s.mx.todo[1..]) && t.mxLog == s.mxLog && t.nb == s.nb && t.firstNb == s.firstNb
    requires t.sentTg == s.sentTg && t.disk == s.disk
    requires t.mem.seen == s.mem.seen || t.mem.seen == Mark(s.mem.seen, s.mxLog[s.mx.todo[0]].id)
    ensures Whole(t)
  {
    var h := Handled(s);
    RangeTail(h, s.nb.value);
    assert Todo(t.mx) == Range(h + 1, t.nb.value);
    assert Handled(t) == h + 1 == MarkedUpTo(t);
    MarkBelow(s.mxLog, s.mem.seen, h);
    MarkBelow(s.mxLog, s.disk.seen, h);
    RelPosSkip(s.mxLog, s.firstNb.value, h);
  }

  lemma RelPosSkip(log: seq<MxEvent>, lo: nat, h: nat)
    requires h < |log| && !MxRelayable(log[h])
    ensures RelPos(log, lo, h + 1) == RelPos(log, lo, h)
  {
  }

  lemma MarkBelow(log: seq<MxEvent>, seen: seq<EventId>, p: nat)
    requires SeenBelow(log, seen, p) && p < |log|
    ensures SeenBelow(log, seen, p + 1) && SeenBelow(log, Mark(seen, log[p].id), p + 1)
  {
    IdsBelowWiden(log, p, p + 1);
    var all := seen + [log[p].id];
    assert Elems(all) <= IdsBelow(log, p + 1);
    assert forall x :: x in Mark(seen, log[p].id) ==> x in all;
  }

  lemma IdsBelowWiden(log: seq<MxEvent>, a: nat, b: nat)
    requires a <= b
    ensures IdsBelow(log, a) <= IdsBelow(log, b)
  {
  }

  lemma IdsBelowGrow(log: seq<MxEvent>, e: MxEvent, bound: nat)
    ensures IdsBelow(log, bound) <= IdsBelow(log + [e], bound)
  {
    forall x | x in IdsBelow(log, bound) ensures x in IdsBelow(log + [e], bound) {
      var p :| 0 <= p < |log| && p < bound && log[p].id == x;
      assert (log + [e])[p] == log[p];
    }
  }

  lemma RangeSplit(pos: nat, todo: seq<nat>, hi: nat)
    requires pos < hi && [pos] + todo == Range(pos, hi)
    ensures todo == Range(pos + 1, hi)
  {
    assert todo == ([pos] + todo)[1..];
    RangeTail(pos, hi);
  }

  lemma SmoothSend(s: Sys, id: nat)
    requires Whole(s) && Enabled(s, MxSend(true, id))
    ensures Whole(Apply(s, MxSend(true, id)))
  {
    SendKeeps(s, true, id);
    var t := Apply(s, MxSend(true, id));
    SmoothSent(s, id);
    hide MxInv, UniqueIds, SeenBelow, RelPos;
    assert Todo(s.mx)[0] == s.mx.pos;
    RangeSplit(s.mx.pos, s.mx.todo, s.nb.value);
    assert Handled(t) == s.mx.pos + 1 == MarkedUpTo(s);
    assert RingsBelow(t.mxLog, t.mem.seen, t.disk.seen, MarkedUpTo(t));
  }

  lemma SmoothSent(s: Sys, id: nat)
    requires Whole(s) && Enabled(s, MxSend(true, id))
    ensures var t := Apply(s, MxSend(true, id)); Complete(t.mxLog, t.sentTg, t.firstNb, Handled(t))
  {
    hide SeenBelow, UniqueIds;
    assert Todo(s.mx)[0] == s.mx.pos;
    RangeSplit(s.mx.pos, s.mx.todo, s.nb.value);
  }

  lemma SmoothMark(s: Sys)
    requires Whole(s) && Enabled(s, MxMark)
    ensures Whole(Apply(s, MxMark))
  {
    var t := Apply(s, MxMark);
    MarkKeeps(s);
    MarkBelow(s.mxLog, s.mem.seen, Handled(s));
    MarkBelow(s.mxLog, s.disk.seen, Handled(s));
    assert Todo(t.mx) == s.mx.todo;
    assert RingsBelow(t.mxLog, t.mem.seen, t.disk.seen, MarkedUpTo(t));
  }

  lemma SaveWhole(s: Sys, t: Sys)
    requires Whole(s) && MxInv(t) && t.mxLog == s.mxLog && t.nb == s.nb && t.firstNb == s.firstNb && t.up == s.up
    requires Todo(t.mx) == Todo(s.mx) && MarkedUpTo(t) == MarkedUpTo(s) && t.sentTg == s.sentTg
    requires t.mem.seen == s.mem.seen && t.disk.seen in {s.disk.seen, Saved(s.mem).seen}
    ensures Whole(t)
  {
    SavedBelow(s.mxLog, s.mem, MarkedUpTo(s));
  }

  /** A message that reached `mark_mx` is never mistaken for a repeat. */
  lemma SkipIsRight(s: Sys)
    requires Whole(s) && Enabled(s, MxSkip)
    ensures !MxRelayable(s.mxLog[s.mx.todo[0]])
  {
    var p := s.mx.todo[0];
    assert p == Handled(s);
    assert s.mxLog[p].id !in IdsBelow(s.mxLog, p);
    assert s.mxLog[p].id !in Elems(s.mem.seen);
  }

  lemma SavedBelow(log: seq<MxEvent>, c: Cursors, bound: nat)
    requires SeenBelow(log, c.seen, bound)
    ensures SeenBelow(log, Saved(c).seen, bound)
  {
    assert forall x :: x in Saved(c).seen ==> x in c.seen;
  }

  lemma MxStepWhole(s: Sys, l: Label)
    requires Whole(s) && Enabled(s, l) && Cursored(s, l) && Smooth(s, l) && ByMatrixLoop(l)
    ensures Whole(Apply(s, l))
  {
    match l
    case MxSync(a) => WholeSync(s, a);
    case MxSkip => SkipIsRight(s); MxStepKeeps(s, l); HeadHandled(s, Apply(s, l));
    case MxMark => SmoothMark(s);
    case MxSend(ok, id) => SmoothSend(s, id);
    case MxCommit => MxStepKeeps(s, l); SaveWhole(s, Apply(s, l));
    case MxEnd => MxStepKeeps(s, l); SaveWhole(s, Apply(s, l));
  }

  lemma TgSendWhole(s: Sys, ok: bool, e: EventId)
    requires Whole(s) && Enabled(s, TgSend(ok, e))
    ensures Whole(Apply(s, TgSend(ok, e)))
  {
    TgSendKeeps(s, ok, e);
    if ok { WholeLogGrows(s, Apply(s, TgSend(ok, e)), MxEvent(e, true, true, Text, Some(s.tg.todo[0].id))); }
  }

  /** A stop between batches, graceful or not. */
  lemma RestartWhole(s: Sys, graceful: bool)
    requires Whole(s) && s.mx.MxIdle?
    ensures Whole(Apply(s, Restart(graceful)))
  {
    ProcessKeeps(s, Restart(graceful));
    SavedBelow(s.mxLog, s.mem, MarkedUpTo(s));
  }

  lemma StepWhole(s: Sys, l: Label)
    requires Whole(s) && Enabled(s, l) && Cursored(s, l) && Smooth(s, l)
    ensures Whole(Apply(s, l))
  {
    if ByMatrixLoop(l) {
      MxStepWhole(s, l);
    } else if l.TgSend? {
      TgSendWhole(s, l.ok, l.eventId);
    } else if l.HumanMx? {
      StepKeeps(s, l);
      WholeLogGrows(s, Apply(s, l), l.ev);
    } else if l.Boot? {
      WholeBoot(s, l.answer);
    } else if l.Restart? {
      RestartWhole(s, l.graceful);
    } else {
      TelegramSideFrame(s, l);
      SaveWhole(s, Apply(s, l));
    }
  }

  lemma WholeBoot(s: Sys, a: Answer)
    requires Whole(s) && Enabled(s, Boot(a)) && Smooth(s, Boot(a))
    ensures Whole(Apply(s, Boot(a)))
  {
  }

  lemma WholeSync(s: Sys, a: Answer)
    requires Whole(s) && Enabled(s, MxSync(a)) && Cursored(s, MxSync(a)) && Smooth(s, MxSync(a))
    ensures Whole(Apply(s, MxSync(a)))
  {
    SyncKeeps(s, a);
    var t := Apply(s, MxSync(a));
    assert Handled(t) == Handled(s);
  }

  lemma {:induction false} RunWhole(s: Sys, ls: seq<Label>)
    requires Fresh0(s) && Run(s, ls) && CursoredRun(s, ls) && SmoothRun(s, ls)
    ensures Whole(Exec(s, ls))
  {
    if ls != [] {
      RunWhole(s, ls[..|ls| - 1]);
      StepWhole(Exec(s, ls[..|ls| - 1]), ls[|ls| - 1]);
    }
  }

  /** When nothing fails, the sent stream is exactly the filtered timeline from the first
      cursor up to the next event to handle: the dedup ring drops nothing it should keep. */
  lemma NothingLost(s: Sys, ls: seq<Label>)
    requires Fresh0(s) && Run(s, ls) && CursoredRun(s, ls) && SmoothRun(s, ls)
    ensures var t := Exec(s, ls);
      && Handled(t) <= |t.mxLog|
      && t.sentTg == (if t.firstNb.None? then [] else RelPos(t.mxLog, t.firstNb.value, Handled(t)))
  {
    RunWhole(s, ls);
  }
}
