/** The closed two-sided system: every relay post is the forward of something a person wrote
    on the other side, so forwarding cannot feed itself, and with no new human posts and no
    crash it stops. */
module RelayEcho {
  import opened Prelude
  import opened RelayModel
  import Tg = RelayTelegram
  import Mx = RelayMatrix

  // ---- No echo --------------------------------------------------------------------

  /** What the relay's own Matrix posts forward, in timeline order. */
  function MxSources(log: seq<MxEvent>): seq<nat> {
    if log == [] then []
    else
      var e := log[|log| - 1];
      MxSources(log[..|log| - 1]) + if e.src.Some? then [e.src.value] else []
  }

  /** What the relay's own Telegram posts forward, in id order. */
  function TgSources(log: seq<TgMsg>): seq<nat> {
    if log == [] then []
    else
      var m := log[|log| - 1];
      TgSources(log[..|log| - 1]) + if m.src.Some? then [m.src.value] else []
  }

  ghost predicate Traced(s: Sys) {
    MxSources(s.mxLog) == s.sentMx && TgSources(s.tgLog) == s.sentTg
  }

  lemma SourcesSnoc(mx: seq<MxEvent>, e: MxEvent, tg: seq<TgMsg>, m: TgMsg)
    ensures MxSources(mx + [e]) == MxSources(mx) + if e.src.Some? then [e.src.value] else []
    ensures TgSources(tg + [m]) == TgSources(tg) + if m.src.Some? then [m.src.value] else []
  {
    assert (mx + [e])[..|mx|] == mx && (tg + [m])[..|tg|] == tg;
  }

  lemma StepTraced(s: Sys, l: Label)
    requires Traced(s) && Enabled(s, l)
    ensures Traced(Apply(s, l))
  {
    hide MxSources, TgSources;
    var noMsg, noEvent := TgMsg(1, false, false, None), MxEvent("", false, false, Text, None);
    if l.HumanTg? {
      SourcesSnoc(s.mxLog, noEvent, s.tgLog, l.msg);
    } else if l.HumanMx? {
      SourcesSnoc(s.mxLog, l.ev, s.tgLog, noMsg);
    } else if l.TgSend? {
      SourcesSnoc(s.mxLog, MxEvent(l.eventId, true, true, Text, Some(s.tg.todo[0].id)), s.tgLog, noMsg);
    } else if l.MxSend? {
      SourcesSnoc(s.mxLog, noEvent, s.tgLog, TgMsg(l.id, true, true, Some(s.mx.pos)));
    }
  }

  lemma {:induction false} RunTraced(s: Sys, ls: seq<Label>)
    requires Fresh0(s) && Run(s, ls)
    ensures Traced(Exec(s, ls))
  {
    if ls == [] {
      NoSources(s.mxLog, s.tgLog);
    } else {
      RunTraced(s, ls[..|ls| - 1]);
      StepTraced(Exec(s, ls[..|ls| - 1]), ls[|ls| - 1]);
    }
  }

  lemma {:induction false} NoSources(mx: seq<MxEvent>, tg: seq<TgMsg>)
    requires forall i :: 0 <= i < |mx| ==> mx[i].src.None?
    requires forall i :: 0 <= i < |tg| ==> tg[i].src.None?
    ensures MxSources(mx) == [] && TgSources(tg) == []
    decreases |mx| + |tg|
  {
    if mx != [] {
      NoSources(mx[..|mx| - 1], tg);
    } else if tg != [] {
      NoSources(mx, tg[..|tg| - 1]);
    }
  }

  /** Positions of the timeline where a person said something that can be relayed. */
  ghost function HumanPositions(log: seq<MxEvent>): set<nat> {
    set p | 0 <= p < |log| && Mx.MxRelayable(log[p])
  }

  lemma {:induction false} RisingElems(s: seq<nat>)
    requires Mx.Rising(s)
    ensures |Elems(s)| == |s|
  {
    if s == [] {
      assert Elems(s) == {};
    } else {
      var f := s[..|s| - 1];
      RisingElems(f);
      assert Elems(s) == Elems(f) + {s[|s| - 1]};
    }
  }

  /** The Matrix loop only ever forwards what a person wrote. */
  ghost predicate HumanSent(s: Sys) {
    && (forall p :: p in s.sentTg ==> p in HumanPositions(s.mxLog))
    && (s.mx.MxMarked? ==> s.mx.pos in HumanPositions(s.mxLog))
  }

  lemma HumanPositionsGrow(log: seq<MxEvent>, e: MxEvent)
    ensures HumanPositions(log) <= HumanPositions(log + [e])
  {
    assert forall p :: 0 <= p < |log| ==> (log + [e])[p] == log[p];
  }

  lemma HumanSentStep(s: Sys, l: Label)
    requires HumanSent(s) && Enabled(s, l)
    ensures HumanSent(Apply(s, l))
  {
    if l.TgSend? {
      HumanPositionsGrow(s.mxLog, MxEvent(l.eventId, true, true, Text, Some(s.tg.todo[0].id)));
    } else if l.HumanMx? {
      HumanPositionsGrow(s.mxLog, l.ev);
    } else if l.MxSend? {
      assert Apply(s, l).sentTg == s.sentTg || Apply(s, l).sentTg == s.sentTg + [s.mx.pos];
    } else if !Mx.ByMatrixLoop(l) && !l.Boot? && !l.Restart? && !l.TornCursor? {
      Mx.TelegramSideFrame(s, l);
    }
  }

  lemma {:induction false} RunHumanSent(s: Sys, ls: seq<Label>)
    requires Fresh0(s) && Run(s, ls)
    ensures HumanSent(Exec(s, ls))
  {
    if ls != [] {
      RunHumanSent(s, ls[..|ls| - 1]);
      HumanSentStep(Exec(s, ls[..|ls| - 1]), ls[|ls| - 1]);
    }
  }

  /** No echo, over every run: the relay's posts on each side are, in order, exactly its sends,
      and each forwards a message a person wrote on the other side. So there are at most as
      many on Matrix as people's messages and one for each restart; and on Telegram, while
      syncs move their cursor, at most as many as people's messages. */
  lemma NoEcho(s: Sys, ls: seq<Label>)
    requires Fresh0(s) && Run(s, ls)
    ensures var t := Exec(s, ls);
      && (forall x :: x in MxSources(t.mxLog) ==> x in Tg.HumanIds(t.tgLog))
      && (forall p :: p in TgSources(t.tgLog) ==> p in HumanPositions(t.mxLog))
      && |MxSources(t.mxLog)| <= |Tg.HumanIds(t.tgLog)| + t.restarts
      && (Mx.CursoredRun(s, ls) ==> |TgSources(t.tgLog)| <= |HumanPositions(t.mxLog)|)
  {
    var t := Exec(s, ls);
    RunTraced(s, ls);
    RunHumanSent(s, ls);
    Tg.SendsBounded(s, ls);
    if Mx.CursoredRun(s, ls) {
      Mx.AtMostOnceInOrder(s, ls);
      RisingElems(t.sentTg);
      SubsetSize(Elems(t.sentTg), HumanPositions(t.mxLog));
    }
  }

  // ---- A failed Matrix-to-Telegram send is final -----------------------------------

  /** The frontier never moves back, and the only position a step can send is the frontier. */
  lemma FrontierForward(s: Sys, l: Label)
    requires Mx.MxInv(s) && Enabled(s, l) && Mx.Cursored(s, l)
    ensures var t := Apply(s, l);
      && Mx.Handled(s) <= Mx.Handled(t)
      && (t.sentTg == s.sentTg || (t.sentTg == s.sentTg + [Mx.Handled(s)] && Mx.Handled(s) < Mx.Handled(t)))
  {
    if l.MxSend? {
      Mx.SendKeeps(s, l.posted, l.id);
      Mx.TodoTail(s.mx.pos, s.mx.todo);
    } else if Mx.ByMatrixLoop(l) {
      BatchForward(s, l);
    }
  }

  lemma BatchForward(s: Sys, l: Label)
    requires Mx.MxInv(s) && Enabled(s, l) && Mx.Cursored(s, l) && Mx.ByMatrixLoop(l) && !l.MxSend?
    ensures Mx.Handled(s) <= Mx.Handled(Apply(s, l)) && Apply(s, l).sentTg == s.sentTg
  {
    match l
    case MxSync(a) => Mx.SyncKeeps(s, a);
    case MxMark => assert Mx.Todo(Apply(s, l).mx) == s.mx.todo;
    case MxSkip => assert Mx.Todo(Apply(s, l).mx) == s.mx.todo[1..];
    case MxGiveUp => assert Mx.Todo(Apply(s, l).mx) == s.mx.todo[1..];
    case MxCommit =>
    case MxEnd =>
    case MxAbort =>
  }

  /** A position passed over (its send failed, it would not decrypt, a crash ate its batch) is
      never sent afterwards, whatever happens: nothing retries it. */
  lemma {:induction false} NeverRetried(s: Sys, ls: seq<Label>, p: nat)
    requires Mx.MxInv(s) && Run(s, ls) && Mx.CursoredRun(s, ls)
    requires p < Mx.Handled(s) && p !in s.sentTg
    ensures p !in Exec(s, ls).sentTg && p < Mx.Handled(Exec(s, ls)) && Mx.MxInv(Exec(s, ls))
  {
    if ls != [] {
      var f := ls[..|ls| - 1];
      NeverRetried(s, f, p);
      Mx.StepKeeps(Exec(s, f), ls[|ls| - 1]);
      FrontierForward(Exec(s, f), ls[|ls| - 1]);
    }
  }

  // ---- Quiescence -----------------------------------------------------------------

  function TgWeightOf(m: TgMsg): nat { if m.own then 1 else 2 }
  function MxWeightOf(e: MxEvent): nat { if e.own then 1 else 2 }

  /** Twice the human messages plus the own messages above a cursor. */
  function TgWeight(log: seq<TgMsg>, above: nat): nat {
    if log == [] then 0
    else
      var m := log[|log| - 1];
      TgWeight(log[..|log| - 1], above) + if above < m.id then TgWeightOf(m) else 0
  }

  /** The same for the timeline from a position on. */
  function MxWeight(log: seq<MxEvent>, from: nat): nat {
    if |log| <= from then 0
    else MxWeight(log[..|log| - 1], from) + MxWeightOf(log[|log| - 1])
  }

  /** The same for the positions of a batch. */
  function BatchWeight(log: seq<MxEvent>, todo: seq<nat>): nat {
    if todo == [] then 0
    else (if todo[0] < |log| then MxWeightOf(log[todo[0]]) else 0) + BatchWeight(log, todo[1..])
  }

  function TgPoint(s: Sys): nat { if s.tg.TgPosted? then s.tg.msg.id else s.mem.tg }
  function NbPoint(s: Sys): nat { if s.nb.Some? then s.nb.value else 0 }

  /** Work the two loops still owe. */
  function Pending(s: Sys): nat {
    TgWeight(s.tgLog, TgPoint(s)) + MxWeight(s.mxLog, NbPoint(s)) + BatchWeight(s.mxLog, Mx.Todo(s.mx))
  }

  /** No person writes and the process does not stop. Sends may fail and passes may abort. */
  predicate Quiet(l: Label) {
    !l.HumanTg? && !l.HumanMx? && !l.Restart? && !l.TornCursor?
  }

  /** Steps that handle one message. */
  predicate Works(l: Label) {
    l.TgSkip? || (l.TgSend? && l.ok) || l.MxSkip? || l.MxGiveUp? || l.MxSend?
  }

  function Work(ls: seq<Label>): nat {
    if ls == [] then 0 else Work(ls[..|ls| - 1]) + if Works(ls[|ls| - 1]) then 1 else 0
  }

  ghost predicate QuietRun(ls: seq<Label>) {
    forall i :: 0 <= i < |ls| ==> Quiet(ls[i])
  }

  lemma {:induction false} TgWeightRaise(log: seq<TgMsg>, a: nat, b: nat)
    requires a <= b
    ensures TgWeight(log, b) <= TgWeight(log, a)
  {
    if log != [] { TgWeightRaise(log[..|log| - 1], a, b); }
  }

  lemma {:induction false} TgWeightPast(log: seq<TgMsg>, a: nat, b: nat)
    requires Ascending(log) && a < b && b in Tg.Ids(log)
    ensures TgWeight(log, b) + 1 <= TgWeight(log, a)
    ensures b in Tg.HumanIds(log) ==> TgWeight(log, b) + 2 <= TgWeight(log, a)
  {
    var f := log[..|log| - 1];
    var i :| 0 <= i < |log| && log[i].id == b;
    if i == |log| - 1 {
      TgWeightRaise(f, a, b);
    } else {
      assert f[i].id == b;
      TgWeightPast(f, a, b);
      if b in Tg.HumanIds(log) {
        var k :| 0 <= k < |log| && Relayable(log[k]) && log[k].id == b;
        assert k == i && f[k] == log[k];
      }
    }
  }

  lemma {:induction false} MxWeightSplit(log: seq<MxEvent>, a: nat, b: nat)
    requires a <= b <= |log|
    ensures MxWeight(log, a) == BatchWeight(log, Range(a, b)) + MxWeight(log, b)
    decreases b - a
  {
    if a < b {
      MxWeightFirst(log, a);
      MxWeightSplit(log, a + 1, b);
      Mx.RangeTail(a, b);
    } else {
      assert Range(a, b) == [];
    }
  }

  lemma {:induction false} MxWeightFirst(log: seq<MxEvent>, a: nat)
    requires a < |log|
    ensures MxWeight(log, a) == MxWeightOf(log[a]) + MxWeight(log, a + 1)
  {
    if a < |log| - 1 {
      MxWeightFirst(log[..|log| - 1], a);
    } else {
      assert MxWeight(log[..a], a) == 0;
    }
  }

  lemma {:induction false} BatchWeightGrow(log: seq<MxEvent>, e: MxEvent, todo: seq<nat>)
    requires forall i :: 0 <= i < |todo| ==> todo[i] < |log|
    ensures BatchWeight(log + [e], todo) == BatchWeight(log, todo)
  {
    if todo != [] { BatchWeightGrow(log, e, todo[1..]); }
  }

  lemma MxWeightGrow(log: seq<MxEvent>, e: MxEvent, from: nat)
    requires from <= |log|
    ensures MxWeight(log + [e], from) == MxWeight(log, from) + MxWeightOf(e)
  {
    assert (log + [e])[..|log|] == log;
  }

  lemma TgWeightGrow(log: seq<TgMsg>, m: TgMsg, above: nat)
    requires above < m.id
    ensures TgWeight(log + [m], above) == TgWeight(log, above) + TgWeightOf(m)
  {
    assert (log + [m])[..|log|] == log;
  }

  lemma TgSendPays(s: Sys, e: EventId)
    requires Tg.TgInv(s) && Mx.MxInv(s) && Enabled(s, TgSend(true, e))
    ensures Pending(Apply(s, TgSend(true, e))) + 1 <= Pending(s)
  {
    var m := s.tg.todo[0];
    TgWeightPast(s.tgLog, s.mem.tg, m.id);
    MxWeightGrow(s.mxLog, MxEvent(e, true, true, Text, Some(m.id)), NbPoint(s));
    BatchWeightGrow(s.mxLog, MxEvent(e, true, true, Text, Some(m.id)), Mx.Todo(s.mx));
  }

  lemma MxSendPays(s: Sys, ok: bool, id: nat)
    requires Tg.TgInv(s) && Mx.MxInv(s) && Enabled(s, MxSend(ok, id))
    ensures Pending(Apply(s, MxSend(ok, id))) + 1 <= Pending(s)
  {
    assert Mx.Todo(s.mx)[1..] == s.mx.todo && Mx.Todo(s.mx)[0] == s.mx.pos;
    if ok {
      assert TgPoint(s) <= Tg.Top(s.tgLog) || s.tgLog == [];
      TgWeightGrow(s.tgLog, TgMsg(id, true, true, Some(s.mx.pos)), TgPoint(s));
    }
  }

  lemma SyncOwesNoMore(s: Sys, a: Answer)
    requires Mx.MxInv(s) && Enabled(s, MxSync(a)) && Mx.Cursored(s, MxSync(a))
    ensures Pending(Apply(s, MxSync(a))) <= Pending(s)
  {
    if a.Answer? {
      MxWeightSplit(s.mxLog, NbPoint(s), a.from);
      MxWeightSplit(s.mxLog, a.from, a.upTo);
    }
  }

  lemma HeadPays(s: Sys, l: Label)
    requires Enabled(s, l) && (l.MxSkip? || l.MxGiveUp?)
    ensures Pending(Apply(s, l)) + 1 <= Pending(s)
  {
  }

  lemma TgStepPays(s: Sys, l: Label)
    requires Tg.TgInv(s) && Mx.MxInv(s) && Enabled(s, l) && Tg.ByTelegramLoop(l)
    ensures Pending(Apply(s, l)) + (if Works(l) then 1 else 0) <= Pending(s)
  {
    match l
    case TgSkip => TgWeightPast(s.tgLog, s.mem.tg, s.tg.todo[0].id);
    case TgSend(ok, e) => if ok { TgSendPays(s, e); }
    case TgFetch => TgWeightRaise(s.tgLog, s.mem.tg, Apply(s, l).mem.tg);
    case TgCommit =>
    case TgEnd =>
    case TgAbort =>
  }

  lemma MxStepPays(s: Sys, l: Label)
    requires Tg.TgInv(s) && Mx.MxInv(s) && Enabled(s, l) && Mx.Cursored(s, l) && Mx.ByMatrixLoop(l)
    ensures Pending(Apply(s, l)) + (if Works(l) then 1 else 0) <= Pending(s)
  {
    match l
    case MxSync(a) => SyncOwesNoMore(s, a);
    case MxSkip => HeadPays(s, l);
    case MxGiveUp => HeadPays(s, l);
    case MxSend(ok, id) => MxSendPays(s, ok, id);
    case MxMark => assert Mx.Todo(Apply(s, l).mx) == s.mx.todo;
    case MxCommit =>
    case MxEnd =>
    case MxAbort =>
  }

  /** One quiet step never adds to what is owed, and handling a message takes away from it. */
  lemma QuietStepPays(s: Sys, l: Label)
    requires Tg.TgInv(s) && Mx.MxInv(s) && Enabled(s, l) && Mx.Cursored(s, l) && Quiet(l)
    ensures Pending(Apply(s, l)) + (if Works(l) then 1 else 0) <= Pending(s)
  {
    if Tg.ByTelegramLoop(l) {
      TgStepPays(s, l);
    } else if Mx.ByMatrixLoop(l) {
      MxStepPays(s, l);
    } else if s.nb.None? {
      MxWeightSplit(s.mxLog, 0, NbPoint(Apply(s, l)));
    }
  }

  /** With nobody writing and no crash, the messages handled are paid for by the weight pending
      at the start, so both loops stop, and sends are no more than that weight. */
  lemma {:induction false} Quiesces(s: Sys, ls: seq<Label>)
    requires Tg.TgInv(s) && Mx.MxInv(s) && Run(s, ls) && Mx.CursoredRun(s, ls) && QuietRun(ls)
    ensures var t := Exec(s, ls);
      && Tg.TgInv(t) && Mx.MxInv(t)
      && Work(ls) + Pending(t) <= Pending(s)
      && |t.sentMx| + |t.sentTg| <= |s.sentMx| + |s.sentTg| + Work(ls)
  {
    if ls != [] {
      var f, l := ls[..|ls| - 1], ls[|ls| - 1];
      Quiesces(s, f);
      var m := Exec(s, f);
      QuietStepPays(m, l);
      Tg.StepKeeps(m, l);
      Mx.StepKeeps(m, l);
      OneSendPerStep(m, l);
    }
  }

  lemma OneSendPerStep(s: Sys, l: Label)
    requires Enabled(s, l)
    ensures var t := Apply(s, l);
      |t.sentMx| + |t.sentTg| <= |s.sentMx| + |s.sentTg| + if Works(l) then 1 else 0
  {
  }

  /** While something is owed, an idle relay's next poll or whole sync finds it. */
  lemma OwedIsFound(s: Sys)
    requires Tg.TgInv(s) && Mx.MxInv(s) && s.up && s.tg == TgIdle && s.mx == MxIdle && 0 < Pending(s)
    ensures
      || Apply(s, TgFetch) != s
      || Mx.Todo(Apply(s, MxSync(Answer(Some(|s.mxLog|), NbPoint(s), |s.mxLog|))).mx) != []
  {
    if |s.mxLog| <= NbPoint(s) {
      assert 0 < TgWeight(s.tgLog, s.mem.tg);
      TgWeightTop(s.tgLog, s.mem.tg);
    }
  }

  lemma {:induction false} TgWeightTop(log: seq<TgMsg>, above: nat)
    requires Ascending(log) && 0 < TgWeight(log, above)
    ensures above < Tg.Top(log)
  {
    var f := log[..|log| - 1];
    if log[|log| - 1].id <= above {
      TgWeightTop(f, above);
    }
  }
}
