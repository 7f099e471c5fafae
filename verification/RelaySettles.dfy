/** Left alone, the relay comes to rest: a poll, a Matrix pass and another poll, none of whose
    sends fails, leave nothing pending on either side. */
module RelaySettles {
  import opened Prelude
  import opened RelayModel
  import opened RelayPasses
  import Tg = RelayTelegram
  import Mx = RelayMatrix
  import Echo = RelayEcho

  /** Every post of the poll succeeds. */
  predicate AllSent(outcomes: seq<TgOutcome>) { forall i :: 0 <= i < |outcomes| ==> outcomes[i].Sent? }

  /** The server returns everything since the cursor, and says where it ends. */
  function WholeAnswer(s: Sys): Answer { Answer(Some(|s.mxLog|), Echo.NbPoint(s), |s.mxLog|) }

  // ---- A poll ----------------------------------------------------------------------

  /** A pass whose sends succeed records every message it handles. */
  lemma {:induction false} AllReaches(s: Sys, outcomes: seq<TgOutcome>, n: nat)
    requires s.tg.TgPass? && n <= |s.tg.todo| && n <= |outcomes| && AllSent(outcomes)
    ensures var t := AfterAll(s, outcomes, n);
      && t.tgLog == s.tgLog && t.nb == s.nb && t.mx == s.mx && t.up == s.up
      && s.mem.tg <= t.mem.tg && (n > 0 ==> s.tg.todo[n - 1].id <= t.mem.tg)
      && ((forall i :: 0 <= i < n ==> !Relayable(s.tg.todo[i])) ==> t.mxLog == s.mxLog)
      && |s.mxLog| <= |t.mxLog|
  {
    if n > 0 {
      AllReaches(s, outcomes, n - 1);
    }
  }

  /** A poll none of whose posts fails leaves the cursor at the end of the Telegram log. */
  lemma PollReaches(s: Sys, outcomes: seq<TgOutcome>)
    requires Ascending(s.tgLog) && s.tg == TgIdle && TG_POLL_LIMIT <= |outcomes| && AllSent(outcomes)
    ensures var t := AfterPoll(s, outcomes);
      && t.tgLog == s.tgLog && t.nb == s.nb && t.mx == s.mx && t.up == s.up && t.tg == TgIdle
      && Tg.Top(s.tgLog) <= t.mem.tg && |s.mxLog| <= |t.mxLog|
  {
    Tg.NewestSuffix(s.tgLog, s.mem.tg, TG_POLL_LIMIT);
    var new_ := Newest(s.tgLog, s.mem.tg, TG_POLL_LIMIT);
    if new_ != [] {
      assert new_[|new_| - 1] == s.tgLog[|s.tgLog| - 1];
      if s.mem.tg != 0 {
        AllReaches(s.(tg := TgPass(new_)), outcomes, |new_|);
      }
    }
  }

  /** And when only the relay's own posts are new, it posts nothing. */
  lemma OwnPollIsSilent(s: Sys, outcomes: seq<TgOutcome>)
    requires Ascending(s.tgLog) && s.tg == TgIdle && TG_POLL_LIMIT <= |outcomes| && AllSent(outcomes)
    requires forall i :: 0 <= i < |s.tgLog| && s.mem.tg < s.tgLog[i].id ==> s.tgLog[i].own
    ensures AfterPoll(s, outcomes).mxLog == s.mxLog
  {
    Tg.NewestSuffix(s.tgLog, s.mem.tg, TG_POLL_LIMIT);
    var new_ := Newest(s.tgLog, s.mem.tg, TG_POLL_LIMIT);
    if new_ != [] && s.mem.tg != 0 {
      var k := |s.tgLog| - |new_|;
      forall i | 0 <= i < |new_| ensures !Relayable(new_[i]) {
        assert new_[i] == s.tgLog[k + i];
      }
      AllReaches(s.(tg := TgPass(new_)), outcomes, |new_|);
    }
  }

  // ---- A Matrix pass ---------------------------------------------------------------

  ghost predicate OwnTail(log: seq<TgMsg>, from: nat) {
    from <= |log| && forall i :: from <= i < |log| ==> log[i].own
  }

  /** A batch only appends the relay's own posts to the Telegram log. */
  lemma {:induction false} BatchAppendsOwn(s: Sys, outcomes: seq<MxOutcome>, n: nat)
    requires s.mx.MxBatch? && n <= |s.mx.todo| && n <= |outcomes|
    requires forall i :: 0 <= i < |s.mx.todo| ==> s.mx.todo[i] < |s.mxLog|
    ensures var t := AfterBatch(s, outcomes, n);
      && t.nb == s.nb && t.tg == s.tg && t.mem.tg == s.mem.tg && t.up == s.up && |s.tgLog| <= |t.tgLog|
      && t.tgLog[..|s.tgLog|] == s.tgLog && OwnTail(t.tgLog, |s.tgLog|)
  {
    if n > 0 {
      BatchAppendsOwn(s, outcomes, n - 1);
      var t := AfterBatch(s, outcomes, n - 1);
      OneAppendsOwn(t, outcomes[n - 1], |s.tgLog|);
    }
  }

  lemma OneAppendsOwn(s: Sys, o: MxOutcome, from: nat)
    requires MxHasHead(s) && OwnTail(s.tgLog, from)
    ensures var t := AfterMx(s, o);
      && t.nb == s.nb && t.tg == s.tg && t.mem.tg == s.mem.tg && t.up == s.up
      && |s.tgLog| <= |t.tgLog| && t.tgLog[..from] == s.tgLog[..from] && OwnTail(t.tgLog, from)
  {
  }

  /** A pass over the whole new timeline leaves the cursor at its end. */
  lemma PassReaches(s: Sys, outcomes: seq<MxOutcome>)
    requires s.mx == MxIdle && Echo.NbPoint(s) <= |s.mxLog| && |s.mxLog| <= |outcomes|
    ensures Fits(WholeAnswer(s), s.nb, |s.mxLog|)
    ensures var t := AfterPass(s, WholeAnswer(s), outcomes);
      && t.nb == Some(|s.mxLog|) && t.mxLog == s.mxLog && t.mx == MxIdle && t.tg == s.tg && t.up == s.up
      && t.mem.tg == s.mem.tg && |s.tgLog| <= |t.tgLog| && t.tgLog[..|s.tgLog|] == s.tgLog
      && OwnTail(t.tgLog, |s.tgLog|)
  {
    var t := ApplyMxSync(s, WholeAnswer(s));
    BatchAppendsOwn(t, outcomes, |t.mx.todo|);
  }

  // ---- Rest ------------------------------------------------------------------------

  lemma {:induction false} NothingAbove(log: seq<TgMsg>, above: nat)
    requires Ascending(log) && Tg.Top(log) <= above
    ensures Echo.TgWeight(log, above) == 0
  {
    if log != [] {
      NothingAbove(log[..|log| - 1], above);
    }
  }

  lemma AtRest(s: Sys)
    requires Ascending(s.tgLog) && s.tg == TgIdle && s.mx == MxIdle
    requires Tg.Top(s.tgLog) <= s.mem.tg && s.nb == Some(|s.mxLog|)
    ensures Echo.Pending(s) == 0
  {
    NothingAbove(s.tgLog, s.mem.tg);
  }

  /** The pass keeps Telegram ids rising. */
  lemma PassAscends(s: Sys, outcomes: seq<MxOutcome>)
    requires Ascending(s.tgLog) && s.mx == MxIdle && Echo.NbPoint(s) <= |s.mxLog| && |s.mxLog| <= |outcomes|
    requires Fits(WholeAnswer(s), s.nb, |s.mxLog|) && UsableIds(outcomes, 0, s.tgLog)
    ensures Ascending(AfterPass(s, WholeAnswer(s), outcomes).tgLog)
  {
    var t := ApplyMxSync(s, WholeAnswer(s));
    BatchAscends(t, outcomes, |t.mx.todo|);
  }

  lemma {:induction false} BatchAscends(s: Sys, outcomes: seq<MxOutcome>, n: nat)
    requires s.mx.MxBatch? && n <= |s.mx.todo| && n <= |outcomes| && UsableIds(outcomes, 0, s.tgLog)
    requires forall i :: 0 <= i < |s.mx.todo| ==> s.mx.todo[i] < |s.mxLog|
    requires Ascending(s.tgLog)
    ensures Ascending(AfterBatch(s, outcomes, n).tgLog)
    ensures UsableIds(outcomes, n, AfterBatch(s, outcomes, n).tgLog)
  {
    hide Ascending, UsableIds, AfterMx;
    if n > 0 {
      BatchAscends(s, outcomes, n - 1);
      var t := AfterBatch(s, outcomes, n - 1);
      assert t.mx.todo[0] == s.mx.todo[n - 1];
      UsableIdsAfter(outcomes, n - 1, t);
      EventAscends(t, outcomes, n - 1);
    }
  }

  lemma EventAscends(t: Sys, outcomes: seq<MxOutcome>, n: nat)
    requires n < |outcomes| && MxHasHead(t) && UsableIds(outcomes, n, t.tgLog) && Ascending(t.tgLog)
    ensures Ascending(AfterMx(t, outcomes[n]).tgLog)
  {
    AfterMxLog(t, outcomes[n]);
  }

  /** What is above a cursor at the end of a log is only what was appended to it. */
  lemma OnlyOwnNew(a: seq<TgMsg>, b: seq<TgMsg>, cursor: nat)
    requires Ascending(a) && |a| <= |b| && b[..|a|] == a && OwnTail(b, |a|) && Tg.Top(a) <= cursor
    ensures forall i :: 0 <= i < |b| && cursor < b[i].id ==> b[i].own
  {
    forall i | 0 <= i < |a| ensures b[i].id <= cursor {
      assert b[i] == a[i] && a[i].id <= Tg.Top(a);
    }
  }

  /** The state after a poll, a whole pass and a poll. */
  ghost function Afterwards(s: Sys, first: seq<TgOutcome>, events: seq<MxOutcome>, second: seq<TgOutcome>): Sys
    requires TG_POLL_LIMIT <= |first| && TG_POLL_LIMIT <= |second|
    requires var a := AfterPoll(s, first); Echo.NbPoint(a) <= |a.mxLog| <= |events|
  {
    var a := AfterPoll(s, first);
    AfterPoll(AfterPass(a, WholeAnswer(a), events), second)
  }

  /** From any idle state, poll, pass and poll again, with nobody writing meanwhile and no post
      to Matrix failing (forwards to Telegram may fail, events may be undecryptable): nothing
      is pending. */
  lemma Settles(s: Sys, first: seq<TgOutcome>, events: seq<MxOutcome>, second: seq<TgOutcome>)
    requires Ascending(s.tgLog) && s.tg == TgIdle && s.mx == MxIdle && Echo.NbPoint(s) <= |s.mxLog|
    requires TG_POLL_LIMIT <= |first| && AllSent(first) && TG_POLL_LIMIT <= |second| && AllSent(second)
    requires |AfterPoll(s, first).mxLog| <= |events| && UsableIds(events, 0, s.tgLog)
    ensures Echo.NbPoint(AfterPoll(s, first)) <= |AfterPoll(s, first).mxLog|
    ensures Echo.Pending(Afterwards(s, first, events, second)) == 0
  {
    PollReaches(s, first);
    var a := AfterPoll(s, first);
    PassReaches(a, events);
    PassAscends(a, events);
    var b := AfterPass(a, WholeAnswer(a), events);
    OnlyOwnNew(a.tgLog, b.tgLog, b.mem.tg);
    PollReaches(b, second);
    OwnPollIsSilent(b, second);
    AtRest(AfterPoll(b, second));
  }

  /** And that is a run of the machine, in which nobody writes and nothing stops. */
  lemma SettlesAsRun(s: Sys, first: seq<TgOutcome>, events: seq<MxOutcome>, second: seq<TgOutcome>)
    returns (ls: seq<Label>)
    requires Ascending(s.tgLog) && s.up && s.tg == TgIdle && s.mx == MxIdle && Echo.NbPoint(s) <= |s.mxLog|
    requires TG_POLL_LIMIT <= |first| && AllSent(first) && TG_POLL_LIMIT <= |second| && AllSent(second)
    requires |AfterPoll(s, first).mxLog| <= |events| && UsableIds(events, 0, s.tgLog)
    requires Usable(first, 0, s.mxLog) && Usable(second, 0, AfterPoll(s, first).mxLog)
    ensures Run(s, ls) && Echo.Pending(Exec(s, ls)) == 0
  {
    Settles(s, first, events, second);
    PollReaches(s, first);
    var a := AfterPoll(s, first);
    PassReaches(a, events);
    var b := AfterPass(a, WholeAnswer(a), events);
    PollIsRun(s, first);
    PassIsRun(a, WholeAnswer(a), events);
    PollIsRun(b, second);
    Joined(s, PollLabels(s, first), a, PassLabels(a, WholeAnswer(a), events), b);
    ls := PollLabels(s, first) + PassLabels(a, WholeAnswer(a), events) + PollLabels(b, second);
    Joined(s, PollLabels(s, first) + PassLabels(a, WholeAnswer(a), events), b,
           PollLabels(b, second), AfterPoll(b, second));
  }
}
