/** Telegram to Matrix when no send fails and no poll overflows: the stream of sends, with
    adjacent repeats removed, is exactly what people wrote after the first start, in order,
    however the polls cut the log and wherever the crashes fall. */
module RelayExactlyOnce {
  import opened Prelude
  import opened RelayModel
  import opened RelayTelegram

  /** Ids of relayable messages with `lo < id <= hi`, in log order. */
  function RelIds(log: seq<TgMsg>, lo: nat, hi: nat): seq<nat> {
    if log == [] then []
    else
      var m := log[|log| - 1];
      RelIds(log[..|log| - 1], lo, hi) + if Relayable(m) && lo < m.id <= hi then [m.id] else []
  }

  /** A sequence with adjacent repeats removed. */
  function Collapse<T(==)>(s: seq<T>): seq<T> {
    if |s| <= 1 then s
    else if s[|s| - 2] == s[|s| - 1] then Collapse(s[..|s| - 1])
    else Collapse(s[..|s| - 1]) + [s[|s| - 1]]
  }

  lemma CollapseAppend<T>(s: seq<T>, x: T)
    ensures s != [] && s[|s| - 1] == x ==> Collapse(s + [x]) == Collapse(s)
    ensures s == [] || s[|s| - 1] != x ==> Collapse(s + [x]) == Collapse(s) + [x]
  {
    var t := s + [x];
    if s != [] {
      assert t[..|t| - 1] == s && t[|t| - 2] == s[|s| - 1];
    }
  }

  function LastOf(sent: seq<nat>): nat {
    if sent == [] then 0 else sent[|sent| - 1]
  }

  /** How far the relay has got: the cursor in memory, or a sent message still above it. */
  function Reached(s: Sys): nat { Max(s.mem.tg, LastOf(s.sentMx)) }

  /** No relayable message has an id in `(lo, hi]`. */
  ghost predicate Silent(human: set<nat>, lo: nat, hi: nat) {
    forall x :: x in human && lo < x ==> hi < x
  }

  /** The only relayable id in `(lo, hi]`, if any, is `hi`. */
  ghost predicate OnlyTop(human: set<nat>, lo: nat, hi: nat) {
    forall x :: x in human && lo < x ==> hi <= x
  }

  /** A pass leaves out nothing a person wrote between the cursor and its own last message. */
  ghost predicate NoGap(human: set<nat>, above: nat, todo: seq<TgMsg>)
    decreases todo
  {
    todo != [] ==> OnlyTop(human, above, todo[0].id) && NoGap(human, todo[0].id, todo[1..])
  }

  /** The cursors and the sends so far account for everything up to what was reached. */
  ghost predicate Settled(log: seq<TgMsg>, disk: nat, mem: nat, first: nat, sent: seq<nat>) {
    && Silent(HumanIds(log), disk, mem)
    && OnlyTop(HumanIds(log), mem, Max(mem, LastOf(sent)))
    && Collapse(sent) == (if first == 0 then [] else RelIds(log, first, Max(mem, LastOf(sent))))
  }

  ghost predicate PassTight(human: set<nat>, mem: nat, pc: TgPc, sent: seq<nat>) {
    match pc
    case TgIdle => true
    case TgPass(todo) => NoGap(human, mem, todo)
    case TgPosted(m, todo) => LastOf(sent) == m.id && NoGap(human, m.id, todo)
  }

  ghost predicate Exact(s: Sys) {
    && TgInv(s)
    && Settled(s.tgLog, s.disk.tg, s.mem.tg, s.firstTg, s.sentMx)
    && PassTight(HumanIds(s.tgLog), s.mem.tg, s.tg, s.sentMx)
  }

  /** The number of messages above the cursor that a poll would have to read. */
  function NewCount(s: Sys): nat { |Newest(s.tgLog, s.mem.tg, |s.tgLog|)| }

  /** What the guarantee asks of a step: a send succeeds, and a poll past the first start has
      at most 200 messages to read. */
  predicate Clean(s: Sys, l: Label) {
    match l
    case TgSend(ok, _) => ok
    case TgFetch => s.mem.tg == 0 || NewCount(s) <= TG_POLL_LIMIT
    case _ => true
  }

  ghost predicate CleanRun(s: Sys, ls: seq<Label>) {
    ls == [] || (CleanRun(s, ls[..|ls| - 1]) && Clean(Exec(s, ls[..|ls| - 1]), ls[|ls| - 1]))
  }

  // ---- RelIds ---------------------------------------------------------------------

  lemma {:induction false} RelIdsEmpty(log: seq<TgMsg>, lo: nat, hi: nat)
    requires hi <= lo
    ensures RelIds(log, lo, hi) == []
  {
    if log != [] { RelIdsEmpty(log[..|log| - 1], lo, hi); }
  }

  lemma {:induction false} RelIdsSilent(log: seq<TgMsg>, lo: nat, mid: nat, hi: nat)
    requires mid <= hi && Silent(HumanIds(log), mid, hi)
    ensures RelIds(log, lo, mid) == RelIds(log, lo, hi)
  {
    if log != [] {
      var front := log[..|log| - 1];
      assert log == front + [log[|log| - 1]];
      HumanIdsGrow(front, log[|log| - 1]);
      RelIdsSilent(front, lo, mid, hi);
    }
  }

  lemma {:induction false} RelIdsTop(log: seq<TgMsg>, lo: nat, mid: nat, hi: nat)
    requires Ascending(log) && lo <= mid < hi && OnlyTop(HumanIds(log), mid, hi) && hi in HumanIds(log)
    ensures RelIds(log, lo, hi) == RelIds(log, lo, mid) + [hi]
  {
    var front := log[..|log| - 1];
    var m := log[|log| - 1];
    assert log == front + [m];
    HumanIdsGrow(front, m);
    if hi in HumanIds(front) {
      RelIdsTop(front, lo, mid, hi);
    } else {
      RelIdsSilent(front, lo, mid, hi);
    }
  }

  lemma RelIdsGrow(log: seq<TgMsg>, m: TgMsg, lo: nat, hi: nat)
    requires hi < m.id
    ensures RelIds(log + [m], lo, hi) == RelIds(log, lo, hi)
  {
    assert (log + [m])[..|log|] == log;
  }

  // ---- NoGap ----------------------------------------------------------------------

  lemma {:induction false} NoGapGrow(human: set<nat>, above: nat, todo: seq<TgMsg>, id: nat)
    requires NoGap(human, above, todo) && forall i :: 0 <= i < |todo| ==> todo[i].id < id
    ensures NoGap(human + {id}, above, todo)
    decreases todo
  {
    if todo != [] { NoGapGrow(human, todo[0].id, todo[1..], id); }
  }

  /** A tail of the log that starts right above the cursor leaves nothing out. */
  lemma {:induction false} SuffixNoGap(log: seq<TgMsg>, k: nat, above: nat)
    requires Ascending(log) && k <= |log|
    requires forall i :: 0 <= i < k ==> log[i].id <= above
    ensures NoGap(HumanIds(log), above, log[k..])
    decreases |log| - k
  {
    if k < |log| {
      assert log[k..][1..] == log[k + 1..];
      SuffixNoGap(log, k + 1, log[k].id);
      forall x | x in HumanIds(log) && above < x ensures log[k].id <= x {
        var i :| 0 <= i < |log| && Relayable(log[i]) && log[i].id == x;
        assert k <= i;
      }
    }
  }

  /** A poll of at most 200 new messages misses none. */
  lemma FetchNoGap(log: seq<TgMsg>, cursor: nat)
    requires Ascending(log) && |Newest(log, cursor, |log|)| <= TG_POLL_LIMIT
    ensures NoGap(HumanIds(log), cursor, Newest(log, cursor, TG_POLL_LIMIT))
  {
    NewestSuffix(log, cursor, |log|);
    NewestSuffix(log, cursor, TG_POLL_LIMIT);
    var r := Newest(log, cursor, TG_POLL_LIMIT);
    var k := |log| - |r|;
    if k > 0 {
      assert log[k - 1].id <= cursor by {
        if |r| == TG_POLL_LIMIT {
          assert |Newest(log, cursor, |log|)| == |r|;
        }
      }
      assert forall i :: 0 <= i < k ==> log[i].id <= log[k - 1].id;
    }
    SuffixNoGap(log, k, cursor);
  }

  // ---- Steps ----------------------------------------------------------------------

  lemma SettledGrow(log: seq<TgMsg>, disk: nat, mem: nat, first: nat, sent: seq<nat>, m: TgMsg)
    requires Settled(log, disk, mem, first, sent) && Top(log) < m.id && disk <= mem <= Top(log)
    requires LastOf(sent) <= Top(log)
    ensures Settled(log + [m], disk, mem, first, sent)
  {
    HumanIdsGrow(log, m);
    RelIdsGrow(log, m, first, Max(mem, LastOf(sent)));
  }

  lemma SentInLog(s: Sys)
    requires TgInv(s)
    ensures s.sentMx != [] ==> LastOf(s.sentMx) in HumanIds(s.tgLog) && s.firstTg < LastOf(s.sentMx)
    ensures LastOf(s.sentMx) <= Top(s.tgLog)
  {
    if s.sentMx != [] {
      assert LastOf(s.sentMx) in s.sentMx;
      var i :| 0 <= i < |s.tgLog| && Relayable(s.tgLog[i]) && s.tgLog[i].id == LastOf(s.sentMx);
      assert s.tgLog[i].id <= s.tgLog[|s.tgLog| - 1].id;
    }
  }

  lemma ExactLogGrows(s: Sys, t: Sys, m: TgMsg)
    requires Exact(s) && NewTgId(s, m.id) && TgInv(t)
    requires t.tgLog == s.tgLog + [m]
    requires t.mem.tg == s.mem.tg && t.disk == s.disk && t.tg == s.tg
    requires t.sentMx == s.sentMx && t.firstTg == s.firstTg
    ensures Exact(t)
  {
    SentInLog(s);
    SettledGrow(s.tgLog, s.disk.tg, s.mem.tg, s.firstTg, s.sentMx, m);
    HumanIdsGrow(s.tgLog, m);
    PassTightGrow(s, m);
  }

  lemma PassTightGrow(s: Sys, m: TgMsg)
    requires TgInv(s) && NewTgId(s, m.id) && PassTight(HumanIds(s.tgLog), s.mem.tg, s.tg, s.sentMx)
    ensures PassTight(HumanIds(s.tgLog + [m]), s.mem.tg, s.tg, s.sentMx)
  {
    HumanIdsGrow(s.tgLog, m);
    if !Relayable(m) {
      assert HumanIds(s.tgLog + [m]) == HumanIds(s.tgLog);
    } else if !s.tg.TgIdle? {
      var above := if s.tg.TgPass? then s.mem.tg else s.tg.msg.id;
      NoGapGrow(HumanIds(s.tgLog), above, s.tg.todo, m.id);
    }
  }

  /** The very first poll only sets the cursor, past everything there is. */
  lemma FirstStartExact(s: Sys)
    requires Exact(s) && Enabled(s, TgFetch) && s.mem.tg == 0
    ensures Exact(Apply(s, TgFetch))
  {
    FetchKeeps(s);
    NewestSuffix(s.tgLog, 0, TG_POLL_LIMIT);
    SettledAtTop(s.tgLog);
  }

  lemma SettledAtTop(log: seq<TgMsg>)
    requires Ascending(log)
    ensures Settled(log, Top(log), Top(log), Top(log), [])
  {
    RelIdsEmpty(log, Top(log), Top(log));
  }

  lemma FetchExact(s: Sys)
    requires Exact(s) && Enabled(s, TgFetch) && Clean(s, TgFetch)
    ensures Exact(Apply(s, TgFetch))
  {
    if s.mem.tg == 0 {
      FirstStartExact(s);
    } else {
      FetchKeeps(s);
      FetchNoGap(s.tgLog, s.mem.tg);
    }
  }

  lemma SkipExact(s: Sys)
    requires Exact(s) && Enabled(s, TgSkip)
    ensures Exact(Apply(s, TgSkip))
  {
    SkipKeeps(s);
    SentInLog(s);
    var m := s.tg.todo[0];
    SettledSkip(s.tgLog, s.disk.tg, s.mem.tg, s.firstTg, s.sentMx, m.id);
  }

  lemma SettledSkip(log: seq<TgMsg>, disk: nat, mem: nat, first: nat, sent: seq<nat>, id: nat)
    requires Settled(log, disk, mem, first, sent) && disk <= mem < id <= Top(log)
    requires sent != [] ==> LastOf(sent) in HumanIds(log)
    requires id !in HumanIds(log) && OnlyTop(HumanIds(log), mem, id)
    ensures Settled(log, disk, id, first, sent)
  {
    if LastOf(sent) <= mem {
      RelIdsSilent(log, first, mem, id);
    }
  }

  /** A message the relay sends is the next one it owes, or a repeat of the last one sent. */
  lemma SendExact(s: Sys, e: EventId)
    requires Exact(s) && Enabled(s, TgSend(true, e))
    ensures Exact(Apply(s, TgSend(true, e)))
  {
    SendKeeps(s, true, e);
    SentInLog(s);
    SettledSend(s.tgLog, s.disk.tg, s.mem.tg, s.firstTg, s.sentMx, s.tg.todo[0].id);
  }

  lemma SettledSend(log: seq<TgMsg>, disk: nat, mem: nat, first: nat, sent: seq<nat>, id: nat)
    requires Ascending(log) && Settled(log, disk, mem, first, sent) && 0 < first <= disk <= mem < id
    requires id in HumanIds(log) && OnlyTop(HumanIds(log), mem, id)
    requires sent != [] ==> LastOf(sent) in HumanIds(log)
    ensures Settled(log, disk, mem, first, sent + [id])
  {
    CollapseAppend(sent, id);
    if LastOf(sent) <= mem {
      RelIdsTop(log, first, mem, id);
    } else {
      assert id == LastOf(sent);
    }
  }

  lemma CommitExact(s: Sys)
    requires Exact(s) && Enabled(s, TgCommit)
    ensures Exact(Apply(s, TgCommit))
  {
    CommitKeeps(s);
  }

  lemma RestartExact(s: Sys, t: Sys)
    requires Exact(s) && TgInv(t)
    requires t.tgLog == s.tgLog && t.sentMx == s.sentMx && t.firstTg == s.firstTg
    requires t.disk.tg in {s.disk.tg, s.mem.tg} && t.mem == t.disk && t.tg == TgIdle
    ensures Exact(t)
  {
    SentInLog(s);
    if LastOf(s.sentMx) <= t.disk.tg {
      RelIdsSilent(s.tgLog, s.firstTg, t.disk.tg, s.mem.tg);
    }
  }

  lemma TgStepExact(s: Sys, l: Label)
    requires Exact(s) && Enabled(s, l) && Clean(s, l) && ByTelegramLoop(l)
    ensures Exact(Apply(s, l))
  {
    TgStepKeeps(s, l);
    match l
    case TgFetch => FetchExact(s);
    case TgSkip => SkipExact(s);
    case TgSend(ok, e) => SendExact(s, e);
    case TgCommit => CommitExact(s);
    case TgEnd =>
    case TgAbort =>
  }

  lemma MxSendExact(s: Sys, ok: bool, id: nat)
    requires Exact(s) && Enabled(s, MxSend(ok, id))
    ensures Exact(Apply(s, MxSend(ok, id)))
  {
    MxSendKeeps(s, ok, id);
    if ok { ExactLogGrows(s, Apply(s, MxSend(ok, id)), TgMsg(id, true, true, Some(s.mx.pos))); }
  }

  lemma SaveExact(s: Sys, t: Sys)
    requires Exact(s) && TgInv(t)
    requires t.tgLog == s.tgLog && t.tg == s.tg && t.sentMx == s.sentMx && t.firstTg == s.firstTg
    requires t.mem.tg == s.mem.tg && t.disk.tg in {s.disk.tg, s.mem.tg}
    ensures Exact(t)
  {
  }

  lemma OtherStepExact(s: Sys, l: Label)
    requires Exact(s) && Enabled(s, l) && !ByTelegramLoop(l) && !l.MxSend? && !l.HumanTg?
    ensures Exact(Apply(s, l))
  {
    StepKeeps(s, l);
    if l.Restart? || l.TornCursor? {
      RestartExact(s, Apply(s, l));
    } else {
      if !l.Boot? {
        MatrixSideFrame(s, l);
      }
      SaveExact(s, Apply(s, l));
    }
  }

  lemma StepExact(s: Sys, l: Label)
    requires Exact(s) && Enabled(s, l) && Clean(s, l)
    ensures Exact(Apply(s, l))
  {
    if ByTelegramLoop(l) {
      TgStepExact(s, l);
    } else if l.MxSend? {
      MxSendExact(s, l.posted, l.id);
    } else if l.HumanTg? {
      StepKeeps(s, l);
      ExactLogGrows(s, Apply(s, l), l.msg);
    } else {
      OtherStepExact(s, l);
    }
  }

  lemma {:induction false} RunExact(s: Sys, ls: seq<Label>)
    requires Fresh0(s) && Run(s, ls) && CleanRun(s, ls)
    ensures Exact(Exec(s, ls))
  {
    if ls == [] {
      RunKeeps(s, []);
    } else {
      RunExact(s, ls[..|ls| - 1]);
      StepExact(Exec(s, ls[..|ls| - 1]), ls[|ls| - 1]);
    }
  }

  /** Exactly once up to stuttering, at every moment of every clean run; and once the poll has
      nothing new, nothing people wrote after the first start is missing. At most one message
      already sent can be sent again. */
  lemma ExactlyOnce(s: Sys, ls: seq<Label>)
    requires Fresh0(s) && Run(s, ls) && CleanRun(s, ls)
    ensures var t := Exec(s, ls);
      && (t.firstTg == 0 ==> t.sentMx == [])
      && (t.firstTg != 0 ==> Collapse(t.sentMx) == RelIds(t.tgLog, t.firstTg, Reached(t)))
      && (t.firstTg != 0 && NewCount(t) == 0 ==>
            forall top :: t.mem.tg <= top ==> Collapse(t.sentMx) == RelIds(t.tgLog, t.firstTg, top))
      && |Forgettable(t)| <= 1
  {
    RunExact(s, ls);
    var t := Exec(s, ls);
    CollapseElems(t.sentMx);
    if t.sentMx == [] { assert Collapse(t.sentMx) == []; }
    forall x | x in Forgettable(t) ensures x == Reached(t) {
      RelIdsBound(t.tgLog, t.firstTg, Reached(t), x);
    }
    SubsetSize(Forgettable(t), {Reached(t)});
    if t.firstTg != 0 && NewCount(t) == 0 {
      CaughtUp(t);
    }
  }

  lemma CaughtUp(t: Sys)
    requires Exact(t) && t.firstTg != 0 && NewCount(t) == 0
    ensures forall top :: t.mem.tg <= top ==> Collapse(t.sentMx) == RelIds(t.tgLog, t.firstTg, top)
  {
    NewestSuffix(t.tgLog, t.mem.tg, |t.tgLog|);
    SentInLog(t);
    assert forall i :: 0 <= i < |t.tgLog| ==> t.tgLog[i].id <= t.mem.tg;
    forall top | t.mem.tg <= top ensures Collapse(t.sentMx) == RelIds(t.tgLog, t.firstTg, top) {
      RelIdsSilent(t.tgLog, t.firstTg, t.mem.tg, top);
    }
  }

  lemma {:induction false} CollapseElems<T>(s: seq<T>)
    ensures forall x :: x in s <==> x in Collapse(s)
  {
    if |s| > 1 {
      var f := s[..|s| - 1];
      CollapseElems(f);
      assert s == f + [s[|s| - 1]];
      assert f[|f| - 1] in f;
    }
  }

  lemma {:induction false} RelIdsBound(log: seq<TgMsg>, lo: nat, hi: nat, x: nat)
    requires x in RelIds(log, lo, hi)
    ensures lo < x <= hi && x in HumanIds(log)
  {
    var front := log[..|log| - 1];
    assert log == front + [log[|log| - 1]];
    HumanIdsGrow(front, log[|log| - 1]);
    if x in RelIds(front, lo, hi) { RelIdsBound(front, lo, hi, x); }
  }
}
