/** Telegram to Matrix under crashes: what every step keeps, and how many sends there can be. */
module RelayTelegram {
  import opened Prelude
  import opened RelayModel

  /** Telegram ids a person wrote that the relay has something to say about. */
  ghost function HumanIds(log: seq<TgMsg>): set<nat> {
    set i | 0 <= i < |log| && Relayable(log[i]) :: log[i].id
  }

  /** Ids already sent that a restart would not remember: those above the cursor on disk. */
  ghost function Above(sent: seq<nat>, disk: nat): set<nat> {
    set x | x in sent && disk < x
  }

  ghost function Forgettable(s: Sys): set<nat> { Above(s.sentMx, s.disk.tg) }

  function Top(log: seq<TgMsg>): nat {
    if log == [] then 0 else log[|log| - 1].id
  }

  ghost function Ids(log: seq<TgMsg>): set<nat> {
    set i | 0 <= i < |log| :: log[i].id
  }

  /** Messages still to handle in a pass: log messages above the cursor, ids rising. */
  ghost predicate TodoOk(log: seq<TgMsg>, above: nat, todo: seq<TgMsg>) {
    && (forall i :: 0 <= i < |todo| ==>
          && above < todo[i].id <= Top(log) && todo[i].id in Ids(log)
          && (todo[i].id in HumanIds(log) <==> Relayable(todo[i])))
    && (forall i, j :: 0 <= i < j < |todo| ==> todo[i].id < todo[j].id)
  }

  ghost predicate PcOk(s: Sys) {
    match s.tg
    case TgIdle => true
    case TgPass(todo) => s.firstTg > 0 && TodoOk(s.tgLog, s.mem.tg, todo)
    case TgPosted(m, todo) =>
      && s.firstTg > 0 && Relayable(m) && s.mem.tg < m.id <= Top(s.tgLog)
      && TodoOk(s.tgLog, m.id, todo) && m.id in s.sentMx
  }

  ghost predicate CursorsOk(s: Sys) {
    && s.firstTg <= s.disk.tg <= s.mem.tg <= Top(s.tgLog)
    && (s.firstTg == 0 <==> s.mem.tg == 0)
    && (s.firstTg == 0 ==> s.sentMx == [])
    && (!s.up ==> s.tg == TgIdle)
  }

  /** Nobody's words but a person's are sent, and only ids above the first saved cursor. */
  ghost predicate SentOk(human: set<nat>, first: nat, sent: seq<nat>) {
    forall x :: x in sent ==> x in human && first < x
  }

  /** The account that pays for every repeated send: a restart that forgot one. */
  ghost predicate Balanced(sent: seq<nat>, disk: nat, restarts: nat, inFlight: nat) {
    |sent| + |Above(sent, disk)| <= |Elems(sent)| + restarts + inFlight
  }

  function InFlight(pc: TgPc): nat { if pc.TgPosted? then 1 else 0 }

  ghost predicate TgInv(s: Sys) {
    && Ascending(s.tgLog) && CursorsOk(s) && PcOk(s)
    && SentOk(HumanIds(s.tgLog), s.firstTg, s.sentMx)
    && Balanced(s.sentMx, s.disk.tg, s.restarts, InFlight(s.tg))
  }

  // ---- The account ----------------------------------------------------------------

  lemma BalancedSend(sent: seq<nat>, disk: nat, restarts: nat, id: nat)
    requires Balanced(sent, disk, restarts, 0) && disk < id
    ensures Balanced(sent + [id], disk, restarts, 1)
  {
    assert Elems(sent + [id]) == Elems(sent) + {id};
    assert Above(sent + [id], disk) == Above(sent, disk) + {id};
    if id in sent {
      assert Elems(sent) + {id} == Elems(sent) && Above(sent, disk) + {id} == Above(sent, disk);
    }
  }

  lemma BalancedCommit(sent: seq<nat>, disk: nat, restarts: nat, id: nat)
    requires Balanced(sent, disk, restarts, 1) && id in sent && disk < id
    ensures Balanced(sent, id, restarts, 0)
  {
    SubsetSize(Above(sent, id), Above(sent, disk) - {id});
  }

  lemma BalancedSave(sent: seq<nat>, disk: nat, restarts: nat, inFlight: nat, disk': nat)
    requires Balanced(sent, disk, restarts, inFlight) && disk <= disk'
    ensures Balanced(sent, disk', restarts, inFlight)
  {
    SubsetSize(Above(sent, disk'), Above(sent, disk));
  }

  // ---- The fetch ------------------------------------------------------------------

  /** The bounded newest-first walk returns the end of the log, as far back as the cursor or
      the limit. */
  lemma {:induction false} NewestSuffix(log: seq<TgMsg>, cursor: nat, limit: nat)
    requires Ascending(log)
    ensures var r := Newest(log, cursor, limit);
      && |r| <= limit && |r| <= |log| && r == log[|log| - |r|..]
      && (forall i :: |log| - |r| <= i < |log| ==> cursor < log[i].id)
      && (|r| < limit && |r| < |log| ==> log[|log| - |r| - 1].id <= cursor)
  {
    if limit != 0 && log != [] && log[|log| - 1].id > cursor {
      NewestSuffix(log[..|log| - 1], cursor, limit - 1);
    }
  }

  lemma LogId(log: seq<TgMsg>, i: nat)
    requires Ascending(log) && i < |log|
    ensures log[i].id <= Top(log) && log[i].id in Ids(log)
    ensures log[i].id in HumanIds(log) <==> Relayable(log[i])
  {
  }

  /** So what a fetch returns can be handled as a pass. */
  lemma NewestOk(log: seq<TgMsg>, cursor: nat, limit: nat)
    requires Ascending(log)
    ensures TodoOk(log, cursor, Newest(log, cursor, limit))
  {
    NewestSuffix(log, cursor, limit);
    var r := Newest(log, cursor, limit);
    var k := |log| - |r|;
    forall i | 0 <= i < |r|
      ensures r[i] == log[k + i] && cursor < r[i].id <= Top(log) && r[i].id in Ids(log)
      ensures r[i].id in HumanIds(log) <==> Relayable(r[i])
    {
      LogId(log, k + i);
    }
  }

  lemma TodoTail(log: seq<TgMsg>, above: nat, todo: seq<TgMsg>)
    requires TodoOk(log, above, todo) && todo != []
    ensures TodoOk(log, above, todo[1..]) && TodoOk(log, todo[0].id, todo[1..])
  {
  }

  lemma TodoGrow(log: seq<TgMsg>, m: TgMsg, above: nat, todo: seq<TgMsg>)
    requires TodoOk(log, above, todo) && Top(log) < m.id
    ensures TodoOk(log + [m], above, todo)
  {
    HumanIdsGrow(log, m);
  }

  // ---- One step -------------------------------------------------------------------

  lemma HumanIdsGrow(log: seq<TgMsg>, m: TgMsg)
    ensures HumanIds(log + [m]) == HumanIds(log) + if Relayable(m) then {m.id} else {}
    ensures Ids(log) <= Ids(log + [m])
  {
    var all := log + [m];
    assert forall i :: 0 <= i < |log| ==> all[i] == log[i];
    forall x | x in HumanIds(log) ensures x in HumanIds(all) {
      var i :| 0 <= i < |log| && Relayable(log[i]) && log[i].id == x;
      assert all[i] == log[i];
    }
    assert all[|log|] == m;
  }

  /** A longer Telegram log, nothing else of interest changed. */
  lemma TgLogGrows(s: Sys, t: Sys, m: TgMsg)
    requires TgInv(s) && NewTgId(s, m.id)
    requires t.tgLog == s.tgLog + [m]
    requires t.mem.tg == s.mem.tg && t.disk == s.disk && t.tg == s.tg && t.up == s.up
    requires t.sentMx == s.sentMx && t.restarts == s.restarts && t.firstTg == s.firstTg
    ensures TgInv(t)
  {
    HumanIdsGrow(s.tgLog, m);
    match s.tg
    case TgIdle =>
    case TgPass(todo) => TodoGrow(s.tgLog, m, s.mem.tg, todo);
    case TgPosted(p, todo) => TodoGrow(s.tgLog, m, p.id, todo);
  }

  /** Writing the state file, by either loop. */
  lemma SaveKeeps(s: Sys, t: Sys)
    requires TgInv(s)
    requires t.tgLog == s.tgLog && t.tg == s.tg && t.up == s.up && t.sentMx == s.sentMx
    requires t.restarts == s.restarts && t.firstTg == s.firstTg
    requires t.mem.tg == s.mem.tg && t.disk.tg in {s.disk.tg, s.mem.tg}
    ensures TgInv(t)
  {
    BalancedSave(s.sentMx, s.disk.tg, s.restarts, InFlight(s.tg), t.disk.tg);
  }

  lemma FetchKeeps(s: Sys)
    requires TgInv(s) && Enabled(s, TgFetch)
    ensures TgInv(Apply(s, TgFetch))
  {
    NewestOk(s.tgLog, s.mem.tg, TG_POLL_LIMIT);
    BalancedSave(s.sentMx, s.disk.tg, s.restarts, 0, Apply(s, TgFetch).disk.tg);
  }

  lemma SkipKeeps(s: Sys)
    requires TgInv(s) && Enabled(s, TgSkip)
    ensures TgInv(Apply(s, TgSkip))
  {
    TodoTail(s.tgLog, s.mem.tg, s.tg.todo);
  }

  lemma SendKeeps(s: Sys, ok: bool, e: EventId)
    requires TgInv(s) && Enabled(s, TgSend(ok, e))
    ensures TgInv(Apply(s, TgSend(ok, e)))
  {
    TodoTail(s.tgLog, s.mem.tg, s.tg.todo);
    BalancedSend(s.sentMx, s.disk.tg, s.restarts, s.tg.todo[0].id);
  }

  lemma CommitKeeps(s: Sys)
    requires TgInv(s) && Enabled(s, TgCommit)
    ensures TgInv(Apply(s, TgCommit))
  {
    BalancedCommit(s.sentMx, s.disk.tg, s.restarts, s.tg.msg.id);
  }

  lemma RestartKeeps(s: Sys, t: Sys)
    requires TgInv(s)
    requires t.tgLog == s.tgLog && t.sentMx == s.sentMx && t.firstTg == s.firstTg
    requires t.restarts == s.restarts + 1 && t.disk.tg in {s.disk.tg, s.mem.tg} && t.mem == t.disk
    requires !t.up && t.tg == TgIdle
    ensures TgInv(t)
  {
    BalancedSave(s.sentMx, s.disk.tg, s.restarts, InFlight(s.tg), t.disk.tg);
  }

  predicate ByTelegramLoop(l: Label) {
    l.TgFetch? || l.TgSkip? || l.TgSend? || l.TgCommit? || l.TgEnd? || l.TgAbort?
  }

  lemma TgStepKeeps(s: Sys, l: Label)
    requires TgInv(s) && Enabled(s, l) && ByTelegramLoop(l)
    ensures TgInv(Apply(s, l))
  {
    match l
    case TgFetch => FetchKeeps(s);
    case TgSkip => SkipKeeps(s);
    case TgSend(ok, e) => SendKeeps(s, ok, e);
    case TgCommit => CommitKeeps(s);
    case TgEnd => BalancedSave(s.sentMx, s.disk.tg, s.restarts, 0, s.mem.tg);
    case TgAbort =>
  }

  lemma MxSendKeeps(s: Sys, ok: bool, id: nat)
    requires TgInv(s) && Enabled(s, MxSend(ok, id))
    ensures TgInv(Apply(s, MxSend(ok, id)))
  {
    var t := Apply(s, MxSend(ok, id));
    if ok { TgLogGrows(s, t, TgMsg(id, true, true, Some(s.mx.pos))); } else { SaveKeeps(s, t); }
  }

  /** Every step of either loop, every human post and every crash keeps the invariant. */
  lemma StepKeeps(s: Sys, l: Label)
    requires TgInv(s) && Enabled(s, l)
    ensures TgInv(Apply(s, l))
  {
    if ByTelegramLoop(l) {
      TgStepKeeps(s, l);
    } else if l.HumanTg? {
      TgLogGrows(s, Apply(s, l), l.msg);
    } else if l.MxSend? {
      MxSendKeeps(s, l.posted, l.id);
    } else if l.Restart? || l.TornCursor? {
      RestartKeeps(s, Apply(s, l));
    } else if l.Boot? {
      assert Apply(s, l).mem == s.mem && Apply(s, l).tg == s.tg;
    } else {
      MatrixSideFrame(s, l);
      SaveKeeps(s, Apply(s, l));
    }
  }

  /** The Matrix loop touches the Telegram cursor only by saving it. */
  lemma MatrixSideFrame(s: Sys, l: Label)
    requires l in {MxSkip, MxGiveUp, MxMark, MxCommit, MxEnd, MxAbort} || l.MxSync? || l.HumanMx?
    ensures var t := Apply(s, l);
      && t.tgLog == s.tgLog && t.tg == s.tg && t.up == s.up && t.sentMx == s.sentMx
      && t.restarts == s.restarts && t.firstTg == s.firstTg
      && t.mem.tg == s.mem.tg && t.disk.tg in {s.disk.tg, s.mem.tg}
  {
  }

  // ---- Whole runs -----------------------------------------------------------------

  lemma {:induction false} RunKeeps(s: Sys, ls: seq<Label>)
    requires Fresh0(s) && Run(s, ls)
    ensures TgInv(Exec(s, ls))
  {
    if ls == [] {
      assert Above([], 0) == {};
    } else {
      RunKeeps(s, ls[..|ls| - 1]);
      StepKeeps(Exec(s, ls[..|ls| - 1]), ls[|ls| - 1]);
    }
  }

  /** Sends are at most the distinct messages sent plus the restarts, hence at most the
      messages people wrote plus the restarts; a restart can forget at most as many as there
      were restarts, and the one in flight; nothing at or below the first saved cursor and
      nothing the relay wrote itself is ever sent. */
  lemma SendsBounded(s: Sys, ls: seq<Label>)
    requires Fresh0(s) && Run(s, ls)
    ensures var t := Exec(s, ls);
      && |t.sentMx| <= |Elems(t.sentMx)| + t.restarts
      && |t.sentMx| <= |HumanIds(t.tgLog)| + t.restarts
      && |Forgettable(t)| <= t.restarts + InFlight(t.tg)
      && (forall x :: x in t.sentMx ==> t.firstTg < x && x in HumanIds(t.tgLog))
  {
    RunKeeps(s, ls);
    var t := Exec(s, ls);
    if t.tg.TgPosted? {
      assert t.tg.msg.id in Forgettable(t);
      assert 1 <= |Forgettable(t)|;
    }
    assert Elems(t.sentMx) <= HumanIds(t.tgLog);
    SubsetSize(Elems(t.sentMx), HumanIds(t.tgLog));
    ElemsNoLarger(t.sentMx);
  }
}
