/** When a message already posted to Matrix can be posted again: the stops that fall between a
    post and its save, and nothing else. */
module RelayForgets {
  import opened Prelude
  import opened RelayModel
  import opened RelayTelegram
  import B = RelayBacklog

  /** The process stops between a post and the save that records it. */
  predicate Kills(s: Sys, l: Label) { (l.Restart? || l.TornCursor?) && s.tg.TgPosted? }

  ghost predicate KillFree(s: Sys, ls: seq<Label>) {
    ls == [] || (KillFree(s, ls[..|ls| - 1]) && !Kills(Exec(s, ls[..|ls| - 1]), ls[|ls| - 1]))
  }

  function KillCount(s: Sys, ls: seq<Label>): nat {
    if ls == [] then 0
    else KillCount(s, ls[..|ls| - 1]) + if Kills(Exec(s, ls[..|ls| - 1]), ls[|ls| - 1]) then 1 else 0
  }

  /** The message posted but not yet saved, if the program is at that point. */
  function Flying(pc: TgPc): set<nat> { if pc.TgPosted? then {pc.msg.id} else {} }

  /** Nothing posted is above the saved cursor but the message in flight. */
  ghost predicate AllSaved(s: Sys) { Forgettable(s) <= Flying(s.tg) }

  ghost predicate AlwaysSaved(s: Sys, ls: seq<Label>) {
    AllSaved(Exec(s, ls)) && (ls != [] ==> AlwaysSaved(s, ls[..|ls| - 1]))
  }

  // ---- One step --------------------------------------------------------------------

  /** A post adds itself to what a restart would forget; no other step adds anything. */
  lemma ForgettableStep(s: Sys, l: Label)
    requires TgInv(s) && Enabled(s, l)
    ensures if l.TgSend? && l.ok then Forgettable(Apply(s, l)) == Forgettable(s) + {s.tg.todo[0].id}
            else Forgettable(Apply(s, l)) <= Forgettable(s)
  {
    if !ByTelegramLoop(l) && !l.HumanTg? && !l.MxSend? && !l.Restart? && !l.TornCursor? && !l.Boot? {
      MatrixSideFrame(s, l);
    }
  }

  /** Only a post, its save or a stop moves the program into or out of the moment in flight. */
  lemma FlyingStep(s: Sys, l: Label)
    requires Enabled(s, l) && !l.TgSend? && !l.TgCommit? && !l.Restart? && !l.TornCursor?
    ensures Flying(Apply(s, l).tg) == Flying(s.tg)
  {
    if !ByTelegramLoop(l) && !l.HumanTg? && !l.MxSend? && !l.Boot? {
      MatrixSideFrame(s, l);
    }
  }

  lemma SavedStep(s: Sys, l: Label)
    requires TgInv(s) && Enabled(s, l) && AllSaved(s)
    ensures AllSaved(Apply(s, l)) <==> !Kills(s, l)
  {
    ForgettableStep(s, l);
    if l.Restart? || l.TornCursor? {
      if s.tg.TgPosted? {
        assert s.tg.msg.id in Forgettable(Apply(s, l));
      }
    } else if !l.TgSend? && !l.TgCommit? {
      FlyingStep(s, l);
    }
  }

  /** Nothing posted is ever above the saved cursor, except while it is in flight, exactly
      when no stop falls between a post and its save. Sends may fail, polls may overflow. */
  lemma {:induction false} SavedIff(s: Sys, ls: seq<Label>)
    requires Fresh0(s) && Run(s, ls)
    ensures AlwaysSaved(s, ls) <==> KillFree(s, ls)
    ensures KillFree(s, ls) ==> |Forgettable(Exec(s, ls))| <= 1
  {
    if ls == [] {
      assert Forgettable(s) == {};
    } else {
      var front := ls[..|ls| - 1];
      SavedIff(s, front);
      RunKeeps(s, front);
      if AlwaysSaved(s, front) {
        SavedStep(Exec(s, front), ls[|ls| - 1]);
      }
    }
    if KillFree(s, ls) {
      SubsetSize(Forgettable(Exec(s, ls)), Flying(Exec(s, ls).tg));
    }
  }

  // ---- What the stops cost ---------------------------------------------------------

  /** The account of repeats, charged to such stops alone. */
  ghost predicate Charged(s: Sys, kills: nat) {
    Balanced(s.sentMx, s.disk.tg, kills, InFlight(s.tg))
  }

  lemma ChargedStep(s: Sys, l: Label, kills: nat)
    requires TgInv(s) && Enabled(s, l) && Charged(s, kills)
    ensures Charged(Apply(s, l), kills + if Kills(s, l) then 1 else 0)
  {
    var t := Apply(s, l);
    if l.TgSend? && l.ok {
      BalancedSend(s.sentMx, s.disk.tg, kills, s.tg.todo[0].id);
    } else if l.TgCommit? {
      BalancedCommit(s.sentMx, s.disk.tg, kills, s.tg.msg.id);
    } else {
      OtherStep(s, l);
      BalancedSave(s.sentMx, s.disk.tg, kills, InFlight(s.tg), t.disk.tg);
    }
  }

  lemma OtherStep(s: Sys, l: Label)
    requires TgInv(s) && Enabled(s, l) && !l.TgCommit? && !(l.TgSend? && l.ok)
    ensures var t := Apply(s, l);
      && t.sentMx == s.sentMx && s.disk.tg <= t.disk.tg
      && InFlight(t.tg) == if l.Restart? || l.TornCursor? then 0 else InFlight(s.tg)
  {
    if !ByTelegramLoop(l) && !l.HumanTg? && !l.MxSend? && !l.Restart? && !l.TornCursor? && !l.Boot? {
      MatrixSideFrame(s, l);
    }
  }

  lemma {:induction false} RunCharged(s: Sys, ls: seq<Label>)
    requires Fresh0(s) && Run(s, ls)
    ensures TgInv(Exec(s, ls)) && Charged(Exec(s, ls), KillCount(s, ls))
  {
    RunKeeps(s, ls);
    if ls == [] {
      assert Above([], 0) == {};
    } else {
      var front := ls[..|ls| - 1];
      RunCharged(s, front);
      ChargedStep(Exec(s, front), ls[|ls| - 1], KillCount(s, front));
    }
  }

  /** Repeated posts are at most the stops between a post and its save. */
  lemma RepeatsBounded(s: Sys, ls: seq<Label>)
    requires Fresh0(s) && Run(s, ls)
    ensures |Exec(s, ls).sentMx| <= |Elems(Exec(s, ls).sentMx)| + KillCount(s, ls)
  {
    RunCharged(s, ls);
    var t := Exec(s, ls);
    if t.tg.TgPosted? {
      assert t.tg.msg.id in Forgettable(t);
    }
  }

  lemma {:induction false} FullIsDistinct<T>(s: seq<T>)
    requires |s| <= |Elems(s)|
    ensures Distinct(s)
  {
    if s != [] {
      var f, x := s[..|s| - 1], s[|s| - 1];
      assert s == f + [x] && Elems(s) == Elems(f) + {x};
      ElemsNoLarger(f);
      assert x in f ==> Elems(s) == Elems(f);
      FullIsDistinct(f);
    }
  }

  /** So without one, no message is ever posted twice, however many sends fail. */
  lemma NoKillNoRepeat(s: Sys, ls: seq<Label>)
    requires Fresh0(s) && Run(s, ls) && KillFree(s, ls)
    ensures Distinct(Exec(s, ls).sentMx)
  {
    RepeatsBounded(s, ls);
    NoKills(s, ls);
    FullIsDistinct(Exec(s, ls).sentMx);
  }

  lemma {:induction false} NoKills(s: Sys, ls: seq<Label>)
    ensures KillFree(s, ls) <==> KillCount(s, ls) == 0
  {
    if ls != [] {
      NoKills(s, ls[..|ls| - 1]);
    }
  }

  // ---- And they do cost it ---------------------------------------------------------

  /** An id no event has: longer than all of them. */
  function NewId(log: seq<MxEvent>): (e: EventId)
    ensures forall i :: 0 <= i < |log| ==> |log[i].id| < |e|
  {
    if log == [] then "x"
    else
      var e := NewId(log[..|log| - 1]);
      if |e| <= |log[|log| - 1].id| then log[|log| - 1].id + "x" else e
  }

  /** Without any stop there is none between a post and its save. */
  lemma {:induction false} NoStops(s: Sys, ls: seq<Label>)
    requires forall i :: 0 <= i < |ls| ==> !ls[i].Restart? && !ls[i].TornCursor?
    ensures KillFree(s, ls)
  {
    if ls != [] {
      NoStops(s, ls[..|ls| - 1]);
    }
  }

  lemma DrainOne(s: Sys) returns (l: Label)
    requires s.tg.TgPass? && s.tg.todo != []
    ensures Ran(s, [l], Apply(s, l)) && KillFree(s, [l])
    ensures Apply(s, l) == s.(mem := s.mem.(tg := Apply(s, l).mem.tg), tg := TgPass(s.tg.todo[1..]))
  {
    l := if Relayable(s.tg.todo[0]) then TgSend(false, "") else TgSkip;
    One(s, l);
    NoStops(s, [l]);
  }

  /** A pass can always fail its sends, one after the other, up to a given message. */
  lemma {:induction false} Drain(s: Sys, k: nat) returns (ls: seq<Label>, t: Sys)
    requires s.tg.TgPass? && k <= |s.tg.todo|
    ensures Ran(s, ls, t) && KillFree(s, ls)
    ensures t == s.(mem := s.mem.(tg := t.mem.tg), tg := TgPass(s.tg.todo[k..]))
    decreases k
  {
    if k == 0 {
      ls, t := [], s;
    } else {
      var l := DrainOne(s);
      var rest;
      rest, t := Drain(Apply(s, l), k - 1);
      ls := [l] + rest;
      Joined(s, [l], Apply(s, l), rest, t);
      KillFreeJoined(s, [l], Apply(s, l), rest);
      assert s.tg.todo[1..][k - 1..] == s.tg.todo[k..];
    }
  }

  lemma {:induction false} KillFreeJoined(s: Sys, a: seq<Label>, t: Sys, b: seq<Label>)
    requires Ran(s, a, t) && Run(t, b) && KillFree(s, a) && KillFree(t, b)
    ensures KillFree(s, a + b)
  {
    if b == [] {
      assert a + b == a;
    } else {
      var f := b[..|b| - 1];
      KillFreeJoined(s, a, t, f);
      Joined(s, a, t, f, Exec(t, f));
      assert (a + b)[..|a + b| - 1] == a + f;
    }
  }

  /** One of the newest messages of the log, which one poll reads back to. */
  ghost predicate Recent(log: seq<TgMsg>, id: nat) {
    exists i :: 0 <= i < |log| && log[i].id == id && |log| - i <= TG_POLL_LIMIT
  }

  /** A bounded walk reaches back to any message within the bound and above the cursor. */
  lemma {:induction false} ReachesBack(log: seq<TgMsg>, cursor: nat, limit: nat, i: nat)
    requires Ascending(log) && i < |log| && |log| - i <= limit && cursor < log[i].id
    ensures var r := Newest(log, cursor, limit); |log| - i <= |r| && r[|r| - (|log| - i)] == log[i]
  {
    if i < |log| - 1 {
      ReachesBack(log[..|log| - 1], cursor, limit - 1, i);
    }
  }

  /** The next poll reads a recent message above the cursor again. */
  lemma RecentIsRead(log: seq<TgMsg>, cursor: nat, id: nat) returns (k: nat)
    requires Ascending(log) && Recent(log, id) && id in HumanIds(log) && cursor < id
    ensures var r := Newest(log, cursor, TG_POLL_LIMIT); k < |r| && r[k].id == id && Relayable(r[k])
  {
    var i :| 0 <= i < |log| && log[i].id == id && |log| - i <= TG_POLL_LIMIT;
    hide *;
    ReachesBack(log, cursor, TG_POLL_LIMIT, i);
    LogId(log, i);
    k := |Newest(log, cursor, TG_POLL_LIMIT)| - (|log| - i);
  }

  /** A process that has just been stopped can restart, poll, fail its sends up to a message it
      reads again, and post that. */
  lemma PostsAgain(u: Sys, id: nat) returns (more: seq<Label>)
    requires TgInv(u) && !u.up && u.mem.tg == u.disk.tg < id && id in u.sentMx && Recent(u.tgLog, id)
    ensures Run(u, more) && Exec(u, more).sentMx == u.sentMx + [id]
  {
    var k := RecentIsRead(u.tgLog, u.disk.tg, id);
    var todo := Newest(u.tgLog, u.disk.tg, TG_POLL_LIMIT);
    Two(u, Boot(Unusable), TgFetch);
    var v := Apply(Apply(u, Boot(Unusable)), TgFetch);
    assert v.tg == TgPass(todo);
    var fails, w := Drain(v, k);
    var e := NewId(w.mxLog);
    assert w.tg.todo[0] == todo[k];
    One(w, TgSend(true, e));
    Joined(u, [Boot(Unusable), TgFetch], v, fails, w);
    Joined(u, [Boot(Unusable), TgFetch] + fails, w, [TgSend(true, e)], Apply(w, TgSend(true, e)));
    more := [Boot(Unusable), TgFetch] + fails + [TgSend(true, e)];
  }

  /** So from any reachable moment in flight whose message is recent, a kill, with nothing else but
      failed sends and a restart after it, ends in the message posted twice. */
  lemma KillRepeats(s: Sys, ls: seq<Label>) returns (more: seq<Label>)
    requires Fresh0(s) && Run(s, ls)
    requires Exec(s, ls).tg.TgPosted? && Recent(Exec(s, ls).tgLog, Exec(s, ls).tg.msg.id)
    ensures Run(s, ls + [Restart(false)] + more)
    ensures Exec(s, ls + [Restart(false)] + more).sentMx == Exec(s, ls).sentMx + [Exec(s, ls).tg.msg.id]
    ensures Exec(s, ls).tg.msg.id in Exec(s, ls).sentMx
  {
    var t := Exec(s, ls);
    RunKeeps(s, ls);
    StepKeeps(t, Restart(false));
    More(s, ls, t, Restart(false));
    var u := Apply(t, Restart(false));
    more := PostsAgain(u, t.tg.msg.id);
    Joined(s, ls + [Restart(false)], u, more, Exec(u, more));
  }

  /** Too far back for any poll, and in no pass either. */
  ghost predicate OutOfReach(s: Sys, id: nat) {
    && (exists i :: 0 <= i < |s.tgLog| - TG_POLL_LIMIT && s.tgLog[i].id == id)
    && match s.tg
       case TgIdle => true
       case TgPass(todo) => NotAmong(todo, id)
       case TgPosted(_, todo) => NotAmong(todo, id)
  }

  ghost predicate NotAmong(todo: seq<TgMsg>, id: nat) { forall i :: 0 <= i < |todo| ==> todo[i].id != id }

  lemma FetchMisses(s: Sys, id: nat)
    requires TgInv(s) && Enabled(s, TgFetch) && OutOfReach(s, id)
    ensures OutOfReach(Apply(s, TgFetch), id)
  {
    NewestSuffix(s.tgLog, s.mem.tg, TG_POLL_LIMIT);
  }

  lemma LongerLog(log: seq<TgMsg>, m: TgMsg, id: nat)
    requires exists i :: 0 <= i < |log| - TG_POLL_LIMIT && log[i].id == id
    ensures exists i :: 0 <= i < |log + [m]| - TG_POLL_LIMIT && (log + [m])[i].id == id
  {
    var i :| 0 <= i < |log| - TG_POLL_LIMIT && log[i].id == id;
    assert (log + [m])[i].id == id;
  }

  lemma OutOfReachStep(s: Sys, l: Label, id: nat)
    requires TgInv(s) && Enabled(s, l) && OutOfReach(s, id)
    ensures OutOfReach(Apply(s, l), id) && multiset(Apply(s, l).sentMx)[id] == multiset(s.sentMx)[id]
  {
    if l.TgFetch? {
      FetchMisses(s, id);
    } else if l.HumanTg? {
      LongerLog(s.tgLog, l.msg, id);
    } else if l.MxSend? {
      LongerLog(s.tgLog, TgMsg(l.id, true, true, Some(s.mx.pos)), id);
    } else if !ByTelegramLoop(l) && !l.Restart? && !l.TornCursor? && !l.Boot? {
      MatrixSideFrame(s, l);
    }
  }

  lemma {:induction false} OutOfReachStays(s: Sys, ls: seq<Label>, id: nat)
    requires TgInv(s) && Run(s, ls) && OutOfReach(s, id)
    ensures OutOfReach(Exec(s, ls), id) && TgInv(Exec(s, ls))
    ensures multiset(Exec(s, ls).sentMx)[id] == multiset(s.sentMx)[id]
  {
    hide Apply, Enabled, OutOfReach;
    if ls != [] {
      var f := ls[..|ls| - 1];
      OutOfReachStays(s, f, id);
      OutOfReachStep(Exec(s, f), ls[|ls| - 1], id);
      StepKeeps(Exec(s, f), ls[|ls| - 1]);
    }
  }

  /** Some continuation posts the message once more. */
  ghost predicate CanRepeat(s: Sys, id: nat) {
    exists more :: Run(s, more) && multiset(s.sentMx)[id] < multiset(Exec(s, more).sentMx)[id]
  }

  /** A stop between a post and its save can make that message be posted again exactly when
      fewer than 200 newer messages, the relay's own included, are in the log by then. */
  lemma KillRepeatsIff(s: Sys, ls: seq<Label>, kill: Label)
    requires Fresh0(s) && Run(s, ls) && Enabled(Exec(s, ls), kill) && Kills(Exec(s, ls), kill)
    ensures CanRepeat(Exec(s, ls + [kill]), Exec(s, ls).tg.msg.id)
       <==> Recent(Exec(s, ls).tgLog, Exec(s, ls).tg.msg.id)
  {
    var t, id := Exec(s, ls), Exec(s, ls).tg.msg.id;
    RunKeeps(s, ls);
    More(s, ls, t, kill);
    var u := Apply(t, kill);
    StepKeeps(t, kill);
    if Recent(t.tgLog, id) {
      var more := PostsAgain(u, id);
      assert multiset(u.sentMx)[id] < multiset(Exec(u, more).sentMx)[id];
    } else {
      HumanInLog(t.tgLog, id);
      forall more | Run(u, more) ensures multiset(Exec(u, more).sentMx)[id] == multiset(u.sentMx)[id] {
        OutOfReachStays(u, more, id);
      }
    }
  }

  lemma HumanInLog(log: seq<TgMsg>, id: nat)
    requires id in HumanIds(log)
    ensures exists i :: 0 <= i < |log| && log[i].id == id
  {
  }

  // ---- How many can be forgotten at once -------------------------------------------

  /** No continuation without further kills has two messages a restart would forget. */
  ghost predicate StaysOne(s: Sys) {
    forall ls :: Run(s, ls) && KillFree(s, ls) ==> |Forgettable(Exec(s, ls))| <= 1
  }

  /** The Telegram loop can be brought to a poll that ends with a new message. */
  lemma ToNewPoll(s: Sys) returns (ls: seq<Label>, t: Sys)
    requires TgInv(s) && !s.tg.TgPosted? && s.firstTg != 0
    ensures Ran(s, ls, t) && KillFree(s, ls) && TgInv(t)
    ensures t.tg.TgPass? && t.tg.todo != [] && t.disk == s.disk && t.sentMx == s.sentMx && t.mxLog == s.mxLog
    ensures Relayable(t.tg.todo[|t.tg.todo| - 1]) && Top(s.tgLog) < t.tg.todo[|t.tg.todo| - 1].id
  {
    var a, u := Awake(s);
    StaysInv(s, a, u);
    var b;
    b, t := PostAndFetch(u);
    ls := a + b;
    Joined(s, a, u, b, t);
    KillFreeJoined(s, a, u, b);
    StaysInv(s, ls, t);
  }

  /** A person posts, and the next poll finds that last. */
  lemma PostAndFetch(u: Sys) returns (ls: seq<Label>, t: Sys)
    requires TgInv(u) && u.up && u.tg == TgIdle && u.firstTg != 0
    ensures Ran(u, ls, t) && KillFree(u, ls)
    ensures t.tg.TgPass? && t.tg.todo != [] && t.disk == u.disk && t.sentMx == u.sentMx && t.mxLog == u.mxLog
    ensures Relayable(t.tg.todo[|t.tg.todo| - 1]) && Top(u.tgLog) < t.tg.todo[|t.tg.todo| - 1].id
  {
    var m := TgMsg(B.NextTgId(u.tgLog), false, true, None);
    B.NextTgIdIsNew(u);
    var v := Apply(u, HumanTg(m));
    NewestEndsWith(u.tgLog, m, u.mem.tg);
    ls, t := [HumanTg(m), TgFetch], Apply(v, TgFetch);
    NoStops(u, ls);
    hide KillFree, Newest, Run, Exec;
    Two(u, HumanTg(m), TgFetch);
  }

  lemma NewestEndsWith(log: seq<TgMsg>, m: TgMsg, cursor: nat)
    requires cursor < m.id
    ensures var r := Newest(log + [m], cursor, TG_POLL_LIMIT); r != [] && r[|r| - 1] == m
  {
  }

  lemma Awake(s: Sys) returns (ls: seq<Label>, t: Sys)
    requires TgInv(s) && !s.tg.TgPosted?
    ensures Ran(s, ls, t) && KillFree(s, ls) && t == s.(up := true, tg := TgIdle)
  {
    if s.tg.TgPass? {
      One(s, TgAbort);
      ls, t := [TgAbort], Apply(s, TgAbort);
    } else if !s.up {
      One(s, Boot(Unusable));
      ls, t := [Boot(Unusable)], Apply(s, Boot(Unusable));
    } else {
      ls, t := [], s;
    }
    NoStops(s, ls);
  }

  lemma {:induction false} StaysInv(s: Sys, ls: seq<Label>, t: Sys)
    requires TgInv(s) && Ran(s, ls, t)
    ensures TgInv(t)
  {
    if ls != [] {
      var f := ls[..|ls| - 1];
      StaysInv(s, f, Exec(s, f));
      StepKeeps(Exec(s, f), ls[|ls| - 1]);
    }
  }

  /** Posting one more message leaves it unsaved beside any other. */
  lemma PostUnsaved(s: Sys, y: nat) returns (l: Label)
    requires TgInv(s) && s.tg.TgPass? && s.tg.todo != [] && Relayable(s.tg.todo[0])
    requires y in Forgettable(s) && y < s.tg.todo[0].id
    ensures Ran(s, [l], Apply(s, l)) && KillFree(s, [l]) && 2 <= |Forgettable(Apply(s, l))|
  {
    l := TgSend(true, NewId(s.mxLog));
    One(s, l);
    NoStops(s, [l]);
    ForgettableStep(s, l);
    SubsetSize({s.tg.todo[0].id, y}, Forgettable(Apply(s, l)));
  }

  /** A second unsaved message, made by letting every older send fail. */
  lemma SecondUnsaved(s: Sys) returns (ls: seq<Label>)
    requires TgInv(s) && !s.tg.TgPosted? && Forgettable(s) != {}
    ensures Run(s, ls) && KillFree(s, ls) && 2 <= |Forgettable(Exec(s, ls))|
  {
    var y :| y in Forgettable(s);
    SentBelowTop(s, y);
    var a, t := ToNewPoll(s);
    var b, u := Drain(t, |t.tg.todo| - 1);
    StaysInv(t, b, u);
    var l := PostUnsaved(u, y);
    Joined(s, a, t, b, u);
    KillFreeJoined(s, a, t, b);
    Joined(s, a + b, u, [l], Apply(u, l));
    KillFreeJoined(s, a + b, u, [l]);
    ls := a + b + [l];
  }

  lemma SentBelowTop(s: Sys, y: nat)
    requires TgInv(s) && y in s.sentMx
    ensures y <= Top(s.tgLog) && s.firstTg != 0
  {
    var i :| 0 <= i < |s.tgLog| && Relayable(s.tgLog[i]) && s.tgLog[i].id == y;
    LogId(s.tgLog, i);
  }

  lemma {:induction false} SavedOn(s: Sys, ls: seq<Label>)
    requires TgInv(s) && AllSaved(s) && Run(s, ls) && KillFree(s, ls)
    ensures TgInv(Exec(s, ls)) && AllSaved(Exec(s, ls))
  {
    if ls != [] {
      var f := ls[..|ls| - 1];
      SavedOn(s, f);
      SavedStep(Exec(s, f), ls[|ls| - 1]);
      StepKeeps(Exec(s, f), ls[|ls| - 1]);
    }
  }

  /** From a reachable state, at most one message can be forgotten at any later moment before
      the next kill, whatever fails, exactly when nothing is unsaved now but what is in flight. */
  lemma StaysOneIff(s: Sys, ls: seq<Label>)
    requires Fresh0(s) && Run(s, ls)
    ensures StaysOne(Exec(s, ls)) <==> AllSaved(Exec(s, ls))
  {
    var t := Exec(s, ls);
    RunKeeps(s, ls);
    if AllSaved(t) {
      forall more | Run(t, more) && KillFree(t, more) ensures |Forgettable(Exec(t, more))| <= 1 {
        SavedOn(t, more);
        SubsetSize(Forgettable(Exec(t, more)), Flying(Exec(t, more).tg));
      }
    } else if t.tg.TgPosted? {
      var y :| y in Forgettable(t) && y != t.tg.msg.id;
      SubsetSize({y, t.tg.msg.id}, Forgettable(t));
      assert Exec(t, []) == t && Run(t, []) && KillFree(t, []);
    } else {
      var more := SecondUnsaved(t);
      assert Run(t, more) && KillFree(t, more);
    }
  }
}
