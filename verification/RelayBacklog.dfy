/** The Matrix side without its cursor: when the backlog the first start skips can be forwarded
    after all, and when an event can be forwarded twice. */
module RelayBacklog {
  import opened Prelude
  import opened RelayModel
  import Tg = RelayTelegram
  import Mx = RelayMatrix

  // ---- Nothing from before the first cursor ----------------------------------------

  /** Events are only fetched with a cursor to fetch them from. */
  predicate Guarded(s: Sys, l: Label) { Mx.Brings(l) ==> s.nb.Some? }

  ghost predicate GuardedRun(s: Sys, ls: seq<Label>) {
    ls == [] || (GuardedRun(s, ls[..|ls| - 1]) && Guarded(Exec(s, ls[..|ls| - 1]), ls[|ls| - 1]))
  }

  predicate Above(firstNb: Option<nat>, p: nat) { firstNb.Some? && firstNb.value <= p }

  ghost predicate AllAbove(firstNb: Option<nat>, ps: seq<nat>) {
    forall i :: 0 <= i < |ps| ==> Above(firstNb, ps[i])
  }

  ghost predicate Floor(s: Sys) {
    && s.nb == s.diskNb
    && (s.nb.Some? ==> Above(s.firstNb, s.nb.value))
    && (s.firstNb.Some? ==> s.firstNb.value <= |s.mxLog|)
    && AllAbove(s.firstNb, Mx.Todo(s.mx)) && AllAbove(s.firstNb, s.sentTg)
    && (!s.up ==> s.mx == MxIdle)
  }

  lemma BatchStepFloor(s: Sys, l: Label)
    requires Floor(s) && Enabled(s, l) && (l.MxSkip? || l.MxGiveUp? || l.MxMark? || l.MxSend?)
    ensures Floor(Apply(s, l))
  {
    var all := Mx.Todo(s.mx);
    if l.MxSend? {
      assert all[0] == s.mx.pos && all[1..] == s.mx.todo;
      assert forall i :: 0 <= i < |s.mx.todo| ==> s.mx.todo[i] == all[i + 1];
    } else {
      assert Mx.Todo(Apply(s, l).mx) == if l.MxMark? then all else all[1..];
    }
  }

  lemma StepFloor(s: Sys, l: Label)
    requires Floor(s) && Enabled(s, l) && Guarded(s, l)
    ensures Floor(Apply(s, l))
  {
    if l.MxSkip? || l.MxGiveUp? || l.MxMark? || l.MxSend? {
      BatchStepFloor(s, l);
    } else if l.MxSync? {
      SyncFloor(s, l.reply);
    } else if !Mx.ByMatrixLoop(l) {
      OtherStepFloor(s, l);
    }
  }

  lemma OtherStepFloor(s: Sys, l: Label)
    requires Floor(s) && Enabled(s, l) && Guarded(s, l) && !Mx.ByMatrixLoop(l)
    ensures Floor(Apply(s, l))
  {
    if !l.TgSend? && !l.HumanMx? && !l.Boot? && !l.Restart? && !l.TornCursor? {
      Mx.TelegramSideFrame(s, l);
    }
  }

  lemma SyncFloor(s: Sys, a: Answer)
    requires Floor(s) && Enabled(s, MxSync(a)) && Guarded(s, MxSync(a))
    ensures Floor(Apply(s, MxSync(a)))
  {
    assert a.Answer? ==> Mx.Todo(Apply(s, MxSync(a)).mx) == Range(a.from, a.upTo);
  }

  /** While events are only fetched with a cursor, none from before the first saved cursor is
      ever forwarded: over every run with any crashes, torn cursor files, failed sends, and
      syncs that move no cursor. */
  lemma {:induction false} NeverBacklog(s: Sys, ls: seq<Label>)
    requires Fresh0(s) && Run(s, ls) && GuardedRun(s, ls)
    ensures AllAbove(Exec(s, ls).firstNb, Exec(s, ls).sentTg) && Floor(Exec(s, ls))
  {
    if ls != [] {
      NeverBacklog(s, ls[..|ls| - 1]);
      StepFloor(Exec(s, ls[..|ls| - 1]), ls[|ls| - 1]);
    }
  }

  // ---- Without the guard -----------------------------------------------------------

  /** The Matrix loop can always be brought to rest without marking anything more. */
  lemma ToRest(s: Sys) returns (ls: seq<Label>, t: Sys)
    requires s.up
    ensures Ran(s, ls, t) && t == s.(mx := MxIdle, disk := t.disk)
    ensures t.disk == s.disk || t.disk == Saved(s.mem)
  {
    match s.mx
    case MxIdle => ls, t := [], s;
    case MxBatch(todo) =>
      One(s, MxAbort);
      ls, t := [MxAbort], Apply(s, MxAbort);
    case MxMarked(pos, todo) =>
      Two(s, MxSend(false, 0), MxAbort);
      ls, t := [MxSend(false, 0), MxAbort], Apply(Apply(s, MxSend(false, 0)), MxAbort);
    case MxPosted(todo) =>
      Two(s, MxCommit, MxAbort);
      ls, t := [MxCommit, MxAbort], Apply(Apply(s, MxCommit), MxAbort);
  }

  function NextTgId(log: seq<TgMsg>): nat { Tg.Top(log) + 1 }

  lemma NextTgIdIsNew(s: Sys)
    requires Ascending(s.tgLog)
    ensures NewTgId(s, NextTgId(s.tgLog))
  {
  }

  predicate Waiting(s: Sys, p: nat) { Fresh(s, p) && s.mxLog[p].kind == Text }

  /** An idle relay given the timeline from `p` on forwards `p`. */
  lemma ForwardFrom(s: Sys, p: nat, next: Option<nat>) returns (ls: seq<Label>, t: Sys)
    requires s.up && s.mx == MxIdle && Ascending(s.tgLog) && Waiting(s, p)
    requires (s.nb.Some? ==> s.nb.value <= p) && (next.Some? ==> next.value == |s.mxLog|)
    ensures Ran(s, ls, t) && t.sentTg == s.sentTg + [p] && t.mxLog == s.mxLog && t.up && t.disk == s.disk
    ensures t.diskNb == (if next.Some? then next else s.diskNb)
    ensures t.firstNb == if s.firstNb.None? then next else s.firstNb
    ensures Ascending(t.tgLog)
  {
    var a, id := Answer(next, p, |s.mxLog|), NextTgId(s.tgLog);
    var b := Apply(s, MxSync(a));
    assert b.mx.todo == Range(p, |s.mxLog|) && b.mx.todo[0] == p;
    NextTgIdIsNew(s);
    t := SendHead(b, id);
    Three(s, MxSync(a), MxMark, MxSend(true, id));
    ls := [MxSync(a), MxMark, MxSend(true, id)];
  }

  lemma SendHead(s: Sys, id: nat) returns (t: Sys)
    requires MxHasHead(s) && Waiting(s, s.mx.todo[0]) && NewTgId(s, id) && Ascending(s.tgLog)
    ensures Enabled(s, MxMark) && Enabled(Apply(s, MxMark), MxSend(true, id))
    ensures t == Apply(Apply(s, MxMark), MxSend(true, id)) && Ascending(t.tgLog)
    ensures t.sentTg == s.sentTg + [s.mx.todo[0]] && t.mxLog == s.mxLog && t.up == s.up && t.disk == s.disk
    ensures t.nb == s.nb && t.diskNb == s.diskNb && t.firstNb == s.firstNb
  {
    t := Apply(Apply(s, MxMark), MxSend(true, id));
  }

  lemma ReachedAscending(s: Sys, ls: seq<Label>)
    requires Fresh0(s) && Run(s, ls)
    ensures Ascending(Exec(s, ls).tgLog)
  {
    Tg.RunKeeps(s, ls);
  }

  /** And the guard is needed everywhere: from any reachable state of a running relay without
      a cursor, some continuation forwards any unmarked message of the timeline: as backlog,
      if there was no first cursor yet or it lies before it, and again, if it went out before. */
  lemma BacklogLeaks(s: Sys, ls: seq<Label>, p: nat) returns (more: seq<Label>)
    requires Fresh0(s) && Run(s, ls) && Exec(s, ls).up && Exec(s, ls).nb.None?
    requires Waiting(Exec(s, ls), p)
    ensures Run(s, ls + more) && Exec(s, ls + more).sentTg == Exec(s, ls).sentTg + [p]
    ensures !Above(Exec(s, ls).firstNb, p) ==> !Above(Exec(s, ls + more).firstNb, p)
  {
    var t := Exec(s, ls);
    ReachedAscending(s, ls);
    var rest, u := ToRest(t);
    var send, v := ForwardFrom(u, p, Some(|u.mxLog|));
    Joined(t, rest, u, send, v);
    more := rest + send;
    Joined(s, ls, t, more, v);
  }

  /** The first start of a deployment with one old message is enough. */
  lemma BacklogCanLeak() returns (s: Sys, ls: seq<Label>)
    ensures Fresh0(s) && Run(s, ls)
    ensures s.mxLog == [MxEvent("old", false, false, Text, None)] && s.tgLog == []
    ensures Exec(s, ls).sentTg == [0] && !Above(Exec(s, ls).firstNb, 0)
  {
    s := Sys([], [MxEvent("old", false, false, Text, None)], Cursors(0, []), None, Cursors(0, []), None,
             false, TgIdle, MxIdle, [], [], 0, 0, None);
    One(s, Boot(Unusable));
    var more := BacklogLeaks(s, [Boot(Unusable)], 0);
    ls := [Boot(Unusable)] + more;
  }

  // ---- Twice -----------------------------------------------------------------------

  lemma CursorStep(s: Sys, l: Label)
    requires Enabled(s, l) && s.nb == s.diskNb
    ensures Apply(s, l).nb == Apply(s, l).diskNb
  {
  }

  lemma {:induction false} SameCursor(s: Sys, ls: seq<Label>)
    requires Fresh0(s) && Run(s, ls)
    ensures Exec(s, ls).nb == Exec(s, ls).diskNb
  {
    if ls != [] {
      SameCursor(s, ls[..|ls| - 1]);
      CursorStep(Exec(s, ls[..|ls| - 1]), ls[|ls| - 1]);
    }
  }

  /** What at-most-once asks is needed too: from any reachable state of a running relay with a
      message waiting that neither memory nor disk has marked, one answer that brings it
      without a next_batch, and one crash, can forward it twice. */
  lemma UncursoredRepeats(s: Sys, ls: seq<Label>, p: nat) returns (more: seq<Label>)
    requires Fresh0(s) && Run(s, ls) && Exec(s, ls).up && Waiting(Exec(s, ls), p)
    requires Exec(s, ls).nb.Some? ==> Exec(s, ls).nb.value <= p
    requires Exec(s, ls).mxLog[p].id !in Exec(s, ls).disk.seen
    ensures Run(s, ls + more) && Exec(s, ls + more).sentTg == Exec(s, ls).sentTg + [p, p]
  {
    var t := Exec(s, ls);
    ReachedAscending(s, ls);
    SameCursor(s, ls);
    var rest, u := ToRest(t);
    var twice, x := ForwardTwice(u, p);
    Joined(t, rest, u, twice, x);
    more := rest + twice;
    Joined(s, ls, t, more, x);
  }

  lemma ForwardTwice(s: Sys, p: nat) returns (ls: seq<Label>, t: Sys)
    requires s.up && s.mx == MxIdle && Ascending(s.tgLog) && Waiting(s, p) && s.mxLog[p].id !in s.disk.seen
    requires s.nb == s.diskNb && (s.nb.Some? ==> s.nb.value <= p)
    ensures Ran(s, ls, t) && t.sentTg == s.sentTg + [p, p]
  {
    var once, v := ForwardFrom(s, p, None);
    var stop := [Restart(false), Boot(Unusable)];
    Two(v, Restart(false), Boot(Unusable));
    var w := Apply(Apply(v, Restart(false)), Boot(Unusable));
    var again;
    again, t := ForwardFrom(w, p, None);
    Joined(s, once, v, stop, w);
    Joined(s, once + stop, w, again, t);
    ls := once + stop + again;
    assert s.sentTg + [p] + [p] == s.sentTg + [p, p];
  }
}
