/** Where the relay's comments promise more than its code keeps: concrete runs. */
module RelayLimits {
  import opened Prelude
  import opened RelayModel
  import Tg = RelayTelegram
  import Once = RelayExactlyOnce

  /** Taking one more enabled label; a run once unclean stays so. */
  lemma Then(s: Sys, ls: seq<Label>, t: Sys, l: Label) returns (ls': seq<Label>, t': Sys)
    requires Ran(s, ls, t) && Enabled(t, l)
    ensures Ran(s, ls', t') && t' == Apply(t, l)
    ensures !Once.CleanRun(s, ls) || !Once.Clean(t, l) ==> !Once.CleanRun(s, ls')
  {
    ls', t' := ls + [l], Apply(t, l);
    assert ls'[..|ls|] == ls;
  }

  function Start(tg: seq<TgMsg>, mx: seq<MxEvent>): Sys {
    Sys(tg, mx, Cursors(0, []), None, Cursors(0, []), None, false, TgIdle, MxIdle, [], [], 0, 0, None)
  }

  function Post(id: nat): TgMsg { TgMsg(id, false, true, None) }

  /** A relay past its first start at Telegram id 1. */
  function Started(log: seq<TgMsg>): Sys {
    Start(log, []).(
      mem := Cursors(1, []), disk := Cursors(1, []), nb := Some(0), diskNb := Some(0),
      up := true, firstTg := 1, firstNb := Some(0))
  }

  /** The same with messages 2 and 3 waiting. */
  function TwoWaiting(): Sys { Started([Post(1), Post(2), Post(3)]) }

  function Booted(): Sys {
    Start([Post(1)], []).(nb := Some(0), diskNb := Some(0), up := true, firstNb := Some(0))
  }

  lemma BootedFetches()
    ensures Apply(Booted(), TgFetch) == Started([Post(1)])
  {
    FetchOne();
    assert Saved(Cursors(1, [])) == Cursors(1, []);
  }

  lemma ReachBooted() returns (s: Sys, ls: seq<Label>)
    ensures Fresh0(s) && Ran(s, ls, Booted())
  {
    s := Start([Post(1)], []);
    var t;
    ls, t := Then(s, [], s, Boot(Answer(Some(0), 0, 0)));
  }

  lemma ReachStarted() returns (s: Sys, ls: seq<Label>)
    ensures Fresh0(s) && Ran(s, ls, Started([Post(1)]))
  {
    var t;
    s, ls := ReachBooted();
    BootedFetches();
    ls, t := Then(s, ls, Booted(), TgFetch);
  }

  lemma FetchOne()
    ensures Newest([Post(1)], 0, TG_POLL_LIMIT) == [Post(1)]
  {
    var one := [Post(1)];
    assert one[..0] == [] && Newest(one[..0], 0, 199) == [];
  }

  lemma ReachTwoWaiting() returns (s: Sys, ls: seq<Label>)
    ensures Fresh0(s) && Ran(s, ls, TwoWaiting())
  {
    s, ls := ReachStarted();
    var t := Started([Post(1)]);
    ls, t := Then(s, ls, t, HumanTg(Post(2)));
    assert t == Started([Post(1), Post(2)]) by { assert [Post(1)] + [Post(2)] == [Post(1), Post(2)]; }
    ls, t := Then(s, ls, t, HumanTg(Post(3)));
    assert [Post(1), Post(2)] + [Post(3)] == [Post(1), Post(2), Post(3)];
  }

  lemma FetchTwo(log: seq<TgMsg>)
    requires log == [Post(1), Post(2), Post(3)]
    ensures Newest(log, 1, TG_POLL_LIMIT) == [Post(2), Post(3)]
  {
    var two := log[..2];
    assert two == [Post(1), Post(2)] && two[..1] == [Post(1)];
    assert Newest(two[..1], 1, 198) == [];
    assert Newest(two, 1, 199) == [Post(2)];
  }

  /** Message 2 fails, message 3 goes out, and the process dies before recording it. */
  lemma FailThenCrash(s: Sys, ls: seq<Label>) returns (ls': seq<Label>, t: Sys)
    requires Ran(s, ls, TwoWaiting())
    ensures Ran(s, ls', t) && !Once.CleanRun(s, ls')
    ensures t == TwoWaiting().(
      mxLog := [MxEvent("a", true, true, Text, Some(3))], sentMx := [3], restarts := 1, up := false)
  {
    t := TwoWaiting();
    FetchTwo(t.tgLog);
    ls', t := Then(s, ls, t, TgFetch);
    ls', t := Then(s, ls', t, TgSend(false, "a"));
    ls', t := Then(s, ls', t, TgSend(true, "a"));
    ls', t := Then(s, ls', t, Restart(false));
  }

  /** The next process sends message 2 first. */
  lemma SendTwoAfterThree(s: Sys, ls: seq<Label>, t: Sys) returns (ls': seq<Label>, t': Sys)
    requires Ran(s, ls, t) && !Once.CleanRun(s, ls)
    requires t.tgLog == TwoWaiting().tgLog && |t.mxLog| == 1 && t.mxLog[0].id == "a"
    requires t.mem.tg == t.disk.tg == 1 && t.nb.Some? && t.up && t.tg == TgIdle && t.sentMx == [3]
    ensures Ran(s, ls', t') && !Once.CleanRun(s, ls') && t'.sentMx == [3, 2] && t'.disk.tg == 1
  {
    FetchTwo(t.tgLog);
    ls', t' := Then(s, ls, t, TgFetch);
    ls', t' := Then(s, ls', t', TgSend(true, "b"));
  }

  /** With a failed send the cursor stays behind one message while a later one goes out; after
      a crash both can be sent again: two forgettable messages, not one. */
  lemma TwoCanBeForgotten() returns (s: Sys, ls: seq<Label>)
    ensures Fresh0(s) && Run(s, ls) && !Once.CleanRun(s, ls)
    ensures |Tg.Forgettable(Exec(s, ls))| == 2
  {
    var t;
    s, ls := ReachTwoWaiting();
    ls, t := FailThenCrash(s, ls);
    ls, t := Then(s, ls, t, Boot(Unusable));
    ls, t := SendTwoAfterThree(s, ls, t);
    assert Tg.Forgettable(t) == {2, 3};
  }

  /** The process dies after message 3 went out and before it was saved; message 2 fails both
      times. Message 3 is posted twice. */
  lemma PostedTwice() returns (s: Sys, ls: seq<Label>)
    ensures Fresh0(s) && Run(s, ls)
    ensures Exec(s, ls).sentMx == [3, 3] && Exec(s, ls).restarts == 1
  {
    var t;
    s, ls := ReachTwoWaiting();
    ls, t := FailThenCrash(s, ls);
    ls, t := Then(s, ls, t, Boot(Unusable));
    FetchTwo(t.tgLog);
    ls, t := Then(s, ls, t, TgFetch);
    ls, t := Then(s, ls, t, TgSend(false, "b"));
    ls, t := Then(s, ls, t, TgSend(true, "b"));
  }
}
