/** What the relay's passes come to, stated on the two logs, the server's answer and the outcomes
    of the sends, without the steps a pass is made of. */
module RelayMeaning {
  import opened Prelude
  import opened RelayModel
  import opened RelayTelegram
  import opened RelayPasses
  import Mx = RelayMatrix

  // ---- Nothing is passed over in silence -------------------------------------------

  /** There is nothing left to do about this message. */
  predicate Settled(m: TgMsg, sent: seq<nat>) { m.own || !m.hasText || m.id in sent }

  /** The cursor is where the first start put it, or on a message that is settled. */
  ghost predicate Rests(log: seq<TgMsg>, first: nat, cursor: nat, sent: seq<nat>) {
    cursor == first || exists j :: 0 <= j < |log| && log[j].id == cursor && Settled(log[j], sent)
  }

  ghost predicate BothRest(s: Sys) {
    Rests(s.tgLog, s.firstTg, s.mem.tg, s.sentMx) && Rests(s.tgLog, s.firstTg, s.disk.tg, s.sentMx)
  }

  lemma RestsOn(log: seq<TgMsg>, log': seq<TgMsg>, first: nat, cursor: nat, sent: seq<nat>, sent': seq<nat>)
    requires Rests(log, first, cursor, sent) && log <= log' && sent <= sent'
    ensures Rests(log', first, cursor, sent')
  {
    if cursor != first {
      var j :| 0 <= j < |log| && log[j].id == cursor && Settled(log[j], sent);
      assert log'[j] == log[j] && Settled(log'[j], sent');
    }
  }

  /** Moving the cursor onto a message that is skipped or posted. */
  lemma RestsThere(log: seq<TgMsg>, first: nat, id: nat, sent: seq<nat>)
    requires id in Ids(log) && (id in HumanIds(log) ==> id in sent)
    ensures Rests(log, first, id, sent)
  {
    var j :| 0 <= j < |log| && log[j].id == id;
    assert Relayable(log[j]) ==> id in HumanIds(log);
  }

  lemma HumanIsListed(log: seq<TgMsg>, id: nat)
    requires id in HumanIds(log)
    ensures id in Ids(log)
  {
  }

  /** What a step other than a skip, a commit or the first fetch does to the cursors. */
  predicate KeepsCursors(s: Sys, t: Sys) {
    && t.firstTg == s.firstTg && s.tgLog <= t.tgLog && s.sentMx <= t.sentMx
    && t.mem.tg in {s.mem.tg, s.disk.tg} && t.disk.tg in {s.mem.tg, s.disk.tg}
  }

  lemma OtherStepKeeps(s: Sys, l: Label)
    requires Enabled(s, l) && !l.TgSkip? && !l.TgCommit? && !l.TgFetch?
    ensures KeepsCursors(s, Apply(s, l))
  {
    if !ByTelegramLoop(l) && !l.HumanTg? && !l.MxSend? && !l.Restart? && !l.TornCursor? && !l.Boot? {
      MatrixSideFrame(s, l);
    }
  }

  lemma RestStep(s: Sys, l: Label)
    requires TgInv(s) && BothRest(s) && Enabled(s, l)
    ensures BothRest(Apply(s, l))
  {
    var t := Apply(s, l);
    if l.TgSkip? {
      RestsThere(s.tgLog, s.firstTg, s.tg.todo[0].id, s.sentMx);
    } else if l.TgCommit? {
      HumanIsListed(s.tgLog, s.tg.msg.id);
      RestsThere(s.tgLog, s.firstTg, s.tg.msg.id, s.sentMx);
    } else if !l.TgFetch? {
      OtherStepKeeps(s, l);
      RestsOn(s.tgLog, t.tgLog, s.firstTg, s.mem.tg, s.sentMx, t.sentMx);
      RestsOn(s.tgLog, t.tgLog, s.firstTg, s.disk.tg, s.sentMx, t.sentMx);
    }
  }

  lemma {:induction false} RunRests(s: Sys, ls: seq<Label>)
    requires Fresh0(s) && Run(s, ls)
    ensures BothRest(Exec(s, ls)) && TgInv(Exec(s, ls))
  {
    hide Apply, Enabled, BothRest;
    RunKeeps(s, ls);
    if ls == [] {
      StartRests(s);
    } else {
      RunRests(s, ls[..|ls| - 1]);
      RestStep(Exec(s, ls[..|ls| - 1]), ls[|ls| - 1]);
    }
  }

  lemma StartRests(s: Sys)
    requires Fresh0(s)
    ensures BothRest(s)
  {
  }

  /** A person's message with text, newer than the first cursor and not posted, is only ever
      behind a cursor, in memory or on disk, together with a newer message that had nothing to
      post or was posted: a failed send on its own moves no cursor, in any run. */
  lemma PassedOver(s: Sys, ls: seq<Label>, i: nat, cursor: nat)
    requires Fresh0(s) && Run(s, ls) && cursor in {Exec(s, ls).mem.tg, Exec(s, ls).disk.tg}
    requires var t := Exec(s, ls);
      && i < |t.tgLog| && !t.tgLog[i].own && t.tgLog[i].hasText
      && t.firstTg < t.tgLog[i].id <= cursor && t.tgLog[i].id !in t.sentMx
    ensures var t := Exec(s, ls);
      exists j :: i < j < |t.tgLog| && t.tgLog[j].id <= cursor
        && (t.tgLog[j].own || !t.tgLog[j].hasText || t.tgLog[j].id in t.sentMx)
  {
    var t := Exec(s, ls);
    RunRests(s, ls);
    var j := NewerSettled(t.tgLog, t.firstTg, cursor, t.sentMx, i);
    hide *;
    assert i < j < |t.tgLog| && t.tgLog[j].id <= cursor;
  }

  lemma NewerSettled(log: seq<TgMsg>, first: nat, cursor: nat, sent: seq<nat>, i: nat) returns (j: nat)
    requires Ascending(log) && Rests(log, first, cursor, sent) && i < |log|
    requires !Settled(log[i], sent) && first < log[i].id <= cursor
    ensures i < j < |log| && log[j].id <= cursor && Settled(log[j], sent)
  {
    j :| 0 <= j < |log| && log[j].id == cursor && Settled(log[j], sent);
  }

  // ---- What a fetch reads ----------------------------------------------------------

  lemma {:induction false} NewestOf(log: seq<TgMsg>, cursor: nat, k: nat, limit: nat)
    requires k <= |log|
    requires forall i :: 0 <= i < k ==> log[i].id <= cursor
    requires forall i :: k <= i < |log| ==> cursor < log[i].id
    ensures Newest(log, cursor, limit) == log[if |log| - k <= limit then k else |log| - limit..]
  {
    if limit != 0 && k < |log| {
      var f := log[..|log| - 1];
      NewestOf(f, cursor, k, limit - 1);
      var j := if |f| - k <= limit - 1 then k else |f| - (limit - 1);
      assert log[j..] == f[j..] + [log[|log| - 1]];
    }
  }

  /** A fetch reads the messages above the cursor, from message `k` of the log on; if there are more
      than 200 of them, the newest 200. */
  lemma FetchReads(log: seq<TgMsg>, cursor: nat, k: nat)
    requires k <= |log|
    requires forall i :: 0 <= i < k ==> log[i].id <= cursor
    requires forall i :: k <= i < |log| ==> cursor < log[i].id
    ensures Newest(log, cursor, TG_POLL_LIMIT) == log[if |log| - k <= 200 then k else |log| - 200..]
  {
    NewestOf(log, cursor, k, TG_POLL_LIMIT);
  }

  // ---- What one poll comes to ------------------------------------------------------

  /** Message `i` of a poll gets done: it needs no post, or its post goes through. */
  predicate GetsDone(new_: seq<TgMsg>, outcomes: seq<TgOutcome>, i: nat)
    requires i < |new_| && i < |outcomes|
  {
    new_[i].own || !new_[i].hasText || outcomes[i].Sent?
  }

  /** The messages up to the last one that gets done. */
  function DoneUpTo(new_: seq<TgMsg>, outcomes: seq<TgOutcome>, n: nat): (k: nat)
    requires n <= |new_| && n <= |outcomes|
    ensures k <= n && (k > 0 ==> GetsDone(new_, outcomes, k - 1))
    ensures forall i :: k <= i < n ==> !GetsDone(new_, outcomes, i)
  {
    if n == 0 || GetsDone(new_, outcomes, n - 1) then n else DoneUpTo(new_, outcomes, n - 1)
  }

  /** The people's messages with text whose posts go through, in order. */
  function Through(new_: seq<TgMsg>, outcomes: seq<TgOutcome>, n: nat): seq<nat>
    requires n <= |new_| && n <= |outcomes|
  {
    if n == 0 then []
    else
      Through(new_, outcomes, n - 1)
        + if !new_[n - 1].own && new_[n - 1].hasText && outcomes[n - 1].Sent? then [new_[n - 1].id] else []
  }

  /** The last `k` messages done, and the cursor with them. */
  function CursorAt(new_: seq<TgMsg>, k: nat, cursor: nat): nat
    requires k <= |new_|
  {
    if k == 0 then cursor else new_[k - 1].id
  }

  ghost predicate Rising(msgs: seq<TgMsg>, above: nat) {
    && (forall i :: 0 <= i < |msgs| ==> above < msgs[i].id)
    && forall i, j :: 0 <= i < j < |msgs| ==> msgs[i].id < msgs[j].id
  }

  lemma Assoc<T>(a: seq<T>, b: seq<T>, c: seq<T>)
    ensures (a + b) + c == a + (b + c)
  {
  }

  /** The head message, by itself. */
  lemma MessageMeans(s: Sys, o: TgOutcome)
    requires s.tg.TgPass? && s.tg.todo != [] && s.mem.tg < s.tg.todo[0].id
    ensures var m, t := s.tg.todo[0], AfterTg(s, o);
      && t.sentMx == s.sentMx + (if !m.own && m.hasText && o.Sent? then [m.id] else [])
      && t.mem.tg == (if m.own || !m.hasText || o.Sent? then m.id else s.mem.tg)
      && t.tgLog == s.tgLog && t.firstTg == s.firstTg
      && (o.Failed? ==> t.mxLog == s.mxLog)
  {
    assert s.sentMx + [] == s.sentMx;
  }

  lemma {:induction false} MessagesMean(s: Sys, outcomes: seq<TgOutcome>, n: nat)
    requires s.tg.TgPass? && n <= |s.tg.todo| && n <= |outcomes| && Rising(s.tg.todo, s.mem.tg)
    ensures var new_, t := s.tg.todo, AfterAll(s, outcomes, n);
      && t.sentMx == s.sentMx + Through(new_, outcomes, n)
      && t.mem.tg == CursorAt(new_, DoneUpTo(new_, outcomes, n), s.mem.tg)
      && t.tgLog == s.tgLog && t.firstTg == s.firstTg
  {
    if n > 0 {
      MessagesMean(s, outcomes, n - 1);
      hide AfterTg;
      var t, k, m := AfterAll(s, outcomes, n - 1), DoneUpTo(s.tg.todo, outcomes, n - 1), s.tg.todo[n - 1];
      assert t.tg.todo[0] == m;
      assert t.mem.tg < m.id;
      MessageMeans(t, outcomes[n - 1]);
      Assoc(s.sentMx, Through(s.tg.todo, outcomes, n - 1),
            if !m.own && m.hasText && outcomes[n - 1].Sent? then [m.id] else []);
    } else {
      assert s.sentMx + [] == s.sentMx;
    }
  }

  /** A poll posts exactly the people's new messages with text whose posts go through, in order,
      and leaves the cursor on the last message that needed no post or got one, in memory and on
      disk; before any cursor it posts nothing and takes the newest message for seen. */
  lemma PollMeans(s: Sys, outcomes: seq<TgOutcome>)
    requires Ascending(s.tgLog) && TG_POLL_LIMIT <= |outcomes|
    ensures var new_, t := Newest(s.tgLog, s.mem.tg, TG_POLL_LIMIT), AfterPoll(s, outcomes);
      && |new_| <= TG_POLL_LIMIT
      && (s.mem.tg == 0 ==> t.sentMx == s.sentMx && t.mem.tg == CursorAt(new_, |new_|, 0))
      && (s.mem.tg != 0 ==>
            && t.sentMx == s.sentMx + Through(new_, outcomes, |new_|)
            && t.mem.tg == CursorAt(new_, DoneUpTo(new_, outcomes, |new_|), s.mem.tg))
      && (if new_ == [] then t == s else t.disk.tg == t.mem.tg)
      && t.tgLog == s.tgLog
  {
    var new_ := Newest(s.tgLog, s.mem.tg, TG_POLL_LIMIT);
    NewestLength(s.tgLog, s.mem.tg, TG_POLL_LIMIT);
    NewestRises(s.tgLog, s.mem.tg, TG_POLL_LIMIT);
    if new_ != [] && s.mem.tg != 0 {
      MessagesMean(s.(tg := TgPass(new_)), outcomes, |new_|);
    }
  }

  lemma NewestRises(log: seq<TgMsg>, cursor: nat, limit: nat)
    requires Ascending(log)
    ensures Rising(Newest(log, cursor, limit), cursor)
  {
    NewestSuffix(log, cursor, limit);
    var r := Newest(log, cursor, limit);
    var k := |log| - |r|;
    assert forall i :: 0 <= i < |r| ==> r[i] == log[k + i];
  }

  /** Reading again from a message that was read leaves those after it. */
  lemma {:induction false} NewestFrom(log: seq<TgMsg>, cursor: nat, limit: nat, k: nat)
    requires Ascending(log) && k <= |Newest(log, cursor, limit)|
    ensures var r := Newest(log, cursor, limit); Newest(log, CursorAt(r, k, cursor), limit) == r[k..]
  {
    var r := Newest(log, cursor, limit);
    if k > 0 {
      NewestRises(log, cursor, limit);
      var f := log[..|log| - 1];
      if k < |r| {
        NewestFrom(f, cursor, limit - 1, k);
        assert r[k..] == r[..|r| - 1][k..] + [log[|log| - 1]];
      }
    } else {
      assert r[0..] == r;
    }
  }

  /** So the next poll, if nobody has written, reads again exactly what came after the last
      message that got done: a failed post is retried if and only if nothing newer of its poll
      went through or needed no post. */
  lemma NextPollReads(s: Sys, outcomes: seq<TgOutcome>)
    requires Ascending(s.tgLog) && TG_POLL_LIMIT <= |outcomes| && s.mem.tg != 0
    ensures var new_, t := Newest(s.tgLog, s.mem.tg, TG_POLL_LIMIT), AfterPoll(s, outcomes);
      && |new_| <= TG_POLL_LIMIT
      && Newest(t.tgLog, t.mem.tg, TG_POLL_LIMIT) == new_[DoneUpTo(new_, outcomes, |new_|)..]
  {
    PollMeans(s, outcomes);
    var new_ := Newest(s.tgLog, s.mem.tg, TG_POLL_LIMIT);
    NewestFrom(s.tgLog, s.mem.tg, TG_POLL_LIMIT, DoneUpTo(new_, outcomes, |new_|));
  }

  /** In particular, when every post fails and every new message asks for one, nothing moves and
      the next poll reads them all again. */
  lemma AllFailedAllRetried(s: Sys, outcomes: seq<TgOutcome>)
    requires Ascending(s.tgLog) && TG_POLL_LIMIT <= |outcomes| && s.mem.tg != 0
    requires forall i :: 0 <= i < |outcomes| ==> outcomes[i].Failed?
    requires forall m :: m in s.tgLog && s.mem.tg < m.id ==> Asks(m)
    ensures var t := AfterPoll(s, outcomes);
      && t.mem.tg == s.mem.tg && t.sentMx == s.sentMx && t.mxLog == s.mxLog
      && Newest(t.tgLog, t.mem.tg, TG_POLL_LIMIT) == Newest(s.tgLog, s.mem.tg, TG_POLL_LIMIT)
  {
    var new_ := Newest(s.tgLog, s.mem.tg, TG_POLL_LIMIT);
    NextPollReads(s, outcomes);
    PollMeans(s, outcomes);
    AllAsk(s.tgLog, s.mem.tg, TG_POLL_LIMIT);
    NoneThrough(new_, outcomes, |new_|);
    PollPosts(s, outcomes);
    hide *;
    assert DoneUpTo(new_, outcomes, |new_|) == 0 by {
      if DoneUpTo(new_, outcomes, |new_|) > 0 {
        FailedIsNotDone(new_, outcomes, DoneUpTo(new_, outcomes, |new_|) - 1);
      }
    }
    CursorStays(new_, s.mem.tg);
    assert s.sentMx + [] == s.sentMx && new_[0..] == new_;
  }

  lemma CursorStays(new_: seq<TgMsg>, cursor: nat)
    ensures CursorAt(new_, 0, cursor) == cursor
  {
  }

  lemma FailedIsNotDone(new_: seq<TgMsg>, outcomes: seq<TgOutcome>, i: nat)
    requires i < |new_| && i < |outcomes| && Asks(new_[i]) && outcomes[i].Failed?
    ensures !GetsDone(new_, outcomes, i)
  {
  }

  predicate Asks(m: TgMsg) { !m.own && m.hasText }

  lemma {:induction false} AllAsk(log: seq<TgMsg>, cursor: nat, limit: nat)
    requires forall m :: m in log && cursor < m.id ==> Asks(m)
    ensures forall m :: m in Newest(log, cursor, limit) ==> Asks(m)
  {
    if limit != 0 && log != [] && log[|log| - 1].id > cursor {
      assert log == log[..|log| - 1] + [log[|log| - 1]];
      AllAsk(log[..|log| - 1], cursor, limit - 1);
    }
  }

  lemma PollPosts(s: Sys, outcomes: seq<TgOutcome>)
    requires TG_POLL_LIMIT <= |outcomes| && forall i :: 0 <= i < |outcomes| ==> outcomes[i].Failed?
    ensures AfterPoll(s, outcomes).mxLog == s.mxLog
  {
    var new_ := Newest(s.tgLog, s.mem.tg, TG_POLL_LIMIT);
    NewestLength(s.tgLog, s.mem.tg, TG_POLL_LIMIT);
    hide Newest;
    NonePosted(s.(tg := TgPass(new_)), outcomes, |new_|);
  }

  lemma {:induction false} NoneThrough(new_: seq<TgMsg>, outcomes: seq<TgOutcome>, n: nat)
    requires n <= |new_| && n <= |outcomes| && forall i :: 0 <= i < n ==> outcomes[i].Failed?
    ensures Through(new_, outcomes, n) == []
  {
    if n > 0 {
      NoneThrough(new_, outcomes, n - 1);
    }
  }

  lemma {:induction false} NonePosted(s: Sys, outcomes: seq<TgOutcome>, n: nat)
    requires s.tg.TgPass? && n <= |s.tg.todo| && n <= |outcomes|
    requires forall i :: 0 <= i < n ==> outcomes[i].Failed?
    ensures AfterAll(s, outcomes, n).mxLog == s.mxLog
  {
    if n > 0 {
      NonePosted(s, outcomes, n - 1);
    }
  }

  // ---- What one Matrix pass comes to -----------------------------------------------

  /** The people's messages among the first `n` positions from `from` whose posts go through. */
  function Forwards(log: seq<MxEvent>, from: nat, outcomes: seq<MxOutcome>, n: nat): seq<nat>
    requires from + n <= |log| && n <= |outcomes|
  {
    if n == 0 then []
    else
      var e := log[from + n - 1];
      Forwards(log, from, outcomes, n - 1)
        + if !e.own && e.kind == Text && outcomes[n - 1].Posted? then [from + n - 1] else []
  }

  /** And what they are in the Telegram log. */
  function Copies(log: seq<MxEvent>, from: nat, outcomes: seq<MxOutcome>, n: nat): seq<TgMsg>
    requires from + n <= |log| && n <= |outcomes|
  {
    if n == 0 then []
    else
      var e := log[from + n - 1];
      Copies(log, from, outcomes, n - 1)
        + if !e.own && e.kind == Text && outcomes[n - 1].Posted?
          then [TgMsg(outcomes[n - 1].id, true, true, Some(from + n - 1))] else []
  }

  /** The ids a pass marks: of all events that can be read at all. */
  function Marks(log: seq<MxEvent>, from: nat, n: nat): seq<EventId>
    requires from + n <= |log|
  {
    if n == 0 then []
    else
      var e := log[from + n - 1];
      Marks(log, from, n - 1) + if e.kind == Malformed then [] else [e.id]
  }

  /** The events have ids of their own, none of them in the ring. */
  ghost predicate NewEvents(log: seq<MxEvent>, from: nat, upTo: nat, seen: seq<EventId>) {
    && from <= upTo <= |log|
    && (forall i :: from <= i < upTo ==> log[i].id !in seen)
    && forall i, j :: from <= i < j < upTo ==> log[i].id != log[j].id
  }

  predicate MarkedAt(log: seq<MxEvent>, p: nat, id: EventId)
    requires p < |log|
  {
    log[p].kind != Malformed && log[p].id == id
  }

  lemma {:induction false} MarksAre(log: seq<MxEvent>, from: nat, n: nat, id: EventId)
    requires from + n <= |log|
    ensures |Marks(log, from, n)| <= n
    ensures id in Marks(log, from, n) <==> exists p :: from <= p < from + n && MarkedAt(log, p, id)
  {
    if n > 0 {
      MarksAre(log, from, n - 1, id);
      var e := log[from + n - 1];
      assert MarkedAt(log, from + n - 1, id) <==> id in (if e.kind == Malformed then [] else [e.id]);
      assert id in Marks(log, from, n) <==> id in Marks(log, from, n - 1) || MarkedAt(log, from + n - 1, id);
    }
  }

  /** `seen` ends with `ids`, as far as the ring is long. */
  predicate EndsWith(seen: seq<EventId>, ids: seq<EventId>) {
    |ids| <= |seen| && seen[|seen| - |ids|..] == ids
  }

  lemma MarkEnds(seen: seq<EventId>, ids: seq<EventId>, id: EventId)
    requires id !in seen && EndsWith(seen, ids) && |ids| < MX_SEEN_LIMIT
    ensures EndsWith(Mark(seen, id), ids + [id])
  {
    var r := Mark(seen, id);
    assert (seen + [id])[|seen| - |ids|..] == ids + [id];
    assert r == (seen + [id])[|seen| + 1 - |r|..];
  }

  lemma MarkOnlyAdds(seen: seq<EventId>, id: EventId)
    ensures forall x :: x in Mark(seen, id) ==> x in seen || x == id
  {
    assert forall x :: x in seen + [id] ==> x in seen || x == id;
  }

  /** The ring in the middle of a pass knows nothing but what it knew and what was marked. */
  ghost predicate RingFrom(seen: seq<EventId>, old_: seq<EventId>, marks: seq<EventId>) {
    forall x :: x in seen ==> x in old_ || x in marks
  }

  /** The head event, by itself: one that cannot be read leaves nothing, every other leaves its id
      in the ring; a person's message that is new and whose post goes through is forwarded; and
      the file is written after a forward, and after giving up on one that does not decrypt. */
  lemma HeadMeans(s: Sys, o: MxOutcome)
    requires MxHasHead(s)
    ensures var e, t := s.mxLog[s.mx.todo[0]], AfterMx(s, o);
      && t.mem.seen == (if e.kind == Malformed then s.mem.seen else Mark(s.mem.seen, e.id))
      && t.mem.tg == s.mem.tg
      && if !e.own && e.kind == Text && o.Posted? && e.id !in s.mem.seen then
           && t.sentTg == s.sentTg + [s.mx.todo[0]] && t.disk == Saved(t.mem)
           && t.tgLog == s.tgLog + [TgMsg(o.id, true, true, Some(s.mx.todo[0]))]
         else
           && t.sentTg == s.sentTg && t.tgLog == s.tgLog
           && t.disk == if !e.own && e.kind != Malformed && e.encrypted && o.Undecryptable?
                        then Saved(t.mem) else s.disk
  {
  }

  /** The next event of a pass over new events is not in the ring either. */
  lemma NextIsNew(log: seq<MxEvent>, from: nat, n: nat, upTo: nat, old_: seq<EventId>, seen: seq<EventId>)
    requires NewEvents(log, from, upTo, old_) && from + n < upTo && RingFrom(seen, old_, Marks(log, from, n))
    ensures log[from + n].id !in seen
  {
    MarksAre(log, from, n, log[from + n].id);
  }

  /** What one more event adds to a batch. */
  lemma NextOf(s: Sys, from: nat, outcomes: seq<MxOutcome>, n: nat)
    requires s.mx.MxBatch? && 0 < n <= |s.mx.todo| && n <= |outcomes|
    requires from + |s.mx.todo| <= |s.mxLog| && s.mx.todo == Range(from, from + |s.mx.todo|)
    ensures OneMore(AfterBatch(s, outcomes, n - 1), AfterBatch(s, outcomes, n),
                    s.mxLog[from + n - 1], from + n - 1, outcomes[n - 1])
  {
    var t := AfterBatch(s, outcomes, n - 1);
    assert t.mx.todo[0] == from + n - 1;
    HeadMeans(t, outcomes[n - 1]);
    assert t.sentTg + [] == t.sentTg && t.tgLog + [] == t.tgLog;
    hide AfterMx, Mark;
  }

  /** What the ring holds in the middle of a pass. */
  ghost predicate RingOk(log: seq<MxEvent>, from: nat, n: nat, old_: seq<EventId>, seen: seq<EventId>)
    requires from + n <= |log|
  {
    && RingFrom(seen, old_, Marks(log, from, n))
    && (n <= MX_SEEN_LIMIT ==> EndsWith(seen, Marks(log, from, n)))
  }

  lemma RingNext(log: seq<MxEvent>, from: nat, n: nat, upTo: nat, old_: seq<EventId>, seen: seq<EventId>)
    requires NewEvents(log, from, upTo, old_) && from + n < upTo && RingOk(log, from, n, old_, seen)
    ensures var e := log[from + n];
      && e.id !in seen
      && RingOk(log, from, n + 1, old_, if e.kind == Malformed then seen else Mark(seen, e.id))
  {
    var e := log[from + n];
    NextIsNew(log, from, n, upTo, old_, seen);
    MarksAre(log, from, n, e.id);
    hide Mark, EndsWith, NewEvents;
    MarksNext(log, from, n);
    hide Marks;
    MarkOnlyAdds(seen, e.id);
    if n < MX_SEEN_LIMIT && e.kind != Malformed {
      MarkEnds(seen, Marks(log, from, n), e.id);
    }
  }

  lemma MarksNext(log: seq<MxEvent>, from: nat, n: nat)
    requires from + n < |log|
    ensures var e := log[from + n];
      Marks(log, from, n + 1) == if e.kind == Malformed then Marks(log, from, n) else Marks(log, from, n) + [e.id]
  {
  }

  lemma RingStarts(log: seq<MxEvent>, from: nat, seen: seq<EventId>)
    requires from <= |log|
    ensures RingOk(log, from, 0, seen, seen)
  {
  }

  /** The batch at hand is this stretch of the timeline. */
  ghost predicate Stretch(s: Sys, from: nat, len: nat) {
    && s.mx == MxBatch(Range(from, from + len))
    && NewEvents(s.mxLog, from, from + len, s.mem.seen)
  }

  lemma StretchIs(s: Sys, from: nat, len: nat)
    requires Stretch(s, from, len)
    ensures s.mx.MxBatch? && |s.mx.todo| == len && s.mx.todo == Range(from, from + len) && from + len <= |s.mxLog|
    ensures NewEvents(s.mxLog, from, from + len, s.mem.seen)
    ensures forall i :: 0 <= i < |s.mx.todo| ==> s.mx.todo[i] < |s.mxLog|
  {
  }

  /** After `n` events of the batch. */
  ghost predicate SoFar(s: Sys, t: Sys, from: nat, outcomes: seq<MxOutcome>, n: nat)
    requires from + n <= |s.mxLog| && n <= |outcomes|
  {
    && t.mem.tg == s.mem.tg && t.nb == s.nb
    && t.sentTg == s.sentTg + Forwards(s.mxLog, from, outcomes, n)
    && t.tgLog == s.tgLog + Copies(s.mxLog, from, outcomes, n)
    && RingOk(s.mxLog, from, n, s.mem.seen, t.mem.seen)
  }

  lemma NothingSoFar(s: Sys, from: nat, outcomes: seq<MxOutcome>)
    requires from <= |s.mxLog|
    ensures SoFar(s, s, from, outcomes, 0)
  {
    assert s.sentTg + [] == s.sentTg && s.tgLog + [] == s.tgLog;
    RingStarts(s.mxLog, from, s.mem.seen);
  }

  /** One more event, whatever the state it leaves looks like otherwise. */
  ghost predicate OneMore(t: Sys, u: Sys, e: MxEvent, p: nat, o: MxOutcome) {
    && u.mem.tg == t.mem.tg && u.nb == t.nb
    && u.mem.seen == (if e.kind == Malformed then t.mem.seen else Mark(t.mem.seen, e.id))
    && (e.id !in t.mem.seen ==>
          && u.sentTg == t.sentTg + (if !e.own && e.kind == Text && o.Posted? then [p] else [])
          && u.tgLog == t.tgLog
               + (if !e.own && e.kind == Text && o.Posted? then [TgMsg(o.id, true, true, Some(p))] else []))
  }

  lemma SoFarNext(s: Sys, t: Sys, u: Sys, from: nat, len: nat, outcomes: seq<MxOutcome>, n: nat)
    requires NewEvents(s.mxLog, from, from + len, s.mem.seen) && n < len && n < |outcomes|
    requires SoFar(s, t, from, outcomes, n) && OneMore(t, u, s.mxLog[from + n], from + n, outcomes[n])
    ensures SoFar(s, u, from, outcomes, n + 1)
  {
    var e, p, o := s.mxLog[from + n], from + n, outcomes[n];
    RingNext(s.mxLog, from, n, from + len, s.mem.seen, t.mem.seen);
    hide NewEvents, RingOk, Mark;
    var goes := !e.own && e.kind == Text && o.Posted?;
    Assoc(s.sentTg, Forwards(s.mxLog, from, outcomes, n), if goes then [p] else []);
    Assoc(s.tgLog, Copies(s.mxLog, from, outcomes, n), if goes then [TgMsg(o.id, true, true, Some(p))] else []);
  }

  lemma {:induction false} BatchMeans(s: Sys, from: nat, len: nat, outcomes: seq<MxOutcome>, n: nat)
    requires Stretch(s, from, len) && n <= len && n <= |outcomes|
    requires s.mx.MxBatch? && |s.mx.todo| == len && from + len <= |s.mxLog|
    requires forall i :: 0 <= i < |s.mx.todo| ==> s.mx.todo[i] < |s.mxLog|
    ensures SoFar(s, AfterBatch(s, outcomes, n), from, outcomes, n)
  {
    hide SoFar, AfterMx, NewEvents, OneMore, Stretch;
    StretchIs(s, from, len);
    if n == 0 {
      NothingSoFar(s, from, outcomes);
    } else {
      hide AfterBatch;
      BatchMeans(s, from, len, outcomes, n - 1);
      NextOf(s, from, outcomes, n);
      SoFarNext(s, AfterBatch(s, outcomes, n - 1), AfterBatch(s, outcomes, n), from, len, outcomes, n - 1);
    }
  }

  /** A pass over new events forwards exactly the people's messages whose posts go through, in
      timeline order, encrypted or not; and marks every event that can be read. */
  lemma PassMeans(s: Sys, a: Answer, outcomes: seq<MxOutcome>)
    requires s.up && s.mx == MxIdle && a.Answer? && Fits(a, s.nb, |s.mxLog|) && a.upTo - a.from <= |outcomes|
    requires NewEvents(s.mxLog, a.from, a.upTo, s.mem.seen)
    ensures var t, n := AfterPass(s, a, outcomes), a.upTo - a.from;
      && t.sentTg == s.sentTg + Forwards(s.mxLog, a.from, outcomes, n)
      && t.tgLog == s.tgLog + Copies(s.mxLog, a.from, outcomes, n)
      && t.nb == (if a.next.Some? then a.next else s.nb) && t.mem.tg == s.mem.tg
      && t.disk == Saved(t.mem) && t.mx == MxIdle && t.mxLog == s.mxLog
      && (n <= MX_SEEN_LIMIT ==> EndsWith(t.mem.seen, Marks(s.mxLog, a.from, n)))
  {
    hide NewEvents, AfterPass, AfterBatch, ApplyMxSync, Forwards, Copies, Marks, Mark, Saved, EndsWith, SoFar, Stretch;
    var t, n := ApplyMxSync(s, a), a.upTo - a.from;
    PassIsBatch(s, a, outcomes);
    SyncStretch(s, a);
    StretchIs(t, a.from, n);
    BatchMeans(t, a.from, n, outcomes, n);
    SoFarSays(t, AfterBatch(t, outcomes, n), a.from, outcomes, n);
  }

  lemma SyncStretch(s: Sys, a: Answer)
    requires a.Answer? && Fits(a, s.nb, |s.mxLog|) && NewEvents(s.mxLog, a.from, a.upTo, s.mem.seen)
    ensures Stretch(ApplyMxSync(s, a), a.from, a.upTo - a.from)
  {
    hide NewEvents;
  }

  lemma SoFarSays(s: Sys, t: Sys, from: nat, outcomes: seq<MxOutcome>, n: nat)
    requires from + n <= |s.mxLog| && n <= |outcomes| && SoFar(s, t, from, outcomes, n)
    ensures t.mem.tg == s.mem.tg && t.nb == s.nb
    ensures t.sentTg == s.sentTg + Forwards(s.mxLog, from, outcomes, n)
    ensures t.tgLog == s.tgLog + Copies(s.mxLog, from, outcomes, n)
    ensures n <= MX_SEEN_LIMIT ==> EndsWith(t.mem.seen, Marks(s.mxLog, from, n))
  {
  }

  lemma PassIsBatch(s: Sys, a: Answer, outcomes: seq<MxOutcome>)
    requires a.Answer? && Fits(a, s.nb, |s.mxLog|) && a.upTo - a.from <= |outcomes|
    ensures var t := ApplyMxSync(s, a);
      && t.mem == s.mem && t.mxLog == s.mxLog && t.sentTg == s.sentTg && t.tgLog == s.tgLog
      && t.mx == MxBatch(Range(a.from, a.upTo)) && t.nb == (if a.next.Some? then a.next else s.nb)
    ensures var t, u := AfterPass(s, a, outcomes), AfterBatch(ApplyMxSync(s, a), outcomes, a.upTo - a.from);
      && t == u.(disk := Saved(u.mem), mx := MxIdle) && t.mxLog == s.mxLog
  {
    hide AfterMx;
  }

  // ---- Redelivery ------------------------------------------------------------------

  lemma {:induction false} KnownBatch(s: Sys, outcomes: seq<MxOutcome>, n: nat)
    requires s.mx.MxBatch? && n <= |s.mx.todo| && n <= |outcomes|
    requires forall i :: 0 <= i < |s.mx.todo| ==> s.mx.todo[i] < |s.mxLog|
    requires forall i :: 0 <= i < |s.mx.todo| ==> Known(s.mxLog, s.mem.seen, s.mx.todo[i])
    ensures var t := AfterBatch(s, outcomes, n);
      t.sentTg == s.sentTg && t.tgLog == s.tgLog && t.mem.seen == s.mem.seen
  {
    if n > 0 {
      KnownBatch(s, outcomes, n - 1);
      var t := AfterBatch(s, outcomes, n - 1);
      assert t.mx.todo[0] == s.mx.todo[n - 1];
      HeadMeans(t, outcomes[n - 1]);
      hide AfterMx;
    }
  }

  /** What the ring is for: up to 500 new events that the server brings once more, because it gave
      no next_batch, are not forwarded again, whatever became of them the first time. */
  lemma RedeliveryIsSilent(s: Sys, a: Answer, first: seq<MxOutcome>, second: seq<MxOutcome>)
    requires s.up && s.mx == MxIdle && a.Answer? && a.next.None? && Fits(a, s.nb, |s.mxLog|)
    requires a.upTo - a.from <= |first| && a.upTo - a.from <= |second| && a.upTo - a.from <= MX_SEEN_LIMIT
    requires NewEvents(s.mxLog, a.from, a.upTo, s.mem.seen)
    ensures var t := AfterPass(s, a, first);
      && Fits(a, t.nb, |t.mxLog|)
      && AfterPass(t, a, second).sentTg == t.sentTg && AfterPass(t, a, second).tgLog == t.tgLog
  {
    hide NewEvents, AfterPass, AfterBatch, ApplyMxSync, Forwards, Copies, Mark, Saved, EndsWith;
    var t, n := AfterPass(s, a, first), a.upTo - a.from;
    PassMeans(s, a, first);
    EndsInside(t.mem.seen, Marks(s.mxLog, a.from, n));
    PassIsBatch(t, a, second);
    var u := ApplyMxSync(t, a);
    AllMarked(s.mxLog, a.from, a.upTo, t.mem.seen);
    BatchKnown(u, a.from, a.upTo);
    KnownBatch(u, second, n);
  }

  /** Every event of the stretch that can be read has its id in the ring. */
  predicate Known(log: seq<MxEvent>, seen: seq<EventId>, p: nat) {
    p < |log| && (log[p].kind == Malformed || log[p].id in seen)
  }

  lemma AllMarked(log: seq<MxEvent>, from: nat, upTo: nat, seen: seq<EventId>)
    requires from <= upTo <= |log| && forall x :: x in Marks(log, from, upTo - from) ==> x in seen
    ensures forall p :: from <= p < upTo ==> Known(log, seen, p)
  {
    hide Marks;
    forall p | from <= p < upTo ensures Known(log, seen, p) {
      MarksAre(log, from, upTo - from, log[p].id);
      assert log[p].kind != Malformed ==> MarkedAt(log, p, log[p].id);
    }
  }

  lemma BatchKnown(u: Sys, from: nat, upTo: nat)
    requires from <= upTo && u.mx == MxBatch(Range(from, upTo))
    requires forall p :: from <= p < upTo ==> Known(u.mxLog, u.mem.seen, p)
    ensures forall i :: 0 <= i < |u.mx.todo| ==> u.mx.todo[i] < |u.mxLog|
    ensures forall i :: 0 <= i < |u.mx.todo| ==> Known(u.mxLog, u.mem.seen, u.mx.todo[i])
  {
    forall i | 0 <= i < |u.mx.todo| ensures Known(u.mxLog, u.mem.seen, u.mx.todo[i]) {
      assert u.mx.todo[i] == from + i;
    }
  }

  lemma EndsInside(seen: seq<EventId>, ids: seq<EventId>)
    requires EndsWith(seen, ids)
    ensures forall x :: x in ids ==> x in seen
  {
  }

  // ---- A forward that was saved ----------------------------------------------------

  /** The event just forwarded, or about to be, is in the ring in memory, which is not too long
      to be saved whole. */
  ghost predicate MarkedFirst(s: Sys) {
    && |s.mem.seen| <= MX_SEEN_LIMIT && |s.disk.seen| <= MX_SEEN_LIMIT
    && (s.mx.MxMarked? ==> s.mx.pos < |s.mxLog| && s.mxLog[s.mx.pos].id in s.mem.seen)
    && (s.mx.MxPosted? ==>
          && s.sentTg != [] && s.sentTg[|s.sentTg| - 1] < |s.mxLog|
          && s.mxLog[s.sentTg[|s.sentTg| - 1]].id in s.mem.seen)
  }

  lemma MarkHas(seen: seq<EventId>, id: EventId)
    ensures id in Mark(seen, id)
  {
    if id !in seen {
      var r := Mark(seen, id);
      assert r[|r| - 1] == id;
    }
  }

  lemma MarkedStep(s: Sys, l: Label)
    requires MarkedFirst(s) && Enabled(s, l)
    ensures MarkedFirst(Apply(s, l))
  {
    if l.MxMark? {
      MarkHas(s.mem.seen, s.mxLog[s.mx.todo[0]].id);
    } else if l.MxSend? {
      hide Mark;
    } else if !Mx.ByMatrixLoop(l) {
      OtherMarked(s, l);
    }
  }

  lemma OtherMarked(s: Sys, l: Label)
    requires MarkedFirst(s) && Enabled(s, l) && !Mx.ByMatrixLoop(l)
    ensures MarkedFirst(Apply(s, l))
  {
    hide Newest, Mark;
    var t := Apply(s, l);
    assert l.Restart? || l.TornCursor? || (t.mx == s.mx && t.mem.seen == s.mem.seen && t.sentTg == s.sentTg);
    assert t.disk.seen in {s.disk.seen, s.mem.seen};
    assert s.mxLog <= t.mxLog;
  }

  lemma {:induction false} RunMarked(s: Sys, ls: seq<Label>)
    requires Fresh0(s) && Run(s, ls)
    ensures MarkedFirst(Exec(s, ls))
  {
    hide Apply, Enabled, MarkedFirst;
    if ls == [] {
      StartMarked(s);
    } else {
      RunMarked(s, ls[..|ls| - 1]);
      MarkedStep(Exec(s, ls[..|ls| - 1]), ls[|ls| - 1]);
    }
  }

  lemma StartMarked(s: Sys)
    requires Fresh0(s)
    ensures MarkedFirst(s)
  {
  }

  /** What the save after a forward is for: once it is done, a kill and a server that brings the
      event once more do not forward it again. */
  lemma SavedForwardStays(s: Sys, ls: seq<Label>, answer: Answer)
    requires Fresh0(s) && Run(s, ls) && Exec(s, ls).mx.MxPosted?
    requires Enabled(Exec(s, ls + [MxCommit] + [Restart(false)]), Boot(answer))
    ensures Run(s, ls + [MxCommit] + [Restart(false)] + [Boot(answer)]) && Exec(s, ls).sentTg != []
    ensures !Fresh(Exec(s, ls + [MxCommit] + [Restart(false)] + [Boot(answer)]),
                   Exec(s, ls).sentTg[|Exec(s, ls).sentTg| - 1])
  {
    RunMarked(s, ls);
    var t := Exec(s, ls);
    More(s, ls, t, MxCommit);
    var u := Apply(t, MxCommit);
    More(s, ls + [MxCommit], u, Restart(false));
    var v := Apply(u, Restart(false));
    More(s, ls + [MxCommit] + [Restart(false)], v, Boot(answer));
    assert Apply(v, Boot(answer)).mem.seen == t.mem.seen && Apply(v, Boot(answer)).mxLog == t.mxLog;
  }
}
