/** One vetting room: the haiku captcha between a knock and an invitation to the space. */
module Vetting {
  import opened Prelude

  type User = Id
  type Code = Id
  type RoomId = Id

  /** Settings read from the environment. */
  datatype Config = Config(
    vettingMaxTries: int, vettingTimeout: int,
    lobbyMaxTries: int, lobbyTimeout: int, resendAfter: int,
    welcomeUses: int)

  const LOBBY_MAX_RESENDS: nat := 1

  /** A message body as `_vet` looks at it: stripped and lower-cased text, its number of
      non-blank lines and its length. A record's keyword stands for its lower-case form. */
  datatype Message = Message(sender: User, folded: string, lines: nat, chars: nat)

  /** Room events of a sync: a member joining with a displayname, or a message. */
  datatype Event = Joined(user: User, name: string) | Said(msg: Message)

  predicate Contains(s: string, sub: string) {
    sub <= s || (s != "" && Contains(s[1..], sub))
  }

  /** `_vet`: a displayname, three lines, a sane length, and the keyword. */
  predicate Vet(name: string, m: Message, keyword: string) {
    name != "" && m.lines == 3 && 30 <= m.chars <= 400 && Contains(m.folded, keyword)
  }

  /** A record of vetting.json. `rejected` and `passed` are history the program does not keep. */
  datatype Room = Room(
    mxid: User, code: Code, created: int, keyword: string,
    triesLeft: int, name: string, promoted: bool, closed: bool,
    rejected: nat, passed: Option<Message>)

  function NewRoom(c: Config, mxid: User, code: Code, now: int, keyword: string): Room {
    Room(mxid, code, now, keyword, c.vettingMaxTries, "", false, false, 0, None)
  }

  predicate Open(r: Room) { !r.promoted && !r.closed }

  // ---- What a sync says about a room (iter_vetting_rooms) -------------------------

  /** The displayname of the last join of `user` among the events, if any. */
  function LastJoin(events: seq<Event>, user: User): Option<string> {
    if events == [] then None
    else
      var e := events[|events| - 1];
      if e.Joined? && e.user == user then Some(e.name) else LastJoin(events[..|events| - 1], user)
  }

  function MessagesOf(events: seq<Event>, user: User): (ms: seq<Message>)
    ensures forall i :: 0 <= i < |ms| ==> ms[i].sender == user
  {
    if events == [] then []
    else
      var e := events[|events| - 1];
      MessagesOf(events[..|events| - 1], user) + if e.Said? && e.msg.sender == user then [e.msg] else []
  }

  // ---- Handling its messages (process_vetting_room) --------------------------------

  /** A rejected answer costs a try; the last one closes the room. */
  function Spend(r: Room): Room {
    r.(triesLeft := r.triesLeft - 1, rejected := r.rejected + 1, closed := r.closed || r.triesLeft <= 1)
  }

  /** The messages in turn: the first that passes ends the batch, promoting if the invitation
      went through; each other one costs a try, and closing ends the batch too. */
  function Answer(r: Room, msgs: seq<Message>, invited: bool): Room
    decreases msgs
  {
    if msgs == [] then r
    else if Vet(r.name, msgs[0], r.keyword) then
      if invited then r.(promoted := true, passed := Some(msgs[0])) else r
    else if r.triesLeft <= 1 then Spend(r)
    else Answer(Spend(r), msgs[1..], invited)
  }

  function Named(r: Room, join: Option<string>): Room {
    if join.Some? then r.(name := join.value) else r
  }

  /** One open room in one sync. */
  function Process(r: Room, state: seq<Event>, timeline: seq<Event>, invited: bool): Room {
    if !Open(r) then r
    else Answer(Named(r, LastJoin(state + timeline, r.mxid)), MessagesOf(timeline, r.mxid), invited)
  }

  /** `cleanup_stale_vetting` for one room. */
  function Expire(c: Config, r: Room, now: int): Room {
    if Open(r) && now - r.created > c.vettingTimeout then r.(closed := true) else r
  }

  // ---- What holds of every room, always --------------------------------------------

  /** Promoted and closed exclude each other; the tries left are those not used by rejected
      answers and there is one while the room is open; a promotion is for the knocker, whose
      answer passed before the tries ran out. */
  ghost predicate RoomInv(c: Config, r: Room) {
    && !(r.promoted && r.closed)
    && r.triesLeft == c.vettingMaxTries - r.rejected
    && (Open(r) && 0 < c.vettingMaxTries ==> 0 < r.triesLeft)
    && (r.promoted <==> r.passed.Some?)
    && (r.promoted ==>
          && r.passed.value.sender == r.mxid && Vet(r.name, r.passed.value, r.keyword)
          && (0 < c.vettingMaxTries ==> r.rejected < c.vettingMaxTries))
  }

  lemma {:induction false} AnswerKeeps(c: Config, r: Room, msgs: seq<Message>, invited: bool)
    requires RoomInv(c, r) && Open(r)
    requires forall i :: 0 <= i < |msgs| ==> msgs[i].sender == r.mxid
    ensures var t := Answer(r, msgs, invited);
      && RoomInv(c, t)
      && t == r.(triesLeft := t.triesLeft, rejected := t.rejected, promoted := t.promoted,
                 closed := t.closed, passed := t.passed)
      && r.rejected <= t.rejected <= r.rejected + |msgs|
      && (t.promoted ==> invited)
    decreases msgs
  {
    if msgs != [] && !Vet(r.name, msgs[0], r.keyword) {
      if r.triesLeft > 1 {
        AnswerKeeps(c, Spend(r), msgs[1..], invited);
      }
    }
  }

  /** The invariant survives any sync and any clock; promoted and closed rooms never change
      again; who the room is for and what it asks never change; tries never come back. */
  lemma StepKeeps(c: Config, r: Room, state: seq<Event>, timeline: seq<Event>, invited: bool, now: int)
    requires RoomInv(c, r)
    ensures var p, e := Process(r, state, timeline, invited), Expire(c, r, now);
      && RoomInv(c, p) && RoomInv(c, e)
      && (!Open(r) ==> p == r && e == r)
      && p.mxid == e.mxid == r.mxid && p.code == e.code == r.code && p.keyword == e.keyword == r.keyword
      && p.created == e.created == r.created
      && p.triesLeft <= r.triesLeft && e.triesLeft == r.triesLeft
      && (p.promoted && !r.promoted ==> invited)
      && !(Open(e) && now - e.created > c.vettingTimeout)
  {
    if Open(r) {
      AnswerKeeps(c, Named(r, LastJoin(state + timeline, r.mxid)), MessagesOf(timeline, r.mxid), invited);
    }
  }

  lemma {:induction false} AnswerFrame(r: Room, msgs: seq<Message>, invited: bool)
    ensures Answer(r, msgs, invited).created == r.created
    decreases msgs
  {
    if msgs != [] && !Vet(r.name, msgs[0], r.keyword) && r.triesLeft > 1 {
      AnswerFrame(Spend(r), msgs[1..], invited);
    }
  }

  lemma ProcessFrame(r: Room, state: seq<Event>, timeline: seq<Event>, invited: bool)
    ensures Process(r, state, timeline, invited).created == r.created
    ensures Open(Process(r, state, timeline, invited)) ==> Open(r)
  {
    AnswerFrame(Named(r, LastJoin(state + timeline, r.mxid)), MessagesOf(timeline, r.mxid), invited);
  }

  // ---- What a sync says about a room, stated without the scan ----------------------

  /** Joining up two stretches of events joins up their messages: none is lost or moved. */
  lemma {:induction false} MessagesOfJoin(a: seq<Event>, b: seq<Event>, user: User)
    ensures MessagesOf(a + b, user) == MessagesOf(a, user) + MessagesOf(b, user)
  {
    if b == [] {
      assert a + b == a;
    } else {
      MessagesOfJoin(a, b[..|b| - 1], user);
      assert (a + b)[..|a + b| - 1] == a + b[..|b| - 1];
    }
  }

  lemma MessagesOfOne(e: Event, user: User)
    ensures MessagesOf([e], user) == if e.Said? && e.msg.sender == user then [e.msg] else []
  {
    assert [e][..0] == [];
  }

  /** Event `k` is the last join of `user`. */
  predicate JoinsLast(events: seq<Event>, user: User, k: nat) {
    && k < |events| && events[k].Joined? && events[k].user == user
    && forall j :: k < j < |events| ==> !(events[j].Joined? && events[j].user == user)
  }

  lemma {:induction false} LastJoinIs(events: seq<Event>, user: User)
    ensures LastJoin(events, user).Some?
       <==> exists k :: 0 <= k < |events| && events[k].Joined? && events[k].user == user
    ensures forall k: nat :: JoinsLast(events, user, k) ==> LastJoin(events, user) == Some(events[k].name)
  {
    if events != [] {
      var f, e := events[..|events| - 1], events[|events| - 1];
      LastJoinIs(f, user);
      forall k: nat | JoinsLast(events, user, k) ensures LastJoin(events, user) == Some(events[k].name) {
        assert k < |f| ==> JoinsLast(f, user, k);
      }
      assert forall k :: 0 <= k < |f| ==> events[k] == f[k];
    }
  }

  /** `sub` occurs in `s`. */
  ghost predicate Occurs(s: string, sub: string) { exists i, j :: 0 <= i <= j <= |s| && s[i..j] == sub }

  lemma OccursAt(s: string, sub: string, i: nat, j: nat)
    requires i <= j <= |s| && s[i..j] == sub
    ensures Occurs(s, sub)
  {
  }

  lemma OccursUp(s: string, sub: string)
    requires s != "" && Occurs(s[1..], sub)
    ensures Occurs(s, sub)
  {
    var i, j :| 0 <= i <= j <= |s[1..]| && s[1..][i..j] == sub;
    hide Occurs;
    assert s[i + 1..j + 1] == sub;
    OccursAt(s, sub, i + 1, j + 1);
  }

  lemma OccursDown(s: string, sub: string)
    requires s != "" && Occurs(s, sub) && !(sub <= s)
    ensures Occurs(s[1..], sub)
  {
    var i, j :| 0 <= i <= j <= |s| && s[i..j] == sub;
    hide Occurs;
    assert i > 0;
    assert s[1..][i - 1..j - 1] == sub;
    OccursAt(s[1..], sub, i - 1, j - 1);
  }

  lemma {:induction false} ContainsIs(s: string, sub: string)
    ensures Contains(s, sub) <==> Occurs(s, sub)
  {
    if sub <= s {
      OccursAt(s, sub, 0, |sub|);
    } else if s != "" {
      ContainsIs(s[1..], sub);
      if Occurs(s, sub) {
        OccursDown(s, sub);
      }
      if Occurs(s[1..], sub) {
        OccursUp(s, sub);
      }
      hide Occurs;
    }
  }

  /** What passes: a displayname, three lines that are not blank, 30 to 400 characters, and the
      keyword somewhere in it. */
  ghost predicate Passes(name: string, m: Message, keyword: string) {
    name != "" && m.lines == 3 && m.chars >= 30 && m.chars <= 400 && Occurs(m.folded, keyword)
  }

  lemma VetPasses(name: string, m: Message, keyword: string)
    ensures Vet(name, m, keyword) <==> Passes(name, m, keyword)
  {
    ContainsIs(m.folded, keyword);
  }

  /** The answer at `k` is the first of the batch to pass. */
  ghost predicate PassesFirst(name: string, msgs: seq<Message>, keyword: string, k: nat) {
    && k < |msgs| && Passes(name, msgs[k], keyword)
    && forall j :: 0 <= j < k ==> !Passes(name, msgs[j], keyword)
  }

  lemma {:induction false} FirstPassIs(r: Room, msgs: seq<Message>)
    ensures FirstPass(r, msgs) <= |msgs|
    ensures forall j :: 0 <= j < FirstPass(r, msgs) ==> !Passes(r.name, msgs[j], r.keyword)
    ensures FirstPass(r, msgs) < |msgs| ==> PassesFirst(r.name, msgs, r.keyword, FirstPass(r, msgs))
    decreases msgs
  {
    hide Passes;
    if msgs != [] {
      VetPasses(r.name, msgs[0], r.keyword);
      if !Vet(r.name, msgs[0], r.keyword) {
        FirstPassIs(r, msgs[1..]);
      }
    }
  }

  /** The displayname the room goes by in a sync: that of the knocker's last join, or the one it
      had. */
  function NameThen(r: Room, events: seq<Event>): string {
    if LastJoin(events, r.mxid).Some? then LastJoin(events, r.mxid).value else r.name
  }

  /** One sync of an open room: it is promoted exactly when the invitation goes through and, of the
      knocker's messages in the timeline, one passes that is preceded by fewer failing ones than
      there are tries left; closed exactly when that many fail first; and left as it is, but for
      the tries used and the displayname, otherwise. */
  lemma ProcessMeans(r: Room, state: seq<Event>, timeline: seq<Event>, invited: bool)
    requires Open(r) && 0 < r.triesLeft
    ensures var t, name, msgs := Process(r, state, timeline, invited), NameThen(r, state + timeline),
                                 MessagesOf(timeline, r.mxid);
      && (t.promoted <==> invited && exists k: nat :: PassesFirst(name, msgs, r.keyword, k) && k < r.triesLeft)
      && (t.closed <==>
            r.triesLeft <= |msgs| && forall j :: 0 <= j < r.triesLeft ==> !Passes(name, msgs[j], r.keyword))
      && t.name == name && t.mxid == r.mxid && t.code == r.code && t.keyword == r.keyword && t.created == r.created
  {
    hide Passes;
    var u, msgs := Named(r, LastJoin(state + timeline, r.mxid)), MessagesOf(timeline, r.mxid);
    var c := Config(0, 0, 0, 0, 0, 0);
    AnswerMeans(c, u, msgs, invited);
    FirstPassIs(u, msgs);
    AnswerSame(u, msgs, invited);
  }

  lemma {:induction false} AnswerSame(r: Room, msgs: seq<Message>, invited: bool)
    ensures var t := Answer(r, msgs, invited);
      t.name == r.name && t.mxid == r.mxid && t.code == r.code && t.keyword == r.keyword && t.created == r.created
    decreases msgs
  {
    if msgs != [] && !Vet(r.name, msgs[0], r.keyword) && r.triesLeft > 1 {
      AnswerSame(Spend(r), msgs[1..], invited);
    }
  }

  /** The sweep closes an open room exactly when it is past its timeout, and nothing else. */
  lemma ExpireIff(c: Config, r: Room, now: int)
    ensures Open(Expire(c, r, now)) <==> Open(r) && now - r.created <= c.vettingTimeout
    ensures Expire(c, r, now) == r.(closed := r.closed || (Open(r) && now - r.created > c.vettingTimeout))
  {
  }

  // ---- What a batch comes to, stated without the loop ------------------------------

  /** The first message that passes, or the length. */
  function FirstPass(r: Room, msgs: seq<Message>): nat {
    if msgs == [] || Vet(r.name, msgs[0], r.keyword) then 0 else 1 + FirstPass(r, msgs[1..])
  }

  /** A batch promotes exactly when the invitation goes through and a passing message comes
      before the tries are used up; otherwise it costs one try per message before that one. */
  lemma {:induction false} AnswerMeans(c: Config, r: Room, msgs: seq<Message>, invited: bool)
    requires Open(r) && 0 < r.triesLeft
    ensures var k, t := FirstPass(r, msgs), Answer(r, msgs, invited);
      && k <= |msgs|
      && (t.promoted <==> invited && k < |msgs| && k < r.triesLeft)
      && (t.closed <==> r.triesLeft <= k)
      && t.triesLeft == (if k < r.triesLeft then r.triesLeft - k else 0)
      && (t.promoted ==> t.passed == Some(msgs[k]))
    decreases msgs
  {
    if msgs != [] && !Vet(r.name, msgs[0], r.keyword) {
      SameFirstPass(r, Spend(r), msgs[1..]);
      if r.triesLeft > 1 {
        AnswerMeans(c, Spend(r), msgs[1..], invited);
      }
    }
  }

  lemma {:induction false} SameFirstPass(r: Room, t: Room, msgs: seq<Message>)
    requires t.name == r.name && t.keyword == r.keyword
    ensures FirstPass(r, msgs) == FirstPass(t, msgs) <= |msgs|
    decreases msgs
  {
    if msgs != [] { SameFirstPass(r, t, msgs[1..]); }
  }
}
