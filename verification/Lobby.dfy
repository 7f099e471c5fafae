/** One lobby room: a public room per code use, where joiners are challenged and vetted. */
module Lobby {
  import opened Prelude
  import opened Vetting

  /** Why a room was closed; earlier versions of the program left other words in the file. */
  datatype Reason = Promoted | AlreadyMember | TimedOut | OtherReason(text: string)

  /** How the space invitation came back: 200, 403, or anything else. */
  datatype Invite = Invited | Member | Refused

  /** A join as the room reports it, with the clock when its challenge goes out. */
  datatype Join = Join(user: User, name: string, at: int)

  /** A record of lobby.json. The last four fields are history the program does not keep:
      challenges and resends per user, users rejected since their last challenge, and the
      answer the promotion rests on. */
  datatype Lobby = Lobby(
    code: Code, created: int, title: string, keyword: string,
    challenged: seq<User>, tries: map<User, int>, names: map<User, string>,
    sentTs: map<User, int>, resends: map<User, int>,
    promoted: bool, promotedUser: Option<User>, closed: bool, reason: Option<Reason>,
    nChallenges: map<User, int>, nResends: map<User, int>, rejected: set<User>, passed: Option<Message>)

  function NewLobby(code: Code, now: int, title: string, keyword: string): Lobby {
    Lobby(code, now, title, keyword, [], map[], map[], map[], map[], false, None, false, None,
          map[], map[], {}, None)
  }

  predicate Live(r: Lobby) { !r.promoted && !r.closed }

  function Count(m: map<User, int>, u: User): int { if u in m then m[u] else 0 }
  function NameOf(r: Lobby, u: User): string { if u in r.names then r.names[u] else "" }
  function TriesOf(c: Config, r: Lobby, u: User): int { if u in r.tries then r.tries[u] else c.lobbyMaxTries }

  // ---- What a sync says about a room (iter_lobby_rooms) ----------------------------

  function NewJoins(joins: seq<Join>, challenged: seq<User>, self: User): (js: seq<Join>)
    ensures forall i :: 0 <= i < |js| ==> js[i].user != self && js[i].user !in challenged
  {
    if joins == [] then []
    else
      var j := joins[|joins| - 1];
      NewJoins(joins[..|joins| - 1], challenged, self)
        + if j.user != NO_ID && j.user != self && j.user !in challenged then [j] else []
  }

  function FromChallenged(msgs: seq<Message>, challenged: seq<User>, self: User): (ms: seq<Message>)
    ensures forall i :: 0 <= i < |ms| ==> ms[i].sender in challenged && ms[i].sender != self
  {
    if msgs == [] then []
    else
      var m := msgs[|msgs| - 1];
      FromChallenged(msgs[..|msgs| - 1], challenged, self)
        + if m.sender != self && m.sender in challenged then [m] else []
  }

  // ---- process_lobby_room ----------------------------------------------------------

  function Challenge(c: Config, r: Lobby, j: Join): Lobby {
    r.(challenged := r.challenged + [j.user], tries := r.tries[j.user := c.lobbyMaxTries],
       names := r.names[j.user := j.name], sentTs := r.sentTs[j.user := j.at],
       resends := r.resends[j.user := 0],
       nChallenges := r.nChallenges[j.user := Count(r.nChallenges, j.user) + 1],
       rejected := r.rejected - {j.user})
  }

  function ChallengeAll(c: Config, r: Lobby, joins: seq<Join>): Lobby
    decreases joins
  {
    if joins == [] then r else ChallengeAll(c, Challenge(c, r, joins[0]), joins[1..])
  }

  /** `list.remove`: drop the first occurrence, if any. */
  function RemoveFirst(s: seq<User>, u: User): seq<User> {
    if s == [] then [] else if s[0] == u then s[1..] else [s[0]] + RemoveFirst(s[1..], u)
  }

  function Reject(c: Config, r: Lobby, u: User): Lobby {
    r.(tries := r.tries[u := TriesOf(c, r, u) - 1], rejected := r.rejected + {u},
       challenged := if TriesOf(c, r, u) - 1 <= 0 then RemoveFirst(r.challenged, u) else r.challenged)
  }

  function Promote(r: Lobby, m: Message, how: Invite): Lobby {
    r.(promoted := true, promotedUser := Some(m.sender), closed := true, passed := Some(m),
       reason := Some(if how.Member? then AlreadyMember else Promoted))
  }

  function VetAll(c: Config, r: Lobby, msgs: seq<Message>, how: Invite): Lobby
    decreases msgs
  {
    if msgs == [] then r
    else if Vet(NameOf(r, msgs[0].sender), msgs[0], r.keyword) then
      if how.Refused? then r else Promote(r, msgs[0], how)
    else VetAll(c, Reject(c, r, msgs[0].sender), msgs[1..], how)
  }

  /** One live room in one sync of the lobby bot. */
  function Process(c: Config, r: Lobby, joins: seq<Join>, msgs: seq<Message>, how: Invite, self: User): Lobby {
    if !Live(r) then r
    else
      VetAll(c, ChallengeAll(c, r, NewJoins(joins, r.challenged, self)),
             FromChallenged(msgs, r.challenged, self), how)
  }

  // ---- process_lobby_resends, cleanup_stale_lobby ----------------------------------

  predicate Due(c: Config, r: Lobby, u: User, now: int) {
    && Count(r.resends, u) < LOBBY_MAX_RESENDS
    && u in r.sentTs && now - r.sentTs[u] >= c.resendAfter
    && TriesOf(c, r, u) == c.lobbyMaxTries
  }

  function Resend(r: Lobby, u: User, now: int): Lobby {
    r.(sentTs := r.sentTs[u := now], resends := r.resends[u := Count(r.resends, u) + 1],
       nResends := r.nResends[u := Count(r.nResends, u) + 1])
  }

  function ResendAll(c: Config, r: Lobby, users: seq<User>, now: int): Lobby
    decreases users
  {
    if users == [] then r
    else ResendAll(c, if Due(c, r, users[0], now) then Resend(r, users[0], now) else r, users[1..], now)
  }

  function Resends(c: Config, r: Lobby, now: int): Lobby {
    if !Live(r) || r.title == "" || r.keyword == "" then r else ResendAll(c, r, r.challenged, now)
  }

  function Expire(c: Config, r: Lobby, now: int): Lobby {
    if Live(r) && now - r.created > c.lobbyTimeout then r.(closed := true, reason := Some(TimedOut)) else r
  }

  // ---- What holds of every room, always --------------------------------------------

  /** A user's resends are paid for by challenges, each of which buys at most one. */
  ghost predicate CountsOk(sentTs: map<User, int>, resends: map<User, int>,
                           nChallenges: map<User, int>, nResends: map<User, int>) {
    && sentTs.Keys == resends.Keys == nChallenges.Keys
    && (forall u :: u in nChallenges ==> 0 < nChallenges[u])
    && (forall u :: u in resends ==> 0 <= resends[u] <= LOBBY_MAX_RESENDS)
    && forall u :: Count(nResends, u) <=
         Count(nChallenges, u) - if u in resends then LOBBY_MAX_RESENDS - resends[u] else 0
  }

  /** A user rejected since the last challenge has used a try. */
  ghost predicate TriesInv(c: Config, tries: map<User, int>, rejected: set<User>) {
    && (forall u :: u in tries ==> tries[u] <= c.lobbyMaxTries)
    && (forall u :: u in rejected ==> u in tries && tries[u] < c.lobbyMaxTries)
  }

  /** Promotion, closing and their reason agree, and a promotion rests on a challenged user's
      passing answer. */
  ghost predicate OutcomeOk(r: Lobby) {
    && (r.promoted ==> r.closed)
    && (r.promoted <==> r.promotedUser.Some?) && (r.promoted <==> r.passed.Some?)
    && (r.closed <==> r.reason.Some?)
    && (r.promoted <==> r.reason in {Some(Promoted), Some(AlreadyMember)})
    && (r.promoted ==>
          && r.passed.value.sender == r.promotedUser.value
          && Vet(NameOf(r, r.promotedUser.value), r.passed.value, r.keyword)
          && 0 < Count(r.nChallenges, r.promotedUser.value))
  }

  ghost predicate RoomInv(c: Config, r: Lobby) {
    && OutcomeOk(r)
    && (forall u :: u in r.challenged ==> u in r.sentTs)
    && TriesInv(c, r.tries, r.rejected)
    && CountsOk(r.sentTs, r.resends, r.nChallenges, r.nResends)
  }

  lemma ChallengeKeeps(c: Config, r: Lobby, j: Join)
    requires RoomInv(c, r) && Live(r)
    ensures RoomInv(c, Challenge(c, r, j)) && Live(Challenge(c, r, j))
  {
    var t := Challenge(c, r, j);
    assert forall u :: u in t.challenged ==> u in r.challenged || u == j.user;
  }

  lemma {:induction false} ChallengeAllKeeps(c: Config, r: Lobby, joins: seq<Join>)
    requires RoomInv(c, r) && Live(r)
    ensures var t := ChallengeAll(c, r, joins);
      && RoomInv(c, t) && Live(t) && t.keyword == r.keyword
      && r.sentTs.Keys <= t.sentTs.Keys && t.nResends == r.nResends
    decreases joins
  {
    if joins != [] {
      ChallengeKeeps(c, r, joins[0]);
      ChallengeAllKeeps(c, Challenge(c, r, joins[0]), joins[1..]);
    }
  }

  lemma {:induction false} RemoveFirstSubset(s: seq<User>, u: User)
    ensures forall x :: x in RemoveFirst(s, u) ==> x in s
  {
    if s != [] && s[0] != u { RemoveFirstSubset(s[1..], u); }
  }

  lemma RejectTries(c: Config, tries: map<User, int>, rejected: set<User>, u: User, left: int)
    requires TriesInv(c, tries, rejected) && left < c.lobbyMaxTries
    ensures TriesInv(c, tries[u := left], rejected + {u})
  {
  }

  lemma RejectKeeps(c: Config, r: Lobby, u: User)
    requires RoomInv(c, r) && Live(r)
    ensures RoomInv(c, Reject(c, r, u)) && Live(Reject(c, r, u))
  {
    RemoveFirstSubset(r.challenged, u);
    RejectTries(c, r.tries, r.rejected, u, TriesOf(c, r, u) - 1);
  }

  lemma PromoteKeeps(c: Config, r: Lobby, m: Message, how: Invite)
    requires RoomInv(c, r) && Live(r) && m.sender in r.sentTs && Vet(NameOf(r, m.sender), m, r.keyword)
    ensures RoomInv(c, Promote(r, m, how))
  {
    assert m.sender in r.nChallenges;
  }

  /** What vetting a batch may change. */
  ghost predicate Vetted(r: Lobby, t: Lobby, msgs: seq<Message>, how: Invite) {
    && t.keyword == r.keyword && t.sentTs == r.sentTs
    && t.nResends == r.nResends && t.nChallenges == r.nChallenges
    && (t.promoted ==> !how.Refused? && t.passed.Some? && t.passed.value in msgs)
    && (t.closed ==> t.promoted)
  }

  /** Vetting a batch keeps the invariant; only a vetted sender of the batch can be promoted,
      and nobody is challenged or resent to on the way. */
  lemma {:induction false} VetAllKeeps(c: Config, r: Lobby, msgs: seq<Message>, how: Invite)
    requires RoomInv(c, r) && Live(r)
    requires forall m :: m in msgs ==> m.sender in r.sentTs
    ensures RoomInv(c, VetAll(c, r, msgs, how)) && Vetted(r, VetAll(c, r, msgs, how), msgs, how)
    decreases msgs
  {
    if msgs != [] {
      if Vet(NameOf(r, msgs[0].sender), msgs[0], r.keyword) {
        PromoteKeeps(c, r, msgs[0], how);
      } else {
        RejectKeeps(c, r, msgs[0].sender);
        assert forall m :: m in msgs[1..] ==> m in msgs;
        VetAllKeeps(c, Reject(c, r, msgs[0].sender), msgs[1..], how);
      }
    }
  }

  /** One sync of the lobby bot: a room that is promoted or closed never changes again; a
      promotion is of someone challenged in an earlier sync, for an answer of this sync that
      passes; nobody is resent to. */
  lemma ProcessKeeps(c: Config, r: Lobby, joins: seq<Join>, msgs: seq<Message>, how: Invite, self: User)
    requires RoomInv(c, r)
    ensures var t := Process(c, r, joins, msgs, how, self);
      && RoomInv(c, t)
      && (!Live(r) ==> t == r)
      && (t.promoted && !r.promoted ==>
            && !how.Refused? && t.passed.value in msgs
            && t.promotedUser.value in r.challenged && t.promotedUser.value != self)
      && (t.closed && !r.closed ==> t.promoted)
      && t.nResends == r.nResends
  {
    if Live(r) {
      var js, ms := NewJoins(joins, r.challenged, self), FromChallenged(msgs, r.challenged, self);
      ChallengeAllKeeps(c, r, js);
      var u := ChallengeAll(c, r, js);
      assert forall m :: m in ms ==> m.sender in r.challenged && m.sender != self;
      VetAllKeeps(c, u, ms, how);
      FromChallengedIn(msgs, r.challenged, self);
    }
  }

  lemma {:induction false} FromChallengedIn(msgs: seq<Message>, challenged: seq<User>, self: User)
    ensures forall m :: m in FromChallenged(msgs, challenged, self) ==> m in msgs
  {
    if msgs != [] { FromChallengedIn(msgs[..|msgs| - 1], challenged, self); }
  }

  lemma ResendKeeps(c: Config, r: Lobby, u: User, now: int)
    requires RoomInv(c, r) && Live(r) && Due(c, r, u, now)
    ensures RoomInv(c, Resend(r, u, now)) && Live(Resend(r, u, now)) && u !in r.rejected
  {
  }

  /** What a resend sweep over some users may change. */
  ghost predicate Resent(r: Lobby, t: Lobby, users: seq<User>) {
    && Live(t) && t.nChallenges == r.nChallenges && t.rejected == r.rejected && t.challenged == r.challenged
    && forall u :: Count(r.nResends, u) <= Count(t.nResends, u)
         && (Count(t.nResends, u) != Count(r.nResends, u) ==> u in users && u !in r.rejected)
  }

  lemma {:induction false} ResendAllKeeps(c: Config, r: Lobby, users: seq<User>, now: int)
    requires RoomInv(c, r) && Live(r)
    ensures RoomInv(c, ResendAll(c, r, users, now)) && Resent(r, ResendAll(c, r, users, now), users)
    decreases users
  {
    if users != [] {
      assert users[0] in users && forall u :: u in users[1..] ==> u in users;
      if Due(c, r, users[0], now) {
        ResendKeeps(c, r, users[0], now);
        ResendAllKeeps(c, Resend(r, users[0], now), users[1..], now);
      } else {
        ResendAllKeeps(c, r, users[1..], now);
      }
    }
  }

  /** The resend sweep: over any history there are never more resends to a user than
      challenges, and none goes to a user rejected since the last challenge. */
  lemma ResendsBounded(c: Config, r: Lobby, now: int)
    requires RoomInv(c, r)
    ensures var t := Resends(c, r, now);
      && RoomInv(c, t)
      && (!Live(r) ==> t == r)
      && (forall u :: Count(t.nResends, u) <= Count(t.nChallenges, u))
      && (forall u :: Count(t.nResends, u) != Count(r.nResends, u) ==> u in r.challenged && u !in r.rejected)
  {
    if Live(r) { ResendAllKeeps(c, r, r.challenged, now); }
  }

  /** The timeout sweep: a closed room stays as it is, and no live room is left past its time. */
  lemma ExpireKeeps(c: Config, r: Lobby, now: int)
    requires RoomInv(c, r)
    ensures var t := Expire(c, r, now);
      && RoomInv(c, t) && (!Live(r) ==> t == r)
      && !(Live(t) && now - t.created > c.lobbyTimeout)
      && t.promoted == r.promoted && t.nResends == r.nResends
  {
  }

  // ---- What never changes ----------------------------------------------------------

  ghost predicate SameRoom(r: Lobby, t: Lobby) {
    t.code == r.code && t.created == r.created && t.title == r.title && t.keyword == r.keyword
  }

  lemma {:induction false} ChallengeAllFrame(c: Config, r: Lobby, joins: seq<Join>)
    ensures SameRoom(r, ChallengeAll(c, r, joins)) && ChallengeAll(c, r, joins).promoted == r.promoted
    decreases joins
  {
    if joins != [] { ChallengeAllFrame(c, Challenge(c, r, joins[0]), joins[1..]); }
  }

  lemma RejectFrame(c: Config, r: Lobby, u: User)
    ensures SameRoom(r, Reject(c, r, u)) && Reject(c, r, u).promoted == r.promoted
  {
  }

  lemma {:induction false} VetAllFrame(c: Config, r: Lobby, msgs: seq<Message>, how: Invite)
    ensures SameRoom(r, VetAll(c, r, msgs, how)) && (r.promoted ==> VetAll(c, r, msgs, how).promoted)
    decreases msgs
  {
    if msgs != [] && !Vet(NameOf(r, msgs[0].sender), msgs[0], r.keyword) {
      RejectFrame(c, r, msgs[0].sender);
      VetAllFrame(c, Reject(c, r, msgs[0].sender), msgs[1..], how);
    }
  }

  lemma ProcessFrame(c: Config, r: Lobby, joins: seq<Join>, msgs: seq<Message>, how: Invite, self: User)
    ensures var t := Process(c, r, joins, msgs, how, self);
      SameRoom(r, t) && (r.promoted ==> t.promoted)
  {
    ChallengeAllFrame(c, r, NewJoins(joins, r.challenged, self));
    VetAllFrame(c, ChallengeAll(c, r, NewJoins(joins, r.challenged, self)),
                FromChallenged(msgs, r.challenged, self), how);
  }

  lemma {:induction false} ResendsAllFrame(c: Config, r: Lobby, users: seq<User>, now: int)
    ensures var t := ResendAll(c, r, users, now);
      SameRoom(r, t) && t.promoted == r.promoted && t.closed == r.closed
    decreases users
  {
    if users != [] {
      ResendsAllFrame(c, if Due(c, r, users[0], now) then Resend(r, users[0], now) else r, users[1..], now);
    }
  }

  lemma ResendsFrame(c: Config, r: Lobby, now: int)
    ensures var t := Resends(c, r, now);
      SameRoom(r, t) && t.promoted == r.promoted && t.closed == r.closed
  {
    ResendsAllFrame(c, r, r.challenged, now);
  }
}
