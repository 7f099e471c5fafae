/** What one lobby room's syncs and sweeps come to, stated on the events, the names and the clock
    without the loops. */
module LobbyMeaning {
  import opened Prelude
  import opened Vetting
  import opened L = Lobby

  // ---- What a sync says about a room -----------------------------------------------

  /** No join of a user not yet challenged is lost or moved. */
  lemma {:induction false} NewJoinsJoin(a: seq<Join>, b: seq<Join>, challenged: seq<User>, self: User)
    ensures NewJoins(a + b, challenged, self) == NewJoins(a, challenged, self) + NewJoins(b, challenged, self)
  {
    if b == [] {
      assert a + b == a;
    } else {
      NewJoinsJoin(a, b[..|b| - 1], challenged, self);
      assert (a + b)[..|a + b| - 1] == a + b[..|b| - 1];
    }
  }

  lemma NewJoinsOne(j: Join, challenged: seq<User>, self: User)
    ensures NewJoins([j], challenged, self)
         == if j.user != NO_ID && j.user != self && j.user !in challenged then [j] else []
  {
    assert [j][..0] == [];
  }

  /** Nor any message of one who was. */
  lemma {:induction false} FromChallengedJoin(a: seq<Message>, b: seq<Message>, challenged: seq<User>, self: User)
    ensures FromChallenged(a + b, challenged, self)
         == FromChallenged(a, challenged, self) + FromChallenged(b, challenged, self)
  {
    if b == [] {
      assert a + b == a;
    } else {
      FromChallengedJoin(a, b[..|b| - 1], challenged, self);
      assert (a + b)[..|a + b| - 1] == a + b[..|b| - 1];
    }
  }

  lemma FromChallengedOne(m: Message, challenged: seq<User>, self: User)
    ensures FromChallenged([m], challenged, self) == if m.sender in challenged && m.sender != self then [m] else []
  {
    assert [m][..0] == [];
  }

  // ---- What the joins come to ------------------------------------------------------

  function Users(joins: seq<Join>): seq<User> { seq(|joins|, i requires 0 <= i < |joins| => joins[i].user) }

  /** Join `k` is the last of `u`. */
  predicate LastOf(joins: seq<Join>, u: User, k: nat) {
    k < |joins| && joins[k].user == u && forall j :: k < j < |joins| ==> joins[j].user != u
  }

  /** What a record has on one user. */
  datatype Seat = Seat(tries: int, resends: int, name: string, sent: Option<int>)

  function SeatOf(c: Config, r: Lobby, u: User): Seat {
    Seat(TriesOf(c, r, u), Count(r.resends, u), NameOf(r, u), if u in r.sentTs then Some(r.sentTs[u]) else None)
  }

  lemma ChallengeSeat(c: Config, r: Lobby, j: Join, u: User)
    ensures var t := Challenge(c, r, j);
      && SeatOf(c, t, u) == (if j.user == u then Seat(c.lobbyMaxTries, 0, j.name, Some(j.at)) else SeatOf(c, r, u))
      && t.challenged == r.challenged + [j.user]
      && t.keyword == r.keyword && t.promoted == r.promoted && t.closed == r.closed
  {
  }

  /** Everybody who joined is on the list, in order and once per join, with all tries, no resend,
      and the name and the time of the last join; nobody else's seat is touched. */
  lemma {:induction false} ChallengesMean(c: Config, r: Lobby, joins: seq<Join>, u: User)
    ensures var t := ChallengeAll(c, r, joins);
      && t.challenged == r.challenged + Users(joins)
      && (forall k: nat :: LastOf(joins, u, k) ==>
            SeatOf(c, t, u) == Seat(c.lobbyMaxTries, 0, joins[k].name, Some(joins[k].at)))
      && (u !in Users(joins) ==> SeatOf(c, t, u) == SeatOf(c, r, u))
      && t.keyword == r.keyword && t.promoted == r.promoted && t.closed == r.closed
    decreases |joins|
  {
    hide Challenge, SeatOf;
    if joins == [] {
      assert r.challenged + [] == r.challenged;
    } else {
      var f, j := joins[..|joins| - 1], joins[|joins| - 1];
      ChallengesMean(c, r, f, u);
      ChallengeLast(c, r, f, j);
      assert joins == f + [j] && Users(joins) == Users(f) + [j.user];
      ChallengeSeat(c, ChallengeAll(c, r, f), j, u);
      assert r.challenged + Users(f) + [j.user] == r.challenged + (Users(f) + [j.user]);
      forall k: nat | LastOf(joins, u, k) && k < |f| ensures LastOf(f, u, k) && joins[k] == f[k] {
        assert forall i :: k < i < |f| ==> f[i] == joins[i];
      }
    }
  }

  lemma {:induction false} ChallengeLast(c: Config, r: Lobby, f: seq<Join>, j: Join)
    ensures ChallengeAll(c, r, f + [j]) == Challenge(c, ChallengeAll(c, r, f), j)
    decreases f
  {
    if f == [] {
      assert [j][1..] == [];
    } else {
      ChallengeLast(c, Challenge(c, r, f[0]), f[1..], j);
      assert (f + [j])[1..] == f[1..] + [j];
    }
  }

  // ---- What the answers come to ----------------------------------------------------

  ghost predicate PassesAt(r: Lobby, msgs: seq<Message>, k: nat)
    requires k < |msgs|
  {
    Passes(NameOf(r, msgs[k].sender), msgs[k], r.keyword)
  }

  /** Answer `k` is the first of the batch to pass, each under its sender's displayname. */
  ghost predicate FirstToPass(r: Lobby, msgs: seq<Message>, k: nat) {
    k < |msgs| && PassesAt(r, msgs, k) && forall j :: 0 <= j < k ==> !PassesAt(r, msgs, j)
  }

  /** What a promotion for answer `m` writes. */
  predicate PromotedFor(t: Lobby, m: Message, how: Invite) {
    && t.promoted && t.closed && t.promotedUser == Some(m.sender) && t.passed == Some(m)
    && t.reason == Some(if how.Member? then AlreadyMember else Promoted)
  }

  /** `t` is promoted for the first answer to pass, if there is one and the invitation is not
      refused, and live otherwise. */
  ghost predicate Decides(r: Lobby, msgs: seq<Message>, how: Invite, t: Lobby) {
    && (forall k: nat :: FirstToPass(r, msgs, k) && !how.Refused? ==> PromotedFor(t, msgs[k], how))
    && (how.Refused? || (forall k: nat :: k < |msgs| ==> !PassesAt(r, msgs, k)) ==> Live(t))
  }

  /** Both records have the same keyword, and the same name for every sender. */
  predicate ReadsAlike(r: Lobby, told: Lobby, msgs: seq<Message>) {
    && r.keyword == told.keyword
    && forall i :: 0 <= i < |msgs| ==> NameOf(r, msgs[i].sender) == NameOf(told, msgs[i].sender)
  }

  lemma {:induction false} AnswersMean(c: Config, told: Lobby, r: Lobby, msgs: seq<Message>, how: Invite)
    requires Live(r) && ReadsAlike(r, told, msgs)
    ensures Decides(told, msgs, how, VetAll(c, r, msgs, how))
    decreases msgs
  {
    hide Passes, Vet;
    if msgs != [] {
      assert NameOf(r, msgs[0].sender) == NameOf(told, msgs[0].sender);
      VetPasses(NameOf(r, msgs[0].sender), msgs[0], r.keyword);
      assert PassesAt(told, msgs, 0) <==> Vet(NameOf(r, msgs[0].sender), msgs[0], r.keyword);
      if Vet(NameOf(r, msgs[0].sender), msgs[0], r.keyword) {
        DecidedAtOnce(told, r, msgs, how);
      } else {
        AlikeNext(c, r, told, msgs);
        hide Decides, ReadsAlike, Reject, PassesAt;
        AnswersMean(c, told, Reject(c, r, msgs[0].sender), msgs[1..], how);
        DecidedLater(told, msgs, how, VetAll(c, Reject(c, r, msgs[0].sender), msgs[1..], how));
      }
    }
  }

  lemma AlikeNext(c: Config, r: Lobby, told: Lobby, msgs: seq<Message>)
    requires ReadsAlike(r, told, msgs) && msgs != []
    ensures ReadsAlike(Reject(c, r, msgs[0].sender), told, msgs[1..])
    ensures Live(Reject(c, r, msgs[0].sender)) == Live(r)
  {
  }

  lemma DecidedAtOnce(told: Lobby, r: Lobby, msgs: seq<Message>, how: Invite)
    requires Live(r) && msgs != [] && PassesAt(told, msgs, 0)
    ensures Decides(told, msgs, how, if how.Refused? then r else Promote(r, msgs[0], how))
  {
    hide Passes;
  }

  lemma DecidedLater(r: Lobby, msgs: seq<Message>, how: Invite, t: Lobby)
    requires msgs != [] && !PassesAt(r, msgs, 0) && Decides(r, msgs[1..], how, t)
    ensures Decides(r, msgs, how, t)
  {
    ShiftPasses(r, msgs);
    hide PassesAt, PromotedFor, FirstToPass;
    if !how.Refused? {
      forall k: nat | FirstToPass(r, msgs, k) ensures k < |msgs| && PromotedFor(t, msgs[k], how) {
        FirstInside(r, msgs, k);
        assert FirstToPass(r, msgs[1..], k - 1) && msgs[1..][k - 1] == msgs[k];
      }
      if forall k: nat :: k < |msgs| ==> !PassesAt(r, msgs, k) {
        assert forall k: nat :: k < |msgs[1..]| ==> !PassesAt(r, msgs[1..], k);
      }
    }
  }

  lemma FirstInside(r: Lobby, msgs: seq<Message>, k: nat)
    requires FirstToPass(r, msgs, k)
    ensures k < |msgs|
  {
  }

  lemma ShiftPasses(r: Lobby, msgs: seq<Message>)
    requires msgs != [] && !PassesAt(r, msgs, 0)
    ensures forall k: nat :: FirstToPass(r, msgs, k) ==> k > 0 && FirstToPass(r, msgs[1..], k - 1)
    ensures forall k: nat :: k < |msgs| - 1 ==> (PassesAt(r, msgs[1..], k) <==> PassesAt(r, msgs, k + 1))
  {
    hide Passes;
    forall k: nat | FirstToPass(r, msgs, k) ensures k > 0 && FirstToPass(r, msgs[1..], k - 1) {
      assert forall j :: 0 <= j < k - 1 ==> PassesAt(r, msgs[1..], j) == PassesAt(r, msgs, j + 1);
    }
  }

  /** The challenges of a sync rename nobody who was challenged before. */
  lemma NameStays(c: Config, r: Lobby, joins: seq<Join>, self: User, u: User)
    requires u in r.challenged
    ensures var t := ChallengeAll(c, r, NewJoins(joins, r.challenged, self));
      t.keyword == r.keyword && t.promoted == r.promoted && t.closed == r.closed && NameOf(t, u) == NameOf(r, u)
  {
    ChallengesMean(c, r, NewJoins(joins, r.challenged, self), u);
  }

  /** The names and the keyword the answers of a sync are read against are those before it. */
  lemma ReadAgainst(c: Config, r: Lobby, joins: seq<Join>, msgs: seq<Message>, self: User)
    ensures var t := ChallengeAll(c, r, NewJoins(joins, r.challenged, self));
      && t.promoted == r.promoted && t.closed == r.closed
      && ReadsAlike(t, r, FromChallenged(msgs, r.challenged, self))
  {
    var js, ms := NewJoins(joins, r.challenged, self), FromChallenged(msgs, r.challenged, self);
    ChallengesMean(c, r, js, NO_ID);
    forall i | 0 <= i < |ms| ensures NameOf(ChallengeAll(c, r, js), ms[i].sender) == NameOf(r, ms[i].sender) {
      NameStays(c, r, joins, self, ms[i].sender);
    }
  }

  /** One sync of a live room promotes the sender of the first passing answer, of users challenged
      before, exactly when there is one and the invitation is not refused; the reason says whether
      they were a member already. */
  lemma SyncPromotes(c: Config, r: Lobby, joins: seq<Join>, msgs: seq<Message>, how: Invite, self: User)
    requires Live(r)
    ensures Decides(r, FromChallenged(msgs, r.challenged, self), how, L.Process(c, r, joins, msgs, how, self))
  {
    var js, ms := NewJoins(joins, r.challenged, self), FromChallenged(msgs, r.challenged, self);
    hide Decides, VetAll, ChallengeAll, ReadsAlike, NewJoins, FromChallenged;
    ReadAgainst(c, r, joins, msgs, self);
    AnswersMean(c, r, ChallengeAll(c, r, js), ms, how);
  }

  // ---- What the sweeps come to -----------------------------------------------------

  /** The challenge has gone long enough without any answer, or a resend. */
  predicate Overdue(c: Config, seat: Seat, now: int) {
    && seat.resends < 1 && seat.sent.Some? && now - seat.sent.value >= c.resendAfter
    && seat.tries == c.lobbyMaxTries
  }

  lemma ResendSeat(c: Config, r: Lobby, x: User, now: int, u: User)
    ensures Due(c, r, x, now) <==> Overdue(c, SeatOf(c, r, x), now)
    ensures SeatOf(c, Resend(r, x, now), u)
         == if x == u then SeatOf(c, r, u).(resends := SeatOf(c, r, u).resends + 1, sent := Some(now))
            else SeatOf(c, r, u)
  {
  }

  lemma {:induction false} ResendsMean(c: Config, r: Lobby, users: seq<User>, now: int, u: User)
    requires 0 <= SeatOf(c, r, u).resends
    ensures var seat := SeatOf(c, r, u);
      SeatOf(c, ResendAll(c, r, users, now), u)
        == if u in users && Overdue(c, seat, now) then seat.(resends := seat.resends + 1, sent := Some(now)) else seat
    decreases users
  {
    if users != [] {
      hide Due, Resend, SeatOf;
      ResendSeat(c, r, users[0], now, u);
      var s := if Due(c, r, users[0], now) then Resend(r, users[0], now) else r;
      ResendsMean(c, s, users[1..], now, u);
      assert u in users <==> u == users[0] || u in users[1..];
    }
  }

  /** The sweep resends, once, to exactly the users on a live room's list whose challenge is
      overdue, and dates it. */
  lemma SweepResends(c: Config, r: Lobby, now: int, u: User)
    requires 0 <= SeatOf(c, r, u).resends
    ensures var seat := SeatOf(c, r, u);
      SeatOf(c, Resends(c, r, now), u)
        == if Live(r) && r.title != "" && r.keyword != "" && u in r.challenged && Overdue(c, seat, now)
           then seat.(resends := seat.resends + 1, sent := Some(now)) else seat
  {
    ResendsMean(c, r, r.challenged, now, u);
  }

  /** The timeout sweep closes a live room exactly when it is past its timeout, says why, and
      touches nothing else. */
  lemma ExpireIff(c: Config, r: Lobby, now: int)
    ensures Live(L.Expire(c, r, now)) <==> Live(r) && now - r.created <= c.lobbyTimeout
    ensures Live(r) && now - r.created > c.lobbyTimeout ==>
      L.Expire(c, r, now).closed && L.Expire(c, r, now).reason == Some(TimedOut)
    ensures L.Expire(c, r, now).(closed := r.closed, reason := r.reason) == r
  {
  }
}
