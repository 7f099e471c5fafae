/** What one lobby room goes through over a whole run of the handlers: a user is promoted only
    after an earlier challenge, and gets no resend between a rejected answer and a new challenge.
    All in terms of what the record says before and after a step. */
module LobbyRuns {
  import opened Prelude
  import opened Vetting
  import opened Onboarding
  import L = Lobby
  import M = LobbyMeaning

  // ---- One step, seen from the record ----------------------------------------------

  predicate NewlyChallenged(r: L.Lobby, t: L.Lobby, u: User) { u !in r.challenged && u in t.challenged }
  predicate JustRejected(c: Config, r: L.Lobby, t: L.Lobby, u: User) { L.TriesOf(c, t, u) < L.TriesOf(c, r, u) }
  predicate JustResent(r: L.Lobby, t: L.Lobby, u: User) { L.Count(r.resends, u) < L.Count(t.resends, u) }
  predicate JustPromoted(r: L.Lobby, t: L.Lobby, u: User) {
    !r.promoted && t.promoted && t.promotedUser == Some(u)
  }

  /** A user gets tries back only with a challenge, and a resend only with all tries left. */
  ghost predicate Moves(c: Config, r: L.Lobby, t: L.Lobby, u: User) {
    && (NewlyChallenged(r, t, u) || L.TriesOf(c, t, u) <= L.TriesOf(c, r, u))
    && (JustResent(r, t, u) ==> L.TriesOf(c, r, u) == c.lobbyMaxTries)
  }

  lemma ChallengeOther(c: Config, r: L.Lobby, j: L.Join, u: User)
    requires j.user != u
    ensures var t := L.Challenge(c, r, j);
      && L.TriesOf(c, t, u) == L.TriesOf(c, r, u) && L.Count(t.resends, u) == L.Count(r.resends, u)
      && (u in t.challenged <==> u in r.challenged)
  {
  }

  /** A round of challenges leaves everybody else's tries and resends alone. */
  lemma {:induction false} ChallengesMove(c: Config, r: L.Lobby, joins: seq<L.Join>, u: User)
    requires 0 <= L.Count(r.resends, u)
    ensures var t := L.ChallengeAll(c, r, joins);
      && (u in r.challenged ==> u in t.challenged)
      && 0 <= L.Count(t.resends, u) <= L.Count(r.resends, u)
      && (u in t.challenged || L.TriesOf(c, t, u) == L.TriesOf(c, r, u))
      && ((forall i :: 0 <= i < |joins| ==> joins[i].user != u) ==>
            L.TriesOf(c, t, u) == L.TriesOf(c, r, u))
    decreases joins
  {
    if joins != [] {
      if joins[0].user != u {
        ChallengeOther(c, r, joins[0], u);
      }
      ChallengesMove(c, L.Challenge(c, r, joins[0]), joins[1..], u);
    }
  }

  lemma {:induction false} RemoveOther(s: seq<User>, x: User, u: User)
    requires x != u
    ensures u in L.RemoveFirst(s, x) <==> u in s
  {
    if s != [] && s[0] != x {
      RemoveOther(s[1..], x, u);
    }
  }

  lemma RejectMoves(c: Config, r: L.Lobby, x: User, u: User)
    ensures var t := L.Reject(c, r, x);
      && L.TriesOf(c, t, u) <= L.TriesOf(c, r, u) && t.resends == r.resends
      && (x != u ==> (u in t.challenged <==> u in r.challenged))
  {
    if x != u {
      RemoveOther(r.challenged, x, u);
    }
  }

  /** Answers cost tries; one who did not answer stays challenged. */
  lemma {:induction false} AnswersMove(c: Config, r: L.Lobby, msgs: seq<Message>, how: L.Invite, u: User)
    ensures var t := L.VetAll(c, r, msgs, how);
      && L.TriesOf(c, t, u) <= L.TriesOf(c, r, u) && t.resends == r.resends
      && ((forall i :: 0 <= i < |msgs| ==> msgs[i].sender != u) ==> (u in t.challenged <==> u in r.challenged))
    decreases msgs
  {
    hide L.Reject;
    if msgs != [] && !Vet(L.NameOf(r, msgs[0].sender), msgs[0], r.keyword) {
      RejectMoves(c, r, msgs[0].sender, u);
      AnswersMove(c, L.Reject(c, r, msgs[0].sender), msgs[1..], how, u);
    }
  }

  lemma ProcessMoves(c: Config, r: L.Lobby, joins: seq<L.Join>, msgs: seq<Message>, how: L.Invite, self: User, u: User)
    requires L.RoomInv(c, r)
    ensures Moves(c, r, L.Process(c, r, joins, msgs, how, self), u)
  {
    if L.Live(r) {
      var js, ms := L.NewJoins(joins, r.challenged, self), L.FromChallenged(msgs, r.challenged, self);
      ChallengesMove(c, r, js, u);
      AnswersMove(c, L.ChallengeAll(c, r, js), ms, how, u);
    }
  }

  lemma {:induction false} ResendsMove(c: Config, r: L.Lobby, users: seq<User>, now: int, u: User)
    ensures var t := L.ResendAll(c, r, users, now);
      && t.tries == r.tries && t.challenged == r.challenged && t.promoted == r.promoted
      && (JustResent(r, t, u) ==> L.TriesOf(c, r, u) == c.lobbyMaxTries)
    decreases users
  {
    if users != [] {
      var s := if L.Due(c, r, users[0], now) then L.Resend(r, users[0], now) else r;
      ResendsMove(c, s, users[1..], now, u);
      assert L.TriesOf(c, s, u) == L.TriesOf(c, r, u);
    }
  }

  lemma SweepMoves(c: Config, r: L.Lobby, now: int, u: User)
    ensures Moves(c, r, L.Resends(c, r, now), u)
    ensures L.Resends(c, r, now).challenged == r.challenged
  {
    ResendsMove(c, r, r.challenged, now, u);
  }

  // ---- What costs a try ------------------------------------------------------------

  /** The user's answers that fail before the first one, of anybody, that passes. */
  function FailedAnswers(r: L.Lobby, msgs: seq<Message>, u: User): nat
    decreases msgs
  {
    if msgs == [] || Vet(L.NameOf(r, msgs[0].sender), msgs[0], r.keyword) then 0
    else (if msgs[0].sender == u then 1 else 0) + FailedAnswers(r, msgs[1..], u)
  }

  lemma RejectCosts(c: Config, r: L.Lobby, x: User, u: User)
    ensures var t := L.Reject(c, r, x);
      && t.names == r.names && t.keyword == r.keyword
      && L.TriesOf(c, t, u) == L.TriesOf(c, r, u) - if x == u then 1 else 0
  {
  }

  /** Each of them costs one try, and nothing else does; `told` is the record the answers are
      read against, whose names and keyword no answer changes. */
  lemma {:induction false} AnswersCost(c: Config, told: L.Lobby, r: L.Lobby, msgs: seq<Message>, how: L.Invite, u: User)
    requires M.ReadsAlike(r, told, msgs)
    ensures L.TriesOf(c, L.VetAll(c, r, msgs, how), u) == L.TriesOf(c, r, u) - FailedAnswers(told, msgs, u)
    decreases msgs
  {
    hide L.Reject;
    if msgs != [] {
      assert L.NameOf(r, msgs[0].sender) == L.NameOf(told, msgs[0].sender);
      if !Vet(L.NameOf(r, msgs[0].sender), msgs[0], r.keyword) {
        RejectCosts(c, r, msgs[0].sender, u);
        AnswersCost(c, told, L.Reject(c, r, msgs[0].sender), msgs[1..], how, u);
      }
    }
  }

  lemma {:induction false} NobodyElse(r: L.Lobby, msgs: seq<Message>, u: User)
    requires forall i :: 0 <= i < |msgs| ==> msgs[i].sender != u
    ensures FailedAnswers(r, msgs, u) == 0
    decreases msgs
  {
    if msgs != [] {
      NobodyElse(r, msgs[1..], u);
    }
  }

  lemma ProcessCosts(c: Config, r: L.Lobby, joins: seq<L.Join>, msgs: seq<Message>, how: L.Invite, self: User, u: User)
    requires L.RoomInv(c, r) && L.Live(r)
    ensures JustRejected(c, r, L.Process(c, r, joins, msgs, how, self), u)
       <==> 0 < FailedAnswers(r, L.FromChallenged(msgs, r.challenged, self), u)
  {
    var js, ms := L.NewJoins(joins, r.challenged, self), L.FromChallenged(msgs, r.challenged, self);
    M.ReadAgainst(c, r, joins, msgs, self);
    AnswersCost(c, r, L.ChallengeAll(c, r, js), ms, how, u);
    ChallengesTry(c, r, js, u);
    if u !in r.challenged {
      NobodyElse(r, ms, u);
    }
  }

  /** A challenge never lowers the tries, and leaves those of everybody else. */
  lemma {:induction false} ChallengesTry(c: Config, r: L.Lobby, joins: seq<L.Join>, u: User)
    requires L.TriesOf(c, r, u) <= c.lobbyMaxTries
    ensures L.TriesOf(c, r, u) <= L.TriesOf(c, L.ChallengeAll(c, r, joins), u) <= c.lobbyMaxTries
    ensures (forall i :: 0 <= i < |joins| ==> joins[i].user != u)
      ==> L.TriesOf(c, L.ChallengeAll(c, r, joins), u) == L.TriesOf(c, r, u)
    decreases joins
  {
    if joins != [] {
      ChallengesTry(c, L.Challenge(c, r, joins[0]), joins[1..], u);
    }
  }

  // ---- Running out of tries --------------------------------------------------------

  /** How many times the user is on the list. */
  function OnList(r: L.Lobby, u: User): nat { multiset(r.challenged)[u] }

  /** Of `fails` failing answers from `tries` tries on, how many leave none. */
  function Last(tries: int, fails: nat): nat {
    if tries <= 0 then fails else if fails < tries then 0 else fails - tries + 1
  }

  function Less(n: nat, k: nat): nat { if n < k then 0 else n - k }

  lemma {:induction false} RemoveCounts(s: seq<User>, x: User, u: User)
    ensures multiset(L.RemoveFirst(s, x))[u] == if u == x then Less(multiset(s)[u], 1) else multiset(s)[u]
  {
    if s != [] {
      assert s == [s[0]] + s[1..];
      if s[0] != x {
        RemoveCounts(s[1..], x, u);
      }
    }
  }

  lemma RejectTakes(c: Config, r: L.Lobby, x: User, u: User)
    ensures OnList(L.Reject(c, r, x), u) == Less(OnList(r, u), if x == u && L.TriesOf(c, r, u) <= 1 then 1 else 0)
  {
    RemoveCounts(r.challenged, x, u);
  }

  /** Each failing answer that leaves a user no tries takes them off the list once. */
  lemma {:induction false} AnswersTake(c: Config, told: L.Lobby, r: L.Lobby, msgs: seq<Message>, how: L.Invite, u: User)
    requires M.ReadsAlike(r, told, msgs)
    ensures OnList(L.VetAll(c, r, msgs, how), u)
         == Less(OnList(r, u), Last(L.TriesOf(c, r, u), FailedAnswers(told, msgs, u)))
    decreases msgs
  {
    hide L.Reject, OnList;
    if msgs != [] {
      assert L.NameOf(r, msgs[0].sender) == L.NameOf(told, msgs[0].sender);
      if !Vet(L.NameOf(r, msgs[0].sender), msgs[0], r.keyword) {
        RejectCosts(c, r, msgs[0].sender, u);
        RejectTakes(c, r, msgs[0].sender, u);
        AnswersTake(c, told, L.Reject(c, r, msgs[0].sender), msgs[1..], how, u);
      } else {
        PromoteLeaves(r, msgs[0], how, u);
      }
    }
  }

  lemma PromoteLeaves(r: L.Lobby, m: Message, how: L.Invite, u: User)
    ensures OnList(L.Promote(r, m, how), u) == OnList(r, u)
  {
  }

  /** One sync of a live room takes a user who was on its list off it once for each failing answer
      that leaves them no tries. */
  lemma ProcessTakes(c: Config, r: L.Lobby, joins: seq<L.Join>, msgs: seq<Message>, how: L.Invite, self: User, u: User)
    requires L.Live(r) && u in r.challenged
    ensures OnList(L.Process(c, r, joins, msgs, how, self), u)
         == Less(OnList(r, u),
                 Last(L.TriesOf(c, r, u), FailedAnswers(r, L.FromChallenged(msgs, r.challenged, self), u)))
  {
    var js, ms := L.NewJoins(joins, r.challenged, self), L.FromChallenged(msgs, r.challenged, self);
    var t := L.ChallengeAll(c, r, js);
    M.ReadAgainst(c, r, joins, msgs, self);
    M.ChallengesMean(c, r, js, u);
    assert u !in M.Users(js);
    assert OnList(t, u) == OnList(r, u);
    assert M.SeatOf(c, t, u).tries == M.SeatOf(c, r, u).tries;
    AnswersTake(c, r, t, ms, how, u);
  }

  // ---- The room at each moment of a run --------------------------------------------

  ghost function At(c: Config, ls: seq<Label>, n: nat): map<RoomId, L.Lobby>
    requires n <= |ls|
  {
    Exec(c, Empty, ls[..n]).lobby
  }

  ghost predicate There(c: Config, ls: seq<Label>, n: nat, room: RoomId)
    requires n <= |ls|
  {
    room in At(c, ls, n)
  }

  lemma {:induction false} PrefixRuns(c: Config, d: Door, ls: seq<Label>, n: nat)
    requires Run(c, d, ls) && n <= |ls|
    ensures Run(c, d, ls[..n])
    decreases |ls|
  {
    if n < |ls| {
      PrefixRuns(c, d, ls[..|ls| - 1], n);
      assert ls[..|ls| - 1][..n] == ls[..n];
    } else {
      assert ls[..n] == ls;
    }
  }

  /** The state before step `n`, which the step is enabled in, and after it. */
  lemma Unfold(c: Config, ls: seq<Label>, n: nat) returns (d: Door)
    requires Run(c, Empty, ls) && n < |ls|
    ensures d == Exec(c, Empty, ls[..n]) && DoorInv(c, d) && Enabled(d, ls[n])
    ensures Apply(c, d, ls[n]) == Exec(c, Empty, ls[..n + 1])
  {
    hide DoorInv, Enabled, Apply;
    PrefixRuns(c, Empty, ls, n);
    PrefixRuns(c, Empty, ls, n + 1);
    RunKeeps(c, ls[..n]);
    assert ls[..n + 1][..n] == ls[..n];
    d := Exec(c, Empty, ls[..n]);
  }

  /** What a step makes of a record that is there. */
  function RecordAfter(c: Config, r: L.Lobby, l: Label, room: RoomId): L.Lobby {
    match l
    case LobbySync(lroom, js, ms, how, self, _) => if lroom == room then L.Process(c, r, js, ms, how, self) else r
    case LobbyResend(now) => L.Resends(c, r, now)
    case LobbyExpire(now) => L.Expire(c, r, now)
    case _ => r
  }

  lemma VetKeepsLobby(c: Config, d: Door, l: Label)
    requires l.VetRoom?
    ensures Apply(c, d, l).lobby == d.lobby
  {
    hide Vetting.Process;
  }

  lemma RecordStep(c: Config, d: Door, l: Label, room: RoomId)
    requires Enabled(d, l)
    ensures room in d.lobby ==>
      room in Apply(c, d, l).lobby && Apply(c, d, l).lobby[room] == RecordAfter(c, d.lobby[room], l, room)
    ensures room !in d.lobby && room in Apply(c, d, l).lobby ==>
      Apply(c, d, l).lobby[room].challenged == [] && !Apply(c, d, l).lobby[room].promoted
  {
    hide L.Process, L.Resends, L.Expire;
    if l.LobbySync? && l.lroom in d.lobby {
      ApplyLobbySyncFile(c, d, l.lroom, l.joins, l.msgs, l.how, l.self, l.gift);
    } else if l.VetRoom? {
      VetKeepsLobby(c, d, l);
    }
  }

  lemma RecordMoves(c: Config, r: L.Lobby, l: Label, room: RoomId, u: User)
    requires L.RoomInv(c, r)
    ensures Moves(c, r, RecordAfter(c, r, l, room), u)
  {
    hide L.Process, L.Resends;
    match l
    case LobbySync(_, js, ms, how, self, _) => ProcessMoves(c, r, js, ms, how, self, u);
    case LobbyResend(now) => SweepMoves(c, r, now, u);
    case _ =>
  }

  /** A step moves a record as one of the handlers does; a new record has nobody in it. */
  lemma StepMoves(c: Config, d: Door, l: Label, room: RoomId, u: User)
    requires DoorInv(c, d) && Enabled(d, l)
    ensures room in d.lobby ==>
      room in Apply(c, d, l).lobby && Moves(c, d.lobby[room], Apply(c, d, l).lobby[room], u)
    ensures room !in d.lobby && room in Apply(c, d, l).lobby ==>
      Apply(c, d, l).lobby[room].challenged == [] && !Apply(c, d, l).lobby[room].promoted
  {
    RoomOk(c, d, room);
    hide Enabled, Apply, RecordAfter, Moves, L.RoomInv, DoorInv;
    RecordStep(c, d, l, room);
    if room in d.lobby {
      RecordMoves(c, d.lobby[room], l, room, u);
    }
  }

  lemma RoomOk(c: Config, d: Door, room: RoomId)
    requires DoorInv(c, d)
    ensures room in d.lobby ==> L.RoomInv(c, d.lobby[room])
  {
    hide Accounts, L.RoomInv;
  }

  lemma Moved(c: Config, ls: seq<Label>, n: nat, room: RoomId, u: User)
    requires Run(c, Empty, ls) && n < |ls|
    ensures There(c, ls, n, room) ==>
      There(c, ls, n + 1, room) && Moves(c, At(c, ls, n)[room], At(c, ls, n + 1)[room], u)
    ensures !There(c, ls, n, room) && There(c, ls, n + 1, room) ==>
      At(c, ls, n + 1)[room].challenged == [] && !At(c, ls, n + 1)[room].promoted
  {
    hide DoorInv, Enabled, Apply, Moves;
    var d := Unfold(c, ls, n);
    StepMoves(c, d, ls[n], room, u);
  }

  // ---- No resend after a rejection -------------------------------------------------

  /** Step `n` does that to the user in that room. */
  ghost predicate Challenges(c: Config, ls: seq<Label>, n: nat, room: RoomId, u: User) {
    n < |ls| && There(c, ls, n, room) && There(c, ls, n + 1, room)
    && NewlyChallenged(At(c, ls, n)[room], At(c, ls, n + 1)[room], u)
  }

  ghost predicate Rejects(c: Config, ls: seq<Label>, n: nat, room: RoomId, u: User) {
    n < |ls| && There(c, ls, n, room) && There(c, ls, n + 1, room)
    && JustRejected(c, At(c, ls, n)[room], At(c, ls, n + 1)[room], u)
  }

  ghost predicate ResendsTo(c: Config, ls: seq<Label>, n: nat, room: RoomId, u: User) {
    n < |ls| && There(c, ls, n, room) && There(c, ls, n + 1, room)
    && JustResent(At(c, ls, n)[room], At(c, ls, n + 1)[room], u)
  }

  ghost predicate Promotes(c: Config, ls: seq<Label>, n: nat, room: RoomId, u: User) {
    n < |ls| && There(c, ls, n, room) && There(c, ls, n + 1, room)
    && JustPromoted(At(c, ls, n)[room], At(c, ls, n + 1)[room], u)
  }

  /** The label brings the live room an answer of this user that fails, before any that passes. */
  predicate BringsFailure(r: L.Lobby, l: Label, room: RoomId, u: User) {
    && l.LobbySync? && l.lroom == room && L.Live(r)
    && 0 < FailedAnswers(r, L.FromChallenged(l.msgs, r.challenged, l.self), u)
  }

  lemma RecordCosts(c: Config, r: L.Lobby, l: Label, room: RoomId, u: User)
    requires L.RoomInv(c, r)
    ensures JustRejected(c, r, RecordAfter(c, r, l, room), u) <==> BringsFailure(r, l, room, u)
  {
    hide L.Resends;
    if l.LobbySync? && l.lroom == room && L.Live(r) {
      ProcessCosts(c, r, l.joins, l.msgs, l.how, l.self, u);
    } else if l.LobbyResend? {
      ResendsCostNothing(c, r, l.sweep, u);
    }
  }

  lemma ResendsCostNothing(c: Config, r: L.Lobby, now: int, u: User)
    ensures L.Resends(c, r, now).tries == r.tries
  {
    ResendsMove(c, r, r.challenged, now, u);
  }

  /** Over any run, a step costs a user a try exactly when it brings an answer of theirs that
      fails, and none before it passes. */
  lemma RejectsIff(c: Config, ls: seq<Label>, n: nat, room: RoomId, u: User)
    requires Run(c, Empty, ls) && n < |ls| && There(c, ls, n, room)
    ensures Rejects(c, ls, n, room, u) <==> BringsFailure(At(c, ls, n)[room], ls[n], room, u)
  {
    var d := Unfold(c, ls, n);
    RoomOk(c, d, room);
    hide Enabled, Apply, RecordAfter, L.RoomInv, DoorInv, JustRejected, BringsFailure, Run;
    RecordStep(c, d, ls[n], room);
    RecordCosts(c, d.lobby[room], ls[n], room, u);
  }

  lemma TriesAtMost(c: Config, ls: seq<Label>, n: nat, room: RoomId, u: User)
    requires Run(c, Empty, ls) && n < |ls| && There(c, ls, n, room)
    ensures L.TriesOf(c, At(c, ls, n)[room], u) <= c.lobbyMaxTries
  {
    hide Exec, Run, Apply, Enabled;
    var d := Unfold(c, ls, n);
    RoomOk(c, d, room);
  }

  /** Since a rejection at `i`, either the user was challenged again or has used a try. */
  lemma {:induction false} UsedTry(c: Config, ls: seq<Label>, i: nat, n: nat, room: RoomId, u: User)
    requires Run(c, Empty, ls) && i < n <= |ls| && Rejects(c, ls, i, room, u)
    ensures There(c, ls, n, room)
    ensures (exists j :: i < j < n && Challenges(c, ls, j, room, u))
         || L.TriesOf(c, At(c, ls, n)[room], u) < c.lobbyMaxTries
    decreases n
  {
    hide Exec, Run;
    if n == i + 1 {
      TriesAtMost(c, ls, i, room, u);
    } else {
      UsedTry(c, ls, i, n - 1, room, u);
      Moved(c, ls, n - 1, room, u);
      assert Challenges(c, ls, n - 1, room, u)
        || L.TriesOf(c, At(c, ls, n)[room], u) <= L.TriesOf(c, At(c, ls, n - 1)[room], u);
    }
  }

  /** Over any run: between a rejected answer of a user and a later resend to that user, there
      is a new challenge. */
  lemma NoResendAfterReject(c: Config, ls: seq<Label>, i: nat, k: nat, room: RoomId, u: User)
    requires Run(c, Empty, ls) && i < k
    requires Rejects(c, ls, i, room, u) && ResendsTo(c, ls, k, room, u)
    ensures exists j :: i < j < k && Challenges(c, ls, j, room, u)
  {
    hide Exec, Run;
    UsedTry(c, ls, i, k, room, u);
    Moved(c, ls, k, room, u);
  }

  // ---- No try after the last -------------------------------------------------------

  /** Step `n` costs the user a try and leaves none. */
  ghost predicate Exhausts(c: Config, ls: seq<Label>, n: nat, room: RoomId, u: User) {
    Rejects(c, ls, n, room, u) && L.TriesOf(c, At(c, ls, n + 1)[room], u) <= 0
  }

  lemma RecordExhausts(c: Config, r: L.Lobby, l: Label, room: RoomId, u: User)
    requires L.RoomInv(c, r) && OnList(r, u) == 1
    requires JustRejected(c, r, RecordAfter(c, r, l, room), u) && L.TriesOf(c, RecordAfter(c, r, l, room), u) <= 0
    ensures u !in RecordAfter(c, r, l, room).challenged
  {
    RecordCosts(c, r, l, room, u);
    hide L.RoomInv;
    var js, ms := L.NewJoins(l.joins, r.challenged, l.self), L.FromChallenged(l.msgs, r.challenged, l.self);
    var t := L.ChallengeAll(c, r, js);
    ProcessTakes(c, r, l.joins, l.msgs, l.how, l.self, u);
    M.ReadAgainst(c, r, l.joins, l.msgs, l.self);
    M.ChallengesMean(c, r, js, u);
    assert u !in M.Users(js) && M.SeatOf(c, t, u).tries == M.SeatOf(c, r, u).tries;
    AnswersCost(c, r, t, ms, l.how, u);
    assert OnList(RecordAfter(c, r, l, room), u) == 0;
  }

  /** Over any run, a step that leaves a user who is once on the list with no tries takes them
      off it. */
  lemma ExhaustedIsOff(c: Config, ls: seq<Label>, n: nat, room: RoomId, u: User)
    requires Run(c, Empty, ls) && Exhausts(c, ls, n, room, u) && OnList(At(c, ls, n)[room], u) == 1
    ensures u !in At(c, ls, n + 1)[room].challenged
  {
    var d := Unfold(c, ls, n);
    RoomOk(c, d, room);
    hide Enabled, Apply, RecordAfter, L.RoomInv, DoorInv, JustRejected, Run, OnList;
    RecordStep(c, d, ls[n], room);
    RecordExhausts(c, d.lobby[room], ls[n], room, u);
  }

  /** Who is off the list gets back on it by a challenge. */
  lemma {:induction false} BackOn(c: Config, ls: seq<Label>, n: nat, k: nat, room: RoomId, u: User)
    requires Run(c, Empty, ls) && n <= k <= |ls| && There(c, ls, n, room) && u !in At(c, ls, n)[room].challenged
    ensures There(c, ls, k, room)
    ensures u in At(c, ls, k)[room].challenged ==> exists j :: n <= j < k && Challenges(c, ls, j, room, u)
    decreases k
  {
    hide Exec, Run;
    if n < k {
      BackOn(c, ls, n, k - 1, room, u);
      Moved(c, ls, k - 1, room, u);
      if u in At(c, ls, k)[room].challenged && u !in At(c, ls, k - 1)[room].challenged {
        assert Challenges(c, ls, k - 1, room, u);
      }
    }
  }

  lemma OnlyListed(c: Config, ls: seq<Label>, k: nat, room: RoomId, u: User)
    requires Run(c, Empty, ls) && (Rejects(c, ls, k, room, u) || Promotes(c, ls, k, room, u))
    ensures u in At(c, ls, k)[room].challenged
  {
    if Rejects(c, ls, k, room, u) {
      RejectsIff(c, ls, k, room, u);
      FailsListed(At(c, ls, k)[room], ls[k].msgs, ls[k].self, u);
    } else {
      PromotionEarned(c, ls, k, room, u);
    }
  }

  lemma FailsListed(r: L.Lobby, msgs: seq<Message>, self: User, u: User)
    requires 0 < FailedAnswers(r, L.FromChallenged(msgs, r.challenged, self), u)
    ensures u in r.challenged
  {
    if u !in r.challenged {
      NobodyElse(r, L.FromChallenged(msgs, r.challenged, self), u);
    }
  }

  /** Over any run: between the step that leaves a user, once on the list, with no tries, and a
      later step that promotes them or costs them a try, there is a new challenge. */
  lemma NoTryAfterTheLast(c: Config, ls: seq<Label>, i: nat, k: nat, room: RoomId, u: User)
    requires Run(c, Empty, ls) && i < k
    requires Exhausts(c, ls, i, room, u) && OnList(At(c, ls, i)[room], u) == 1
    requires Promotes(c, ls, k, room, u) || Rejects(c, ls, k, room, u)
    ensures exists j :: i < j < k && Challenges(c, ls, j, room, u)
  {
    ExhaustedIsOff(c, ls, i, room, u);
    OnlyListed(c, ls, k, room, u);
    hide Exec, Run, Challenges;
    BackOn(c, ls, i + 1, k, room, u);
  }

  // ---- Promotion after an earlier challenge ----------------------------------------

  /** Whoever is on a record's list was put there by a challenge. */
  lemma {:induction false} WasChallenged(c: Config, ls: seq<Label>, n: nat, room: RoomId, u: User)
    requires Run(c, Empty, ls) && n <= |ls| && There(c, ls, n, room) && u in At(c, ls, n)[room].challenged
    ensures exists i :: 0 <= i < n && Challenges(c, ls, i, room, u)
    decreases n
  {
    if n > 0 {
      hide Exec, Run;
      Moved(c, ls, n - 1, room, u);
      if There(c, ls, n - 1, room) && u in At(c, ls, n - 1)[room].challenged {
        WasChallenged(c, ls, n - 1, room, u);
      } else {
        assert Challenges(c, ls, n - 1, room, u);
      }
    }
  }

  /** The sync promotes this user, for an answer it brings that passes. */
  ghost predicate Earned(l: Label, room: RoomId, u: User, before: L.Lobby, after: L.Lobby) {
    && l.LobbySync? && l.lroom == room && !l.how.Refused? && u != l.self
    && u in before.challenged
    && after.passed.Some? && after.passed.value in l.msgs && after.passed.value.sender == u
    && Vet(L.NameOf(after, u), after.passed.value, after.keyword)
  }

  lemma RecordPromotes(c: Config, r: L.Lobby, l: Label, room: RoomId, u: User)
    requires L.RoomInv(c, r) && JustPromoted(r, RecordAfter(c, r, l, room), u)
    ensures Earned(l, room, u, r, RecordAfter(c, r, l, room))
  {
    hide L.Process, L.Resends;
    match l
    case LobbySync(lroom, js, ms, how, self, _) => L.ProcessKeeps(c, r, js, ms, how, self);
    case LobbyResend(now) => L.ResendsFrame(c, r, now);
    case _ =>
  }

  lemma StepPromotes(c: Config, d: Door, l: Label, room: RoomId, u: User)
    requires DoorInv(c, d) && Enabled(d, l) && room in d.lobby
    ensures room in Apply(c, d, l).lobby
    ensures JustPromoted(d.lobby[room], Apply(c, d, l).lobby[room], u)
      ==> Earned(l, room, u, d.lobby[room], Apply(c, d, l).lobby[room])
  {
    RoomOk(c, d, room);
    hide Enabled, Apply, RecordAfter, Earned, JustPromoted, L.RoomInv, DoorInv;
    RecordStep(c, d, l, room);
    if JustPromoted(d.lobby[room], Apply(c, d, l).lobby[room], u) {
      RecordPromotes(c, d.lobby[room], l, room, u);
    }
  }

  lemma PromotionEarned(c: Config, ls: seq<Label>, n: nat, room: RoomId, u: User)
    requires Run(c, Empty, ls) && Promotes(c, ls, n, room, u)
    ensures Earned(ls[n], room, u, At(c, ls, n)[room], At(c, ls, n + 1)[room])
  {
    hide DoorInv, Enabled, Apply, Earned;
    var d := Unfold(c, ls, n);
    StepPromotes(c, d, ls[n], room, u);
  }

  ghost predicate PromotedAt(c: Config, ls: seq<Label>, n: nat, room: RoomId, u: User) {
    n <= |ls| && There(c, ls, n, room) && At(c, ls, n)[room].promoted && At(c, ls, n)[room].promotedUser == Some(u)
  }

  lemma PromotedNext(c: Config, ls: seq<Label>, n: nat, room: RoomId, u: User)
    requires Run(c, Empty, ls) && n < |ls| && PromotedAt(c, ls, n + 1, room, u)
    ensures PromotedAt(c, ls, n, room, u) || Promotes(c, ls, n, room, u)
  {
    hide Exec, Run, Apply, Enabled, DoorInv, Moves;
    Moved(c, ls, n, room, u);
    if There(c, ls, n, room) && At(c, ls, n)[room].promoted {
      var d := Unfold(c, ls, n);
      StepFreezes(c, d, ls[n]);
    }
  }

  /** A promoted record was promoted at some step. */
  lemma {:induction false} WasPromoted(c: Config, ls: seq<Label>, n: nat, room: RoomId, u: User)
    requires Run(c, Empty, ls) && n <= |ls| && PromotedAt(c, ls, n, room, u)
    ensures exists j :: 0 <= j < n && Promotes(c, ls, j, room, u)
    decreases n
  {
    if n == 0 {
      NobodyYet(c, ls, room, u);
    } else {
      hide *;
      PromotedNext(c, ls, n - 1, room, u);
      if !Promotes(c, ls, n - 1, room, u) {
        WasPromoted(c, ls, n - 1, room, u);
      }
    }
  }

  lemma NobodyYet(c: Config, ls: seq<Label>, room: RoomId, u: User)
    ensures !PromotedAt(c, ls, 0, room, u)
  {
    assert ls[..0] == [];
  }

  /** Over any run: a room promoted at the end was promoted by one sync, for a passing answer
      that this sync brought, of a user whom an earlier step had challenged. */
  lemma PromotionFollowsChallenge(c: Config, ls: seq<Label>, room: RoomId, u: User)
    requires Run(c, Empty, ls) && PromotedAt(c, ls, |ls|, room, u)
    ensures exists i, j :: 0 <= i < j < |ls| && Challenges(c, ls, i, room, u) && Promotes(c, ls, j, room, u)
              && Earned(ls[j], room, u, At(c, ls, j)[room], At(c, ls, j + 1)[room])
  {
    hide Exec, Run;
    WasPromoted(c, ls, |ls|, room, u);
    var j :| 0 <= j < |ls| && Promotes(c, ls, j, room, u);
    PromotionEarned(c, ls, j, room, u);
    WasChallenged(c, ls, j, room, u);
    var i :| 0 <= i < j && Challenges(c, ls, i, room, u);
  }
}
