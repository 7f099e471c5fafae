/** Where the records of both kinds of rooms come from, over whole runs, and what a handler leaves
    behind, stated on the entries of the files. */
module Origins {
  import opened Prelude
  import opened Vetting
  import opened Onboarding
  import L = Lobby
  import R = LobbyRuns
  import M = LobbyMeaning

  // ---- What a handler leaves -------------------------------------------------------

  /** A knock with a code that has a use left, and a room for it, spends one use and leaves an open
      record for the knocker; any other knock leaves everything as it was. */
  lemma KnockOpens(c: Config, d: Door, user: User, code: Code, room: Option<RoomId>, at: int, keyword: string)
    ensures var e := Apply(c, d, Knock(user, code, room, at, keyword));
      if code in d.codes && d.codes[code] >= 1 && room.Some? then
        && e.codes == d.codes[code := d.codes[code] - 1] && e.signup == d.signup && e.lobby == d.lobby
        && e.vetting.Keys == d.vetting.Keys + {room.value}
        && (forall r :: r in d.vetting && r != room.value ==> e.vetting[r] == d.vetting[r])
        && var v := e.vetting[room.value];
           && v.mxid == user && v.code == code && v.created == at && v.keyword == keyword
           && v.triesLeft == c.vettingMaxTries && v.name == "" && !v.promoted && !v.closed
      else e == d
  {
  }

  /** The same for a link of the join page; the empty code never works. */
  lemma JoinOpens(c: Config, d: Door, code: Code, room: Option<RoomId>, at: int, title: string, keyword: string)
    ensures var e := Apply(c, d, JoinLink(code, room, at, title, keyword));
      if code != NO_ID && code in d.codes && d.codes[code] >= 1 && room.Some? then
        && e.codes == d.codes[code := d.codes[code] - 1] && e.signup == d.signup && e.vetting == d.vetting
        && e.lobby.Keys == d.lobby.Keys + {room.value}
        && (forall r :: r in d.lobby && r != room.value ==> e.lobby[r] == d.lobby[r])
        && var v := e.lobby[room.value];
           && v.code == code && v.created == at && v.title == title && v.keyword == keyword
           && v.challenged == [] && v.tries == v.resends == v.sentTs == map[] && v.names == map[]
           && !v.promoted && !v.closed && v.reason == None
      else e == d
  {
  }

  /** What a seed leaves of a file: what it had, and what only the seed has. */
  predicate SeededFrom(before: map<Code, int>, seed: map<Code, int>, after: map<Code, int>) {
    && after.Keys == before.Keys + seed.Keys
    && forall k :: k in after ==> after[k] == if k in before then before[k] else seed[k]
  }

  lemma SeedAdds(c: Config, d: Door, knock: map<Code, int>, signup: map<Code, int>)
    ensures var e := Apply(c, d, Seed(knock, signup));
      && SeededFrom(d.codes, knock, e.codes) && SeededFrom(d.signup, signup, e.signup)
      && e.vetting == d.vetting && e.lobby == d.lobby
  {
  }

  lemma {:induction false} MintAllIs(codes: map<Code, int>, fresh_: seq<Code>, uses: int)
    ensures MintAll(codes, fresh_, uses).Keys == codes.Keys + set x | x in fresh_
    ensures forall k :: k in MintAll(codes, fresh_, uses) ==>
      MintAll(codes, fresh_, uses)[k] == if k in fresh_ then uses else codes[k]
    decreases fresh_
  {
    if fresh_ != [] {
      MintAllIs(codes[fresh_[0] := uses], fresh_[1..], uses);
      assert fresh_ == [fresh_[0]] + fresh_[1..];
    }
  }

  /** `!mint` of 1 to 50 codes of 1 to 1000 uses puts exactly the new codes into the file asked for,
      with those uses; any other `!mint` leaves both files alone. */
  lemma MintPuts(c: Config, d: Door, l: Label)
    requires l.Mint?
    ensures var e := Apply(c, d, l);
      && e.vetting == d.vetting && e.lobby == d.lobby
      && (if l.n >= 1 && l.n <= 50 && l.uses >= 1 && l.uses <= 1000 then
            var before, after := if l.forSignup then d.signup else d.codes, if l.forSignup then e.signup else e.codes;
            && (if l.forSignup then e.codes == d.codes else e.signup == d.signup)
            && after.Keys == before.Keys + (set x | x in l.fresh_)
            && forall k :: k in after ==> after[k] == if k in l.fresh_ then l.uses else before[k]
          else e == d)
  {
    MintAllIs(d.signup, l.fresh_, l.uses);
    MintAllIs(d.codes, l.fresh_, l.uses);
  }

  /** A revoke takes all uses of a knock code, or, only if there is none of that name, of a sign-up
      code. */
  lemma RevokeZeroes(c: Config, d: Door, code: Code)
    ensures var e := Apply(c, d, Revoke(code));
      && e.codes == (if code != NO_ID && code in d.codes then d.codes[code := 0] else d.codes)
      && e.signup == (if code != NO_ID && code !in d.codes && code in d.signup then d.signup[code := 0] else d.signup)
      && e.vetting == d.vetting && e.lobby == d.lobby
  {
  }

  /** A sign-up is worth one use of a code that has one, if the homeserver registers the account. */
  lemma SignupSpends(c: Config, d: Door, code: Code, registered: bool)
    ensures var e := Apply(c, d, Signup(code, registered));
      && e.signup == (if code in d.signup && d.signup[code] >= 1 && registered
                      then d.signup[code := d.signup[code] - 1] else d.signup)
      && e.codes == d.codes && e.vetting == d.vetting && e.lobby == d.lobby
  {
  }

  /** The sign-up file after a step that may promote: one more code, with the configured uses, if a
      room was promoted and welcome codes are given at all. */
  predicate Welcomed(c: Config, before: map<Code, int>, after: map<Code, int>, promotes: bool, gift: Code) {
    after == if promotes && c.welcomeUses >= 1 then before[gift := c.welcomeUses] else before
  }

  lemma VetRoomWelcomes(c: Config, d: Door, l: Label)
    requires l.VetRoom?
    ensures var e := Apply(c, d, l);
      && e.vetting.Keys == d.vetting.Keys && e.codes == d.codes && e.lobby == d.lobby
      && (forall r :: r in d.vetting && r != l.vroom ==> e.vetting[r] == d.vetting[r])
      && (l.vroom in d.vetting ==>
            e.vetting[l.vroom] == Vetting.Process(d.vetting[l.vroom], l.state, l.timeline, l.invited))
      && Welcomed(c, d.signup, e.signup,
                  l.vroom in d.vetting && e.vetting[l.vroom].promoted && !d.vetting[l.vroom].promoted, l.welcome)
  {
    hide Vetting.Process;
  }

  lemma LobbySyncWelcomes(c: Config, d: Door, l: Label)
    requires l.LobbySync?
    ensures var e := Apply(c, d, l);
      && e.lobby.Keys == d.lobby.Keys && e.codes == d.codes && e.vetting == d.vetting
      && (forall r :: r in d.lobby && r != l.lroom ==> e.lobby[r] == d.lobby[r])
      && (l.lroom in d.lobby ==>
            e.lobby[l.lroom] == L.Process(c, d.lobby[l.lroom], l.joins, l.msgs, l.how, l.self))
      && Welcomed(c, d.signup, e.signup,
                  l.lroom in d.lobby && e.lobby[l.lroom].promoted && !d.lobby[l.lroom].promoted, l.gift)
  {
    hide L.Process;
  }

  /** The sweeps visit every room of their kind and touch nothing else. */
  lemma SweepsVisitAll(c: Config, d: Door, now: int)
    ensures var e := Apply(c, d, VetExpire(now));
      && e == d.(vetting := e.vetting) && e.vetting.Keys == d.vetting.Keys
      && forall r :: r in d.vetting ==> e.vetting[r] == Vetting.Expire(c, d.vetting[r], now)
    ensures var e := Apply(c, d, LobbyResend(now));
      && e == d.(lobby := e.lobby) && e.lobby.Keys == d.lobby.Keys
      && forall r :: r in d.lobby ==> e.lobby[r] == L.Resends(c, d.lobby[r], now)
    ensures var e := Apply(c, d, LobbyExpire(now));
      && e == d.(lobby := e.lobby) && e.lobby.Keys == d.lobby.Keys
      && forall r :: r in d.lobby ==> e.lobby[r] == L.Expire(c, d.lobby[r], now)
  {
    hide Vetting.Expire, L.Resends, L.Expire;
  }

  // ---- Where a record comes from ---------------------------------------------------

  /** Label `i` is the knock this record was made for, with a code that had a use left. */
  ghost predicate KnockedFor(c: Config, ls: seq<Label>, i: nat, room: RoomId, v: Room) {
    && i < |ls| && ls[i].Knock? && ls[i].room == Some(room)
    && v.mxid == ls[i].user && v.code == ls[i].reason && v.created == ls[i].at && v.keyword == ls[i].keyword
    && var codes := Exec(c, Empty, ls[..i]).codes; v.code in codes && codes[v.code] >= 1
  }

  predicate SameAsk(r: Room, t: Room) {
    t.mxid == r.mxid && t.code == r.code && t.created == r.created && t.keyword == r.keyword
  }

  lemma VettingStep(c: Config, d: Door, l: Label, room: RoomId)
    ensures room in d.vetting && Enabled(d, l) ==>
      room in Apply(c, d, l).vetting && SameAsk(d.vetting[room], Apply(c, d, l).vetting[room])
    ensures room !in d.vetting && room in Apply(c, d, l).vetting ==>
      && l.Knock? && l.room == Some(room) && l.reason in d.codes && d.codes[l.reason] >= 1
      && var v := Apply(c, d, l).vetting[room];
         v.mxid == l.user && v.code == l.reason && v.created == l.at && v.keyword == l.keyword
  {
    if l.VetRoom? {
      VetRoomWelcomes(c, d, l);
      if l.vroom in d.vetting {
        ProcessAsks(d.vetting[l.vroom], l.state, l.timeline, l.invited);
      }
    } else if l.Knock? {
      KnockOpens(c, d, l.user, l.reason, l.room, l.at, l.keyword);
    } else if l.LobbySync? {
      LobbySyncWelcomes(c, d, l);
    } else if l.Mint? {
      MintPuts(c, d, l);
    } else {
      hide MintAll, L.Resends, L.Expire;
    }
  }

  lemma ProcessAsks(r: Room, state: seq<Event>, timeline: seq<Event>, invited: bool)
    ensures SameAsk(r, Vetting.Process(r, state, timeline, invited))
  {
    if Open(r) {
      AnswerSame(Named(r, LastJoin(state + timeline, r.mxid)), MessagesOf(timeline, r.mxid), invited);
    }
  }

  lemma Extend(c: Config, ls: seq<Label>, i: nat, room: RoomId, v: Room, w: Room)
    requires ls != [] && KnockedFor(c, ls[..|ls| - 1], i, room, v) && SameAsk(v, w)
    ensures KnockedFor(c, ls, i, room, w)
  {
    assert ls[..|ls| - 1][..i] == ls[..i];
  }

  /** Over any run, every record of vetting.json was made by a knock in it: for that knocker, code,
      time and keyword, and with a code that had a use left. */
  lemma {:induction false} VettingOrigin(c: Config, ls: seq<Label>, room: RoomId) returns (i: nat)
    requires Run(c, Empty, ls) && room in Exec(c, Empty, ls).vetting
    ensures KnockedFor(c, ls, i, room, Exec(c, Empty, ls).vetting[room])
  {
    hide Apply, Enabled;
    var f, l := ls[..|ls| - 1], ls[|ls| - 1];
    var d := Exec(c, Empty, f);
    VettingStep(c, d, l, room);
    if room in d.vetting {
      i := VettingOrigin(c, f, room);
      Extend(c, ls, i, room, d.vetting[room], Exec(c, Empty, ls).vetting[room]);
    } else {
      i := |ls| - 1;
    }
  }

  /** So a promotion is for the very person whose knock made the room: they gave an answer with the
      keyword of that knock's challenge, in three lines of 30 to 400 characters, under a
      displayname, before the tries ran out. */
  lemma KnockerPromoted(c: Config, ls: seq<Label>, room: RoomId) returns (i: nat)
    requires Run(c, Empty, ls) && 0 < c.vettingMaxTries
    requires room in Exec(c, Empty, ls).vetting && Exec(c, Empty, ls).vetting[room].promoted
    ensures var v := Exec(c, Empty, ls).vetting[room];
      && KnockedFor(c, ls, i, room, v) && !v.closed
      && v.passed.Some? && v.passed.value.sender == ls[i].user
      && Passes(v.name, v.passed.value, ls[i].keyword) && v.rejected < c.vettingMaxTries
  {
    i := VettingOrigin(c, ls, room);
    EveryVettingRoom(c, ls, room);
    hide Exec, Run, Passes;
    var v := Exec(c, Empty, ls).vetting[room];
    VetPasses(v.name, v.passed.value, v.keyword);
  }

  /** Label `i` is the join link this record was made for. */
  ghost predicate LinkedFor(c: Config, ls: seq<Label>, i: nat, room: RoomId, v: L.Lobby) {
    && i < |ls| && ls[i].JoinLink? && ls[i].made == Some(room)
    && v.code == ls[i].code && v.created == ls[i].at && v.title == ls[i].title && v.keyword == ls[i].keyword
    && var codes := Exec(c, Empty, ls[..i]).codes; v.code != NO_ID && v.code in codes && codes[v.code] >= 1
  }

  lemma LobbyStep(c: Config, d: Door, l: Label, room: RoomId)
    requires Enabled(d, l)
    ensures room in d.lobby ==>
      room in Apply(c, d, l).lobby && L.SameRoom(d.lobby[room], Apply(c, d, l).lobby[room])
    ensures room !in d.lobby && room in Apply(c, d, l).lobby ==>
      && l.JoinLink? && l.made == Some(room) && l.code != NO_ID && l.code in d.codes && d.codes[l.code] >= 1
      && var v := Apply(c, d, l).lobby[room];
         v.code == l.code && v.created == l.at && v.title == l.title && v.keyword == l.keyword
  {
    R.RecordStep(c, d, l, room);
    if room in d.lobby {
      RecordSame(c, d.lobby[room], l, room);
    } else if room in Apply(c, d, l).lobby {
      NewLobbyRecord(c, d, l, room);
    }
    hide Apply, R.RecordAfter, Enabled, L.SameRoom;
  }

  lemma RecordSame(c: Config, r: L.Lobby, l: Label, room: RoomId)
    ensures L.SameRoom(r, R.RecordAfter(c, r, l, room))
  {
    if l.LobbySync? {
      L.ProcessFrame(c, r, l.joins, l.msgs, l.how, l.self);
    } else if l.LobbyResend? {
      L.ResendsFrame(c, r, l.sweep);
    }
  }

  lemma NewLobbyRecord(c: Config, d: Door, l: Label, room: RoomId)
    requires room !in d.lobby && room in Apply(c, d, l).lobby
    ensures l.JoinLink? && l.made == Some(room) && l.code != NO_ID && l.code in d.codes && d.codes[l.code] >= 1
    ensures var v := Apply(c, d, l).lobby[room];
      v.code == l.code && v.created == l.at && v.title == l.title && v.keyword == l.keyword
  {
    if l.JoinLink? {
      JoinOpens(c, d, l.code, l.made, l.at, l.title, l.keyword);
    } else if l.LobbySync? {
      LobbySyncWelcomes(c, d, l);
    } else if l.VetRoom? {
      VetRoomWelcomes(c, d, l);
    } else if l.Mint? {
      MintPuts(c, d, l);
    }
  }

  lemma ExtendLink(c: Config, ls: seq<Label>, i: nat, room: RoomId, v: L.Lobby, w: L.Lobby)
    requires ls != [] && LinkedFor(c, ls[..|ls| - 1], i, room, v) && L.SameRoom(v, w)
    ensures LinkedFor(c, ls, i, room, w)
  {
    assert ls[..|ls| - 1][..i] == ls[..i];
  }

  /** And every record of lobby.json by a join link, with the challenge asked for then. */
  lemma {:induction false} LobbyOrigin(c: Config, ls: seq<Label>, room: RoomId) returns (i: nat)
    requires Run(c, Empty, ls) && room in Exec(c, Empty, ls).lobby
    ensures LinkedFor(c, ls, i, room, Exec(c, Empty, ls).lobby[room])
  {
    hide Apply, Enabled;
    var f, l := ls[..|ls| - 1], ls[|ls| - 1];
    var d := Exec(c, Empty, f);
    LobbyStep(c, d, l, room);
    if room in d.lobby {
      i := LobbyOrigin(c, f, room);
      ExtendLink(c, ls, i, room, d.lobby[room], Exec(c, Empty, ls).lobby[room]);
    } else {
      i := |ls| - 1;
    }
  }

  // ---- A revoked code is dead ------------------------------------------------------

  /** The code is on file with no use left, and the rooms opened with it are among these. */
  ghost predicate Dead(d: Door, code: Code, v: set<RoomId>, l: set<RoomId>) {
    && code in d.codes && d.codes[code] == 0
    && (forall r :: r in d.vetting && d.vetting[r].code == code ==> r in v)
    && (forall r :: r in d.lobby && d.lobby[r].code == code ==> r in l)
  }

  lemma DeadStays(c: Config, d: Door, l: Label, code: Code)
    requires code in d.codes && d.codes[code] == 0 && Enabled(d, l)
    ensures code in Apply(c, d, l).codes && Apply(c, d, l).codes[code] == 0
  {
    match l
    case Knock(user, reason, room, at, kw) => KnockOpens(c, d, user, reason, room, at, kw);
    case JoinLink(used, made, at, title, kw) => JoinOpens(c, d, used, made, at, title, kw);
    case Seed(knock, signup) => SeedAdds(c, d, knock, signup);
    case Mint(_, _, _, _) => MintPuts(c, d, l);
    case Revoke(target) => RevokeZeroes(c, d, target);
    case Signup(used, ok) => SignupSpends(c, d, used, ok);
    case VetRoom(_, _, _, _, _) => VetRoomWelcomes(c, d, l);
    case LobbySync(_, _, _, _, _, _) => LobbySyncWelcomes(c, d, l);
    case VetExpire(now) => SweepsVisitAll(c, d, now);
    case LobbyResend(now) => SweepsVisitAll(c, d, now);
    case LobbyExpire(now) => SweepsVisitAll(c, d, now);
  }

  lemma DeadStep(c: Config, d: Door, l: Label, code: Code, v: set<RoomId>, m: set<RoomId>)
    requires Dead(d, code, v, m) && Enabled(d, l)
    ensures Dead(Apply(c, d, l), code, v, m)
  {
    DeadStays(c, d, l, code);
    hide Apply, Enabled;
    var e := Apply(c, d, l);
    forall r | r in e.vetting && e.vetting[r].code == code ensures r in v {
      VettingStep(c, d, l, r);
    }
    forall r | r in e.lobby && e.lobby[r].code == code ensures r in m {
      LobbyStep(c, d, l, r);
    }
  }

  /** A revoked knock code opens no room ever again: over any continuation, restarts with the same
      seed included, it stays on file without uses, and every room charged to it is one that was
      there when it was revoked. */
  lemma RevokedForGood(c: Config, d: Door, code: Code, ls: seq<Label>)
    requires code != NO_ID && code in d.codes && Run(c, Apply(c, d, Revoke(code)), ls)
    ensures var e := Exec(c, Apply(c, d, Revoke(code)), ls);
      && code in e.codes && e.codes[code] == 0
      && (forall r :: r in e.vetting && e.vetting[r].code == code ==> r in d.vetting)
      && (forall r :: r in e.lobby && e.lobby[r].code == code ==> r in d.lobby)
  {
    RevokeZeroes(c, d, code);
    DeadRun(c, Apply(c, d, Revoke(code)), ls, code, d.vetting.Keys, d.lobby.Keys);
  }

  lemma {:induction false} DeadRun(c: Config, d: Door, ls: seq<Label>, code: Code, v: set<RoomId>, m: set<RoomId>)
    requires Dead(d, code, v, m) && Run(c, d, ls)
    ensures Dead(Exec(c, d, ls), code, v, m)
  {
    hide Apply, Enabled, Dead;
    if ls != [] {
      DeadRun(c, d, ls[..|ls| - 1], code, v, m);
      DeadStep(c, Exec(c, d, ls[..|ls| - 1]), ls[|ls| - 1], code, v, m);
    }
  }

  lemma DeadSignupStays(c: Config, d: Door, l: Label, code: Code)
    requires code in d.signup && d.signup[code] == 0 && Enabled(d, l)
    ensures code in Apply(c, d, l).signup && Apply(c, d, l).signup[code] == 0
  {
    match l
    case Knock(user, reason, room, at, kw) => KnockOpens(c, d, user, reason, room, at, kw);
    case JoinLink(used, made, at, title, kw) => JoinOpens(c, d, used, made, at, title, kw);
    case Seed(knock, signup) => SeedAdds(c, d, knock, signup);
    case Mint(_, _, _, _) => MintPuts(c, d, l);
    case Revoke(target) => RevokeZeroes(c, d, target);
    case Signup(used, ok) => SignupSpends(c, d, used, ok);
    case VetRoom(_, _, _, _, _) => VetRoomWelcomes(c, d, l);
    case LobbySync(_, _, _, _, _, _) => LobbySyncWelcomes(c, d, l);
    case VetExpire(now) => SweepsVisitAll(c, d, now);
    case LobbyResend(now) => SweepsVisitAll(c, d, now);
    case LobbyExpire(now) => SweepsVisitAll(c, d, now);
  }

  /** Nor does a revoked sign-up code ever register an account again. */
  lemma {:induction false} RevokedSignupForGood(c: Config, d: Door, code: Code, ls: seq<Label>)
    requires code != NO_ID && code !in d.codes && code in d.signup && Run(c, Apply(c, d, Revoke(code)), ls)
    ensures var e := Exec(c, Apply(c, d, Revoke(code)), ls);
      && code in e.signup && e.signup[code] == 0
      && forall registered :: Apply(c, e, Signup(code, registered)) == e
  {
    if ls == [] {
      RevokeZeroes(c, d, code);
    } else {
      RevokedSignupForGood(c, d, code, ls[..|ls| - 1]);
      DeadSignupStays(c, Exec(c, Apply(c, d, Revoke(code)), ls[..|ls| - 1]), ls[|ls| - 1], code);
    }
    DeadSignup(c, Exec(c, Apply(c, d, Revoke(code)), ls), code);
  }

  lemma DeadSignup(c: Config, d: Door, code: Code)
    requires code in d.signup && d.signup[code] == 0
    ensures forall registered :: Apply(c, d, Signup(code, registered)) == d
  {
  }
}
