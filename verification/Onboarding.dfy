/** Knock codes, signup codes, vetting rooms and lobby rooms together: whole-run accounting of
    who was promoted and who registered, whatever the order of the handlers. Each handler is
    one step (they run one at a time); a restart is a `Seed` step. */
module Onboarding {
  import opened Prelude
  import opened Tally
  import opened Vetting
  import L = Lobby

  /** History of code uses given out and used up. No handler reads it. Sign-up uses are counted
      as far as they can be used: a negative number of uses, which a seed may give, is none. */
  datatype Ledger = Ledger(
    granted: map<Code, int>, revoked: map<Code, int>, consumed: nat, promotions: nat,
    issued: int, welcomed: int, revokedSignup: int, registered: nat)

  /** The four JSON files, and the ledger. */
  datatype Door = Door(
    codes: map<Code, int>, signup: map<Code, int>,
    vetting: map<RoomId, Room>, lobby: map<RoomId, L.Lobby>, ledger: Ledger)

  datatype Label =
    | Seed(knock: map<Code, int>, newSignup: map<Code, int>)
    | Knock(user: User, reason: Code, room: Option<RoomId>, at: int, keyword: string)
    | JoinLink(code: Code, made: Option<RoomId>, at: int, title: string, keyword: string)
    | Mint(forSignup: bool, n: int, uses: int, fresh_: seq<Code>)
    | Revoke(target: Code)
    | VetRoom(vroom: RoomId, state: seq<Event>, timeline: seq<Event>, invited: bool, welcome: Code)
    | VetExpire(now: int)
    | LobbySync(lroom: RoomId, joins: seq<L.Join>, msgs: seq<Message>, how: L.Invite, self: User, gift: Code)
    | LobbyResend(sweep: int)
    | LobbyExpire(clock: int)
    | Signup(used: Code, registered: bool)

  const Empty := Door(map[], map[], map[], map[], Ledger(map[], map[], 0, 0, 0, 0, 0, 0))

  // ---- The handlers ---------------------------------------------------------------

  /** `merge_seed`: only missing keys are added. */
  function Added(existing: map<Code, int>, data: map<Code, int>): map<Code, int> {
    data - existing.Keys
  }

  function Usable(codes: map<Code, int>, code: Code): bool {
    code in codes && 0 < codes[code]
  }

  predicate MintOk(n: int, uses: int) { 1 <= n <= 50 && 1 <= uses <= 1000 }

  function MintAll(codes: map<Code, int>, fresh_: seq<Code>, uses: int): map<Code, int>
    decreases fresh_
  {
    if fresh_ == [] then codes else MintAll(codes[fresh_[0] := uses], fresh_[1..], uses)
  }

  function Bump(m: map<Code, int>, extra: map<Code, int>): map<Code, int> {
    map k | k in m.Keys + extra.Keys :: Get(m, k) + Get(extra, k)
  }

  function WelcomeUses(c: Config): nat { if 0 < c.welcomeUses then c.welcomeUses else 0 }

  /** `_mint_welcome_signup_code`, called exactly when a room gets promoted. */
  function WelcomeFile(c: Config, signup: map<Code, int>, welcome: Code): map<Code, int> {
    if c.welcomeUses <= 0 then signup else signup[welcome := c.welcomeUses]
  }

  function WelcomeLedger(c: Config, led: Ledger): Ledger {
    led.(promotions := led.promotions + 1, welcomed := led.welcomed + WelcomeUses(c))
  }

  ghost function ApplySeed(d: Door, knock: map<Code, int>, signup: map<Code, int>): Door {
    d.(codes := d.codes + Added(d.codes, knock), signup := d.signup + Added(d.signup, signup),
       ledger := d.ledger.(granted := Bump(d.ledger.granted, Added(d.codes, knock)),
                           issued := d.ledger.issued + Sum(Pos(Added(d.signup, signup)))))
  }

  function ApplyKnock(c: Config, d: Door, user: User, code: Code, room: Option<RoomId>,
                      at: int, keyword: string): Door {
    if !Usable(d.codes, code) || room.None? then d
    else d.(codes := d.codes[code := d.codes[code] - 1],
            vetting := d.vetting[room.value := NewRoom(c, user, code, at, keyword)],
            ledger := d.ledger.(consumed := d.ledger.consumed + 1))
  }

  function ApplyJoin(d: Door, code: Code, room: Option<RoomId>, at: int, title: string, keyword: string): Door {
    if code == NO_ID || !Usable(d.codes, code) || room.None? then d
    else d.(codes := d.codes[code := d.codes[code] - 1],
            lobby := d.lobby[room.value := L.NewLobby(code, at, title, keyword)],
            ledger := d.ledger.(consumed := d.ledger.consumed + 1))
  }

  function ApplyMint(d: Door, forSignup: bool, n: int, uses: int, fresh_: seq<Code>): Door {
    if !MintOk(n, uses) then d
    else if forSignup then
      d.(signup := MintAll(d.signup, fresh_, uses),
         ledger := d.ledger.(issued := d.ledger.issued + |fresh_| * uses))
    else
      d.(codes := MintAll(d.codes, fresh_, uses),
         ledger := d.ledger.(granted := Bump(d.ledger.granted, MintAll(map[], fresh_, uses))))
  }

  /** Knock codes are looked up first; a signup code of the same name is then left alone. */
  function ApplyRevoke(d: Door, code: Code): Door {
    if code == NO_ID then d
    else if code in d.codes then
      d.(codes := d.codes[code := 0],
         ledger := d.ledger.(revoked := d.ledger.revoked[code := Get(d.ledger.revoked, code) + d.codes[code]]))
    else if code in d.signup then
      d.(signup := d.signup[code := 0],
         ledger := d.ledger.(revokedSignup := d.ledger.revokedSignup + Positive(d.signup[code])))
    else d
  }

  function ApplyVetRoom(c: Config, d: Door, room: RoomId, state: seq<Event>, timeline: seq<Event>,
                        invited: bool, welcome: Code): Door {
    if room !in d.vetting then d
    else VettingResult(c, d, room, Vetting.Process(d.vetting[room], state, timeline, invited), welcome)
  }

  /** A vetting room's new record, with a welcome code if it was promoted just now. */
  function VettingResult(c: Config, d: Door, room: RoomId, t: Room, welcome: Code): Door
    requires room in d.vetting
  {
    if t.promoted && !d.vetting[room].promoted then
      d.(vetting := d.vetting[room := t], signup := WelcomeFile(c, d.signup, welcome),
         ledger := WelcomeLedger(c, d.ledger))
    else d.(vetting := d.vetting[room := t])
  }

  function ApplyLobbySync(c: Config, d: Door, room: RoomId, joins: seq<L.Join>, msgs: seq<Message>,
                          how: L.Invite, self: User, gift: Code): Door {
    if room !in d.lobby then d
    else LobbyResult(c, d, room, L.Process(c, d.lobby[room], joins, msgs, how, self), gift)
  }

  /** A lobby room's new record, with a welcome code if it was promoted just now. */
  function LobbyResult(c: Config, d: Door, room: RoomId, t: L.Lobby, gift: Code): Door
    requires room in d.lobby
  {
    if t.promoted && !d.lobby[room].promoted then
      d.(lobby := d.lobby[room := t], signup := WelcomeFile(c, d.signup, gift),
         ledger := WelcomeLedger(c, d.ledger))
    else d.(lobby := d.lobby[room := t])
  }

  /** `cleanup_stale_vetting`, `process_lobby_resends` and `cleanup_stale_lobby` visit every room. */
  function VetExpireAll(c: Config, v: map<RoomId, Room>, now: int): map<RoomId, Room> {
    map r | r in v :: Vetting.Expire(c, v[r], now)
  }

  function ResendAll(c: Config, l: map<RoomId, L.Lobby>, now: int): map<RoomId, L.Lobby> {
    map r | r in l :: L.Resends(c, l[r], now)
  }

  function LobbyExpireAll(c: Config, l: map<RoomId, L.Lobby>, now: int): map<RoomId, L.Lobby> {
    map r | r in l :: L.Expire(c, l[r], now)
  }

  function ApplySignup(d: Door, code: Code, registered: bool): Door {
    if !Usable(d.signup, code) || !registered then d
    else d.(signup := d.signup[code := d.signup[code] - 1],
            ledger := d.ledger.(registered := d.ledger.registered + 1))
  }

  ghost function Apply(c: Config, d: Door, l: Label): Door {
    match l
    case Seed(k, s) => ApplySeed(d, k, s)
    case Knock(u, code, room, at, kw) => ApplyKnock(c, d, u, code, room, at, kw)
    case JoinLink(code, room, at, title, kw) => ApplyJoin(d, code, room, at, title, kw)
    case Mint(forSignup, n, uses, fresh_) => ApplyMint(d, forSignup, n, uses, fresh_)
    case Revoke(code) => ApplyRevoke(d, code)
    case VetRoom(room, st, tl, invited, w) => ApplyVetRoom(c, d, room, st, tl, invited, w)
    case VetExpire(now) => d.(vetting := VetExpireAll(c, d.vetting, now))
    case LobbySync(room, js, ms, how, self, w) => ApplyLobbySync(c, d, room, js, ms, how, self, w)
    case LobbyResend(now) => d.(lobby := ResendAll(c, d.lobby, now))
    case LobbyExpire(now) => d.(lobby := LobbyExpireAll(c, d.lobby, now))
    case Signup(code, ok) => ApplySignup(d, code, ok)
  }

  ghost predicate NewCodes(fresh_: seq<Code>, codes: map<Code, int>) {
    Distinct(fresh_) && forall i :: 0 <= i < |fresh_| ==> fresh_[i] !in codes
  }

  /** The homeserver's room ids and the bot's random codes are new. */
  ghost predicate Enabled(d: Door, l: Label) {
    match l
    case Knock(_, _, room, _, _) => room.Some? ==> room.value !in d.vetting
    case JoinLink(_, room, _, _, _) => room.Some? ==> room.value !in d.lobby
    case Mint(forSignup, n, uses, fresh_) =>
      MintOk(n, uses) ==> |fresh_| == n && NewCodes(fresh_, if forSignup then d.signup else d.codes)
    case VetRoom(_, _, _, _, w) => w !in d.signup
    case LobbySync(_, _, _, _, _, w) => w !in d.signup
    case _ => true
  }

  ghost function Exec(c: Config, d: Door, ls: seq<Label>): Door {
    if ls == [] then d else Apply(c, Exec(c, d, ls[..|ls| - 1]), ls[|ls| - 1])
  }

  ghost predicate Run(c: Config, d: Door, ls: seq<Label>) {
    ls == [] || (Run(c, d, ls[..|ls| - 1]) && Enabled(Exec(c, d, ls[..|ls| - 1]), ls[|ls| - 1]))
  }

  // ---- The files seen through one field ---------------------------------------------

  ghost function VCodes(v: map<RoomId, Room>): map<RoomId, Code> { map r | r in v :: v[r].code }
  ghost function LCodes(l: map<RoomId, L.Lobby>): map<RoomId, Code> { map r | r in l :: l[r].code }
  ghost function VFlags(v: map<RoomId, Room>): map<RoomId, bool> { map r | r in v :: v[r].promoted }
  ghost function LFlags(l: map<RoomId, L.Lobby>): map<RoomId, bool> { map r | r in l :: l[r].promoted }

  lemma VUpdate(v: map<RoomId, Room>, room: RoomId, t: Room)
    ensures VCodes(v[room := t]) == VCodes(v)[room := t.code]
    ensures VFlags(v[room := t]) == VFlags(v)[room := t.promoted]
  {
  }

  lemma LUpdate(l: map<RoomId, L.Lobby>, room: RoomId, t: L.Lobby)
    ensures LCodes(l[room := t]) == LCodes(l)[room := t.code]
    ensures LFlags(l[room := t]) == LFlags(l)[room := t.promoted]
  {
  }

  // ---- Counting rooms ---------------------------------------------------------------

  /** Rooms opened with a code. */
  ghost function On(rooms: map<RoomId, Code>, code: Code): set<RoomId> {
    set r | r in rooms && rooms[r] == code
  }

  /** Rooms that were promoted. */
  ghost function Set(flags: map<RoomId, bool>): set<RoomId> {
    set r | r in flags && flags[r]
  }

  lemma OnAdd(rooms: map<RoomId, Code>, room: RoomId, paid: Code, code: Code)
    requires room !in rooms
    ensures |On(rooms[room := paid], code)| == |On(rooms, code)| + if paid == code then 1 else 0
  {
    assert On(rooms[room := paid], code) == On(rooms, code) + if paid == code then {room} else {};
  }

  lemma SetRaise(flags: map<RoomId, bool>, room: RoomId, up: bool)
    requires room in flags && flags[room] ==> up
    ensures |Set(flags[room := up])| == |Set(flags)| + if up && !(room in flags && flags[room]) then 1 else 0
  {
    assert Set(flags[room := up]) == Set(flags) + if up then {room} else {};
    if room in flags && flags[room] { assert Set(flags) + {room} == Set(flags); }
  }

  lemma SetSmall(flags: map<RoomId, bool>)
    ensures |Set(flags)| <= |flags|
  {
    SubsetSize(Set(flags), flags.Keys);
  }

  // ---- What the ledger says ----------------------------------------------------------

  ghost function Charged(d: Door, code: Code): nat {
    |On(VCodes(d.vetting), code)| + |On(LCodes(d.lobby), code)|
  }

  /** Uses given out = uses left + rooms charged to the code + uses taken back. */
  ghost predicate Conserved(v: map<RoomId, Code>, l: map<RoomId, Code>, codes: map<Code, int>,
                            granted: map<Code, int>, revoked: map<Code, int>) {
    forall k :: Get(granted, k) == Get(codes, k) + |On(v, k)| + |On(l, k)| + Get(revoked, k)
  }

  /** Every promotion is a room's only one, and every room was paid for with a use. */
  ghost predicate Paid(v: map<RoomId, bool>, l: map<RoomId, bool>, promotions: nat, consumed: nat) {
    promotions == |Set(v)| + |Set(l)| && consumed == |v| + |l|
  }

  /** Sign-up uses issued or given as welcome = uses left + accounts + uses taken back. */
  ghost predicate SignupsPaid(c: Config, signup: map<Code, int>, led: Ledger) {
    && led.issued + led.welcomed == Sum(Pos(signup)) + led.registered + led.revokedSignup
    && 0 <= led.revokedSignup
    && led.welcomed == WelcomeUses(c) * led.promotions
  }

  ghost predicate VettingOk(c: Config, v: map<RoomId, Room>) {
    forall r :: r in v ==> Vetting.RoomInv(c, v[r])
  }

  ghost predicate LobbyOk(c: Config, l: map<RoomId, L.Lobby>) {
    forall r :: r in l ==> L.RoomInv(c, l[r])
  }

  ghost predicate Accounts(c: Config, d: Door) {
    && Conserved(VCodes(d.vetting), LCodes(d.lobby), d.codes, d.ledger.granted, d.ledger.revoked)
    && Paid(VFlags(d.vetting), LFlags(d.lobby), d.ledger.promotions, d.ledger.consumed)
    && SignupsPaid(c, d.signup, d.ledger)
  }

  ghost predicate DoorInv(c: Config, d: Door) {
    Accounts(c, d) && VettingOk(c, d.vetting) && LobbyOk(c, d.lobby)
  }

  // ---- One lemma for each way an account moves ----------------------------------------

  lemma SpendOnVetting(v: map<RoomId, Code>, l: map<RoomId, Code>, codes: map<Code, int>,
                       granted: map<Code, int>, revoked: map<Code, int>, room: RoomId, code: Code)
    requires Conserved(v, l, codes, granted, revoked) && room !in v && code in codes
    ensures Conserved(v[room := code], l, codes[code := codes[code] - 1], granted, revoked)
  {
    forall k ensures |On(v[room := code], k)| == |On(v, k)| + if code == k then 1 else 0 {
      OnAdd(v, room, code, k);
    }
  }

  lemma SpendOnLobby(v: map<RoomId, Code>, l: map<RoomId, Code>, codes: map<Code, int>,
                     granted: map<Code, int>, revoked: map<Code, int>, room: RoomId, code: Code)
    requires Conserved(v, l, codes, granted, revoked) && room !in l && code in codes
    ensures Conserved(v, l[room := code], codes[code := codes[code] - 1], granted, revoked)
  {
    forall k ensures |On(l[room := code], k)| == |On(l, k)| + if code == k then 1 else 0 {
      OnAdd(l, room, code, k);
    }
  }

  lemma Grant(v: map<RoomId, Code>, l: map<RoomId, Code>, codes: map<Code, int>, granted: map<Code, int>,
              revoked: map<Code, int>, codes': map<Code, int>, extra: map<Code, int>)
    requires Conserved(v, l, codes, granted, revoked)
    requires forall k :: Get(codes', k) == Get(codes, k) + Get(extra, k)
    ensures Conserved(v, l, codes', Bump(granted, extra), revoked)
  {
    assert forall k :: Get(Bump(granted, extra), k) == Get(granted, k) + Get(extra, k);
  }

  lemma TakeBack(v: map<RoomId, Code>, l: map<RoomId, Code>, codes: map<Code, int>,
                 granted: map<Code, int>, revoked: map<Code, int>, code: Code)
    requires Conserved(v, l, codes, granted, revoked) && code in codes
    ensures Conserved(v, l, codes[code := 0], granted, revoked[code := Get(revoked, code) + codes[code]])
  {
  }

  lemma {:induction false} MintAllGets(m: map<Code, int>, fresh_: seq<Code>, uses: int)
    requires NewCodes(fresh_, m)
    ensures forall k :: Get(MintAll(m, fresh_, uses), k) == if k in fresh_ then uses else Get(m, k)
    decreases fresh_
  {
    if fresh_ != [] {
      var rest := fresh_[1..];
      assert NewCodes(rest, m[fresh_[0] := uses]);
      MintAllGets(m[fresh_[0] := uses], rest, uses);
      forall k ensures k in fresh_ <==> k == fresh_[0] || k in rest {
        assert fresh_ == [fresh_[0]] + rest;
      }
    }
  }

  lemma RestNew(m: map<Code, int>, fresh_: seq<Code>, uses: int)
    requires NewCodes(fresh_, m) && fresh_ != []
    ensures NewCodes(fresh_[1..], m[fresh_[0] := uses]) && fresh_[0] !in m
  {
  }

  lemma OneFewer(n: nat, uses: int)
    requires 0 < n
    ensures (n - 1) * uses + uses == n * uses
  {
  }

  lemma {:induction false} MintAllSum(m: map<Code, int>, fresh_: seq<Code>, uses: int)
    requires NewCodes(fresh_, m) && 0 <= uses
    ensures Sum(Pos(MintAll(m, fresh_, uses))) == Sum(Pos(m)) + |fresh_| * uses
    decreases fresh_
  {
    hide Sum, Pos, NewCodes;
    if fresh_ != [] {
      RestNew(m, fresh_, uses);
      PosUpdate(m, fresh_[0], uses);
      MintAllSum(m[fresh_[0] := uses], fresh_[1..], uses);
      OneFewer(|fresh_|, uses);
    }
  }

  lemma WelcomePays(c: Config, signup: map<Code, int>, led: Ledger, welcome: Code)
    requires SignupsPaid(c, signup, led) && welcome !in signup
    ensures SignupsPaid(c, WelcomeFile(c, signup, welcome), WelcomeLedger(c, led))
  {
    PosUpdate(signup, welcome, c.welcomeUses);
    assert WelcomeUses(c) * (led.promotions + 1) == WelcomeUses(c) * led.promotions + WelcomeUses(c);
  }

  // ---- Steps on the code files ---------------------------------------------------------

  lemma AddedGets(m: map<Code, int>, data: map<Code, int>)
    ensures forall k :: Get(m + Added(m, data), k) == Get(m, k) + Get(Added(m, data), k)
    ensures m.Keys !! Added(m, data).Keys
  {
  }

  lemma SeedKeeps(c: Config, d: Door, knock: map<Code, int>, signup: map<Code, int>)
    requires Accounts(c, d)
    ensures Accounts(c, ApplySeed(d, knock, signup))
  {
    var extra := Added(d.codes, knock);
    AddedGets(d.codes, knock);
    AddedGets(d.signup, signup);
    Grant(VCodes(d.vetting), LCodes(d.lobby), d.codes, d.ledger.granted, d.ledger.revoked, d.codes + extra, extra);
    PosMerge(d.signup, Added(d.signup, signup));
  }

  lemma MintKeeps(c: Config, d: Door, l: Label)
    requires Accounts(c, d) && Enabled(d, l) && l.Mint?
    ensures Accounts(c, Apply(c, d, l))
  {
    if MintOk(l.n, l.uses) {
      if l.forSignup {
        MintAllSum(d.signup, l.fresh_, l.uses);
      } else {
        MintKnockKeeps(c, d, l.n, l.uses, l.fresh_);
      }
    }
  }

  lemma MintKnockKeeps(c: Config, d: Door, n: int, uses: int, fresh_: seq<Code>)
    requires Accounts(c, d) && MintOk(n, uses) && NewCodes(fresh_, d.codes)
    ensures Accounts(c, ApplyMint(d, false, n, uses, fresh_))
  {
    MintAllGets(d.codes, fresh_, uses);
    MintAllGets(map[], fresh_, uses);
    hide MintAll;
    Grant(VCodes(d.vetting), LCodes(d.lobby), d.codes, d.ledger.granted, d.ledger.revoked,
          MintAll(d.codes, fresh_, uses), MintAll(map[], fresh_, uses));
  }

  lemma RevokeKeeps(c: Config, d: Door, code: Code)
    requires Accounts(c, d)
    ensures Accounts(c, ApplyRevoke(d, code))
  {
    if code in d.codes {
      TakeBack(VCodes(d.vetting), LCodes(d.lobby), d.codes, d.ledger.granted, d.ledger.revoked, code);
    } else {
      PosUpdate(d.signup, code, 0);
    }
  }

  lemma SignupKeeps(c: Config, d: Door, code: Code, registered: bool)
    requires Accounts(c, d)
    ensures Accounts(c, ApplySignup(d, code, registered))
  {
    if code in d.signup { PosUpdate(d.signup, code, d.signup[code] - 1); }
  }

  // ---- Steps that open a room ----------------------------------------------------------

  lemma KnockAccounts(c: Config, d: Door, user: User, code: Code, room: Option<RoomId>, at: int, keyword: string)
    requires Accounts(c, d) && (room.Some? ==> room.value !in d.vetting)
    ensures Accounts(c, ApplyKnock(c, d, user, code, room, at, keyword))
  {
    if Usable(d.codes, code) && room.Some? {
      VUpdate(d.vetting, room.value, NewRoom(c, user, code, at, keyword));
      SpendOnVetting(VCodes(d.vetting), LCodes(d.lobby), d.codes, d.ledger.granted, d.ledger.revoked, room.value, code);
      SetRaise(VFlags(d.vetting), room.value, false);
    }
  }

  lemma JoinAccounts(c: Config, d: Door, code: Code, room: Option<RoomId>, at: int, title: string, keyword: string)
    requires Accounts(c, d) && (room.Some? ==> room.value !in d.lobby)
    ensures Accounts(c, ApplyJoin(d, code, room, at, title, keyword))
  {
    if code != NO_ID && Usable(d.codes, code) && room.Some? {
      LUpdate(d.lobby, room.value, L.NewLobby(code, at, title, keyword));
      SpendOnLobby(VCodes(d.vetting), LCodes(d.lobby), d.codes, d.ledger.granted, d.ledger.revoked, room.value, code);
      SetRaise(LFlags(d.lobby), room.value, false);
    }
  }

  // ---- Steps on one room ---------------------------------------------------------------

  /** A room's record replaced by another for the same code, promoted or not. */
  lemma VetRoomAccounts(c: Config, d: Door, room: RoomId, t: Room, welcome: Code)
    requires Accounts(c, d) && room in d.vetting && welcome !in d.signup
    requires t.code == d.vetting[room].code && (d.vetting[room].promoted ==> t.promoted)
    ensures Accounts(c, VettingResult(c, d, room, t, welcome))
  {
    VUpdate(d.vetting, room, t);
    assert VCodes(d.vetting)[room := t.code] == VCodes(d.vetting);
    SetRaise(VFlags(d.vetting), room, t.promoted);
    WelcomePays(c, d.signup, d.ledger, welcome);
  }

  lemma LobbyAccounts(c: Config, d: Door, room: RoomId, t: L.Lobby, welcome: Code)
    requires Accounts(c, d) && room in d.lobby && welcome !in d.signup
    requires t.code == d.lobby[room].code && (d.lobby[room].promoted ==> t.promoted)
    ensures Accounts(c, LobbyResult(c, d, room, t, welcome))
  {
    LUpdate(d.lobby, room, t);
    assert LCodes(d.lobby)[room := t.code] == LCodes(d.lobby);
    SetRaise(LFlags(d.lobby), room, t.promoted);
    WelcomePays(c, d.signup, d.ledger, welcome);
  }

  lemma VettingOkUpdate(c: Config, v: map<RoomId, Room>, room: RoomId, t: Room)
    requires VettingOk(c, v) && Vetting.RoomInv(c, t)
    ensures VettingOk(c, v[room := t])
  {
  }

  /** Everything the accounts need to know about one sync of a vetting room. */
  lemma VettingStep(c: Config, r: Room, state: seq<Event>, timeline: seq<Event>, invited: bool) returns (t: Room)
    requires Vetting.RoomInv(c, r)
    ensures t == Vetting.Process(r, state, timeline, invited)
    ensures Vetting.RoomInv(c, t) && t.code == r.code && (r.promoted ==> t.promoted)
  {
    t := Vetting.Process(r, state, timeline, invited);
    Vetting.StepKeeps(c, r, state, timeline, invited, 0);
  }

  lemma VetRoomKeeps(c: Config, d: Door, room: RoomId, state: seq<Event>, timeline: seq<Event>,
                     invited: bool, welcome: Code)
    requires Accounts(c, d) && VettingOk(c, d.vetting) && welcome !in d.signup && room in d.vetting
    ensures Accounts(c, ApplyVetRoom(c, d, room, state, timeline, invited, welcome))
    ensures VettingOk(c, d.vetting[room := Vetting.Process(d.vetting[room], state, timeline, invited)])
  {
    var t := VettingStep(c, d.vetting[room], state, timeline, invited);
    VetRoomAccounts(c, d, room, t, welcome);
    VettingOkUpdate(c, d.vetting, room, t);
  }

  lemma ApplyVetRoomFile(c: Config, d: Door, room: RoomId, state: seq<Event>, timeline: seq<Event>,
                         invited: bool, welcome: Code)
    requires room in d.vetting
    ensures var e := ApplyVetRoom(c, d, room, state, timeline, invited, welcome);
      e.lobby == d.lobby && e.vetting == d.vetting[room := Vetting.Process(d.vetting[room], state, timeline, invited)]
  {
  }

  /** Everything the accounts need to know about one sync of a lobby room. */
  lemma LobbyStep(c: Config, r: L.Lobby, joins: seq<L.Join>, msgs: seq<Message>, how: L.Invite, self: User)
      returns (t: L.Lobby)
    requires L.RoomInv(c, r)
    ensures t == L.Process(c, r, joins, msgs, how, self)
    ensures L.RoomInv(c, t) && t.code == r.code && (r.promoted ==> t.promoted)
  {
    t := L.Process(c, r, joins, msgs, how, self);
    L.ProcessKeeps(c, r, joins, msgs, how, self);
    L.ProcessFrame(c, r, joins, msgs, how, self);
  }

  lemma LobbyOkUpdate(c: Config, l: map<RoomId, L.Lobby>, room: RoomId, t: L.Lobby)
    requires LobbyOk(c, l) && L.RoomInv(c, t)
    ensures LobbyOk(c, l[room := t])
  {
  }

  lemma LobbySyncKeeps(c: Config, d: Door, room: RoomId, joins: seq<L.Join>, msgs: seq<Message>,
                       how: L.Invite, self: User, gift: Code)
    requires Accounts(c, d) && LobbyOk(c, d.lobby) && gift !in d.signup && room in d.lobby
    ensures Accounts(c, ApplyLobbySync(c, d, room, joins, msgs, how, self, gift))
    ensures LobbyOk(c, d.lobby[room := L.Process(c, d.lobby[room], joins, msgs, how, self)])
  {
    var t := LobbyStep(c, d.lobby[room], joins, msgs, how, self);
    LobbyAccounts(c, d, room, t, gift);
    LobbyOkUpdate(c, d.lobby, room, t);
  }

  lemma ApplyLobbySyncFile(c: Config, d: Door, room: RoomId, joins: seq<L.Join>, msgs: seq<Message>,
                           how: L.Invite, self: User, gift: Code)
    requires room in d.lobby
    ensures var e := ApplyLobbySync(c, d, room, joins, msgs, how, self, gift);
      e.vetting == d.vetting && e.lobby == d.lobby[room := L.Process(c, d.lobby[room], joins, msgs, how, self)]
  {
  }

  // ---- Sweeps over all rooms -----------------------------------------------------------

  lemma VetExpireKeeps(c: Config, v: map<RoomId, Room>, now: int)
    requires VettingOk(c, v)
    ensures var w := VetExpireAll(c, v, now);
      VettingOk(c, w) && VCodes(w) == VCodes(v) && VFlags(w) == VFlags(v)
  {
    forall r | r in v ensures Vetting.RoomInv(c, Vetting.Expire(c, v[r], now)) {
      Vetting.StepKeeps(c, v[r], [], [], false, now);
    }
  }

  lemma LobbyResendKeeps(c: Config, l: map<RoomId, L.Lobby>, now: int)
    requires LobbyOk(c, l)
    ensures LobbyOk(c, ResendAll(c, l, now))
  {
    forall r | r in l ensures L.RoomInv(c, L.Resends(c, l[r], now)) {
      L.ResendsBounded(c, l[r], now);
    }
  }

  lemma LobbyExpireKeeps(c: Config, l: map<RoomId, L.Lobby>, now: int)
    requires LobbyOk(c, l)
    ensures LobbyOk(c, LobbyExpireAll(c, l, now))
  {
    forall r | r in l ensures L.RoomInv(c, L.Expire(c, l[r], now)) {
      L.ExpireKeeps(c, l[r], now);
    }
  }

  lemma LSame(l: map<RoomId, L.Lobby>, m: map<RoomId, L.Lobby>)
    requires m.Keys == l.Keys && forall r :: r in l ==> m[r].code == l[r].code && m[r].promoted == l[r].promoted
    ensures LCodes(m) == LCodes(l) && LFlags(m) == LFlags(l)
  {
  }

  lemma ResendFrame(c: Config, l: map<RoomId, L.Lobby>, now: int)
    ensures LCodes(ResendAll(c, l, now)) == LCodes(l) && LFlags(ResendAll(c, l, now)) == LFlags(l)
  {
    var m := ResendAll(c, l, now);
    forall r | r in l ensures m[r].code == l[r].code && m[r].promoted == l[r].promoted {
      L.ResendsFrame(c, l[r], now);
    }
    LSame(l, m);
  }

  lemma ExpireFrame(c: Config, l: map<RoomId, L.Lobby>, now: int)
    ensures LCodes(LobbyExpireAll(c, l, now)) == LCodes(l) && LFlags(LobbyExpireAll(c, l, now)) == LFlags(l)
  {
    LSame(l, LobbyExpireAll(c, l, now));
  }

  // ---- Every step, every run -----------------------------------------------------------

  lemma AccountStepKeeps(c: Config, d: Door, l: Label)
    requires Accounts(c, d) && Enabled(d, l)
    requires l.Seed? || l.Mint? || l.Revoke? || l.Signup? || l.Knock? || l.JoinLink?
    ensures Accounts(c, Apply(c, d, l))
  {
    match l
    case Knock(u, code, room, at, kw) => KnockAccounts(c, d, u, code, room, at, kw);
    case JoinLink(code, room, at, title, kw) => JoinAccounts(c, d, code, room, at, title, kw);
    case Seed(k, s) => SeedKeeps(c, d, k, s);
    case Mint(_, _, _, _) => MintKeeps(c, d, l);
    case Revoke(code) => RevokeKeeps(c, d, code);
    case Signup(code, ok) => SignupKeeps(c, d, code, ok);
  }

  /** A new room starts out right. */
  lemma NewVettingOk(c: Config, d: Door, user: User, code: Code, room: Option<RoomId>, at: int, keyword: string)
    requires VettingOk(c, d.vetting)
    ensures VettingOk(c, ApplyKnock(c, d, user, code, room, at, keyword).vetting)
  {
  }

  lemma NewLobbyOk(c: Config, d: Door, code: Code, room: Option<RoomId>, at: int, title: string, keyword: string)
    requires LobbyOk(c, d.lobby)
    ensures LobbyOk(c, ApplyJoin(d, code, room, at, title, keyword).lobby)
  {
    if room.Some? { LobbyOkUpdate(c, d.lobby, room.value, L.NewLobby(code, at, title, keyword)); }
  }

  lemma CodeStepFrame(c: Config, d: Door, l: Label)
    requires l.Seed? || l.Mint? || l.Revoke? || l.Signup? || l.Knock? || l.JoinLink?
    ensures !l.Knock? ==> Apply(c, d, l).vetting == d.vetting
    ensures !l.JoinLink? ==> Apply(c, d, l).lobby == d.lobby
  {
  }

  lemma OtherStepKeeps(c: Config, d: Door, l: Label)
    requires DoorInv(c, d) && Enabled(d, l)
    requires l.Seed? || l.Mint? || l.Revoke? || l.Signup? || l.Knock? || l.JoinLink?
    ensures DoorInv(c, Apply(c, d, l))
  {
    AccountStepKeeps(c, d, l);
    CodeStepFrame(c, d, l);
    if l.Knock? {
      NewVettingOk(c, d, l.user, l.reason, l.room, l.at, l.keyword);
    } else if l.JoinLink? {
      NewLobbyOk(c, d, l.code, l.made, l.at, l.title, l.keyword);
    }
  }

  lemma StepKeeps(c: Config, d: Door, l: Label)
    requires DoorInv(c, d) && Enabled(d, l)
    ensures DoorInv(c, Apply(c, d, l))
  {
    match l
    case VetRoom(room, st, tl, invited, w) =>
      if room in d.vetting {
        VetRoomKeeps(c, d, room, st, tl, invited, w);
        ApplyVetRoomFile(c, d, room, st, tl, invited, w);
      }
    case LobbySync(room, js, ms, how, self, w) =>
      if room in d.lobby {
        LobbySyncKeeps(c, d, room, js, ms, how, self, w);
        ApplyLobbySyncFile(c, d, room, js, ms, how, self, w);
      }
    case VetExpire(now) => VetExpireKeeps(c, d.vetting, now);
    case LobbyResend(now) => LobbyResendKeeps(c, d.lobby, now); ResendFrame(c, d.lobby, now);
    case LobbyExpire(now) => LobbyExpireKeeps(c, d.lobby, now); ExpireFrame(c, d.lobby, now);
    case _ => OtherStepKeeps(c, d, l);
  }

  lemma EmptyInv(c: Config)
    ensures DoorInv(c, Empty)
  {
    assert Set(map[]) == {};
    forall k ensures On(map[], k) == {} { }
    assert VCodes(map[]) == LCodes(map[]) == map[] && VFlags(map[]) == LFlags(map[]) == map[];
  }

  lemma {:induction false} RunKeeps(c: Config, ls: seq<Label>)
    requires Run(c, Empty, ls)
    ensures DoorInv(c, Exec(c, Empty, ls))
  {
    if ls == [] {
      EmptyInv(c);
    } else {
      RunKeeps(c, ls[..|ls| - 1]);
      StepKeeps(c, Exec(c, Empty, ls[..|ls| - 1]), ls[|ls| - 1]);
    }
  }

  // ---- Uses never go below zero ----------------------------------------------------

  ghost predicate AllNonNeg(m: map<Code, int>) { forall k :: k in m ==> 0 <= m[k] }

  ghost predicate NonNeg(d: Door) {
    AllNonNeg(d.codes) && AllNonNeg(d.signup)
  }

  /** Seeds do not come with negative uses. */
  ghost predicate SaneSeed(l: Label) { l.Seed? ==> AllNonNeg(l.knock) && AllNonNeg(l.newSignup) }

  ghost predicate SaneSeeds(ls: seq<Label>) { forall i :: 0 <= i < |ls| ==> SaneSeed(ls[i]) }

  lemma MintNonNeg(c: Config, d: Door, l: Label)
    requires NonNeg(d) && l.Mint?
    ensures NonNeg(Apply(c, d, l))
  {
    if MintOk(l.n, l.uses) {
      if l.forSignup { MintAllNonNeg(d.signup, l.fresh_, l.uses); } else { MintAllNonNeg(d.codes, l.fresh_, l.uses); }
    }
  }

  lemma SeedNonNeg(d: Door, knock: map<Code, int>, signup: map<Code, int>)
    requires NonNeg(d) && AllNonNeg(knock) && AllNonNeg(signup)
    ensures NonNeg(ApplySeed(d, knock, signup))
  {
  }

  lemma RoomStepNonNeg(c: Config, d: Door, l: Label)
    requires NonNeg(d) && (l.VetRoom? || l.LobbySync?)
    ensures NonNeg(Apply(c, d, l))
  {
  }

  lemma StepNonNeg(c: Config, d: Door, l: Label)
    requires NonNeg(d) && SaneSeed(l) && Enabled(d, l)
    ensures NonNeg(Apply(c, d, l))
  {
    if l.Mint? {
      MintNonNeg(c, d, l);
    } else if l.Seed? {
      SeedNonNeg(d, l.knock, l.newSignup);
    } else if l.VetRoom? || l.LobbySync? {
      RoomStepNonNeg(c, d, l);
    }
  }

  lemma {:induction false} MintAllNonNeg(m: map<Code, int>, fresh_: seq<Code>, uses: int)
    requires AllNonNeg(m) && 0 <= uses
    ensures AllNonNeg(MintAll(m, fresh_, uses))
    decreases fresh_
  {
    if fresh_ != [] { MintAllNonNeg(m[fresh_[0] := uses], fresh_[1..], uses); }
  }

  lemma {:induction false} RunNonNeg(c: Config, ls: seq<Label>)
    requires Run(c, Empty, ls) && SaneSeeds(ls)
    ensures NonNeg(Exec(c, Empty, ls))
  {
    if ls != [] {
      RunNonNeg(c, ls[..|ls| - 1]);
      StepNonNeg(c, Exec(c, Empty, ls[..|ls| - 1]), ls[|ls| - 1]);
    }
  }

  // ---- The main results ------------------------------------------------------------

  /** Over any run, restarts and re-seeding included: for every code, uses given out are
      exactly those left, those charged to a room and those revoked; promotions are at most
      the uses consumed, one per promoted room. */
  lemma CodesConserved(c: Config, ls: seq<Label>)
    requires Run(c, Empty, ls)
    ensures var d := Exec(c, Empty, ls);
      && (forall code :: Get(d.ledger.granted, code)
            == Get(d.codes, code) + Charged(d, code) + Get(d.ledger.revoked, code))
      && d.ledger.promotions == |Set(VFlags(d.vetting))| + |Set(LFlags(d.lobby))|
      && d.ledger.promotions <= d.ledger.consumed
  {
    RunKeeps(c, ls);
    var d := Exec(c, Empty, ls);
    SetSmall(VFlags(d.vetting));
    SetSmall(LFlags(d.lobby));
  }

  /** Over any run, accounts registered are at most the usable sign-up uses seeded or minted plus
      the welcome uses of the promotions; and no code's remaining uses are ever negative, unless
      a seed put them there so. */
  lemma AccountsBounded(c: Config, ls: seq<Label>)
    requires Run(c, Empty, ls)
    ensures var d := Exec(c, Empty, ls);
      && d.ledger.registered <= d.ledger.issued + WelcomeUses(c) * d.ledger.promotions
      && (SaneSeeds(ls) ==> forall code :: code in d.codes ==> 0 <= d.codes[code])
      && (SaneSeeds(ls) ==> forall code :: code in d.signup ==> 0 <= d.signup[code])
  {
    RunKeeps(c, ls);
    if SaneSeeds(ls) {
      RunNonNeg(c, ls);
    }
    SumNonNeg(Pos(Exec(c, Empty, ls).signup));
  }

  // ---- Absorbing states ------------------------------------------------------------

  /** No record disappears, and one that was promoted or closed is the same ever after. */
  ghost predicate Frozen(d: Door, e: Door) {
    && (forall r :: r in d.vetting ==> r in e.vetting && (!Open(d.vetting[r]) ==> e.vetting[r] == d.vetting[r]))
    && (forall r :: r in d.lobby ==> r in e.lobby && (!L.Live(d.lobby[r]) ==> e.lobby[r] == d.lobby[r]))
  }

  lemma RoomStepFreezes(c: Config, d: Door, l: Label)
    requires Enabled(d, l) && (l.VetRoom? || l.LobbySync?)
    ensures Frozen(d, Apply(c, d, l))
  {
    if l.VetRoom? && l.vroom in d.vetting {
      ApplyVetRoomFile(c, d, l.vroom, l.state, l.timeline, l.invited, l.welcome);
    } else if l.LobbySync? && l.lroom in d.lobby {
      ApplyLobbySyncFile(c, d, l.lroom, l.joins, l.msgs, l.how, l.self, l.gift);
    }
  }

  lemma StepFreezes(c: Config, d: Door, l: Label)
    requires Enabled(d, l)
    ensures Frozen(d, Apply(c, d, l))
  {
    if l.VetRoom? || l.LobbySync? { RoomStepFreezes(c, d, l); }
  }

  /** A room that was promoted or closed is the same record ever after, in any run. */
  lemma {:induction false} ClosedForGood(c: Config, d: Door, ls: seq<Label>)
    requires Run(c, d, ls)
    ensures Frozen(d, Exec(c, d, ls))
  {
    if ls != [] {
      var f := ls[..|ls| - 1];
      ClosedForGood(c, d, f);
      StepFreezes(c, Exec(c, d, f), ls[|ls| - 1]);
    }
  }

  // ---- What every record says, in any run ---------------------------------------------

  /** Over any run, in every vetting room: promoted and closed exclude each other, the tries
      left are those not used up by rejected answers, there is one left while it is open, and
      a promotion is for the knocker's own passing answer. */
  lemma EveryVettingRoom(c: Config, ls: seq<Label>, room: RoomId)
    requires Run(c, Empty, ls) && 0 < c.vettingMaxTries
    ensures room in Exec(c, Empty, ls).vetting ==>
      var r := Exec(c, Empty, ls).vetting[room];
      && !(r.promoted && r.closed)
      && r.triesLeft == c.vettingMaxTries - r.rejected
      && (Open(r) ==> 0 < r.triesLeft)
      && (r.promoted ==>
            && r.passed.Some? && r.passed.value.sender == r.mxid
            && Vet(r.name, r.passed.value, r.keyword) && r.rejected < c.vettingMaxTries)
  {
    RunKeeps(c, ls);
  }

  /** Over any run, in every lobby room: a promoted room is closed, the promotion rests on a
      passing answer of a user who was challenged there, and no user was resent the challenge
      more often than challenged. */
  lemma EveryLobbyRoom(c: Config, ls: seq<Label>, room: RoomId)
    requires Run(c, Empty, ls)
    ensures room in Exec(c, Empty, ls).lobby ==>
      var r := Exec(c, Empty, ls).lobby[room];
      && (r.promoted ==>
            && r.closed && r.promotedUser.Some? && r.passed.Some?
            && r.passed.value.sender == r.promotedUser.value
            && Vet(L.NameOf(r, r.promotedUser.value), r.passed.value, r.keyword)
            && 0 < L.Count(r.nChallenges, r.promotedUser.value))
      && (forall u :: L.Count(r.nResends, u) <= L.Count(r.nChallenges, u))
  {
    RunKeeps(c, ls);
    hide Exec, Run;
    assert room in Exec(c, Empty, ls).lobby ==> L.RoomInv(c, Exec(c, Empty, ls).lobby[room]);
  }

  // ---- Stale rooms -------------------------------------------------------------------

  /** No open room of either kind is older than its timeout at this clock. */
  ghost predicate NoneStale(c: Config, d: Door, now: int) {
    && (forall r :: r in d.vetting && Open(d.vetting[r]) ==> now - d.vetting[r].created <= c.vettingTimeout)
    && (forall r :: r in d.lobby && L.Live(d.lobby[r]) ==> now - d.lobby[r].created <= c.lobbyTimeout)
  }

  /** A room made from here on is not too old for that clock. */
  predicate MadeLate(c: Config, now: int, l: Label) {
    && (l.Knock? ==> now - l.at <= c.vettingTimeout)
    && (l.JoinLink? ==> now - l.at <= c.lobbyTimeout)
  }

  lemma RoomStepNotStale(c: Config, d: Door, now: int, l: Label)
    requires NoneStale(c, d, now) && (l.VetRoom? || l.LobbySync?)
    ensures NoneStale(c, Apply(c, d, l), now)
  {
    if l.VetRoom? && l.vroom in d.vetting {
      ApplyVetRoomFile(c, d, l.vroom, l.state, l.timeline, l.invited, l.welcome);
      Vetting.ProcessFrame(d.vetting[l.vroom], l.state, l.timeline, l.invited);
    } else if l.LobbySync? && l.lroom in d.lobby {
      ApplyLobbySyncFile(c, d, l.lroom, l.joins, l.msgs, l.how, l.self, l.gift);
      L.ProcessFrame(c, d.lobby[l.lroom], l.joins, l.msgs, l.how, l.self);
    }
  }

  lemma SweepNotStale(c: Config, d: Door, now: int, sweep: int)
    requires NoneStale(c, d, now)
    ensures NoneStale(c, d.(lobby := ResendAll(c, d.lobby, sweep)), now)
  {
    forall r | r in d.lobby
      ensures L.Live(L.Resends(c, d.lobby[r], sweep)) ==> L.Live(d.lobby[r])
      ensures L.Resends(c, d.lobby[r], sweep).created == d.lobby[r].created
    {
      L.ResendsFrame(c, d.lobby[r], sweep);
    }
  }

  lemma StepNotStale(c: Config, d: Door, now: int, l: Label)
    requires NoneStale(c, d, now) && MadeLate(c, now, l)
    ensures NoneStale(c, Apply(c, d, l), now)
  {
    if l.VetRoom? || l.LobbySync? {
      RoomStepNotStale(c, d, now, l);
    } else if l.LobbyResend? {
      SweepNotStale(c, d, now, l.sweep);
    }
  }

  lemma SweptNotStale(c: Config, d: Door, now: int)
    ensures NoneStale(c, Apply(c, Apply(c, d, VetExpire(now)), LobbyExpire(now)), now)
  {
  }

  /** Once a cycle has swept both kinds of rooms, nothing that happens later brings back an open
      room too old for that cycle's clock: whatever the handlers do, in any order, as long as
      new rooms are dated no earlier than the timeout allows. */
  lemma {:induction false} NoStaleRooms(c: Config, d: Door, now: int, ls: seq<Label>)
    requires forall i :: 0 <= i < |ls| ==> MadeLate(c, now, ls[i])
    ensures NoneStale(c, Exec(c, Apply(c, Apply(c, d, VetExpire(now)), LobbyExpire(now)), ls), now)
  {
    hide NoneStale, Apply;
    if ls == [] {
      SweptNotStale(c, d, now);
    } else {
      NoStaleRooms(c, d, now, ls[..|ls| - 1]);
      StepNotStale(c, Exec(c, Apply(c, Apply(c, d, VetExpire(now)), LobbyExpire(now)), ls[..|ls| - 1]),
                   now, ls[|ls| - 1]);
    }
  }
}
