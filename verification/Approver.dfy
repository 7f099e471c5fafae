/** The approver's handlers as the program writes them: loops that update dictionaries in
    place. Each is shown to do exactly what the corresponding step of `Onboarding` says. */
module ApproverObject {
  import opened Prelude
  import opened Vetting
  import opened Onboarding
  import L = Lobby

  datatype Reply = Ok | InvalidCode | MissingCode | CreateFailed

  class Approver {
    const c: Config
    var codes: map<Code, int>
    var signup: map<Code, int>
    var vetting: map<RoomId, Room>
    var lobby: map<RoomId, L.Lobby>
    ghost var ledger: Ledger

    constructor (c: Config)
      ensures this.c == c && View() == Empty
    {
      this.c := c;
      codes, signup, vetting, lobby := map[], map[], map[], map[];
      ledger := Empty.ledger;
    }

    ghost function View(): Door reads this { Door(codes, signup, vetting, lobby, ledger) }

    /** `handle_knock`: an unusable code or a failed room creation changes nothing. */
    method HandleKnock(user: User, reason: Code, room: Option<RoomId>, at: int, keyword: string)
      modifies this
      ensures View() == Apply(c, old(View()), Knock(user, reason, room, at, keyword))
    {
      if reason !in codes || codes[reason] <= 0 {
        return;
      }
      if room.None? {
        return;
      }
      codes := codes[reason := codes[reason] - 1];
      vetting := vetting[room.value := NewRoom(c, user, reason, at, keyword)];
      ledger := ledger.(consumed := ledger.consumed + 1);
    }

    /** `join_handler`. */
    method JoinHandler(code: Code, room: Option<RoomId>, at: int, title: string, keyword: string) returns (reply: Reply)
      modifies this
      ensures View() == Apply(c, old(View()), JoinLink(code, room, at, title, keyword))
      ensures reply == Ok <==> code != NO_ID && code in old(codes) && 0 < old(codes[code]) && room.Some?
    {
      if code == NO_ID {
        return MissingCode;
      }
      if code !in codes || codes[code] <= 0 {
        return InvalidCode;
      }
      if room.None? {
        return CreateFailed;
      }
      codes := codes[code := codes[code] - 1];
      lobby := lobby[room.value := L.NewLobby(code, at, title, keyword)];
      ledger := ledger.(consumed := ledger.consumed + 1);
      return Ok;
    }

    /** `signup_handler`, as far as the code goes: a use is spent exactly when the homeserver
        registered the account. */
    method SignupHandler(code: Code, registered: bool) returns (reply: Reply)
      modifies this
      ensures View() == Apply(c, old(View()), Signup(code, registered))
      ensures reply == Ok <==> code in old(signup) && 0 < old(signup[code]) && registered
    {
      if code !in signup || signup[code] <= 0 {
        return InvalidCode;
      }
      if !registered {
        return CreateFailed;
      }
      signup := signup[code := signup[code] - 1];
      ledger := ledger.(registered := ledger.registered + 1);
      return Ok;
    }

    /** `cmd_revoke`. */
    method CmdRevoke(code: Code) returns (found: bool)
      modifies this
      ensures View() == Apply(c, old(View()), Revoke(code))
      ensures found <==> code != NO_ID && (code in old(codes) || code in old(signup))
    {
      if code == NO_ID {
        return false;
      }
      if code in codes {
        ledger := ApplyRevoke(View(), code).ledger;
        codes := codes[code := 0];
        return true;
      }
      if code in signup {
        ledger := ApplyRevoke(View(), code).ledger;
        signup := signup[code := 0];
        return true;
      }
      return false;
    }

    /** `cmd_mint`, after its arguments are parsed. */
    method CmdMint(forSignup: bool, n: int, uses: int, fresh_: seq<Code>) returns (ok: bool)
      requires Enabled(View(), Mint(forSignup, n, uses, fresh_))
      modifies this
      ensures View() == Apply(c, old(View()), Mint(forSignup, n, uses, fresh_))
      ensures ok <==> 1 <= n <= 50 && 1 <= uses <= 1000
    {
      if n < 1 || n > 50 || uses < 1 || uses > 1000 {
        return false;
      }
      ghost var d := View();
      var file: map<Code, int> := if forSignup then signup else codes;
      ghost var whole := MintAll(file, fresh_, uses);
      var i := 0;
      while i < n
        invariant 0 <= i <= n && MintAll(file, fresh_[i..], uses) == whole
      {
        file := file[fresh_[i] := uses];
        i := i + 1;
      }
      ledger := ApplyMint(d, forSignup, n, uses, fresh_).ledger;
      if forSignup { signup := file; } else { codes := file; }
      return true;
    }

    /** `merge_seed` for one file: only missing keys are added. */
    static method MergeSeed(existing: map<Code, int>, data: map<Code, int>) returns (merged: map<Code, int>)
      ensures merged == existing + Added(existing, data)
      ensures forall k :: k in existing ==> k in merged && merged[k] == existing[k]
    {
      merged := existing;
      var todo := data.Keys;
      while todo != {}
        invariant todo <= data.Keys
        invariant merged == existing + Added(existing, map k | k in data && k !in todo :: data[k])
        decreases todo
      {
        var k :| k in todo;
        if k !in merged {
          merged := merged[k := data[k]];
        }
        todo := todo - {k};
      }
      assert (map k | k in data && k !in {} :: data[k]) == data;
    }

    /** `process_vetting_room` and the sync loop around it, for one room. */
    method ProcessVettingRoom(room: RoomId, state: seq<Event>, timeline: seq<Event>, invited: bool, welcome: Code)
      requires room in vetting
      modifies this
      ensures View() == Apply(c, old(View()), VetRoom(room, state, timeline, invited, welcome))
    {
      var meta := vetting[room];
      if meta.promoted || meta.closed {
        assert vetting == vetting[room := meta];
        return;
      }
      ghost var d := View();
      var join := LastJoin(state + timeline, meta.mxid);
      var msgs := MessagesOf(timeline, meta.mxid);
      if join.Some? {
        meta := meta.(name := join.value);
      }
      ghost var result := Answer(meta, msgs, invited);
      var i := 0;
      var done := false;
      while i < |msgs| && !done
        invariant 0 <= i <= |msgs|
        invariant result == if done then meta else Answer(meta, msgs[i..], invited)
        invariant !done ==> Open(meta)
        invariant Frame(d)
      {
        if Vet(meta.name, msgs[i], meta.keyword) {
          if invited {
            meta := meta.(promoted := true, passed := Some(msgs[i]));
          }
          done := true;
        } else {
          meta := meta.(triesLeft := meta.triesLeft - 1, rejected := meta.rejected + 1);
          if meta.triesLeft <= 0 {
            meta := meta.(closed := true);
            done := true;
          }
        }
        i := i + 1;
      }
      if meta.promoted {
        MintWelcome(welcome);
      }
      vetting := vetting[room := meta];
    }

    ghost predicate Frame(d: Door) reads this { View() == d }

    /** `_mint_welcome_signup_code`. */
    method MintWelcome(welcome: Code)
      modifies this`signup, this`ledger
      ensures signup == WelcomeFile(c, old(signup), welcome) && ledger == WelcomeLedger(c, old(ledger))
    {
      if c.welcomeUses > 0 {
        signup := signup[welcome := c.welcomeUses];
      }
      ledger := WelcomeLedger(c, ledger);
    }

    /** `cleanup_stale_vetting`. */
    method CleanupStaleVetting(now: int) returns (dirty: bool)
      modifies this`vetting
      ensures View() == Apply(c, old(View()), VetExpire(now))
      ensures !dirty ==> vetting == old(vetting)
    {
      dirty := false;
      ghost var before := vetting;
      var todo := vetting.Keys;
      while todo != {}
        invariant todo <= before.Keys && vetting.Keys == before.Keys
        invariant forall r :: r in before ==>
          vetting[r] == if r in todo then before[r] else Vetting.Expire(c, before[r], now)
        invariant !dirty ==> vetting == before
        decreases todo
      {
        var r :| r in todo;
        var meta := vetting[r];
        if !meta.promoted && !meta.closed && now - meta.created > c.vettingTimeout {
          vetting := vetting[r := meta.(closed := true)];
          dirty := true;
        }
        todo := todo - {r};
      }
      assert vetting == VetExpireAll(c, before, now);
    }

    /** `process_lobby_room` and the lobby loop around it, for one room. */
    method ProcessLobbyRoom(room: RoomId, joins: seq<L.Join>, msgs: seq<Message>, how: L.Invite, self: User, gift: Code)
      requires room in lobby
      modifies this
      ensures View() == Apply(c, old(View()), LobbySync(room, joins, msgs, how, self, gift))
    {
      hide L.ChallengeAll, L.VetAll, L.NewJoins, L.FromChallenged;
      var meta := lobby[room];
      if meta.promoted || meta.closed {
        assert lobby == lobby[room := meta];
        return;
      }
      var newJoins := L.NewJoins(joins, meta.challenged, self);
      var heard := L.FromChallenged(msgs, meta.challenged, self);
      meta := ChallengeJoiners(meta, newJoins);
      meta := VetMessages(meta, heard, how);
      if meta.promoted {
        MintWelcome(gift);
      }
      lobby := lobby[room := meta];
    }

    method ChallengeJoiners(room: L.Lobby, joins: seq<L.Join>) returns (meta: L.Lobby)
      ensures meta == L.ChallengeAll(c, room, joins) && meta.promoted == room.promoted
    {
      meta := room;
      var i := 0;
      while i < |joins|
        invariant 0 <= i <= |joins| && meta.promoted == room.promoted
        invariant L.ChallengeAll(c, meta, joins[i..]) == L.ChallengeAll(c, room, joins)
      {
        meta := L.Challenge(c, meta, joins[i]);
        i := i + 1;
      }
    }

    method VetMessages(room: L.Lobby, msgs: seq<Message>, how: L.Invite) returns (meta: L.Lobby)
      ensures meta == L.VetAll(c, room, msgs, how)
    {
      meta := room;
      var i := 0;
      while i < |msgs|
        invariant 0 <= i <= |msgs|
        invariant L.VetAll(c, meta, msgs[i..], how) == L.VetAll(c, room, msgs, how)
      {
        if Vet(L.NameOf(meta, msgs[i].sender), msgs[i], meta.keyword) {
          if !how.Refused? {
            meta := L.Promote(meta, msgs[i], how);
          }
          return;
        }
        meta := L.Reject(c, meta, msgs[i].sender);
        i := i + 1;
      }
    }

    /** The inner loop of `process_lobby_resends`. */
    method ResendIn(room: L.Lobby, now: int) returns (meta: L.Lobby)
      ensures meta == L.Resends(c, room, now)
    {
      meta := room;
      if meta.promoted || meta.closed || meta.title == "" || meta.keyword == "" {
        return;
      }
      var users := meta.challenged;
      var i := 0;
      while i < |users|
        invariant 0 <= i <= |users|
        invariant L.ResendAll(c, meta, users[i..], now) == L.ResendAll(c, room, users, now)
      {
        if L.Due(c, meta, users[i], now) {
          meta := L.Resend(meta, users[i], now);
        }
        i := i + 1;
      }
    }

    /** `process_lobby_resends`. */
    method ProcessLobbyResends(now: int)
      modifies this`lobby
      ensures View() == Apply(c, old(View()), LobbyResend(now))
    {
      ghost var before := lobby;
      var todo := lobby.Keys;
      while todo != {}
        invariant todo <= before.Keys && lobby.Keys == before.Keys
        invariant forall r :: r in before ==>
          lobby[r] == if r in todo then before[r] else L.Resends(c, before[r], now)
        decreases todo
      {
        var r :| r in todo;
        var meta := ResendIn(lobby[r], now);
        lobby := lobby[r := meta];
        todo := todo - {r};
      }
      assert lobby == Onboarding.ResendAll(c, before, now);
    }

    /** The loop body of `cleanup_stale_lobby`. */
    method ExpireIn(room: L.Lobby, now: int) returns (meta: L.Lobby)
      ensures meta == L.Expire(c, room, now)
    {
      meta := room;
      if !meta.promoted && !meta.closed && now - meta.created > c.lobbyTimeout {
        meta := meta.(closed := true, reason := Some(L.TimedOut));
      }
    }

    /** `cleanup_stale_lobby`. */
    method CleanupStaleLobby(now: int)
      modifies this`lobby
      ensures View() == Apply(c, old(View()), LobbyExpire(now))
    {
      ghost var before := lobby;
      var todo := lobby.Keys;
      while todo != {}
        invariant todo <= before.Keys && lobby.Keys == before.Keys
        invariant forall r :: r in before ==>
          lobby[r] == if r in todo then before[r] else L.Expire(c, before[r], now)
        decreases todo
      {
        var r :| r in todo;
        var meta := ExpireIn(lobby[r], now);
        lobby := lobby[r := meta];
        todo := todo - {r};
      }
      assert lobby == LobbyExpireAll(c, before, now);
    }
  }
}
