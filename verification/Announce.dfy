/** Operator notices about the lobby, and the sidecar record that stops them repeating.
    A cycle reads lobby.json and the record, posts what is new and saves the record once,
    at its very end. */
module Announce {
  import opened Prelude
  import L = Lobby

  type Room = Id
  type User = Id

  /** What a cycle reads of one lobby room. */
  datatype View = View(challenged: seq<User>, closed: bool, reason: Option<L.Reason>) {
    /** Closed for a reason the operator should hear about. */
    predicate Bad() {
      closed && reason != None && reason != Some(L.Promoted) && reason != Some(L.AlreadyMember)
    }

    /** A room nobody ever joined: its timeout is recorded but not posted. */
    predicate Deserted() { reason == Some(L.TimedOut) && challenged == [] }
  }

  /** The lobby file: its rooms, in the order the dictionary holds them. */
  datatype LobbyFile = LobbyFile(order: seq<Room>, rooms: map<Room, View>) {
    ghost predicate Valid() { Distinct(order) && Listed() }

    ghost predicate Listed() { forall r :: r in order <==> r in rooms }
  }

  datatype Rec = Rec(started: seq<User>, failed: bool)
  type Book = map<Room, Rec>

  datatype Notice = Started(room: Room, user: User) | Failed(room: Room)

  // ---- One cycle -------------------------------------------------------------------

  function Seeded(v: View): Rec { Rec(v.challenged, v.Bad()) }

  function Entry(book: Book, r: Room): Rec { if r in book then book[r] else Rec([], false) }

  /** Closed before any cycle recorded it: taken as already announced. */
  predicate Missed(book: Book, r: Room, v: View) { r !in book && v.closed }

  /** The challenged users not started yet, each once. */
  function NewUsers(challenged: seq<User>, started: seq<User>): seq<User>
    decreases challenged
  {
    if challenged == [] then []
    else if challenged[0] in started then NewUsers(challenged[1..], started)
    else [challenged[0]] + NewUsers(challenged[1..], started + [challenged[0]])
  }

  function Starts(r: Room, users: seq<User>): (ns: seq<Notice>)
    ensures |ns| == |users| && forall i :: 0 <= i < |ns| ==> ns[i] == Started(r, users[i])
  {
    seq(|users|, i requires 0 <= i < |users| => Started(r, users[i]))
  }

  function RoomNotices(book: Book, r: Room, v: View): seq<Notice> {
    if Missed(book, r, v) then []
    else
      Starts(r, NewUsers(v.challenged, Entry(book, r).started))
        + if v.Bad() && !Entry(book, r).failed && !v.Deserted() then [Failed(r)] else []
  }

  function RoomAfter(book: Book, r: Room, v: View): Rec {
    if Missed(book, r, v) then Seeded(v)
    else Rec(Entry(book, r).started + NewUsers(v.challenged, Entry(book, r).started),
             Entry(book, r).failed || v.Bad())
  }

  /** Whether a room makes the cycle save the record. */
  predicate Stirs(book: Book, r: Room, v: View) {
    || Missed(book, r, v)
    || NewUsers(v.challenged, Entry(book, r).started) != []
    || (v.Bad() && !Entry(book, r).failed)
  }

  predicate Dirty(book: Book, lobby: LobbyFile) {
    || (exists r :: r in lobby.rooms && Stirs(book, r, lobby.rooms[r]))
    || (exists r :: r in book && r !in lobby.rooms)
  }

  function Posts(book: Book, rooms: map<Room, View>): map<Room, seq<Notice>> {
    map r | r in rooms :: RoomNotices(book, r, rooms[r])
  }

  function Gather(order: seq<Room>, posts: map<Room, seq<Notice>>, n: nat): seq<Notice>
    requires n <= |order| && forall r :: r in order ==> r in posts
  {
    if n == 0 then [] else Gather(order, posts, n - 1) + posts[order[n - 1]]
  }

  /** What the first `n` rooms of the file make the cycle post. */
  function Notices(book: Book, lobby: LobbyFile, n: nat): seq<Notice>
    requires lobby.Listed() && n <= |lobby.order|
  {
    Gather(lobby.order, Posts(book, lobby.rooms), n)
  }

  function After(book: Book, lobby: LobbyFile): Book {
    map r | r in lobby.rooms :: RoomAfter(book, r, lobby.rooms[r])
  }

  function Seed(lobby: LobbyFile): Book { map r | r in lobby.rooms :: Seeded(lobby.rooms[r]) }

  /** A cycle over `lobby` in which the send after the first `sends` raises, or the process dies
      there, if it is reached; and in which the process lives to save the record, or does not. */
  datatype Cycle = Cycle(lobby: LobbyFile, sends: nat, saves: bool)

  /** The record on disk (None before the first cycle), everything posted so far, and how
      many cycles were cut short before a save they had to make. */
  datatype History = History(file: Option<Book>, sent: seq<Notice>, cutShort: nat)

  function CycleNotices(file: Option<Book>, lobby: LobbyFile): seq<Notice>
    requires lobby.Valid()
  {
    if file.None? then [] else Notices(file.value, lobby, |lobby.order|)
  }

  function FileAfter(file: Option<Book>, lobby: LobbyFile): Option<Book> {
    if lobby.rooms == map[] then file
    else if file.None? then Some(Seed(lobby))
    else if Dirty(file.value, lobby) then Some(After(file.value, lobby)) else file
  }

  /** The cycle has a record to write when it ends. */
  predicate Unsaved(file: Option<Book>, lobby: LobbyFile) {
    lobby.rooms != map[] && (file.None? || Dirty(file.value, lobby))
  }

  /** The cycle does not get as far as it should. */
  predicate Cut(file: Option<Book>, c: Cycle)
    requires c.lobby.Valid()
  {
    c.sends < |CycleNotices(file, c.lobby)| || (!c.saves && Unsaved(file, c.lobby))
  }

  function Step(h: History, c: Cycle): History
    requires c.lobby.Valid()
  {
    var ns := CycleNotices(h.file, c.lobby);
    if Cut(h.file, c) then History(h.file, h.sent + if c.sends < |ns| then ns[..c.sends] else ns, h.cutShort + 1)
    else History(FileAfter(h.file, c.lobby), h.sent + ns, h.cutShort)
  }

  ghost predicate ValidAll(cs: seq<Cycle>) {
    forall i {:trigger cs[i].lobby.Valid()} :: 0 <= i < |cs| ==> cs[i].lobby.Valid()
  }

  /** The history after the first `n` cycles. */
  function At(file: Option<Book>, cs: seq<Cycle>, n: nat): History
    requires ValidAll(cs) && n <= |cs|
  {
    if n == 0 then History(file, [], 0) else Step(At(file, cs, n - 1), cs[n - 1])
  }

  predicate Sees(c: Cycle, r: Room) { r in c.lobby.rooms }

  /** One of the first `n` cycles has read the room. */
  ghost predicate Seen(cs: seq<Cycle>, n: nat, r: Room)
    requires n <= |cs|
  {
    exists i :: 0 <= i < n && Sees(cs[i], r)
  }

  /** A room that has left the lobby file does not come back. */
  ghost predicate NoReturn(cs: seq<Cycle>) {
    forall i, k, r {:trigger Sees(cs[i], r), Sees(cs[k], r)} ::
      0 <= i < k < |cs| && Sees(cs[i], r) && Sees(cs[k], r) ==> r in cs[k - 1].lobby.rooms
  }

  // ---- What one cycle posts --------------------------------------------------------

  lemma {:induction false} NewUsersAre(challenged: seq<User>, started: seq<User>)
    ensures Distinct(NewUsers(challenged, started))
    ensures forall u :: u in NewUsers(challenged, started) <==> u in challenged && u !in started
    decreases challenged
  {
    if challenged != [] {
      var u := challenged[0];
      if u in started {
        NewUsersAre(challenged[1..], started);
      } else {
        var rest := NewUsers(challenged[1..], started + [u]);
        NewUsersAre(challenged[1..], started + [u]);
        assert u !in rest;
        assert Distinct([u] + rest);
      }
    }
  }

  /** The record already accounts for this notice. */
  predicate Covered(book: Book, n: Notice) {
    n.room in book && match n case Started(r, u) => u in book[r].started case Failed(r) => book[r].failed
  }

  /** What makes a cycle post `n`: a challenged user or a bad close the record lacks, in a
      room that is not a close the record missed. */
  predicate Due(book: Book, rooms: map<Room, View>, n: Notice) {
    && n.room in rooms && !Covered(book, n) && !Missed(book, n.room, rooms[n.room])
    && match n
       case Started(r, u) => u in rooms[r].challenged
       case Failed(r) => rooms[r].Bad() && !rooms[r].Deserted()
  }

  lemma RoomPostsDue(book: Book, rooms: map<Room, View>, r: Room)
    requires r in rooms
    ensures Distinct(RoomNotices(book, r, rooms[r]))
    ensures forall n :: n in RoomNotices(book, r, rooms[r]) <==> n.room == r && Due(book, rooms, n)
  {
    var v := rooms[r];
    var us := NewUsers(v.challenged, Entry(book, r).started);
    NewUsersAre(v.challenged, Entry(book, r).started);
    var ns := RoomNotices(book, r, v);
    forall n: Notice | n.room == r && Due(book, rooms, n) ensures n in ns {
      if n.Started? {
        var i :| 0 <= i < |us| && us[i] == n.user;
        assert ns[i] == n;
      } else {
        assert ns[|ns| - 1] == n;
      }
    }
  }

  lemma DistinctJoin<T>(a: seq<T>, b: seq<T>)
    requires Distinct(a) && Distinct(b) && forall x :: x in a ==> x !in b
    ensures Distinct(a + b)
  {
    forall i, j | 0 <= i < j < |a + b| ensures (a + b)[i] != (a + b)[j] {
      assert i < |a| <= j ==> a[i] in a && b[j - |a|] in b;
    }
  }

  lemma {:induction false} GatherHas(order: seq<Room>, posts: map<Room, seq<Notice>>, n: nat, x: Notice)
    requires n <= |order| && forall r :: r in order ==> r in posts
    ensures x in Gather(order, posts, n) <==> exists i :: 0 <= i < n && x in posts[order[i]]
  {
    if n > 0 {
      GatherHas(order, posts, n - 1, x);
    }
  }

  lemma {:induction false} GatherDistinct(order: seq<Room>, posts: map<Room, seq<Notice>>, n: nat)
    requires n <= |order| && Distinct(order) && forall r :: r in order ==> r in posts
    requires forall r :: r in posts ==> Distinct(posts[r])
    requires forall r: Room, x: Notice :: r in posts && x in posts[r] ==> x.room == r
    ensures Distinct(Gather(order, posts, n))
  {
    if n > 0 {
      var told, here := Gather(order, posts, n - 1), posts[order[n - 1]];
      GatherDistinct(order, posts, n - 1);
      forall x: Notice | x in told ensures x !in here {
        GatherHas(order, posts, n - 1, x);
        var i :| 0 <= i < n - 1 && x in posts[order[i]];
        assert x.room == order[i] != order[n - 1];
      }
      DistinctJoin(told, here);
    }
  }

  /** A cycle posts exactly the due notices, each of them once. */
  lemma PostsDue(file: Option<Book>, lobby: LobbyFile)
    requires lobby.Valid()
    ensures Distinct(CycleNotices(file, lobby))
    ensures forall n :: n in CycleNotices(file, lobby) <==> file.Some? && Due(file.value, lobby.rooms, n)
  {
    if file.Some? {
      var posts := Posts(file.value, lobby.rooms);
      forall r | r in posts
        ensures Distinct(posts[r])
        ensures forall n: Notice :: n in posts[r] <==> n.room == r && Due(file.value, lobby.rooms, n)
      {
        RoomPostsDue(file.value, lobby.rooms, r);
      }
      GatherDistinct(lobby.order, posts, |lobby.order|);
      forall n: Notice ensures n in CycleNotices(file, lobby) <==> Due(file.value, lobby.rooms, n) {
        GatherHas(lobby.order, posts, |lobby.order|, n);
        assert n.room in lobby.rooms ==> n.room in lobby.order;
      }
    }
  }

  /** Stated on the record and the file: a challenged user is announced exactly when the record has
      the room without the user, or has no record of a room that is still open; and a failure
      exactly when the record has the room, not as failed, and it was closed for a reason other
      than a promotion, an account that was a member already, or a timeout of a room nobody
      joined. */
  lemma PostsWhen(file: Option<Book>, lobby: LobbyFile, r: Room, u: User)
    requires lobby.Valid()
    ensures Started(r, u) in CycleNotices(file, lobby) <==>
      && file.Some? && r in lobby.rooms && u in lobby.rooms[r].challenged
      && if r in file.value then u !in file.value[r].started else !lobby.rooms[r].closed
    ensures Failed(r) in CycleNotices(file, lobby) <==>
      && file.Some? && r in lobby.rooms && r in file.value && !file.value[r].failed
      && var v := lobby.rooms[r];
         && v.closed && v.reason.Some? && !v.reason.value.Promoted? && !v.reason.value.AlreadyMember?
         && !(v.reason.value.TimedOut? && v.challenged == [])
  {
    PostsDue(file, lobby);
    assert Failed(r).room == r && Started(r, u).room == r;
  }

  /** A finished cycle leaves the record covering what it posted and, for rooms still
      there, all it covered before. */
  lemma FileCovers(file: Option<Book>, lobby: LobbyFile, n: Notice)
    requires lobby.Valid() && file.Some? && n.room in lobby.rooms
    ensures FileAfter(file, lobby).Some?
    ensures Covered(file.value, n) || Due(file.value, lobby.rooms, n) ==> Covered(FileAfter(file, lobby).value, n)
  {
    var v := lobby.rooms[n.room];
    NewUsersAre(v.challenged, Entry(file.value, n.room).started);
    if Due(file.value, lobby.rooms, n) {
      assert n.Started? ==> n.user in NewUsers(v.challenged, Entry(file.value, n.room).started);
      assert Stirs(file.value, n.room, v);
    }
  }

  // ---- No flood --------------------------------------------------------------------

  lemma {:induction false} DistinctCounts<T>(s: seq<T>, x: T)
    requires Distinct(s)
    ensures multiset(s)[x] == if x in s then 1 else 0
  {
    if s != [] {
      var front := s[..|s| - 1];
      assert s == front + [s[|s| - 1]];
      DistinctCounts(front, x);
    }
  }

  lemma PrefixCounts<T>(s: seq<T>, k: nat, x: T)
    requires Distinct(s) && k <= |s|
    ensures multiset(s[..k])[x] <= (if x in s then 1 else 0)
  {
    DistinctCounts(s[..k], x);
  }

  function Times(h: History, n: Notice): nat { multiset(h.sent)[n] }

  function Credit(h: History, n: Notice): nat { if h.file.Some? && Covered(h.file.value, n) then 1 else 0 }

  lemma StepCounts(h: History, c: Cycle, n: Notice)
    requires c.lobby.Valid()
    ensures n.room !in c.lobby.rooms ==> Times(Step(h, c), n) == Times(h, n)
    ensures n.room in c.lobby.rooms && Times(h, n) <= h.cutShort + Credit(h, n)
            ==> Times(Step(h, c), n) <= Step(h, c).cutShort + Credit(Step(h, c), n)
    ensures Times(h, n) <= Times(Step(h, c), n) && h.cutShort <= Step(h, c).cutShort
  {
    var ns := CycleNotices(h.file, c.lobby);
    PostsDue(h.file, c.lobby);
    DistinctCounts(ns, n);
    if Cut(h.file, c) {
      PrefixCounts(ns, if c.sends < |ns| then c.sends else |ns|, n);
      assert ns[..|ns|] == ns && (n.room in c.lobby.rooms || n !in ns);
    } else if n.room in c.lobby.rooms && h.file.Some? {
      FileCovers(h.file, c.lobby, n);
    }
  }

  /** Every notice is posted at most once, plus once more for each cycle that a failing send or
      a kill cut short before it could save. */
  lemma {:induction false} NoticeBounded(file: Option<Book>, cs: seq<Cycle>, k: nat, n: Notice)
    requires ValidAll(cs) && NoReturn(cs) && k <= |cs|
    ensures Times(At(file, cs, k), n) <= 1 + At(file, cs, k).cutShort
    ensures !Seen(cs, k, n.room) ==> Times(At(file, cs, k), n) == 0
    ensures k > 0 && Sees(cs[k - 1], n.room)
            ==> Times(At(file, cs, k), n) <= At(file, cs, k).cutShort + Credit(At(file, cs, k), n)
  {
    hide Step;
    if k > 0 {
      NoticeBounded(file, cs, k - 1, n);
      StepCounts(At(file, cs, k - 1), cs[k - 1], n);
      if Sees(cs[k - 1], n.room) && Seen(cs, k - 1, n.room) {
        StillThere(cs, k - 1, n.room);
      }
    }
  }

  /** A room seen before and seen now was there in between. */
  lemma StillThere(cs: seq<Cycle>, k: nat, r: Room)
    requires NoReturn(cs) && k < |cs| && Seen(cs, k, r) && Sees(cs[k], r)
    ensures k > 0 && Sees(cs[k - 1], r)
  {
  }

  /** What a cycle posts before it is cut short, if it is. */
  function Told(file: Option<Book>, c: Cycle): seq<Notice>
    requires c.lobby.Valid()
  {
    var ns := CycleNotices(file, c.lobby);
    if c.sends < |ns| then ns[..c.sends] else ns
  }

  /** Such a cycle does cost a repeat: the next whole cycle, if the lobby is still the same, posts
      every notice that was due, so exactly those the cut one got out are posted twice. */
  lemma CutRepeats(h: History, c: Cycle, again: Cycle, n: Notice)
    requires c.lobby.Valid() && Cut(h.file, c) && again.lobby == c.lobby && !Cut(h.file, again)
    ensures Times(Step(Step(h, c), again), n) - Times(h, n)
         == (if h.file.Some? && Due(h.file.value, c.lobby.rooms, n) then 1 else 0)
            + if n in Told(h.file, c) then 1 else 0
    ensures n in Told(h.file, c) ==> h.file.Some? && Due(h.file.value, c.lobby.rooms, n)
  {
    var ns := CycleNotices(h.file, c.lobby);
    PostsDue(h.file, c.lobby);
    DistinctCounts(ns, n);
    DistinctCounts(Told(h.file, c), n);
    assert Step(Step(h, c), again).sent == h.sent + Told(h.file, c) + ns;
  }

  lemma OneMore(k: nat, a: nat)
    ensures k * a + k == k * (a + 1)
  {
  }

  lemma {:induction false} SizeByCounts<T>(m: multiset<T>, among: set<T>, most: nat)
    requires forall x :: x in m ==> x in among && m[x] <= most
    ensures |m| <= most * |among|
  {
    if among == {} {
      assert m == multiset{};
    } else {
      var x :| x in among;
      SizeByCounts(m[x := 0], among - {x}, most);
      OneMore(most, |among - {x}|);
    }
  }

  /** Every user ever challenged in a room, as read by the cycles. */
  ghost function Pairs(cs: seq<Cycle>): set<(Room, User)> {
    set i, r, u | 0 <= i < |cs| && r in cs[i].lobby.rooms && u in cs[i].lobby.rooms[r].challenged :: (r, u)
  }

  ghost function Rooms(cs: seq<Cycle>): set<Room> {
    set i, r | 0 <= i < |cs| && r in cs[i].lobby.rooms :: r
  }

  ghost predicate Happened(cs: seq<Cycle>, n: Notice) {
    match n case Started(r, u) => (r, u) in Pairs(cs) case Failed(r) => r in Rooms(cs)
  }

  /** What a step adds was due. */
  lemma NewIsDue(h: History, c: Cycle, n: Notice)
    requires c.lobby.Valid() && n in Step(h, c).sent && n !in h.sent
    ensures h.file.Some? && Due(h.file.value, c.lobby.rooms, n)
  {
    PostsDue(h.file, c.lobby);
    assert n in CycleNotices(h.file, c.lobby);
  }

  lemma {:induction false} SentHappened(file: Option<Book>, cs: seq<Cycle>, k: nat, n: Notice)
    requires ValidAll(cs) && k <= |cs| && n in At(file, cs, k).sent
    ensures Happened(cs, n)
  {
    hide Step;
    if n in At(file, cs, k - 1).sent {
      SentHappened(file, cs, k - 1, n);
    } else {
      NewIsDue(At(file, cs, k - 1), cs[k - 1], n);
    }
  }

  ghost function AllNotices(cs: seq<Cycle>): set<Notice> {
    (set p | p in Pairs(cs) :: Started(p.0, p.1)) + (set r | r in Rooms(cs) :: Failed(r))
  }

  lemma {:induction false} StartsNoMore(ps: set<(Room, User)>)
    ensures |set p | p in ps :: Started(p.0, p.1)| <= |ps|
  {
    if ps != {} {
      var q :| q in ps;
      StartsNoMore(ps - {q});
      assert (set p | p in ps :: Started(p.0, p.1))
          == (set p | p in ps - {q} :: Started(p.0, p.1)) + {Started(q.0, q.1)};
    }
  }

  lemma {:induction false} FailsNoMore(rs: set<Room>)
    ensures |set r | r in rs :: Failed(r)| <= |rs|
  {
    if rs != {} {
      var q :| q in rs;
      FailsNoMore(rs - {q});
      assert (set r | r in rs :: Failed(r)) == (set r | r in rs - {q} :: Failed(r)) + {Failed(q)};
    }
  }

  lemma NoticesNoMore(cs: seq<Cycle>)
    ensures |AllNotices(cs)| <= |Pairs(cs)| + |Rooms(cs)|
  {
    StartsNoMore(Pairs(cs));
    FailsNoMore(Rooms(cs));
  }

  lemma HappenedListed(cs: seq<Cycle>, n: Notice)
    requires Happened(cs, n)
    ensures n in AllNotices(cs)
  {
    if n.Started? {
      var p := (n.room, n.user);
      assert p in Pairs(cs) && Started(p.0, p.1) == n;
    }
  }

  lemma SentIsFew(file: Option<Book>, cs: seq<Cycle>, k: nat, n: Notice)
    requires ValidAll(cs) && NoReturn(cs) && k <= |cs| && n in At(file, cs, k).sent
    ensures Happened(cs, n) && Times(At(file, cs, k), n) <= 1 + At(file, cs, k).cutShort
  {
    hide Step;
    SentHappened(file, cs, k, n);
    NoticeBounded(file, cs, k, n);
  }

  lemma AllListed(h: History, cs: seq<Cycle>, most: nat)
    requires forall n :: n in h.sent ==> Happened(cs, n) && Times(h, n) <= most
    ensures forall n :: n in multiset(h.sent) ==> n in AllNotices(cs) && multiset(h.sent)[n] <= most
  {
    hide Happened, AllNotices;
    forall n | n in multiset(h.sent) ensures n in AllNotices(cs) && multiset(h.sent)[n] <= most {
      assert n in h.sent && Times(h, n) <= most;
      HappenedListed(cs, n);
    }
  }

  lemma FewNotices(h: History, cs: seq<Cycle>)
    requires forall n :: n in h.sent ==> Happened(cs, n) && Times(h, n) <= 1 + h.cutShort
    ensures |h.sent| <= (1 + h.cutShort) * (|Pairs(cs)| + |Rooms(cs)|)
  {
    hide *;
    var most := 1 + h.cutShort;
    AllListed(h, cs, most);
    SizeByCounts(multiset(h.sent), AllNotices(cs), most);
    NoticesNoMore(cs);
    MulMonotone(most, |AllNotices(cs)|, |Pairs(cs)| + |Rooms(cs)|);
  }

  /** Over any number of cycles, all notices together number at most the distinct
      challenges plus the rooms, times one more than the cycles cut short. */
  lemma CannotFlood(file: Option<Book>, cs: seq<Cycle>)
    requires ValidAll(cs) && NoReturn(cs)
    ensures |At(file, cs, |cs|).sent| <= (1 + At(file, cs, |cs|).cutShort) * (|Pairs(cs)| + |Rooms(cs)|)
  {
    hide Step;
    var h := At(file, cs, |cs|);
    forall n | n in h.sent ensures Happened(cs, n) && Times(h, n) <= 1 + h.cutShort {
      SentIsFew(file, cs, |cs|, n);
    }
    FewNotices(h, cs);
  }

  lemma MulMonotone(k: nat, a: nat, b: nat)
    requires a <= b
    ensures k * a <= k * b
  {
  }

  // ---- Convergence -----------------------------------------------------------------

  /** Nothing the lobby shows is missing from the record. */
  ghost predicate Settled(book: Book, lobby: LobbyFile) {
    forall r :: r in lobby.rooms ==>
      && (forall u :: u in lobby.rooms[r].challenged ==> u in Entry(book, r).started)
      && (lobby.rooms[r].Bad() ==> Entry(book, r).failed)
  }

  lemma StirsMeans(book: Book, r: Room, v: View)
    ensures !Stirs(book, r, v) ==> !Missed(book, r, v) && (v.Bad() ==> Entry(book, r).failed)
    ensures !Stirs(book, r, v) ==> forall u :: u in v.challenged ==> u in Entry(book, r).started
  {
    NewUsersAre(v.challenged, Entry(book, r).started);
    var us := NewUsers(v.challenged, Entry(book, r).started);
    assert us == [] ==> forall u :: u !in us;
  }

  lemma HasFirst<T>(s: seq<T>)
    ensures s == [] || exists x :: x in s
  {
    assert s == [] || s[0] in s;
  }

  lemma SettledAfter(book: Book, lobby: LobbyFile)
    ensures !Dirty(After(book, lobby), lobby) && Settled(After(book, lobby), lobby)
  {
    var b := After(book, lobby);
    forall r | r in lobby.rooms
      ensures !Stirs(b, r, lobby.rooms[r])
      ensures forall u :: u in lobby.rooms[r].challenged ==> u in Entry(b, r).started
      ensures lobby.rooms[r].Bad() ==> Entry(b, r).failed
    {
      var v := lobby.rooms[r];
      NewUsersAre(v.challenged, Entry(book, r).started);
      NewUsersAre(v.challenged, Entry(b, r).started);
      HasFirst(NewUsers(v.challenged, Entry(b, r).started));
    }
  }

  lemma CleanIsSilent(book: Book, lobby: LobbyFile)
    requires lobby.Valid() && !Dirty(book, lobby)
    ensures CycleNotices(Some(book), lobby) == [] && Settled(book, lobby)
  {
    var ns := CycleNotices(Some(book), lobby);
    PostsDue(Some(book), lobby);
    forall r | r in lobby.rooms ensures !Stirs(book, r, lobby.rooms[r]) {
    }
    forall r | r in lobby.rooms
      ensures forall u :: u in lobby.rooms[r].challenged ==> u in Entry(book, r).started
      ensures lobby.rooms[r].Bad() ==> Entry(book, r).failed
    {
      StirsMeans(book, r, lobby.rooms[r]);
    }
    if ns != [] {
      var n := ns[0];
      assert n in ns && Due(book, lobby.rooms, n);
      StirsMeans(book, n.room, lobby.rooms[n.room]);
    }
  }

  /** After a finished cycle the record lacks nothing the lobby shows, a second cycle on the
      same lobby posts and writes nothing, and the record has exactly the lobby's rooms
      unless there was nothing to save while an open, unchallenged room had no record. */
  lemma Converges(h: History, c: Cycle)
    requires c.lobby.Valid() && c.lobby.rooms != map[] && h.file.Some?
    requires !Cut(h.file, c)
    ensures Step(h, c).file.Some?
    ensures var book := Step(h, c).file.value;
      && Settled(book, c.lobby) && !Dirty(book, c.lobby)
      && (forall sends, saves :: Step(Step(h, c), Cycle(c.lobby, sends, saves)) == Step(h, c))
      && (book.Keys == c.lobby.rooms.Keys
          <==> Dirty(h.file.value, c.lobby) || c.lobby.rooms.Keys <= h.file.value.Keys)
  {
    var book := Step(h, c).file.value;
    if Dirty(h.file.value, c.lobby) {
      SettledAfter(h.file.value, c.lobby);
    } else {
      assert forall r :: r in book ==> r in c.lobby.rooms;
    }
    CleanIsSilent(book, c.lobby);
  }

  /** The first cycle of all posts nothing, takes everything the lobby shows as told, and so keeps
      the next silent too. */
  lemma FirstCycleSettles(lobby: LobbyFile, sends: nat, again: nat)
    requires lobby.Valid() && lobby.rooms != map[]
    ensures var h := Step(History(None, [], 0), Cycle(lobby, sends, true));
      && h.sent == [] && h.cutShort == 0 && h.file.Some?
      && Settled(h.file.value, lobby) && h.file.value.Keys == lobby.rooms.Keys
      && Step(h, Cycle(lobby, again, true)).sent == []
  {
    var book := Seed(lobby);
    forall r | r in lobby.rooms ensures !Stirs(book, r, lobby.rooms[r]) {
      NewUsersAre(lobby.rooms[r].challenged, Entry(book, r).started);
      HasFirst(NewUsers(lobby.rooms[r].challenged, Entry(book, r).started));
    }
    CleanIsSilent(book, lobby);
  }

  // ---- Exactly once ----------------------------------------------------------------

  /** None of the first `k` cycles was cut short. */
  predicate Uncut(file: Option<Book>, cs: seq<Cycle>, k: nat)
    requires ValidAll(cs) && k <= |cs|
  {
    At(file, cs, k).cutShort == 0
  }

  /** The first `k` cycles have only seen the room open, if at all. */
  ghost predicate OpenSoFar(cs: seq<Cycle>, k: nat, r: Room)
    requires k <= |cs|
  {
    forall i {:trigger Sees(cs[i], r)} :: 0 <= i < k && Sees(cs[i], r) ==> !cs[i].lobby.rooms[r].closed
  }

  predicate Uncovered(file: Option<Book>, n: Notice) { file.Some? && !Covered(file.value, n) }

  predicate Has(h: History, n: Notice) { h.file.Some? && Covered(h.file.value, n) }

  /** While a room has only been seen open, the record covers a notice about it only if it
      was posted. */
  lemma {:induction false} CoveredWasSent(file: Option<Book>, cs: seq<Cycle>, k: nat, n: Notice)
    requires ValidAll(cs) && k <= |cs| && OpenSoFar(cs, k, n.room) && Uncovered(file, n)
    ensures At(file, cs, k).file.Some?
    ensures Has(At(file, cs, k), n) ==> n in At(file, cs, k).sent
  {
    hide Step;
    if k > 0 {
      CoveredWasSent(file, cs, k - 1, n);
      assert Sees(cs[k - 1], n.room) ==> !cs[k - 1].lobby.rooms[n.room].closed;
      SentStep(At(file, cs, k - 1), cs[k - 1], n);
      OpenCovers(At(file, cs, k - 1), cs[k - 1], n);
    }
  }

  lemma OpenCovers(h: History, c: Cycle, n: Notice)
    requires c.lobby.Valid() && h.file.Some?
    requires Sees(c, n.room) ==> !c.lobby.rooms[n.room].closed
    ensures Step(h, c).file.Some?
    ensures Has(Step(h, c), n) ==> Has(h, n) || n in Step(h, c).sent
  {
    var book := h.file.value;
    PostsDue(h.file, c.lobby);
    if n.room in c.lobby.rooms && Step(h, c).file == Some(After(book, c.lobby)) {
      var v := c.lobby.rooms[n.room];
      NewUsersAre(v.challenged, Entry(book, n.room).started);
      assert Covered(After(book, c.lobby), n) ==> Covered(book, n) || Due(book, c.lobby.rooms, n);
    }
  }

  lemma SentStep(h: History, c: Cycle, n: Notice)
    requires c.lobby.Valid()
    ensures n in h.sent ==> n in Step(h, c).sent
    ensures h.cutShort <= Step(h, c).cutShort && (h.file.Some? ==> Step(h, c).file.Some?)
  {
  }

  lemma {:induction false} SentStays(file: Option<Book>, cs: seq<Cycle>, j: nat, k: nat, n: Notice)
    requires ValidAll(cs) && j <= k <= |cs|
    ensures n in At(file, cs, j).sent ==> n in At(file, cs, k).sent
    ensures At(file, cs, j).cutShort <= At(file, cs, k).cutShort
    ensures At(file, cs, j).file.Some? ==> At(file, cs, k).file.Some?
    decreases k
  {
    hide Step;
    if j < k {
      SentStays(file, cs, j, k - 1, n);
      SentStep(At(file, cs, k - 1), cs[k - 1], n);
    }
  }

  lemma DueIsSent(h: History, c: Cycle, n: Notice)
    requires c.lobby.Valid() && h.file.Some? && Step(h, c).cutShort == h.cutShort
    requires Due(h.file.value, c.lobby.rooms, n)
    ensures n in Step(h, c).sent
  {
    PostsDue(h.file, c.lobby);
  }

  lemma DueAt(file: Option<Book>, cs: seq<Cycle>, k: nat, n: Notice)
    requires ValidAll(cs) && Uncut(file, cs, |cs|) && k < |cs| && At(file, cs, k).file.Some?
    requires Due(At(file, cs, k).file.value, cs[k].lobby.rooms, n)
    ensures n in At(file, cs, |cs|).sent
  {
    hide Step;
    SentStays(file, cs, k, k + 1, n);
    SentStays(file, cs, k + 1, |cs|, n);
    DueIsSent(At(file, cs, k), cs[k], n);
  }

  lemma OnceSent(file: Option<Book>, cs: seq<Cycle>, n: Notice)
    requires ValidAll(cs) && NoReturn(cs) && Uncut(file, cs, |cs|) && n in At(file, cs, |cs|).sent
    ensures Times(At(file, cs, |cs|), n) == 1
  {
    hide Step;
    NoticeBounded(file, cs, |cs|, n);
    SentCounts(At(file, cs, |cs|), n);
  }

  lemma SentCounts(h: History, n: Notice)
    ensures n in h.sent <==> 1 <= Times(h, n)
  {
  }

  /** If a cycle finds `n` covered or due, and the record missed nothing about its room up
      to there, the whole run posts `n` exactly once. */
  lemma OnceDue(file: Option<Book>, cs: seq<Cycle>, k: nat, n: Notice)
    requires ValidAll(cs) && NoReturn(cs) && Uncut(file, cs, |cs|) && Uncovered(file, n)
    requires k < |cs| && OpenSoFar(cs, k, n.room)
    ensures At(file, cs, k).file.Some?
    ensures Has(At(file, cs, k), n) || Due(At(file, cs, k).file.value, cs[k].lobby.rooms, n)
      ==> Times(At(file, cs, |cs|), n) == 1
  {
    hide Step;
    CoveredWasSent(file, cs, k, n);
    if Has(At(file, cs, k), n) {
      SentStays(file, cs, k, |cs|, n);
      OnceSent(file, cs, n);
    } else if Due(At(file, cs, k).file.value, cs[k].lobby.rooms, n) {
      DueAt(file, cs, k, n);
      OnceSent(file, cs, n);
    }
  }

  /** A user seen challenged in an open room, any time after the record was first seeded,
      is announced exactly once, whatever happens to the room afterwards. */
  lemma UserOnce(file: Option<Book>, cs: seq<Cycle>, k: nat, r: Room, u: User)
    requires ValidAll(cs) && NoReturn(cs) && Uncut(file, cs, |cs|) && Uncovered(file, Started(r, u))
    requires k < |cs| && OpenSoFar(cs, k + 1, r) && Sees(cs[k], r) && u in cs[k].lobby.rooms[r].challenged
    ensures Times(At(file, cs, |cs|), Started(r, u)) == 1
  {
    hide Step;
    CoveredWasSent(file, cs, k, Started(r, u));
    OnceDue(file, cs, k, Started(r, u));
  }

  // ---- Exactly when a failure is told ----------------------------------------------

  lemma OpenPostsNoFailure(h: History, c: Cycle, r: Room)
    requires c.lobby.Valid() && (Sees(c, r) ==> !c.lobby.rooms[r].closed)
    ensures Failed(r) in Step(h, c).sent ==> Failed(r) in h.sent
  {
    PostsDue(h.file, c.lobby);
    assert Failed(r) !in CycleNotices(h.file, c.lobby);
  }

  /** While a room has only been seen open, no failure of it is posted. */
  lemma {:induction false} OpenNeverFailed(file: Option<Book>, cs: seq<Cycle>, k: nat, r: Room)
    requires ValidAll(cs) && k <= |cs| && OpenSoFar(cs, k, r)
    ensures Failed(r) !in At(file, cs, k).sent
  {
    hide Step;
    if k > 0 {
      OpenNeverFailed(file, cs, k - 1, r);
      assert Sees(cs[k - 1], r) ==> !cs[k - 1].lobby.rooms[r].closed;
      OpenPostsNoFailure(At(file, cs, k - 1), cs[k - 1], r);
    }
  }

  /** A step posts nothing the record covers, and the record goes on covering it. */
  lemma CoveredIsSilent(h: History, c: Cycle, n: Notice)
    requires c.lobby.Valid() && h.file.Some? && n !in h.sent
    requires Sees(c, n.room) ==> Has(h, n)
    ensures n !in Step(h, c).sent && Step(h, c).file.Some?
    ensures Sees(c, n.room) ==> Has(Step(h, c), n)
  {
    PostsDue(h.file, c.lobby);
    assert n !in CycleNotices(h.file, c.lobby);
    if Sees(c, n.room) {
      FileCovers(h.file, c.lobby, n);
    }
  }

  /** A notice taken for posted before is never posted later. */
  lemma {:induction false} SilentAfter(file: Option<Book>, cs: seq<Cycle>, j: nat, k: nat, n: Notice)
    requires ValidAll(cs) && NoReturn(cs) && j < k <= |cs| && Sees(cs[j], n.room)
    requires Has(At(file, cs, j + 1), n) && n !in At(file, cs, j + 1).sent
    ensures n !in At(file, cs, k).sent && At(file, cs, k).file.Some?
    ensures Sees(cs[k - 1], n.room) ==> Has(At(file, cs, k), n)
    decreases k
  {
    hide Step;
    if j + 1 < k {
      SilentAfter(file, cs, j, k - 1, n);
      if Sees(cs[k - 1], n.room) {
        StillThere(cs, k - 1, n.room);
      }
      CoveredIsSilent(At(file, cs, k - 1), cs[k - 1], n);
    }
  }

  /** A room first recorded when it is already closed is taken as announced. */
  lemma MissedIsSilent(h: History, c: Cycle, r: Room)
    requires c.lobby.Valid() && h.file.Some? && Step(h, c).cutShort == h.cutShort
    requires Sees(c, r) && r !in h.file.value && c.lobby.rooms[r].Bad() && Failed(r) !in h.sent
    ensures Failed(r) !in Step(h, c).sent && Has(Step(h, c), Failed(r))
  {
    PostsDue(h.file, c.lobby);
    assert Stirs(h.file.value, r, c.lobby.rooms[r]);
  }

  /** When a room so far only seen open is found closed for a bad reason with somebody still
      challenged, its failure is posted once over the whole run if the record had the room by
      then, and never if it had not. */
  lemma FailureTimes(file: Option<Book>, cs: seq<Cycle>, k: nat, r: Room)
    requires ValidAll(cs) && NoReturn(cs) && Uncut(file, cs, |cs|) && Uncovered(file, Failed(r))
    requires k < |cs| && OpenSoFar(cs, k, r) && Sees(cs[k], r)
    requires cs[k].lobby.rooms[r].Bad() && !cs[k].lobby.rooms[r].Deserted()
    ensures At(file, cs, k).file.Some?
    ensures Times(At(file, cs, |cs|), Failed(r)) == if r in At(file, cs, k).file.value then 1 else 0
  {
    hide Step;
    CoveredWasSent(file, cs, k, Failed(r));
    if r in At(file, cs, k).file.value {
      OnceDue(file, cs, k, Failed(r));
    } else {
      NeverTold(file, cs, k, r);
    }
  }

  lemma NeverTold(file: Option<Book>, cs: seq<Cycle>, k: nat, r: Room)
    requires ValidAll(cs) && NoReturn(cs) && Uncut(file, cs, |cs|) && k < |cs| && At(file, cs, k).file.Some?
    requires OpenSoFar(cs, k, r) && Sees(cs[k], r)
    requires cs[k].lobby.rooms[r].Bad() && r !in At(file, cs, k).file.value
    ensures Times(At(file, cs, |cs|), Failed(r)) == 0
  {
    hide Step;
    OpenNeverFailed(file, cs, k, r);
    SentStays(file, cs, k, k + 1, Failed(r));
    SentStays(file, cs, k + 1, |cs|, Failed(r));
    MissedIsSilent(At(file, cs, k), cs[k], r);
    SilentAfter(file, cs, k, |cs|, Failed(r));
    SentCounts(At(file, cs, |cs|), Failed(r));
  }

  /** Cycle `i` saw the room and had something to save. */
  predicate Recorded(file: Option<Book>, cs: seq<Cycle>, i: nat, r: Room)
    requires ValidAll(cs)
  {
    && i < |cs| && Sees(cs[i], r)
    && At(file, cs, i).file.Some? && Dirty(At(file, cs, i).file.value, cs[i].lobby)
  }

  predicate InRecord(h: History, r: Room) { h.file.Some? && r in h.file.value }

  lemma RecordedStep(h: History, c: Cycle, r: Room)
    requires c.lobby.Valid() && h.file.Some? && Step(h, c).cutShort == h.cutShort && Sees(c, r)
    ensures Step(h, c).file.Some?
    ensures InRecord(Step(h, c), r) <==> InRecord(h, r) || Dirty(h.file.value, c.lobby)
  {
  }

  lemma UnseenStep(h: History, c: Cycle, r: Room)
    requires c.lobby.Valid() && h.file.Some? && !Sees(c, r)
    ensures Step(h, c).file.Some? && (InRecord(Step(h, c), r) ==> InRecord(h, r))
  {
  }

  /** The record only has rooms it started with or a cycle saw. */
  lemma {:induction false} OnlySeen(file: Option<Book>, cs: seq<Cycle>, k: nat, r: Room)
    requires ValidAll(cs) && k <= |cs| && file.Some? && r !in file.value && !Seen(cs, k, r)
    ensures At(file, cs, k).file.Some? && !InRecord(At(file, cs, k), r)
  {
    hide Step;
    if k > 0 {
      OnlySeen(file, cs, k - 1, r);
      UnseenStep(At(file, cs, k - 1), cs[k - 1], r);
    }
  }

  lemma RecordedNext(file: Option<Book>, cs: seq<Cycle>, k: nat, r: Room)
    requires ValidAll(cs) && k < |cs| && Uncut(file, cs, k + 1) && file.Some? && Sees(cs[k], r)
    ensures Uncut(file, cs, k)
    ensures InRecord(At(file, cs, k + 1), r) <==> InRecord(At(file, cs, k), r) || Recorded(file, cs, k, r)
  {
    hide Step, Dirty;
    SentStays(file, cs, 0, k, Failed(r));
    SentStep(At(file, cs, k), cs[k], Failed(r));
    RecordedStep(At(file, cs, k), cs[k], r);
  }

  /** The record has a room that the lobby file has kept exactly when some cycle saw it and had
      something to save, on account of any room. */
  lemma {:induction false} RecordedIff(file: Option<Book>, cs: seq<Cycle>, k: nat, r: Room)
    requires ValidAll(cs) && NoReturn(cs) && k < |cs| && Uncut(file, cs, k) && file.Some? && r !in file.value
    requires Sees(cs[k], r)
    ensures InRecord(At(file, cs, k), r) <==> exists i :: 0 <= i < k && Recorded(file, cs, i, r)
  {
    hide At, Recorded;
    if Seen(cs, k, r) {
      StillThere(cs, k, r);
      RecordedNext(file, cs, k - 1, r);
      RecordedIff(file, cs, k - 1, r);
    } else {
      OnlySeen(file, cs, k, r);
      forall i | 0 <= i < k ensures !Recorded(file, cs, i, r) {
        UnseenUnrecorded(file, cs, i, r);
      }
    }
  }

  lemma UnseenUnrecorded(file: Option<Book>, cs: seq<Cycle>, i: nat, r: Room)
    requires ValidAll(cs) && i < |cs| && !Sees(cs[i], r)
    ensures !Recorded(file, cs, i, r)
  {
  }

  /** So for a room the record did not start with: its failure is told, once, if and only if
      some cycle that saw it open had something to save. */
  lemma FailureIff(file: Option<Book>, cs: seq<Cycle>, k: nat, r: Room)
    requires ValidAll(cs) && NoReturn(cs) && Uncut(file, cs, |cs|) && file.Some? && r !in file.value
    requires k < |cs| && OpenSoFar(cs, k, r) && Sees(cs[k], r)
    requires cs[k].lobby.rooms[r].Bad() && !cs[k].lobby.rooms[r].Deserted()
    ensures Times(At(file, cs, |cs|), Failed(r))
         == if exists i :: 0 <= i < k && Recorded(file, cs, i, r) then 1 else 0
  {
    hide Step;
    SentStays(file, cs, k, |cs|, Failed(r));
    FailureTimes(file, cs, k, r);
    RecordedIff(file, cs, k, r);
  }

  lemma ChallengedStirs(h: History, c: Cycle, r: Room)
    requires h.file.Some? && Sees(c, r) && c.lobby.rooms[r].challenged != [] && r !in h.file.value
    ensures Dirty(h.file.value, c.lobby)
  {
    var v := c.lobby.rooms[r];
    NewUsersAre(v.challenged, []);
    assert v.challenged[0] in NewUsers(v.challenged, []);
    assert Stirs(h.file.value, r, v);
  }

  /** A room the lobby file keeps stays in the record. */
  lemma {:induction false} StaysRecorded(file: Option<Book>, cs: seq<Cycle>, j: nat, k: nat, r: Room)
    requires ValidAll(cs) && NoReturn(cs) && j < k < |cs| && Uncut(file, cs, k) && file.Some?
    requires Sees(cs[j], r) && Sees(cs[k], r)
    ensures InRecord(At(file, cs, j + 1), r) ==> InRecord(At(file, cs, k), r)
    decreases k
  {
    hide At, Recorded;
    if j + 1 < k {
      assert Seen(cs, k, r);
      StillThere(cs, k, r);
      RecordedNext(file, cs, k - 1, r);
      StaysRecorded(file, cs, j, k - 1, r);
    }
  }

  lemma ChallengedRecorded(file: Option<Book>, cs: seq<Cycle>, j: nat, r: Room)
    requires ValidAll(cs) && j < |cs| && Uncut(file, cs, j + 1) && file.Some?
    requires Sees(cs[j], r) && cs[j].lobby.rooms[r].challenged != []
    ensures InRecord(At(file, cs, j + 1), r)
  {
    hide Step, Dirty;
    SentStays(file, cs, 0, j, Failed(r));
    RecordedNext(file, cs, j, r);
    if !InRecord(At(file, cs, j), r) {
      ChallengedStirs(At(file, cs, j), cs[j], r);
    }
  }

  /** In particular, a room once seen open with a challenged user, and later found closed for a
      bad reason with somebody still challenged, yields exactly one failure notice. */
  lemma FailureOnce(file: Option<Book>, cs: seq<Cycle>, j: nat, k: nat, r: Room)
    requires ValidAll(cs) && NoReturn(cs) && Uncut(file, cs, |cs|) && Uncovered(file, Failed(r))
    requires j < k < |cs| && OpenSoFar(cs, k, r) && Sees(cs[k], r)
    requires Sees(cs[j], r) && cs[j].lobby.rooms[r].challenged != []
    requires cs[k].lobby.rooms[r].Bad() && !cs[k].lobby.rooms[r].Deserted()
    ensures Times(At(file, cs, |cs|), Failed(r)) == 1
  {
    hide At;
    SentStays(file, cs, j + 1, |cs|, Failed(r));
    SentStays(file, cs, k, |cs|, Failed(r));
    ChallengedRecorded(file, cs, j, r);
    StaysRecorded(file, cs, j, k, r);
    FailureTimes(file, cs, k, r);
  }

  /** Such a silence, from the record a first cycle on room 3 writes: a cycle that also sees
      room 7, open and not yet joined, saves nothing; the next finds it timed out with a user. */
  lemma UnrecordedFailureIsSilent()
    ensures var told := View([1], false, None);
      var three := LobbyFile([3], map[3 := told]);
      var open := LobbyFile([3, 7], map[3 := told, 7 := View([], false, None)]);
      var shut := LobbyFile([3, 7], map[3 := told, 7 := View([1], true, Some(L.TimedOut))]);
      var h := Step(History(None, [], 0), Cycle(three, 9, true));
      && three.Valid() && open.Valid() && shut.Valid()
      && h == History(Some(map[3 := Rec([1], false)]), [], 0)
      && Step(h, Cycle(open, 9, true)) == h
      && Step(h, Cycle(shut, 9, true)) == h.(file := Some(map[3 := Rec([1], false), 7 := Rec([1], true)]))
  {
    var told := View([1], false, None);
    assert Seed(LobbyFile([3], map[3 := told])) == map[3 := Rec([1], false)];
    TwoRoomCycle(LobbyFile([3, 7], map[3 := told, 7 := View([], false, None)]), 3, 7, Rec([1], false));
    TwoRoomCycle(LobbyFile([3, 7], map[3 := told, 7 := View([1], true, Some(L.TimedOut))]), 3, 7, Rec([1], false));
  }

  /** A cycle over a room that is all told and one that is unrecorded with nothing to post. */
  lemma TwoRoomCycle(lobby: LobbyFile, q: Room, r: Room, rec: Rec)
    requires q != r && lobby.order == [q, r] && lobby.rooms.Keys == {q, r}
    requires NewUsers(lobby.rooms[q].challenged, rec.started) == [] && !lobby.rooms[q].Bad()
    requires lobby.rooms[r].closed || lobby.rooms[r].challenged == []
    ensures lobby.Valid() && CycleNotices(Some(map[q := rec]), lobby) == []
    ensures FileAfter(Some(map[q := rec]), lobby)
         == Some(if lobby.rooms[r].closed then map[q := rec, r := Seeded(lobby.rooms[r])] else map[q := rec])
  {
    var book := map[q := rec];
    assert Notices(book, lobby, 2) == Notices(book, lobby, 1) + RoomNotices(book, r, lobby.rooms[r]);
    assert Notices(book, lobby, 1) == Notices(book, lobby, 0) + RoomNotices(book, q, lobby.rooms[q]);
    assert Stirs(book, r, lobby.rooms[r]) <==> lobby.rooms[r].closed;
    if lobby.rooms[r].closed {
      assert rec.started + [] == rec.started;
      assert After(book, lobby) == map[q := rec, r := Seeded(lobby.rooms[r])];
    }
  }

  /** A lobby of one room with one user challenged. */
  ghost predicate OneUser(lobby: LobbyFile, r: Room) {
    lobby.order == [r] && lobby.rooms.Keys == {r} && |lobby.rooms[r].challenged| == 1
  }

  /** Its cycle posts at most that user and the room's failure. */
  lemma OneUserPosts(h: History, lobby: LobbyFile, r: Room, sends: nat)
    requires OneUser(lobby, r) && h.file.Some? && 2 <= sends
    ensures lobby.Valid() && Step(h, Cycle(lobby, sends, true)).cutShort == h.cutShort
    ensures Step(h, Cycle(lobby, sends, true)).file.Some?
  {
    assert Notices(h.file.value, lobby, 1)
        == Notices(h.file.value, lobby, 0) + RoomNotices(h.file.value, r, lobby.rooms[r]);
    assert |NewUsers(lobby.rooms[r].challenged, Entry(h.file.value, r).started)| <= 1;
  }

  /** With a user challenged when it was seen open, the same failure is announced once. */
  lemma RecordedFailureIsTold(book: Book, a: LobbyFile, b: LobbyFile, r: Room, sends: nat)
    requires OneUser(a, r) && OneUser(b, r) && 2 <= sends && !Covered(book, Failed(r))
    requires !a.rooms[r].closed && b.rooms[r].closed && b.rooms[r].reason == Some(L.TimedOut)
    ensures var cs := [Cycle(a, sends, true), Cycle(b, sends, true)];
      ValidAll(cs) && NoReturn(cs) && Uncut(Some(book), cs, 2) && Times(At(Some(book), cs, 2), Failed(r)) == 1
  {
    hide Step;
    var cs := [Cycle(a, sends, true), Cycle(b, sends, true)];
    OneUserPosts(At(Some(book), cs, 0), a, r, sends);
    OneUserPosts(At(Some(book), cs, 1), b, r, sends);
    FailureOnce(Some(book), cs, 0, 1, r);
  }

  // ---- announce_lobby_events -------------------------------------------------------

  lemma {:induction false} GatherPrefix(order: seq<Room>, posts: map<Room, seq<Notice>>, i: nat, n: nat)
    requires i <= n <= |order| && forall r :: r in order ==> r in posts
    ensures Gather(order, posts, i) <= Gather(order, posts, n)
    decreases n
  {
    if i < n {
      GatherPrefix(order, posts, i, n - 1);
    }
  }

  lemma NoticesPrefix(book: Book, lobby: LobbyFile, i: nat, n: nat)
    requires lobby.Valid() && i <= n <= |lobby.order|
    ensures Notices(book, lobby, i) <= Notices(book, lobby, n)
  {
    GatherPrefix(lobby.order, Posts(book, lobby.rooms), i, n);
  }

  lemma SameEntry(seen: Book, book: Book, r: Room, v: View)
    requires (r in seen <==> r in book) && Entry(seen, r) == Entry(book, r)
    ensures RoomNotices(seen, r, v) == RoomNotices(book, r, v)
    ensures RoomAfter(seen, r, v) == RoomAfter(book, r, v)
    ensures Stirs(seen, r, v) == Stirs(book, r, v)
  {
  }

  lemma CutJoins<T>(a: seq<T>, b: seq<T>, all: seq<T>, n: nat)
    requires |a| <= n < |a + b| && a + b <= all
    ensures a + b[..n - |a|] == all[..n]
  {
    assert all[..n] == (a + b)[..n];
  }

  /** The record in memory once the first `n` rooms are dealt with. */
  function SeenAfter(book: Book, lobby: LobbyFile, n: nat): Book
    requires lobby.Listed() && n <= |lobby.order|
  {
    if n == 0 then book
    else
      var r := lobby.order[n - 1];
      SeenAfter(book, lobby, n - 1)[r := RoomAfter(book, r, lobby.rooms[r])]
  }

  lemma {:induction false} SeenIs(book: Book, lobby: LobbyFile, n: nat, r: Room)
    requires lobby.Listed() && n <= |lobby.order|
    ensures var seen := SeenAfter(book, lobby, n);
      if exists i :: 0 <= i < n && lobby.order[i] == r
      then r in seen && seen[r] == RoomAfter(book, r, lobby.rooms[r])
      else (r in seen <==> r in book) && Entry(seen, r) == Entry(book, r)
  {
    if n > 0 {
      SeenIs(book, lobby, n - 1, r);
    }
  }

  predicate AnyStirs(book: Book, lobby: LobbyFile, n: nat)
    requires lobby.Listed() && n <= |lobby.order|
  {
    n > 0 && (AnyStirs(book, lobby, n - 1) || Stirs(book, lobby.order[n - 1], lobby.rooms[lobby.order[n - 1]]))
  }

  lemma {:induction false} AnyStirsMeans(book: Book, lobby: LobbyFile, n: nat)
    requires lobby.Valid() && n <= |lobby.order|
    ensures AnyStirs(book, lobby, n)
        <==> exists i :: 0 <= i < n && Stirs(book, lobby.order[i], lobby.rooms[lobby.order[i]])
  {
    if n > 0 {
      AnyStirsMeans(book, lobby, n - 1);
    }
  }

  lemma DirtyIs(book: Book, lobby: LobbyFile)
    requires lobby.Valid()
    ensures Dirty(book, lobby)
        <==> AnyStirs(book, lobby, |lobby.order|) || book.Keys - lobby.rooms.Keys != {}
  {
    AnyStirsMeans(book, lobby, |lobby.order|);
    if r :| r in lobby.rooms && Stirs(book, r, lobby.rooms[r]) {
      assert r in lobby.order;
    }
    if book.Keys - lobby.rooms.Keys != {} {
      var r :| r in book.Keys - lobby.rooms.Keys;
      assert r in book && r !in lobby.rooms;
    }
    if r :| r in book && r !in lobby.rooms {
      assert r in book.Keys - lobby.rooms.Keys;
    }
  }

  /** A room not yet dealt with is, in memory, as it was on disk. */
  lemma NextUntouched(book: Book, lobby: LobbyFile, i: nat)
    requires lobby.Valid() && i < |lobby.order|
    ensures var seen := SeenAfter(book, lobby, i); var r := lobby.order[i]; var v := lobby.rooms[r];
      && RoomNotices(seen, r, v) == RoomNotices(book, r, v)
      && RoomAfter(seen, r, v) == RoomAfter(book, r, v) && Stirs(seen, r, v) == Stirs(book, r, v)
  {
    SeenIs(book, lobby, i, lobby.order[i]);
    SameEntry(SeenAfter(book, lobby, i), book, lobby.order[i], lobby.rooms[lobby.order[i]]);
  }

  /** With the vanished rooms dropped, the record in memory is the one to save. */
  lemma SeenAll(book: Book, lobby: LobbyFile)
    requires lobby.Valid()
    ensures var seen := SeenAfter(book, lobby, |lobby.order|);
      && seen.Keys - lobby.rooms.Keys == book.Keys - lobby.rooms.Keys
      && seen - (book.Keys - lobby.rooms.Keys) == After(book, lobby)
  {
    var seen := SeenAfter(book, lobby, |lobby.order|);
    forall r
      ensures r in lobby.rooms ==> r in seen && seen[r] == RoomAfter(book, r, lobby.rooms[r])
      ensures r !in lobby.rooms ==> (r in seen <==> r in book)
    {
      SeenIs(book, lobby, |lobby.order|, r);
      assert r in lobby.rooms ==> r in lobby.order;
    }
  }

  lemma StartsSnoc(r: Room, told: seq<User>, u: User)
    ensures Starts(r, told + [u]) == Starts(r, told) + [Started(r, u)]
  {
  }

  lemma StartsPrefix(r: Room, told: seq<User>, rest: seq<User>)
    ensures Starts(r, told + rest)[..|told|] == Starts(r, told)
  {
  }

  lemma Assoc<T>(a: seq<T>, b: seq<T>, c: seq<T>)
    ensures (a + b) + c == a + (b + c)
  {
  }

  lemma NoNewUsers(challenged: seq<User>)
    ensures forall started :: NewUsers(challenged[|challenged|..], started) == []
  {
  }

  lemma NewUsersNext(challenged: seq<User>, i: nat, started: seq<User>)
    requires i < |challenged|
    ensures var u := challenged[i];
      NewUsers(challenged[i..], started) ==
        if u in started then NewUsers(challenged[i + 1..], started)
        else [u] + NewUsers(challenged[i + 1..], started + [u])
  {
    assert challenged[i..][1..] == challenged[i + 1..];
  }

  class Announcer {
    var file: Option<Book>
    var sent: seq<Notice>
    var left: nat    // sends that succeed before one raises

    constructor (found: Option<Book>)
      ensures file == found && sent == [] && left == 0
    {
      file, sent, left := found, [], 0;
    }

    method SendMsg(n: Notice) returns (ok: bool)
      modifies this`sent, this`left
      ensures ok == (old(left) > 0)
      ensures ok ==> sent == old(sent) + [n] && left == old(left) - 1
      ensures !ok ==> sent == old(sent) && left == old(left)
    {
      ok := left > 0;
      if ok {
        sent, left := sent + [n], left - 1;
      }
    }

    /** Post as much of `ns` as the sends allow. */
    ghost predicate Posted(sent0: seq<Notice>, left0: nat, ns: seq<Notice>)
      reads this
    {
      |ns| <= left0 && sent == sent0 + ns && left == left0 - |ns|
    }

    /** The sends ran out part-way through `ns`. */
    ghost predicate CutAt(sent0: seq<Notice>, left0: nat, ns: seq<Notice>)
      reads this
    {
      left0 < |ns| && sent == sent0 + ns[..left0] && left == 0
    }

    /** The loop over one room's challenged users. */
    method AnnounceUsers(r: Room, challenged: seq<User>, known: seq<User>)
      returns (started: seq<User>, dirty: bool, ok: bool)
      modifies this`sent, this`left
      ensures ok ==> started == known + NewUsers(challenged, known)
      ensures ok ==> dirty == (NewUsers(challenged, known) != [])
      ensures ok ==> Posted(old(sent), old(left), Starts(r, NewUsers(challenged, known)))
      ensures !ok ==> CutAt(old(sent), old(left), Starts(r, NewUsers(challenged, known)))
    {
      started, dirty, ok := known, false, true;
      ghost var told: seq<User> := [];
      ghost var all := NewUsers(challenged, known);
      assert challenged[0..] == challenged && Starts(r, told) == [];
      NoNewUsers(challenged);
      hide NewUsers, Starts;
      var i := 0;
      while i < |challenged|
        invariant 0 <= i <= |challenged| && dirty == (told != [])
        invariant started == known + told && all == told + NewUsers(challenged[i..], started)
        invariant Posted(old(sent), old(left), Starts(r, told))
      {
        NewUsersNext(challenged, i, started);
        if challenged[i] !in started {
          StartsPrefix(r, told, NewUsers(challenged[i..], started));
          ok := SendMsg(Started(r, challenged[i]));
          if !ok {
            return;
          }
          StartsSnoc(r, told, challenged[i]);
          Assoc(old(sent), Starts(r, told), [Started(r, challenged[i])]);
          Assoc(known, told, [challenged[i]]);
          Assoc(told, [challenged[i]], NewUsers(challenged[i + 1..], started + [challenged[i]]));
          started, told := started + [challenged[i]], told + [challenged[i]];
          dirty := true;
        }
        i := i + 1;
      }
    }

    /** What the cycle does about one room it has a record of, or opens one for. */
    method AnnounceRoom(r: Room, v: View, rec: Rec) returns (now: Rec, dirty: bool, ok: bool)
      modifies this`sent, this`left
      ensures var ns := Starts(r, NewUsers(v.challenged, rec.started))
                          + if v.Bad() && !rec.failed && !v.Deserted() then [Failed(r)] else [];
        if ok then
          && now == Rec(rec.started + NewUsers(v.challenged, rec.started), rec.failed || v.Bad())
          && dirty == (NewUsers(v.challenged, rec.started) != [] || (v.Bad() && !rec.failed))
          && Posted(old(sent), old(left), ns)
        else CutAt(old(sent), old(left), ns)
    {
      now := rec;
      var started;
      started, dirty, ok := AnnounceUsers(r, v.challenged, rec.started);
      ghost var ns := Starts(r, NewUsers(v.challenged, rec.started));
      if !ok {
        assert (ns + [Failed(r)])[..old(left)] == ns[..old(left)];
        return;
      }
      now := now.(started := started);
      if v.closed && !rec.failed
         && v.reason != None && v.reason != Some(L.Promoted) && v.reason != Some(L.AlreadyMember) {
        if v.reason == Some(L.TimedOut) && v.challenged == [] {
          now, dirty := now.(failed := true), true;
          return;
        }
        ok := SendMsg(Failed(r));
        if ok {
          now, dirty := now.(failed := true), true;
        } else {
          assert (ns + [Failed(r)])[..old(left)] == ns;
        }
      }
    }

    /** The first cycle: everything the lobby shows is taken as announced. */
    method SeedRecord(lobby: LobbyFile)
      requires lobby.Valid()
      modifies this`file
      ensures file == Some(Seed(lobby))
    {
      var seen: Book := map[];
      var i := 0;
      while i < |lobby.order|
        invariant 0 <= i <= |lobby.order|
        invariant forall r :: r in seen <==> r in lobby.order[..i]
        invariant forall r :: r in seen ==> r in lobby.rooms && seen[r] == Seeded(lobby.rooms[r])
      {
        var r := lobby.order[i];
        seen := seen[r := Rec(lobby.rooms[r].challenged, lobby.rooms[r].Bad())];
        i := i + 1;
      }
      assert lobby.order[..i] == lobby.order;
      assert seen.Keys == lobby.rooms.Keys;
      assert seen == Seed(lobby);
      file := Some(seen);
    }

    /** The body of the loop over rooms. */
    method VisitRoom(book: Book, r: Room, v: View) returns (seen: Book, dirty: bool, ok: bool)
      modifies this`sent, this`left
      ensures ok ==> seen == book[r := RoomAfter(book, r, v)] && dirty == Stirs(book, r, v)
      ensures ok ==> Posted(old(sent), old(left), RoomNotices(book, r, v))
      ensures !ok ==> CutAt(old(sent), old(left), RoomNotices(book, r, v))
    {
      if r !in book && v.closed {
        return book[r := Rec(v.challenged, v.Bad())], true, true;
      }
      var rec := if r in book then book[r] else Rec([], false);
      rec, dirty, ok := AnnounceRoom(r, v, rec);
      seen := book[r := rec];
    }

    /** `told` then `here`, both within `all`: posting carries over. */
    lemma PostedThen(s0: seq<Notice>, l0: nat, s1: seq<Notice>, l1: nat,
                     told: seq<Notice>, here: seq<Notice>, all: seq<Notice>)
      requires |told| <= l0 && s1 == s0 + told && l1 == l0 - |told| && told + here <= all
      ensures Posted(s1, l1, here) ==> Posted(s0, l0, told + here)
      ensures CutAt(s1, l1, here) ==> CutAt(s0, l0, all)
    {
      if CutAt(s1, l1, here) {
        CutJoins(told, here, all, l0);
        assert sent == s0 + (told + here[..l1]);
      }
    }

    /** The first `i` rooms are dealt with, posting from `l0` sends onto `s0`. */
    ghost predicate Progress(seen: Book, dirty: bool, book: Book, lobby: LobbyFile, i: nat, s0: seq<Notice>, l0: nat)
      requires lobby.Valid() && i <= |lobby.order|
      reads this
    {
      && seen == SeenAfter(book, lobby, i)
      && dirty == AnyStirs(book, lobby, i)
      && Posted(s0, l0, Notices(book, lobby, i))
    }

    method VisitNext(ghost book: Book, been: Book, stirred: bool, lobby: LobbyFile, i: nat,
                     ghost s0: seq<Notice>, ghost l0: nat)
      returns (seen: Book, dirty: bool, ok: bool)
      requires lobby.Valid() && i < |lobby.order|
      requires Progress(been, stirred, book, lobby, i, s0, l0)
      modifies this`sent, this`left
      ensures ok ==> Progress(seen, dirty, book, lobby, i + 1, s0, l0)
      ensures !ok ==> CutAt(s0, l0, Notices(book, lobby, |lobby.order|))
    {
      var r := lobby.order[i];
      ghost var s1, l1 := sent, left;
      NextUntouched(book, lobby, i);
      seen, dirty, ok := VisitRoom(been, r, lobby.rooms[r]);
      dirty := stirred || dirty;
      NoticesPrefix(book, lobby, i + 1, |lobby.order|);
      PostedThen(s0, l0, s1, l1, Notices(book, lobby, i), RoomNotices(book, r, lobby.rooms[r]),
                 Notices(book, lobby, |lobby.order|));
    }

    lemma NothingDone(book: Book, lobby: LobbyFile)
      requires lobby.Valid()
      ensures Progress(book, false, book, lobby, 0, sent, left)
    {
    }

    /** The loop over rooms. */
    method VisitAll(book: Book, lobby: LobbyFile) returns (seen: Book, dirty: bool, ok: bool)
      requires lobby.Valid()
      modifies this`sent, this`left
      ensures ok ==> Progress(seen, dirty, book, lobby, |lobby.order|, old(sent), old(left))
      ensures !ok ==> CutAt(old(sent), old(left), Notices(book, lobby, |lobby.order|))
    {
      seen, dirty, ok := book, false, true;
      NothingDone(book, lobby);
      var i := 0;
      while i < |lobby.order|
        invariant 0 <= i <= |lobby.order| && ok
        invariant Progress(seen, dirty, book, lobby, i, old(sent), old(left))
      {
        seen, dirty, ok := VisitNext(book, seen, dirty, lobby, i, old(sent), old(left));
        if !ok {
          return;
        }
        i := i + 1;
      }
    }

    /** `announce_lobby_events`: one cycle over the lobby file just read; `saves` says whether the
        process lives to write the record. */
    method AnnounceLobbyEvents(lobby: LobbyFile, saves: bool) returns (ok: bool)
      requires lobby.Valid()
      modifies this
      ensures Step(History(old(file), old(sent), 0), Cycle(lobby, old(left), saves))
           == History(file, sent, if ok then 0 else 1)
    {
      ok := true;
      if lobby.order == [] {
        assert lobby.rooms == map[];
        assert sent + [] == sent;
        return;
      }
      assert lobby.order[0] in lobby.rooms;
      if file.None? {
        assert sent + [] == sent;
        if !saves {
          return false;
        }
        SeedRecord(lobby);
        return;
      }
      ghost var book := file.value;
      var seen, dirty;
      seen, dirty, ok := VisitAll(file.value, lobby);
      if !ok {
        return;
      }
      ok := SaveChanges(book, seen, dirty, lobby, saves);
    }

    /** Drop the records of rooms that are gone, and save if anything changed. */
    method SaveChanges(ghost book: Book, seen: Book, dirty: bool, lobby: LobbyFile, saves: bool)
      returns (ok: bool)
      requires lobby.Valid() && file == Some(book)
      requires seen == SeenAfter(book, lobby, |lobby.order|) && dirty == AnyStirs(book, lobby, |lobby.order|)
      modifies this`file
      ensures ok == (saves || !Dirty(book, lobby))
      ensures file == Some(if Dirty(book, lobby) && saves then After(book, lobby) else book)
    {
      ok := true;
      var gone := seen.Keys - lobby.rooms.Keys;
      DirtyIs(book, lobby);
      SeenAll(book, lobby);
      if dirty || gone != {} {
        if !saves {
          return false;
        }
        file := Some(seen - gone);
      }
    }
  }
}
