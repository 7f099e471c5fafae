/** Room-key bundles: what the inviting bot exports of a room, and what the invited one lets
    into its store. */
module Bundle {
  import opened Prelude

  type Room = Id
  type User = Id
  type SessionId = nat
  type Key = nat

  /** An inbound session: who it is from, and the ratchet from its first known index on. */
  datatype Session = Session(senderKey: Key, signingKey: Key, firstIndex: nat, ratchet: nat)

  datatype Row = Held(session: Session) | Withheld(senderKey: Key, code: string)

  /** The crypto store's session table. */
  type Table = map<(Room, SessionId), Row>

  const MEGOLM := "m.megolm.v1.aes-sha2"

  /** `export_session(first_known_index)`: the ratchet from that index. */
  datatype Exported = Exported(index: nat, ratchet: nat)

  /** One entry of `room_keys`; a key that does not parse is None. */
  datatype Item = Item(algorithm: string, room: Room, senderKey: Key, signingKey: Key,
                       id: SessionId, key: Option<Exported>)

  datatype WithheldItem = WithheldItem(room: Room, senderKey: Key, id: SessionId, code: string)

  datatype KeyBundle = KeyBundle(roomKeys: seq<Item>, withheld: seq<WithheldItem>)

  // ---- Building --------------------------------------------------------------------

  /** The ids the query returns: those of the room, each once, in order. */
  ghost predicate Query(t: Table, room: Room, ids: seq<SessionId>) {
    && (forall i, j :: 0 <= i < j < |ids| ==> ids[i] < ids[j])
    && (forall s :: s in ids <==> (room, s) in t)
  }

  function ItemOf(room: Room, s: SessionId, x: Session): Item {
    Item(MEGOLM, room, x.senderKey, x.signingKey, s, Some(Exported(x.firstIndex, x.ratchet)))
  }

  function KeysOf(t: Table, room: Room, ids: seq<SessionId>): seq<Item>
    requires forall s :: s in ids ==> (room, s) in t
  {
    if ids == [] then []
    else
      var s := ids[|ids| - 1];
      KeysOf(t, room, ids[..|ids| - 1]) + if t[(room, s)].Held? then [ItemOf(room, s, t[(room, s)].session)] else []
  }

  function WithheldOf(t: Table, room: Room, ids: seq<SessionId>): seq<WithheldItem>
    requires forall s :: s in ids ==> (room, s) in t
  {
    if ids == [] then []
    else
      var s := ids[|ids| - 1];
      WithheldOf(t, room, ids[..|ids| - 1])
        + if t[(room, s)].Withheld? then [WithheldItem(room, t[(room, s)].senderKey, s, t[(room, s)].code)] else []
  }

  /** `build_room_key_bundle`, up to the encryption and upload of the attachment. */
  method BuildRoomKeyBundle(t: Table, room: Room, ids: seq<SessionId>) returns (b: KeyBundle)
    requires Query(t, room, ids)
    ensures b == KeyBundle(KeysOf(t, room, ids), WithheldOf(t, room, ids))
  {
    var roomKeys: seq<Item>, withheld: seq<WithheldItem> := [], [];
    var i := 0;
    while i < |ids|
      invariant 0 <= i <= |ids|
      invariant roomKeys == KeysOf(t, room, ids[..i]) && withheld == WithheldOf(t, room, ids[..i])
    {
      var s := ids[i];
      assert ids[..i + 1][..i] == ids[..i];
      match t[(room, s)] {
        case Withheld(senderKey, code) =>
          withheld := withheld + [WithheldItem(room, senderKey, s, code)];
        case Held(x) =>
          roomKeys := roomKeys + [ItemOf(room, s, x)];
      }
      i := i + 1;
    }
    assert ids[..i] == ids;
    b := KeyBundle(roomKeys, withheld);
  }

  lemma {:induction false} KeysAre(t: Table, room: Room, ids: seq<SessionId>, x: Item)
    requires forall s :: s in ids ==> (room, s) in t
    ensures x in KeysOf(t, room, ids)
        <==> x.id in ids && t[(room, x.id)].Held? && x == ItemOf(room, x.id, t[(room, x.id)].session)
  {
    if ids != [] {
      KeysAre(t, room, ids[..|ids| - 1], x);
      assert ids == ids[..|ids| - 1] + [ids[|ids| - 1]];
    }
  }

  lemma {:induction false} WithheldAre(t: Table, room: Room, ids: seq<SessionId>, x: WithheldItem)
    requires forall s :: s in ids ==> (room, s) in t
    ensures x in WithheldOf(t, room, ids)
        <==> x.id in ids && t[(room, x.id)].Withheld?
             && x == WithheldItem(room, t[(room, x.id)].senderKey, x.id, t[(room, x.id)].code)
  {
    if ids != [] {
      WithheldAre(t, room, ids[..|ids| - 1], x);
      assert ids == ids[..|ids| - 1] + [ids[|ids| - 1]];
    }
  }

  lemma {:induction false} SizesAdd(t: Table, room: Room, ids: seq<SessionId>)
    requires forall s :: s in ids ==> (room, s) in t
    ensures |KeysOf(t, room, ids)| + |WithheldOf(t, room, ids)| == |ids|
  {
    if ids != [] {
      SizesAdd(t, room, ids[..|ids| - 1]);
    }
  }

  ghost predicate InKeys(t: Table, room: Room, ids: seq<SessionId>, id: SessionId)
    requires forall s :: s in ids ==> (room, s) in t
  {
    exists x :: x in KeysOf(t, room, ids) && x.id == id
  }

  ghost predicate InWithheld(t: Table, room: Room, ids: seq<SessionId>, id: SessionId)
    requires forall s :: s in ids ==> (room, s) in t
  {
    exists x :: x in WithheldOf(t, room, ids) && x.id == id
  }

  /** Every session row of the room is in exactly one of the two lists, there once, and
      nothing else is in either. */
  lemma EachRowOnce(t: Table, room: Room, ids: seq<SessionId>)
    requires Query(t, room, ids)
    ensures |KeysOf(t, room, ids)| + |WithheldOf(t, room, ids)| == |ids|
    ensures forall s: SessionId :: InKeys(t, room, ids, s) <==> (room, s) in t && t[(room, s)].Held?
    ensures forall s: SessionId :: InWithheld(t, room, ids, s) <==> (room, s) in t && t[(room, s)].Withheld?
  {
    SizesAdd(t, room, ids);
    forall s: SessionId ensures InKeys(t, room, ids, s) <==> (room, s) in t && t[(room, s)].Held? {
      if (room, s) in t && t[(room, s)].Held? {
        KeysAre(t, room, ids, ItemOf(room, s, t[(room, s)].session));
      }
      if x :| x in KeysOf(t, room, ids) && x.id == s {
        KeysAre(t, room, ids, x);
      }
    }
    forall s: SessionId ensures InWithheld(t, room, ids, s) <==> (room, s) in t && t[(room, s)].Withheld? {
      if (room, s) in t && t[(room, s)].Withheld? {
        WithheldAre(t, room, ids, WithheldItem(room, t[(room, s)].senderKey, s, t[(room, s)].code));
      }
      if x :| x in WithheldOf(t, room, ids) && x.id == s {
        WithheldAre(t, room, ids, x);
      }
    }
  }

  /** And a held row is exported from its first known index, a withheld one named with its code. */
  lemma BundleSays(t: Table, room: Room, ids: seq<SessionId>, s: SessionId)
    requires Query(t, room, ids) && (room, s) in t
    ensures match t[(room, s)]
      case Held(x) =>
        Item("m.megolm.v1.aes-sha2", room, x.senderKey, x.signingKey, s, Some(Exported(x.firstIndex, x.ratchet)))
          in KeysOf(t, room, ids)
      case Withheld(senderKey, code) => WithheldItem(room, senderKey, s, code) in WithheldOf(t, room, ids)
  {
    match t[(room, s)]
    case Held(x) => KeysAre(t, room, ids, ItemOf(room, s, x));
    case Withheld(senderKey, code) => WithheldAre(t, room, ids, WithheldItem(room, senderKey, s, code));
  }

  // ---- Importing -------------------------------------------------------------------

  /** An item of the bundle that can be imported. */
  predicate Fine(room: Room, x: Item) {
    x.algorithm == "m.megolm.v1.aes-sha2" && x.room == room && x.key.Some?
  }

  /** The loop raises on this item. */
  predicate Bad(room: Room, x: Item) { x.algorithm != MEGOLM || x.room != room || x.key.None? }

  function SessionOf(x: Item): Session
    requires x.key.Some?
  {
    Session(x.senderKey, x.signingKey, x.key.value.index, x.key.value.ratchet)
  }

  /** The items before the first the loop raises on. */
  function Good(room: Room, items: seq<Item>): (n: nat)
    ensures n <= |items| && (n < |items| ==> Bad(room, items[n]))
    ensures forall i :: 0 <= i < n ==> !Bad(room, items[i])
  {
    if items == [] || Bad(room, items[0]) then 0 else 1 + Good(room, items[1..])
  }

  function Put(t: Table, room: Room, items: seq<Item>): Table
    requires forall i :: 0 <= i < |items| ==> !Bad(room, items[i])
  {
    if items == [] then t
    else
      assert !Bad(room, items[|items| - 1]);
      var x := items[|items| - 1];
      Put(t, room, items[..|items| - 1])[(room, x.id) := Held(SessionOf(x))]
  }

  /** The event's attachment: a URL that is no mxc URI, something that does not download,
      decrypt or parse to a list, or a list of items. */
  datatype Attachment = BadUrl | Unreadable | Readable(items: seq<Item>)

  datatype BundleEvent = BundleEvent(sender: User, room: Room, file: Attachment)

  predicate FromInviter(inviters: map<Room, User>, e: BundleEvent) {
    e.room != NO_ID && e.room in inviters && inviters[e.room] != NO_ID && e.sender == inviters[e.room]
  }

  function Imported(t: Table, inviters: map<Room, User>, e: BundleEvent): Table {
    if FromInviter(inviters, e) && e.file.Readable? then
      Put(t, e.room, e.file.items[..Good(e.room, e.file.items)])
    else t
  }

  function Accepts(inviters: map<Room, User>, e: BundleEvent): bool {
    FromInviter(inviters, e) && e.file.Readable? && Good(e.room, e.file.items) == |e.file.items|
  }

  lemma {:induction false} PutIs(t: Table, room: Room, items: seq<Item>, k: (Room, SessionId))
    requires forall i :: 0 <= i < |items| ==> !Bad(room, items[i])
    ensures (k.0 != room || forall x :: x in items ==> x.id != k.1)
      ==> (k in Put(t, room, items) <==> k in t) && (k in t ==> Put(t, room, items)[k] == t[k])
    ensures k.0 == room && (exists x :: x in items && x.id == k.1)
      ==> k in Put(t, room, items)
          && exists x :: x in items && x.id == k.1 && Put(t, room, items)[k] == Held(SessionOf(x))
  {
    if items != [] {
      var front, x := items[..|items| - 1], items[|items| - 1];
      assert items == front + [x];
      PutIs(t, room, front, k);
    }
  }

  /** `after` is `before` with the sender's sessions of the room, and nothing else, put in. */
  ghost predicate Shared(sent: Table, room: Room, before: Table, after: Table) {
    forall k: (Room, SessionId) ::
      if k.0 == room && k in sent && sent[k].Held? then k in after && after[k] == sent[k]
      else (k in after <==> k in before) && (k in before ==> after[k] == before[k])
  }

  /** The round trip: from the recorded inviter, the receiver ends up with exactly the
      builder's copy of every session the builder holds for the room, and with every other
      entry, of this room or another, as it was. */
  lemma RoundTrip(sent: Table, room: Room, ids: seq<SessionId>, inviters: map<Room, User>, sender: User, t: Table)
    requires Query(sent, room, ids)
    requires room != NO_ID && sender != NO_ID && room in inviters && inviters[room] == sender
    ensures var e := BundleEvent(sender, room, Readable(KeysOf(sent, room, ids)));
      Accepts(inviters, e) && Shared(sent, room, t, Imported(t, inviters, e))
  {
    var items := KeysOf(sent, room, ids);
    forall i | 0 <= i < |items| ensures !Bad(room, items[i]) {
      KeysAre(sent, room, ids, items[i]);
    }
    assert items[..|items|] == items;
    forall k: (Room, SessionId)
      ensures if k.0 == room && k in sent && sent[k].Held?
        then k in Put(t, room, items) && Put(t, room, items)[k] == sent[k]
        else (k in Put(t, room, items) <==> k in t) && (k in t ==> Put(t, room, items)[k] == t[k])
    {
      RoundTripAt(sent, room, ids, t, k);
    }
  }

  lemma RoundTripAt(sent: Table, room: Room, ids: seq<SessionId>, t: Table, k: (Room, SessionId))
    requires Query(sent, room, ids)
    requires forall i :: 0 <= i < |KeysOf(sent, room, ids)| ==> !Bad(room, KeysOf(sent, room, ids)[i])
    ensures var after := Put(t, room, KeysOf(sent, room, ids));
      if k.0 == room && k in sent && sent[k].Held? then k in after && after[k] == sent[k]
      else (k in after <==> k in t) && (k in t ==> after[k] == t[k])
  {
    var items := KeysOf(sent, room, ids);
    PutIs(t, room, items, k);
    forall x | x in items && x.id == k.1
      ensures (room, k.1) in sent && sent[(room, k.1)] == Held(SessionOf(x))
    {
      KeysAre(sent, room, ids, x);
    }
    if k.0 == room && k in sent && sent[k].Held? {
      KeysAre(sent, room, ids, ItemOf(room, k.1, sent[k].session));
      assert ItemOf(room, k.1, sent[k].session) in items;
    }
  }

  /** Item `i` of the event, with nothing but importable items up to it, is what the table has
      under `k`. */
  predicate PutBy(e: BundleEvent, i: nat, k: (Room, SessionId), row: Row) {
    && e.file.Readable? && i < |e.file.items|
    && (forall j :: 0 <= j <= i ==> Fine(e.room, e.file.items[j]))
    && var x := e.file.items[i];
       && x.room == k.0 && x.id == k.1
       && row == Held(Session(x.senderKey, x.signingKey, x.key.value.index, x.key.value.ratchet))
  }

  lemma GoodIsFine(room: Room, items: seq<Item>)
    ensures forall j :: 0 <= j < Good(room, items) ==> Fine(room, items[j])
    ensures Good(room, items) < |items| ==> !Fine(room, items[Good(room, items)])
  {
  }

  /** The event comes from the user who invited the bot to its room. */
  predicate ByInviter(inviters: map<Room, User>, e: BundleEvent) {
    e.room != 0 && e.sender != 0 && e.room in inviters && inviters[e.room] == e.sender
  }

  /** An import is reported as done exactly when the room's recorded inviter sent it, the attachment
      reads, and every item of it is importable. */
  lemma AcceptsIff(inviters: map<Room, User>, e: BundleEvent)
    ensures Accepts(inviters, e) <==>
      && ByInviter(inviters, e) && e.file.Readable?
      && forall j :: 0 <= j < |e.file.items| ==> Fine(e.room, e.file.items[j])
  {
    if e.file.Readable? {
      GoodIsFine(e.room, e.file.items);
    }
  }

  /** Of one session, an import leaves the last copy it gets to: item `i`, if all up to it are
      importable and no item up to the first bad one names the session again. */
  lemma ImportTakes(t: Table, inviters: map<Room, User>, e: BundleEvent, i: nat)
    requires ByInviter(inviters, e) && e.file.Readable? && i < |e.file.items|
    requires forall j :: 0 <= j <= i ==> Fine(e.room, e.file.items[j])
    requires forall j :: i < j < |e.file.items| && e.file.items[j].id == e.file.items[i].id ==>
      exists k :: i < k <= j && !Fine(e.room, e.file.items[k])
    ensures var x := e.file.items[i]; var k := (e.room, x.id); var after := Imported(t, inviters, e);
      x.key.Some? && k in after
      && after[k] == Held(Session(x.senderKey, x.signingKey, x.key.value.index, x.key.value.ratchet))
  {
    var n := Good(e.room, e.file.items);
    GoodIsFine(e.room, e.file.items);
    var items := e.file.items[..n];
    assert i < n;
    forall j | i < j < n ensures items[j].id != items[i].id {
      assert forall k :: i < k <= j ==> Fine(e.room, e.file.items[k]);
    }
    PutLast(t, e.room, items, i);
  }

  lemma {:induction false} PutLast(t: Table, room: Room, items: seq<Item>, i: nat)
    requires i < |items| && forall j :: 0 <= j < |items| ==> !Bad(room, items[j])
    requires forall j :: i < j < |items| ==> items[j].id != items[i].id
    ensures (room, items[i].id) in Put(t, room, items)
    ensures Put(t, room, items)[(room, items[i].id)] == Held(SessionOf(items[i]))
  {
    if i < |items| - 1 {
      PutLast(t, room, items[..|items| - 1], i);
    }
  }

  predicate Differs(before: Table, after: Table, k: (Room, SessionId)) {
    (k in before) != (k in after) || (k in before && before[k] != after[k])
  }

  /** Any import, finished or stopped part-way, changes nothing outside the event's room,
      changes that only if the room's recorded inviter sent it, and leaves there only what
      was there or what the bundle says of that very room. */
  lemma ImportIsConfined(t: Table, inviters: map<Room, User>, e: BundleEvent, k: (Room, SessionId))
    requires Differs(t, Imported(t, inviters, e), k)
    ensures k.0 == e.room && FromInviter(inviters, e) && k in Imported(t, inviters, e)
    ensures exists i: nat :: PutBy(e, i, k, Imported(t, inviters, e)[k])
  {
    var items := e.file.items[..Good(e.room, e.file.items)];
    PutIs(t, e.room, items, k);
    var x :| x in items && x.id == k.1 && Imported(t, inviters, e)[k] == Held(SessionOf(x));
    var i: nat :| i < |items| && items[i] == x;
    GoodIsFine(e.room, e.file.items);
    assert PutBy(e, i, k, Imported(t, inviters, e)[k]);
  }

  // ---- Remembering inviters --------------------------------------------------------

  datatype StateEvent = StateEvent(isMember: bool, stateKey: User, membership: string, sender: User)

  /** One room a sync invites the bot to, with its stripped state. */
  datatype Invitation = Invitation(room: Room, events: seq<StateEvent>)

  predicate Invites(ev: StateEvent, me: User) {
    ev.isMember && ev.stateKey == me && ev.membership == "invite" && ev.sender != NO_ID
  }

  function InviterOf(events: seq<StateEvent>, me: User): (u: Option<User>)
    ensures u.Some? ==> u.value != NO_ID
  {
    if events == [] then None
    else if Invites(events[0], me) then Some(events[0].sender)
    else InviterOf(events[1..], me)
  }

  function Remember(inviters: map<Room, User>, rooms: seq<Invitation>, me: User): map<Room, User> {
    if rooms == [] then inviters
    else
      var before, last := Remember(inviters, rooms[..|rooms| - 1], me), rooms[|rooms| - 1];
      if InviterOf(last.events, me).Some? then before[last.room := InviterOf(last.events, me).value] else before
  }

  /** The event invites `me`, in the name of `u`. */
  predicate InviteFrom(ev: StateEvent, me: User, u: User) {
    ev.isMember && ev.stateKey == me && ev.membership == "invite" && ev.sender == u && u != 0
  }

  predicate InvitedBy(rooms: seq<Invitation>, me: User, r: Room, u: User) {
    exists i, j :: 0 <= i < |rooms| && 0 <= j < |rooms[i].events|
      && rooms[i].room == r && InviteFrom(rooms[i].events[j], me, u)
  }

  /** Event `j` is the first to invite. */
  predicate InvitesFirst(events: seq<StateEvent>, me: User, j: nat) {
    && j < |events| && InviteFrom(events[j], me, events[j].sender)
    && forall i :: 0 <= i < j ==> !InviteFrom(events[i], me, events[i].sender)
  }

  /** The inviter remembered of a room's state is the sender of its first invitation. */
  lemma {:induction false} InviterIsFirst(events: seq<StateEvent>, me: User)
    ensures InviterOf(events, me).Some? <==>
      exists j :: 0 <= j < |events| && InviteFrom(events[j], me, events[j].sender)
    ensures forall j: nat :: InvitesFirst(events, me, j) ==> InviterOf(events, me) == Some(events[j].sender)
  {
    if events != [] && !Invites(events[0], me) {
      var rest := events[1..];
      InviterIsFirst(rest, me);
      assert forall j :: 0 <= j < |rest| ==> rest[j] == events[j + 1];
      forall j: nat | InvitesFirst(events, me, j) ensures j > 0 && InvitesFirst(rest, me, j - 1) {
        assert forall i :: 0 <= i < j - 1 ==> rest[i] == events[i + 1];
      }
      if j :| 0 <= j < |rest| && InviteFrom(rest[j], me, rest[j].sender) {
        assert InviteFrom(events[j + 1], me, events[j + 1].sender);
      }
    }
  }

  /** Invitations are remembered one after the other, the newer in place of the older. */
  lemma {:induction false} RememberJoin(m: map<Room, User>, a: seq<Invitation>, b: seq<Invitation>, me: User)
    ensures Remember(m, a + b, me) == Remember(Remember(m, a, me), b, me)
  {
    if b == [] {
      assert a + b == a;
    } else {
      RememberJoin(m, a, b[..|b| - 1], me);
      assert (a + b)[..|a + b| - 1] == a + b[..|b| - 1];
    }
  }

  lemma RememberOne(m: map<Room, User>, v: Invitation, me: User)
    ensures Remember(m, [v], me)
         == if InviterOf(v.events, me).Some? then m[v.room := InviterOf(v.events, me).value] else m
  {
    assert [v][..0] == [];
  }

  lemma {:induction false} InviterOfIs(events: seq<StateEvent>, me: User)
    requires InviterOf(events, me).Some?
    ensures exists j :: 0 <= j < |events| && Invites(events[j], me) && events[j].sender == InviterOf(events, me).value
  {
    if !Invites(events[0], me) {
      InviterOfIs(events[1..], me);
      var j :| 0 <= j < |events[1..]| && Invites(events[1..][j], me)
               && events[1..][j].sender == InviterOf(events, me).value;
      assert events[j + 1] == events[1..][j];
    }
  }

  lemma {:induction false} RememberedInvited(inviters: map<Room, User>, rooms: seq<Invitation>, me: User, r: Room)
    requires r in Remember(inviters, rooms, me)
    ensures (r in inviters && inviters[r] == Remember(inviters, rooms, me)[r])
      || InvitedBy(rooms, me, r, Remember(inviters, rooms, me)[r])
  {
    if rooms != [] {
      var front, last := rooms[..|rooms| - 1], rooms[|rooms| - 1];
      if InviterOf(last.events, me).Some? && last.room == r {
        InviterOfIs(last.events, me);
        assert rooms[|rooms| - 1] == last;
      } else {
        RememberedInvited(inviters, front, me, r);
        var u := Remember(inviters, rooms, me)[r];
        if InvitedBy(front, me, r, u) {
          var i, j :| 0 <= i < |front| && 0 <= j < |front[i].events|
            && front[i].room == r && InviteFrom(front[i].events[j], me, u);
          assert rooms[i] == front[i];
        }
      }
    }
  }

  // ---- Runs of the receiver --------------------------------------------------------

  datatype Event = Synced(rooms: seq<Invitation>) | Received(bundle: BundleEvent)

  datatype Receiver = Receiver(inviters: map<Room, User>, table: Table)

  function Handle(w: Receiver, e: Event, me: User): Receiver {
    match e
    case Synced(rooms) => w.(inviters := Remember(w.inviters, rooms, me))
    case Received(b) => w.(table := Imported(w.table, w.inviters, b))
  }

  function Run(w: Receiver, es: seq<Event>, me: User): Receiver {
    if es == [] then w else Handle(Run(w, es[..|es| - 1], me), es[|es| - 1], me)
  }

  predicate InvitedEarlier(es: seq<Event>, me: User, r: Room, u: User) {
    exists i :: 0 <= i < |es| && es[i].Synced? && InvitedBy(es[i].rooms, me, r, u)
  }

  lemma {:induction false} InviterInvited(table: Table, es: seq<Event>, me: User, r: Room)
    requires r in Run(Receiver(map[], table), es, me).inviters
    ensures InvitedEarlier(es, me, r, Run(Receiver(map[], table), es, me).inviters[r])
  {
    if es != [] {
      var front, e := es[..|es| - 1], es[|es| - 1];
      var w := Run(Receiver(map[], table), front, me);
      var u := Run(Receiver(map[], table), es, me).inviters[r];
      if e.Synced? {
        RememberedInvited(w.inviters, e.rooms, me, r);
      }
      if r in w.inviters && w.inviters[r] == u {
        InviterInvited(table, front, me, r);
        var i :| 0 <= i < |front| && front[i].Synced? && InvitedBy(front[i].rooms, me, r, u);
        assert es[i] == front[i];
      } else {
        assert es[|es| - 1] == e && InvitedBy(e.rooms, me, r, u);
      }
    }
  }

  /** Event `i` brought this row, and its sender had by then invited the bot to the room. */
  ghost predicate Brought(es: seq<Event>, me: User, i: nat, k: (Room, SessionId), row: Row) {
    && i < |es| && es[i].Received? && es[i].bundle.room == k.0
    && InvitedEarlier(es[..i], me, k.0, es[i].bundle.sender)
    && exists j: nat :: PutBy(es[i].bundle, j, k, row)
  }

  /** Over any run from a bot that knows no inviter, every entry of the table that differs
      from the initial one was put by a bundle for that room whose sender had invited the
      bot to that room earlier in the run. */
  lemma {:induction false} OnlyInvitersGive(t: Table, es: seq<Event>, me: User, k: (Room, SessionId))
    requires Differs(t, Run(Receiver(map[], t), es, me).table, k)
    ensures k in Run(Receiver(map[], t), es, me).table
    ensures exists i: nat :: Brought(es, me, i, k, Run(Receiver(map[], t), es, me).table[k])
  {
    var front, e := es[..|es| - 1], es[|es| - 1];
    var w := Run(Receiver(map[], t), front, me);
    if e.Received? && Differs(w.table, Imported(w.table, w.inviters, e.bundle), k) {
      ImportIsConfined(w.table, w.inviters, e.bundle, k);
      InviterInvited(t, front, me, k.0);
      assert Brought(es, me, |es| - 1, k, Run(Receiver(map[], t), es, me).table[k]);
    } else {
      OnlyInvitersGive(t, front, me, k);
      var i: nat :| Brought(front, me, i, k, w.table[k]);
      assert es[..i] == front[..i];
      assert Brought(es, me, i, k, w.table[k]);
    }
  }

  class Responder {
    var inviters: map<Room, User>
    var table: Table
    const me: User

    constructor (self: User, found: Table)
      ensures me == self && inviters == map[] && table == found
    {
      me, inviters, table := self, map[], found;
    }

    /** `_remember_inviters`. */
    method RememberInviters(rooms: seq<Invitation>)
      modifies this`inviters
      ensures inviters == Remember(old(inviters), rooms, me)
    {
      var i := 0;
      while i < |rooms|
        invariant 0 <= i <= |rooms| && inviters == Remember(old(inviters), rooms[..i], me)
      {
        ghost var before := inviters;
        var j := 0;
        while j < |rooms[i].events|
          invariant 0 <= j <= |rooms[i].events| && inviters == before
          invariant InviterOf(rooms[i].events[j..], me) == InviterOf(rooms[i].events, me)
        {
          var ev := rooms[i].events[j];
          if ev.isMember && ev.stateKey == me && ev.membership == "invite" && ev.sender != NO_ID {
            inviters := inviters[rooms[i].room := ev.sender];
            break;
          }
          j := j + 1;
        }
        assert rooms[..i + 1][..i] == rooms[..i];
        i := i + 1;
      }
      assert rooms[..i] == rooms;
    }

    /** `import_room_key_bundle`. */
    method ImportRoomKeyBundle(e: BundleEvent) returns (ok: bool)
      modifies this`table
      ensures ok == Accepts(inviters, e)
      ensures table == Imported(old(table), inviters, e)
    {
      if e.room == NO_ID || e.room !in inviters || inviters[e.room] == NO_ID || e.sender != inviters[e.room] {
        return false;
      }
      if !e.file.Readable? {
        return false;
      }
      var items := e.file.items;
      var i := 0;
      while i < |items|
        invariant 0 <= i <= |items| && i + Good(e.room, items[i..]) == Good(e.room, items)
        invariant table == Put(old(table), e.room, items[..i])
      {
        var x := items[i];
        if x.algorithm != MEGOLM || x.room != e.room || x.key.None? {
          return false;
        }
        assert items[..i + 1][..i] == items[..i];
        table := table[(e.room, x.id) := Held(SessionOf(x))];
        i := i + 1;
      }
      assert items[..i] == items;
      ok := true;
    }
  }
}
