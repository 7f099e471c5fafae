/** The bot's message history across restarts: which credentials a boot ends up with, when
    it throws the crypto store away, and the escrow file that carries the inbound sessions
    over. Sessions are listed by id; exporting a session and importing it gives it back. */
module Durability {
  import opened Prelude

  type Device = nat
  type Token = nat
  type SessionId = nat

  datatype Session = Session(firstIndex: nat, ratchet: nat)

  /** The store on disk, pickled under the device it was created for. */
  datatype Store = Store(key: Device, held: map<SessionId, Session>, withheld: set<SessionId>)

  /** The escrow file; `Torn` is one whose write was cut off, which does not parse. */
  datatype Escrow = Missing | Torn | Saved(entries: map<SessionId, Session>)

  /** /data: the cached token and device, the crypto store and the escrow, each if present. */
  datatype Disk = Disk(token: Option<Token>, device: Option<Device>, store: Option<Store>, escrow: Escrow)

  datatype Login = Login(token: Token, device: Device)

  /** How the homeserver answers during one boot: /whoami for the environment's token and
      for the cached one, and a password login with and without the cached device. */
  datatype Server = Server(env: Option<Login>, cached: Option<Device>, password: bool,
                           reuse: Option<Login>, anew: Option<Login>)

  /** How far a boot gets before it dies, if it does: between the token's and the device's
      write, before the escrow is touched, inside its write, between that and the wipe, after
      the wipe, or with some entries imported. */
  datatype Stop =
    | MidPersist
    | BeforeExport
    | MidExport
    | BeforeWipe
    | BeforeOpen
    | MidImport(done: set<SessionId>)
    | Runs

  // ---- _resolve_credentials --------------------------------------------------------

  datatype Creds = NoCreds | Creds(token: Token, device: Device, reminted: bool)

  function Minted(d: Disk, sv: Server): Option<Login> {
    if !sv.password then None
    else if d.device.Some? && sv.reuse.Some? then sv.reuse
    else sv.anew
  }

  function Resolve(d: Disk, sv: Server): Creds {
    if sv.env.Some? then Creds(sv.env.value.token, sv.env.value.device, false)
    else if d.token.Some? && sv.cached.Some? then Creds(d.token.value, sv.cached.value, false)
    else if Minted(d, sv).Some? then Creds(Minted(d, sv).value.token, Minted(d, sv).value.device, true)
    else NoCreds
  }

  /** The disk once the credentials are settled: only a login is written down. */
  function Persisted(d: Disk, c: Creds): Disk {
    if c.Creds? && c.reminted then d.(token := Some(c.token), device := Some(c.device)) else d
  }

  /** The same, had the process died between the two writes. */
  function HalfPersisted(d: Disk, c: Creds): Disk {
    if c.Creds? && c.reminted then d.(token := Some(c.token)) else d
  }

  predicate DeviceChanged(cached: Option<Device>, current: Device) {
    cached.Some? && cached.value != current
  }

  // ---- The wipe --------------------------------------------------------------------

  predicate Wipes(d: Disk, c: Creds) {
    c.Creds? && (DeviceChanged(d.device, c.device) || (c.reminted && d.device.None? && d.store.Some?))
  }

  /** Reading a session under a device other than the store's raises; with no session to
      read, nothing does. */
  predicate ExportFails(d: Disk) {
    d.device.Some? && d.store.Some? && d.store.value.held != map[] && d.store.value.key != d.device.value
  }

  /** The escrow after the export, or after one that died inside its write. */
  function Exported(d: Disk, stop: Stop): Escrow {
    if d.device.None? || d.store.None? then d.escrow
    else if stop.MidExport? then Torn
    else Saved(d.store.value.held)
  }

  // ---- A boot ----------------------------------------------------------------------

  function Entries(escrow: Escrow): map<SessionId, Session> {
    if escrow.Saved? then escrow.entries else map[]
  }

  function Import(st: Store, entries: map<SessionId, Session>): Store {
    Store(st.key, st.held + entries, st.withheld - entries.Keys)
  }

  function Opened(store: Option<Store>, device: Device): Store {
    if store.Some? then store.value else Store(device, map[], {})
  }

  function Reloaded(stop: Stop, escrow: Escrow): map<SessionId, Session> {
    if stop.MidImport? then map s | s in Entries(escrow) && s in stop.done :: Entries(escrow)[s]
    else Entries(escrow)
  }

  datatype Outcome = Outcome(disk: Disk, up: bool)

  /** The process dies before it gets to throw the store away, or to open it as it is. */
  predicate DiesEarly(stop: Stop) {
    stop.MidPersist? || stop.BeforeExport? || stop.MidExport? || stop.BeforeWipe?
  }

  /** `sync_loop` up to the end of the import, which a torn escrow makes raise. */
  function Start(d: Disk, device: Device, stop: Stop): Outcome {
    if DiesEarly(stop) || stop.BeforeOpen? || Opened(d.store, device).key != device then Outcome(d, false)
    else Outcome(d.(store := Some(Import(Opened(d.store, device), Reloaded(stop, d.escrow)))),
                 stop.Runs? && !d.escrow.Torn?)
  }

  /** The export and the wipe, as far as the process gets. */
  function Rotated(d: Disk, c: Creds, stop: Stop): Disk {
    if stop.BeforeExport? then Persisted(d, c)
    else Persisted(d, c).(escrow := Exported(d, stop), store := if DiesEarly(stop) then d.store else None)
  }

  /** `main` from the first read to the end of the import. */
  function Boot(d: Disk, sv: Server, stop: Stop): Outcome {
    var c := Resolve(d, sv);
    if c.NoCreds? then Outcome(d, false)
    else if stop.MidPersist? then Outcome(HalfPersisted(d, c), false)
    else if !Wipes(d, c) then Start(Persisted(d, c), c.device, stop)
    else if ExportFails(d) then Outcome(Persisted(d, c), false)
    else Start(Rotated(d, c, stop), c.device, stop)
  }

  // ---- Runs ------------------------------------------------------------------------

  datatype Event =
    | Booted(server: Server, stop: Stop)
    | Learned(id: SessionId, session: Session)
    | Refused(id: SessionId)

  /** The disk, whether the bot is up, and every session it ever held. */
  datatype World = World(disk: Disk, up: bool, ever: set<SessionId>)

  function Held(d: Disk): set<SessionId> { if d.store.Some? then d.store.value.held.Keys else {} }
  function Escrowed(d: Disk): set<SessionId> { Entries(d.escrow).Keys }

  function Step(w: World, e: Event): World {
    match e
    case Booted(sv, stop) =>
      var o := Boot(w.disk, sv, stop);
      World(o.disk, o.up, w.ever)
    case Learned(id, session) =>
      if w.up && w.disk.store.Some? then
        World(w.disk.(store := Some(Import(w.disk.store.value, map[id := session]))), true, w.ever + {id})
      else w
    case Refused(id) =>
      if w.up && w.disk.store.Some? && id !in w.disk.store.value.held then
        w.(disk := w.disk.(store := Some(w.disk.store.value.(withheld := w.disk.store.value.withheld + {id}))))
      else w
  }

  function Run(w: World, es: seq<Event>): World {
    if es == [] then w else Step(Run(w, es[..|es| - 1]), es[|es| - 1])
  }

  /** Nothing in escrow is missing from a store that exists: so after every import. */
  predicate Covered(d: Disk) { d.store.Some? ==> Escrowed(d) <= Held(d) }

  /** The boot is about to throw the store away and gets as far as writing the escrow. */
  predicate ReachesExport(d: Disk, sv: Server, stop: Stop) {
    Wipes(d, Resolve(d, sv)) && !ExportFails(d) && !stop.MidPersist? && !stop.BeforeExport?
  }

  /** The one thing asked of a run: no boot writes the escrow over from a store that an import
      left half done. */
  predicate Careful(w: World, e: Event) {
    e.Booted? && ReachesExport(w.disk, e.server, e.stop) ==> Covered(w.disk)
  }

  predicate CarefulRun(w: World, es: seq<Event>) {
    es != [] ==> CarefulRun(w, es[..|es| - 1]) && Careful(Run(w, es[..|es| - 1]), es[|es| - 1])
  }

  predicate Kept(w: World) {
    && w.disk.device.Some?
    && w.ever <= Held(w.disk) + Escrowed(w.disk)
    && (w.up ==> w.disk.store.Some? && Covered(w.disk))
  }

  lemma StartKeeps(d: Disk, device: Device, stop: Stop)
    ensures var o := Start(d, device, stop);
      && o.disk.device == d.device && o.disk.escrow == d.escrow
      && Held(d) <= Held(o.disk)
      && (o.up ==> o.disk.store.Some? && Covered(o.disk))
  {
  }

  lemma BootKeeps(w: World, sv: Server, stop: Stop)
    requires Kept(w) && Careful(w, Booted(sv, stop))
    ensures Kept(Step(w, Booted(sv, stop)))
  {
    var d, c := w.disk, Resolve(w.disk, sv);
    if c.Creds? && !stop.MidPersist? {
      StartKeeps(Persisted(d, c), c.device, stop);
      StartKeeps(Rotated(d, c, stop), c.device, stop);
    }
  }

  /** History never shrinks: over any careful run of boots, re-mints, failed boots and
      arriving sessions, every session the bot ever held is in the store or in escrow; and
      whenever the bot is up, it is in the store, as is all of the escrow. */
  lemma {:induction false} HistoryKept(w: World, es: seq<Event>)
    requires Kept(w) && CarefulRun(w, es)
    ensures Kept(Run(w, es))
    ensures Run(w, es).up ==> w.ever <= Run(w, es).ever <= Held(Run(w, es).disk)
    ensures w.ever <= Run(w, es).ever
  {
    if es != [] {
      var front, e := es[..|es| - 1], es[|es| - 1];
      HistoryKept(w, front);
      if e.Booted? {
        BootKeeps(Run(w, front), e.server, e.stop);
      }
    }
  }

  // ---- Exactly when history is lost ------------------------------------------------

  /** No session ever held is gone. */
  predicate Lossless(w: World) { w.ever <= Held(w.disk) + Escrowed(w.disk) }

  /** The record of sessions ever held names no other. */
  predicate Exact(w: World) { Kept(w) && w.ever == Held(w.disk) + Escrowed(w.disk) }

  /** A boot brings no session that was in neither place; an export, even one whose write is
      cut off or whose wipe never comes, leaves exactly the store's. */
  lemma BootSessions(d: Disk, sv: Server, stop: Stop)
    requires d.device.Some?
    ensures var o := Boot(d, sv, stop).disk;
      Held(o) + Escrowed(o) ==
        if ReachesExport(d, sv, stop) && d.store.Some? then Held(d) else Held(d) + Escrowed(d)
  {
    var c := Resolve(d, sv);
    if c.Creds? && !stop.MidPersist? {
      StartSessions(Persisted(d, c), c.device, stop);
      StartSessions(Rotated(d, c, stop), c.device, stop);
    }
  }

  lemma StartSessions(d: Disk, device: Device, stop: Stop)
    ensures var o := Start(d, device, stop).disk; Held(o) + Escrowed(o) == Held(d) + Escrowed(d)
  {
    var o := Start(d, device, stop).disk;
    assert Reloaded(stop, d.escrow).Keys <= Escrowed(d);
    assert Held(o) == Held(d) || Held(o) == Held(d) + Reloaded(stop, d.escrow).Keys;
  }

  /** One step loses a session exactly when it is a boot that writes the escrow over while it
      holds something the store lacks. */
  lemma StepLossless(w: World, e: Event)
    requires Exact(w)
    ensures Lossless(Step(w, e)) <==> Careful(w, e)
    ensures Careful(w, e) ==> Exact(Step(w, e))
  {
    if e.Booted? {
      BootSessions(w.disk, e.server, e.stop);
      if Careful(w, e) {
        BootKeeps(w, e.server, e.stop);
      }
    }
  }

  predicate AlwaysLossless(w: World, es: seq<Event>) {
    Lossless(Run(w, es)) && (es != [] ==> AlwaysLossless(w, es[..|es| - 1]))
  }

  /** Over whole runs: no session is ever lost if and only if no boot writes the escrow over
      from a store that an import left half done. */
  lemma {:induction false} LosslessIff(w: World, es: seq<Event>)
    requires Exact(w)
    ensures AlwaysLossless(w, es) <==> CarefulRun(w, es)
    ensures CarefulRun(w, es) ==> Exact(Run(w, es))
  {
    if es != [] {
      LosslessIff(w, es[..|es| - 1]);
      if CarefulRun(w, es[..|es| - 1]) {
        StepLossless(Run(w, es[..|es| - 1]), es[|es| - 1]);
      }
    }
  }

  /** Such a loss: the half-done import is exported over the full escrow. It makes no difference
      whether the boot then dies inside the write, before the wipe, or comes up. */
  lemma HalfImportThenRotateLoses(stop: Stop)
    requires stop in {MidExport, BeforeWipe, BeforeOpen, Runs}
    ensures var d := Disk(Some(1), Some(1), Some(Store(1, map[], {})), Saved(map[5 := Session(0, 0)]));
      var o := Boot(d, Server(None, None, true, None, Some(Login(2, 2))), stop);
      && 5 in Escrowed(d) && !Covered(d)
      && 5 !in Held(o.disk) + Escrowed(o.disk)
      && (stop.BeforeWipe? ==> o.disk.store == d.store)
      && (stop.Runs? ==> o.up)
  {
    assert 5 in Escrowed(Disk(Some(1), Some(1), Some(Store(1, map[], {})), Saved(map[5 := Session(0, 0)])));
  }

  /** Without a cached device (a bot only ever given an environment token has none), a boot
      that comes up keeps the held sessions exactly when it did not have to log in, or the
      escrow happened to have them all: this wipe takes no copy. */
  lemma UncachedKeepsWhen(d: Disk, sv: Server)
    requires d.device.None? && d.store.Some? && Boot(d, sv, Runs).up
    ensures Held(d) <= Held(Boot(d, sv, Runs).disk) <==> !Resolve(d, sv).reminted || Held(d) <= Escrowed(d)
  {
  }

  // ---- Which credentials, and when the store goes ----------------------------------

  /** A live environment token is used, whatever else there is; else a live cached one; and only
      when both are dead is there a login. None of the first two is ever written down. */
  lemma TokensFirst(d: Disk, sv: Server)
    ensures sv.env.Some? ==>
      Resolve(d, sv) == Creds(sv.env.value.token, sv.env.value.device, false) && Persisted(d, Resolve(d, sv)) == d
    ensures sv.env.None? && d.token.Some? && sv.cached.Some? ==>
      Resolve(d, sv) == Creds(d.token.value, sv.cached.value, false) && Persisted(d, Resolve(d, sv)) == d
    ensures Resolve(d, sv).Creds? && Resolve(d, sv).reminted <==>
      && sv.env.None? && !(d.token.Some? && sv.cached.Some?)
      && sv.password && ((d.device.Some? && sv.reuse.Some?) || sv.anew.Some?)
  {
  }

  /** A login reuses the cached device whenever the homeserver lets it, asks for a new one only
      when not, and writes down what it got. */
  lemma LoginReuses(d: Disk, sv: Server)
    requires Resolve(d, sv).Creds? && Resolve(d, sv).reminted
    ensures var c := Resolve(d, sv);
      && Persisted(d, c) == d.(token := Some(c.token), device := Some(c.device))
      && (d.device.Some? && sv.reuse.Some? ==> Login(c.token, c.device) == sv.reuse.value)
      && (d.device.None? || sv.reuse.None? ==> Some(Login(c.token, c.device)) == sv.anew)
  {
  }

  /** So a boot whose credentials are for the cached device, by any of the ways, keeps the store:
      whole, with the escrow's sessions put over it, and the escrow as it was. */
  lemma SameDeviceKeepsStore(d: Disk, sv: Server, stop: Stop)
    requires Resolve(d, sv).Creds? && d.device == Some(Resolve(d, sv).device)
    ensures var o := Boot(d, sv, stop).disk;
      && o.device == d.device && o.escrow == d.escrow
      && (d.store.Some? ==> o.store.Some? && Held(d) <= Held(o))
      && (d.store.Some? && stop.Runs? && d.store.value.key == d.device.value ==>
            o.store.value.held == d.store.value.held + Entries(d.escrow)
            && o.store.value.withheld == d.store.value.withheld - Entries(d.escrow).Keys)
  {
  }

  /** And one whose credentials are for another device throws the store away, having copied it:
      what it held is then the whole of the escrow, and comes back from there under the new
      device. */
  lemma NewDeviceMovesStore(d: Disk, sv: Server)
    requires Resolve(d, sv).Creds? && d.device.Some? && d.device.value != Resolve(d, sv).device
    requires d.store.Some? && d.store.value.key == d.device.value
    ensures var o := Boot(d, sv, Runs).disk;
      && o.escrow == Saved(d.store.value.held)
      && o.store == Some(Store(Resolve(d, sv).device, d.store.value.held, {}))
  {
    var none: set<SessionId> := {};
    assert map[] + d.store.value.held == d.store.value.held && none - d.store.value.held.Keys == none;
  }

  /** With no cached device, a login throws away whatever store there is, under the new device and
      with nothing but the escrow's sessions in it afterwards. */
  lemma UncachedLoginStartsOver(d: Disk, sv: Server)
    requires Resolve(d, sv).Creds? && Resolve(d, sv).reminted && d.device.None? && !d.escrow.Torn?
    ensures var c, o := Resolve(d, sv), Boot(d, sv, Runs);
      && o.up && o.disk.device == Some(c.device) && o.disk.escrow == d.escrow
      && o.disk.store.Some? && o.disk.store.value.key == c.device
      && o.disk.store.value.held == Entries(d.escrow)
  {
    assert map[] + Entries(d.escrow) == Entries(d.escrow);
  }

  // ---- What a boot does to the sessions --------------------------------------------

  /** The store, if there is one, was written under the cached device. */
  predicate Sound(d: Disk) { d.device.Some? && (d.store.Some? ==> d.store.value.key == d.device.value) }

  /** A sound disk comes up, whichever of the four ways the credentials came, exactly when no
      torn escrow is left to import: there was none, or this boot's export replaced it. Up or
      not, it keeps every session it held; and if it was a login, or nothing changed, the disk is
      sound again. */
  lemma SoundComesUp(d: Disk, sv: Server)
    requires Sound(d) && Resolve(d, sv).Creds?
    ensures var c, o := Resolve(d, sv), Boot(d, sv, Runs);
      && (o.up <==> !d.escrow.Torn? || (Wipes(d, c) && d.store.Some?))
      && Held(d) <= Held(o.disk) + Escrowed(o.disk)
      && (o.up ==> Held(d) <= Held(o.disk))
      && (Sound(o.disk) <==> c.reminted || !DeviceChanged(d.device, c.device))
  {
  }

  /** The escrow does not disagree with the store about a session both have. */
  predicate Agrees(d: Disk) {
    forall s :: s in Held(d) && s in Escrowed(d) ==> d.store.value.held[s] == Entries(d.escrow)[s]
  }

  /** A boot that comes up brings every held session back as it was, exactly when it wiped
      the store (and so renewed the escrow) or the escrow agreed with the store: otherwise
      the older copy in escrow replaces what the store had since learned. */
  lemma SameSessionsWhen(d: Disk, sv: Server)
    requires d.device.Some? && d.store.Some? && Boot(d, sv, Runs).up
    ensures var o := Boot(d, sv, Runs).disk;
      && o.store.Some?
      && ((forall s :: s in d.store.value.held ==>
             s in o.store.value.held && o.store.value.held[s] == d.store.value.held[s])
          <==> Wipes(d, Resolve(d, sv)) || Agrees(d))
  {
    var o := Boot(d, sv, Runs).disk;
    var c := Resolve(d, sv);
    if Wipes(d, c) {
      assert o.store.value.held == map[] + d.store.value.held;
    } else {
      assert o.store.value.held == d.store.value.held + Entries(d.escrow);
    }
  }

  // ---- Boots that stay down --------------------------------------------------------

  /** The store was written under a device that is not the cached one. */
  predicate Stuck(d: Disk) {
    d.device.Some? && d.store.Some? && d.store.value.held != map[] && d.store.value.key != d.device.value
  }

  /** A login with the cached device gives that device back; a login without allocates one
      the store was not written under. */
  predicate Honest(d: Disk, sv: Server) {
    && (d.device.Some? && sv.reuse.Some? ==> sv.reuse.value.device == d.device.value)
    && (d.store.Some? && sv.anew.Some? ==> sv.anew.value.device != d.store.value.key)
  }

  /** From there no boot comes up, whatever the tokens do, and none touches the sessions:
      the failure is loud and the history stays until somebody repairs the disk. */
  lemma StuckStays(d: Disk, sv: Server, stop: Stop)
    requires Stuck(d) && Honest(d, sv)
    ensures !Boot(d, sv, stop).up && Stuck(Boot(d, sv, stop).disk)
    ensures Boot(d, sv, stop).disk.store == d.store && Boot(d, sv, stop).disk.escrow == d.escrow
  {
  }

  predicate HonestRun(w: World, es: seq<Event>) {
    es != [] ==>
      && HonestRun(w, es[..|es| - 1])
      && (es[|es| - 1].Booted? ==> Honest(Run(w, es[..|es| - 1]).disk, es[|es| - 1].server))
  }

  lemma {:induction false} StuckForever(w: World, es: seq<Event>)
    requires !w.up && Stuck(w.disk) && HonestRun(w, es)
    ensures !Run(w, es).up && Stuck(Run(w, es).disk)
    ensures Run(w, es).disk.store == w.disk.store && Run(w, es).disk.escrow == w.disk.escrow
  {
    if es != [] {
      var front, e := es[..|es| - 1], es[|es| - 1];
      StuckForever(w, front);
      if e.Booted? {
        StuckStays(Run(w, front).disk, e.server, e.stop);
      }
    }
  }

  /** A boot from a sound disk gets stuck in exactly two ways: a token that was not minted by
      a login (whose device is never written down) brought a new device, or a login brought
      one and the boot died after writing it down and before the wipe. */
  lemma GetsStuckWhen(d: Disk, sv: Server, stop: Stop)
    requires Sound(d)
    ensures var c := Resolve(d, sv);
      Stuck(Boot(d, sv, stop).disk) <==>
        && Held(Boot(d, sv, stop).disk) != {}
        && c.Creds? && DeviceChanged(d.device, c.device)
        && if c.reminted then DiesEarly(stop) && !stop.MidPersist? else !DiesEarly(stop) && !stop.BeforeOpen?
  {
    var o := Boot(d, sv, stop).disk;
    assert Held(o) != {} <==> o.store.Some? && o.store.value.held != map[];
  }

  /** So pointing the environment's token at a new device works for one boot, and the next
      one with the same token does not come up. */
  lemma NewEnvDeviceSticks(d: Disk, sv: Server, stop: Stop)
    requires d.device.Some? && d.store.Some? && d.store.value.key == d.device.value && d.store.value.held != map[]
    requires sv.env.Some? && sv.env.value.device != d.device.value
    ensures var once := Boot(d, sv, Runs);
      && once.up && Held(once.disk) == Held(d)
      && !Boot(once.disk, sv, stop).up && Boot(once.disk, sv, stop).disk == once.disk
  {
    var once := Boot(d, sv, Runs);
    assert once.disk.store.value.held == map[] + d.store.value.held == d.store.value.held;
  }

  // ---- The program -----------------------------------------------------------------

  class Bot {
    var token: Option<Token>
    var device: Option<Device>
    var store: Option<Store>
    var escrow: Escrow

    constructor (d: Disk)
      ensures View() == d
    {
      token, device, store, escrow := d.token, d.device, d.store, d.escrow;
    }

    function View(): Disk
      reads this
    {
      Disk(token, device, store, escrow)
    }

    /** `_resolve_credentials`, dying between its two writes if `stop` says so. */
    method ResolveCredentials(sv: Server, stop: Stop) returns (c: Creds, changed: bool)
      modifies this`token, this`device
      ensures c == Resolve(old(View()), sv)
      ensures View() == if stop.MidPersist? then HalfPersisted(old(View()), c) else Persisted(old(View()), c)
      ensures changed == (c.Creds? && DeviceChanged(old(device), c.device))
    {
      var cached := device;
      if sv.env.Some? {
        c := Creds(sv.env.value.token, sv.env.value.device, false);
        return c, DeviceChanged(cached, c.device);
      }
      if token.Some? && sv.cached.Some? {
        c := Creds(token.value, sv.cached.value, false);
        return c, DeviceChanged(cached, c.device);
      }
      if !sv.password {
        return NoCreds, false;
      }
      var login := if cached.Some? then sv.reuse else sv.anew;
      if login.None? && cached.Some? {
        login := sv.anew;
      }
      if login.None? {
        return NoCreds, false;
      }
      token := Some(login.value.token);
      if !stop.MidPersist? {
        device := Some(login.value.device);
      }
      c := Creds(login.value.token, login.value.device, true);
      changed := DeviceChanged(cached, c.device);
    }

    /** `export_inbound_sessions`, reading under `key`; the file is touched only once every
        session has been read, and cut off if the process dies there. */
    method ExportInboundSessions(key: Device, stop: Stop) returns (ok: bool)
      requires store.Some?
      modifies this`escrow
      ensures ok == (store.value.held == map[] || store.value.key == key)
      ensures escrow == if !ok then old(escrow) else if stop.MidExport? then Torn else Saved(store.value.held)
    {
      var out: map<SessionId, Session> := map[];
      var held := store.value.held;
      var rows := held.Keys;
      while rows != {}
        invariant rows <= held.Keys && escrow == old(escrow)
        invariant rows != held.Keys ==> store.value.key == key
        invariant out.Keys == held.Keys - rows && forall s :: s in out ==> out[s] == held[s]
        decreases rows
      {
        var s :| s in rows;
        if store.value.key != key {
          return false;
        }
        out := out[s := held[s]];
        rows := rows - {s};
      }
      assert out == held;
      escrow := if stop.MidExport? then Torn else Saved(out);
      ok := true;
    }

    /** `_export_escrow_for_wipe`. */
    method ExportEscrowForWipe(oldDevice: Option<Device>, stop: Stop) returns (ok: bool)
      modifies this`escrow
      ensures ok == !ExportFails(old(View()).(device := oldDevice))
      ensures escrow == if ok then Exported(old(View()).(device := oldDevice), stop) else old(escrow)
    {
      if oldDevice.None? || store.None? {
        return true;
      }
      ok := ExportInboundSessions(oldDevice.value, stop);
    }

    /** `import_inbound_sessions`, putting back these entries of the escrow. */
    method ImportInboundSessions(entries: map<SessionId, Session>)
      requires store.Some?
      modifies this`store
      ensures store == Some(Import(old(store).value, entries))
    {
      var st := store.value;
      var todo := entries.Keys;
      while todo != {}
        invariant todo <= entries.Keys && store.Some? && store.value.key == st.key
        invariant store.value.held.Keys == st.held.Keys + (entries.Keys - todo)
        invariant forall s :: s in store.value.held ==>
          store.value.held[s] == if s in entries && s !in todo then entries[s] else st.held[s]
        invariant store.value.withheld == st.withheld - (entries.Keys - todo)
        decreases todo
      {
        var s :| s in todo;
        store := Some(Store(st.key, store.value.held[s := entries[s]], store.value.withheld - {s}));
        todo := todo - {s};
      }
      assert entries.Keys - todo == entries.Keys;
      assert store.value.held == st.held + entries;
    }

    /** `main`, then `sync_loop` up to the end of the import, dying where `stop` says. */
    method BootUp(sv: Server, stop: Stop) returns (up: bool)
      modifies this
      ensures Boot(old(View()), sv, stop) == Outcome(View(), up)
    {
      var before, existed := device, store.Some?;
      var c, changed := ResolveCredentials(sv, stop);
      if c.NoCreds? || stop.MidPersist? || stop.BeforeExport? {
        return false;
      }
      if changed || (c.reminted && before.None? && existed) {
        if before.Some? {
          var ok := ExportEscrowForWipe(before, stop);
          if !ok {
            return false;
          }
        }
        if stop.MidExport? || stop.BeforeWipe? {
          return false;
        }
        store := None;
      }
      up := SyncLoop(c.device, stop);
    }

    method SyncLoop(current: Device, stop: Stop) returns (up: bool)
      modifies this`store
      ensures Start(old(View()), current, stop) == Outcome(View(), up)
    {
      if DiesEarly(stop) || stop.BeforeOpen? || (store.Some? && store.value.key != current) {
        return false;
      }
      if store.None? {
        store := Some(Store(current, map[], {}));
      }
      ImportInboundSessions(Reloaded(stop, escrow));
      up := stop.Runs? && !escrow.Torn?;
    }
  }
}
