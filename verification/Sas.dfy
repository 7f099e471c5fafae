/** Short-authentication-string verification: the responder's session table, and the honest
    initiator it talks to. The cryptography is any that is lawful. */
module Sas {
  import opened Prelude

  type DeviceKey = (string, string)   // user, device

  /** Public keys, shared secrets, MACs, the commitment hash and canonical JSON. */
  datatype Crypto = Crypto(
    pub: nat -> string, valid: string -> bool, dh: (nat, string) -> nat,
    mac: (nat, string, string) -> string, hash: string -> string, canon: map<string, string> -> string)

  ghost predicate Lawful(cr: Crypto) {
    && (forall a, b :: cr.dh(a, cr.pub(b)) == cr.dh(b, cr.pub(a)))
    && (forall a :: cr.valid(cr.pub(a)))
  }

  const SAS_METHOD := "m.sas.v1"
  const MAC_PREFIX := "MATRIX_KEY_VERIFICATION_MAC"
  const KEY_IDS := "KEY_IDS"
  const ED25519 := "ed25519:"
  const TRANSACTION_ID := "transaction_id"
  const FROM_DEVICE := "from_device"
  const METHOD := "method"
  const KEY_MISMATCH := "m.key_mismatch"
  const UNKNOWN_METHOD := "m.unknown_method"

  /** To-device messages; a start is its whole content, the others what is read of them. */
  datatype Msg =
    | Request(txn: string, fromDevice: string)
    | Ready(txn: string)
    | Start(content: map<string, string>)
    | Accept(txn: string, commitment: string)
    | KeyMsg(txn: string, key: string)
    | MacMsg(txn: string, mac: map<string, string>, keys: string)
    | Done(txn: string)
    | Cancel(txn: string, code: string)

  datatype Sent = Sent(to: DeviceKey, msg: Msg)

  function Field(content: map<string, string>, name: string): string {
    if name in content then content[name] else ""
  }

  function Txn(m: Msg): string {
    if m.Start? then Field(m.content, TRANSACTION_ID) else m.txn
  }

  /** What both ends compute alike. */
  function Commitment(cr: Crypto, pubkey: string, content: map<string, string>): string {
    cr.hash(pubkey + cr.canon(content - {TRANSACTION_ID}))
  }

  function MacInfo(from: DeviceKey, to: DeviceKey, txn: string, keyId: string): string {
    MAC_PREFIX + from.0 + from.1 + to.0 + to.1 + txn + keyId
  }

  function KeyId(device: string): string { ED25519 + device }

  /** The MAC message `from` sends about its own signing key. */
  function MacFor(cr: Crypto, secret: nat, signing: string, from: DeviceKey, to: DeviceKey, txn: string): Msg {
    MacMsg(txn, map[KeyId(from.1) := cr.mac(secret, signing, MacInfo(from, to, txn, KeyId(from.1)))],
           cr.mac(secret, KeyId(from.1), MacInfo(from, to, txn, KEY_IDS)))
  }

  /** The check at the other end, over the key it knows `from` by. */
  predicate MacOk(cr: Crypto, secret: nat, signing: string, from: DeviceKey, to: DeviceKey, m: Msg)
    requires m.MacMsg?
  {
    && KeyId(from.1) in m.mac
    && m.mac[KeyId(from.1)] == cr.mac(secret, signing, MacInfo(from, to, m.txn, KeyId(from.1)))
    && m.keys == cr.mac(secret, KeyId(from.1), MacInfo(from, to, m.txn, KEY_IDS))
  }

  // ---- The responder ---------------------------------------------------------------

  datatype Session = Session(them: DeviceKey, priv: nat, theirKey: Option<string>)

  datatype Device = Device(signing: string, verified: bool)

  /** The manager: who it is, its sessions by transaction, and the shared device store. */
  datatype Manager = Manager(us: DeviceKey, signing: string,
                             sessions: map<string, Session>, devices: map<DeviceKey, Device>)

  /** /keys/query: the signing key of a device, if it is known. */
  type Directory = map<DeviceKey, string>

  /** A to-device event, and the key pair a session created for it draws. */
  datatype Event = Event(sender: string, msg: Msg, priv: nat)

  datatype Step = Step(next: Manager, out: seq<Sent>)

  function SessionFor(m: Manager, e: Event): Session {
    if Txn(e.msg) in m.sessions then m.sessions[Txn(e.msg)]
    else
      var device := if e.msg.Start? then Field(e.msg.content, FROM_DEVICE)
                    else if e.msg.Request? then e.msg.fromDevice else "";
      Session((e.sender, device), e.priv, None)
  }

  function WithSession(m: Manager, txn: string, s: Session): Manager { m.(sessions := m.sessions[txn := s]) }
  function Without(m: Manager, txn: string): Manager { m.(sessions := m.sessions - {txn}) }

  function OnRequest(m: Manager, e: Event): Step
    requires e.msg.Request?
  {
    if e.msg.txn == "" then Step(m, [])
    else
      var s := SessionFor(m, e);
      Step(WithSession(m, e.msg.txn, s), [Sent(s.them, Ready(e.msg.txn))])
  }

  function OnStart(cr: Crypto, m: Manager, e: Event): Step
    requires e.msg.Start?
  {
    var txn := Txn(e.msg);
    if txn == "" then Step(m, [])
    else
      var s := SessionFor(m, e);
      Step(WithSession(m, txn, s),
           [Sent(s.them, if Field(e.msg.content, METHOD) != SAS_METHOD then Cancel(txn, UNKNOWN_METHOD)
                         else Accept(txn, Commitment(cr, cr.pub(s.priv), e.msg.content)))])
  }

  function OnKey(cr: Crypto, m: Manager, e: Event): Step
    requires e.msg.KeyMsg?
  {
    if e.msg.txn == "" || e.msg.txn !in m.sessions || !cr.valid(e.msg.key) then Step(m, [])
    else
      var s := m.sessions[e.msg.txn];
      Step(WithSession(m, e.msg.txn, s.(theirKey := Some(e.msg.key))),
           [Sent(s.them, KeyMsg(e.msg.txn, cr.pub(s.priv))),
            Sent(s.them, MacFor(cr, cr.dh(s.priv, e.msg.key), m.signing, m.us, s.them, e.msg.txn))])
  }

  /** `_ensure_device`: the store's device, or the directory's, put there unverified. */
  function EnsureDevice(dir: Directory, devices: map<DeviceKey, Device>, k: DeviceKey): map<DeviceKey, Device> {
    if k !in devices && k in dir then devices[k := Device(dir[k], false)] else devices
  }

  function OnMac(cr: Crypto, dir: Directory, m: Manager, e: Event): Step
    requires e.msg.MacMsg?
  {
    var txn := e.msg.txn;
    if txn == "" || txn !in m.sessions then Step(m, [])
    else
      var s := m.sessions[txn];
      var known := EnsureDevice(dir, m.devices, s.them);
      if s.them !in known then Step(Without(m, txn), [Sent(s.them, Cancel(txn, KEY_MISMATCH))])
      else if s.theirKey.None? then Step(m.(devices := known), [])   // the MAC cannot be computed: it raises
      else if !MacOk(cr, cr.dh(s.priv, s.theirKey.value), known[s.them].signing, s.them, m.us, e.msg) then
        Step(Without(m.(devices := known), txn), [Sent(s.them, Cancel(txn, KEY_MISMATCH))])
      else
        Step(Without(m.(devices := known[s.them := known[s.them].(verified := true)]), txn), [Sent(s.them, Done(txn))])
  }

  function Handle(cr: Crypto, dir: Directory, m: Manager, e: Event): Step {
    match e.msg
    case Request(_, _) => OnRequest(m, e)
    case Start(_) => OnStart(cr, m, e)
    case KeyMsg(_, _) => OnKey(cr, m, e)
    case MacMsg(_, _, _) => OnMac(cr, dir, m, e)
    case Cancel(txn, _) => Step(if txn == "" then m else Without(m, txn), [])
    case _ => Step(m, [])
  }

  function Run(cr: Crypto, dir: Directory, m: Manager, es: seq<Event>): Step {
    if es == [] then Step(m, [])
    else
      var before := Run(cr, dir, m, es[..|es| - 1]);
      var last := Handle(cr, dir, before.next, es[|es| - 1]);
      Step(last.next, before.out + last.out)
  }

  // ---- Transactions do not interfere -----------------------------------------------

  /** The store knows no device under another key than the directory. */
  predicate Consistent(dir: Directory, devices: map<DeviceKey, Device>) {
    forall k :: k in devices ==> k in dir && dir[k] == devices[k].signing
  }

  function About(out: seq<Sent>, txn: string): seq<Sent> {
    if out == [] then []
    else About(out[..|out| - 1], txn) + if Txn(out[|out| - 1].msg) == txn then [out[|out| - 1]] else []
  }

  function EventsOf(es: seq<Event>, txn: string): seq<Event> {
    if es == [] then []
    else EventsOf(es[..|es| - 1], txn) + if Txn(es[|es| - 1].msg) == txn then [es[|es| - 1]] else []
  }

  lemma {:induction false} AboutJoin(a: seq<Sent>, b: seq<Sent>, txn: string)
    ensures About(a + b, txn) == About(a, txn) + About(b, txn)
  {
    if b == [] {
      assert a + b == a;
    } else {
      var f, x := b[..|b| - 1], b[|b| - 1];
      var one := if Txn(x.msg) == txn then [x] else [];
      AboutJoin(a, f, txn);
      assert (a + b)[..|a + b| - 1] == a + f && (a + b)[|a + b| - 1] == x;
      assert About(a + b, txn) == About(a + f, txn) + one && About(b, txn) == About(f, txn) + one;
      assert (About(a, txn) + About(f, txn)) + one == About(a, txn) + (About(f, txn) + one);
    }
  }

  ghost predicate AllAbout(out: seq<Sent>, txn: string) { forall i :: 0 <= i < |out| ==> Txn(out[i].msg) == txn }

  lemma {:induction false} AboutAll(out: seq<Sent>, txn: string, other: string)
    requires AllAbout(out, txn)
    ensures About(out, other) == if txn == other then out else []
  {
    if out != [] {
      var front, x := out[..|out| - 1], out[|out| - 1];
      AboutAll(front, txn, other);
      assert out == front + [x] && Txn(x.msg) == txn;
    }
  }

  ghost predicate Local(dir: Directory, m: Manager, txn: string, st: Step) {
    && st.next.us == m.us && st.next.signing == m.signing
    && Consistent(dir, st.next.devices)
    && AllAbout(st.out, txn)
    && (forall t :: t != txn ==> (t in st.next.sessions <==> t in m.sessions))
    && (forall t :: t != txn && t in m.sessions ==> st.next.sessions[t] == m.sessions[t])
  }

  lemma MacIsLocal(cr: Crypto, dir: Directory, m: Manager, e: Event)
    requires Consistent(dir, m.devices) && e.msg.MacMsg?
    ensures Local(dir, m, e.msg.txn, OnMac(cr, dir, m, e))
  {
  }

  /** One event touches only its own transaction's session, sends only about it, and changes
      no signing key. */
  lemma HandleIsLocal(cr: Crypto, dir: Directory, m: Manager, e: Event)
    requires Consistent(dir, m.devices)
    ensures Local(dir, m, Txn(e.msg), Handle(cr, dir, m, e))
  {
    if e.msg.MacMsg? {
      MacIsLocal(cr, dir, m, e);
    }
  }

  /** The two managers are the same to transaction `txn`. */
  predicate SameFor(a: Manager, b: Manager, txn: string) {
    && a.us == b.us && a.signing == b.signing
    && (txn in a.sessions <==> txn in b.sessions)
    && (txn in a.sessions ==> a.sessions[txn] == b.sessions[txn])
  }

  /** What an event does to its transaction does not depend on the rest of the table, nor on
      which devices the store has looked up already. */
  lemma HandleIsAlone(cr: Crypto, dir: Directory, a: Manager, b: Manager, e: Event)
    requires Consistent(dir, a.devices) && Consistent(dir, b.devices) && SameFor(a, b, Txn(e.msg))
    ensures Handle(cr, dir, a, e).out == Handle(cr, dir, b, e).out
    ensures SameFor(Handle(cr, dir, a, e).next, Handle(cr, dir, b, e).next, Txn(e.msg))
  {
    var txn := Txn(e.msg);
    if e.msg.MacMsg? && txn in a.sessions {
      var k := a.sessions[txn].them;
      assert k in EnsureDevice(dir, a.devices, k) <==> k in dir;
      assert k in EnsureDevice(dir, b.devices, k) <==> k in dir;
      assert k in dir ==> EnsureDevice(dir, a.devices, k)[k].signing == EnsureDevice(dir, b.devices, k)[k].signing;
    }
  }

  /** Whatever other transactions are handled in between, a transaction's session, and all
      that is sent about it, are those of its own events handled alone. */
  lemma {:induction false} NonInterference(cr: Crypto, dir: Directory, m: Manager, es: seq<Event>, txn: string)
    requires Consistent(dir, m.devices)
    ensures Consistent(dir, Run(cr, dir, m, es).next.devices)
    ensures Consistent(dir, Run(cr, dir, m, EventsOf(es, txn)).next.devices)
    ensures SameFor(Run(cr, dir, m, es).next, Run(cr, dir, m, EventsOf(es, txn)).next, txn)
    ensures About(Run(cr, dir, m, es).out, txn) == Run(cr, dir, m, EventsOf(es, txn)).out
  {
    hide Handle, Consistent;
    if es != [] {
      var front, e := es[..|es| - 1], es[|es| - 1];
      var own := EventsOf(front, txn);
      var a, b := Run(cr, dir, m, front), Run(cr, dir, m, own);
      NonInterference(cr, dir, m, front, txn);
      HandleIsLocal(cr, dir, a.next, e);
      AboutJoin(a.out, Handle(cr, dir, a.next, e).out, txn);
      AboutAll(Handle(cr, dir, a.next, e).out, Txn(e.msg), txn);
      if Txn(e.msg) == txn {
        assert (own + [e])[..|own + [e]| - 1] == own;
        HandleIsAlone(cr, dir, a.next, b.next, e);
        HandleIsLocal(cr, dir, b.next, e);
      } else {
        assert own + [] == own;
      }
    }
  }

  predicate Verified(m: Manager, k: DeviceKey) { k in m.devices && m.devices[k].verified }

  ghost predicate Finished(out: seq<Sent>, k: DeviceKey) {
    exists i :: 0 <= i < |out| && out[i].to == k && out[i].msg.Done?
  }

  lemma StepVerifies(cr: Crypto, dir: Directory, m: Manager, e: Event, k: DeviceKey)
    ensures Verified(Handle(cr, dir, m, e).next, k) <==> Verified(m, k) || Finished(Handle(cr, dir, m, e).out, k)
  {
    var st := Handle(cr, dir, m, e);
    if e.msg.MacMsg? && |st.out| == 1 {
      assert Finished(st.out, k) <==> st.out[0].to == k && st.out[0].msg.Done?;
    }
  }

  /** A device becomes verified exactly by a transaction with it that ends in a done. */
  lemma {:induction false} VerifiedByDone(cr: Crypto, dir: Directory, m: Manager, es: seq<Event>, k: DeviceKey)
    ensures Verified(Run(cr, dir, m, es).next, k) <==> Verified(m, k) || Finished(Run(cr, dir, m, es).out, k)
  {
    if es != [] {
      var a := Run(cr, dir, m, es[..|es| - 1]);
      VerifiedByDone(cr, dir, m, es[..|es| - 1], k);
      StepVerifies(cr, dir, a.next, es[|es| - 1], k);
      FinishedJoin(a.out, Handle(cr, dir, a.next, es[|es| - 1]).out, k);
    }
  }

  /** The two equations a MAC message of `them` to `us` has to meet, over their signing key and
      under the shared secret. */
  predicate TrueMac(cr: Crypto, secret: nat, signing: string, them: DeviceKey, us: DeviceKey, txn: string,
                    mac: map<string, string>, keys: string) {
    var id := "ed25519:" + them.1;
    var info := "MATRIX_KEY_VERIFICATION_MAC" + them.0 + them.1 + us.0 + us.1 + txn;
    && id in mac && mac[id] == cr.mac(secret, signing, info + id)
    && keys == cr.mac(secret, id, info + "KEY_IDS")
  }

  /** What a MAC message does to a transaction that has a key, of a device the directory or the
      store knows: with both equations met it is answered by a done and verifies the device, and
      that device alone; with either not met the only answer is a cancel and it verifies nothing.
      Either way the transaction is over. */
  lemma MacDecides(cr: Crypto, dir: Directory, m: Manager, e: Event, k: DeviceKey)
    requires e.msg.MacMsg? && e.msg.txn != "" && e.msg.txn in m.sessions && Consistent(dir, m.devices)
    requires m.sessions[e.msg.txn].theirKey.Some? && m.sessions[e.msg.txn].them in dir
    ensures var s, st := m.sessions[e.msg.txn], Handle(cr, dir, m, e);
      var good := TrueMac(cr, cr.dh(s.priv, s.theirKey.value), dir[s.them], s.them, m.us,
                          e.msg.txn, e.msg.mac, e.msg.keys);
      && st.out == [Sent(s.them, if good then Done(e.msg.txn) else Cancel(e.msg.txn, "m.key_mismatch"))]
      && (Verified(st.next, k) <==> Verified(m, k) || (good && k == s.them))
      && st.next.sessions == m.sessions - {e.msg.txn}
  {
    var s := m.sessions[e.msg.txn];
    assert EnsureDevice(dir, m.devices, s.them)[s.them].signing == dir[s.them];
    MacOkIsTrue(cr, cr.dh(s.priv, s.theirKey.value), dir[s.them], s.them, m.us, e.msg);
  }

  lemma MacOkIsTrue(cr: Crypto, secret: nat, signing: string, from: DeviceKey, to: DeviceKey, m: Msg)
    requires m.MacMsg?
    ensures MacOk(cr, secret, signing, from, to, m) <==> TrueMac(cr, secret, signing, from, to, m.txn, m.mac, m.keys)
  {
  }

  /** A device nobody knows, and a MAC that comes before any key, verify nothing either. */
  lemma MacRefused(cr: Crypto, dir: Directory, m: Manager, e: Event)
    requires e.msg.MacMsg? && e.msg.txn in m.sessions
    requires m.sessions[e.msg.txn].theirKey.None? ||
      (m.sessions[e.msg.txn].them !in dir && m.sessions[e.msg.txn].them !in m.devices)
    ensures forall k :: Verified(Handle(cr, dir, m, e).next, k) <==> Verified(m, k)
    ensures e.msg.txn != "" && m.sessions[e.msg.txn].them !in dir && m.sessions[e.msg.txn].them !in m.devices ==>
      Handle(cr, dir, m, e).out == [Sent(m.sessions[e.msg.txn].them, Cancel(e.msg.txn, "m.key_mismatch"))]
  {
  }

  /** A key is answered by the session's own and by a MAC over our signing key that meets the same
      two equations from the other end, in that order. */
  lemma KeyAnswered(cr: Crypto, dir: Directory, m: Manager, e: Event)
    requires e.msg.KeyMsg? && e.msg.txn != "" && e.msg.txn in m.sessions && cr.valid(e.msg.key)
    ensures var s, st := m.sessions[e.msg.txn], Handle(cr, dir, m, e);
      && st.next == m.(sessions := m.sessions[e.msg.txn := s.(theirKey := Some(e.msg.key))])
      && |st.out| == 2 && st.out[0] == Sent(s.them, KeyMsg(e.msg.txn, cr.pub(s.priv)))
      && st.out[1].to == s.them && st.out[1].msg.MacMsg? && st.out[1].msg.txn == e.msg.txn
      && st.out[1].msg.mac.Keys == {"ed25519:" + m.us.1}
      && TrueMac(cr, cr.dh(s.priv, e.msg.key), m.signing, m.us, s.them, e.msg.txn,
                 st.out[1].msg.mac, st.out[1].msg.keys)
  {
    var s := m.sessions[e.msg.txn];
    MacOkIsTrue(cr, cr.dh(s.priv, e.msg.key), m.signing, m.us, s.them, Handle(cr, dir, m, e).out[1].msg);
  }

  /** A start with the one method there is is answered by an accept that commits to the session's
      key and to the start without its transaction id; any other by a cancel. A transaction that
      is new belongs to the sender and the device the start names. */
  lemma StartAnswered(cr: Crypto, dir: Directory, m: Manager, e: Event)
    requires e.msg.Start? && "transaction_id" in e.msg.content && e.msg.content["transaction_id"] != ""
    ensures var content, st := e.msg.content, Handle(cr, dir, m, e);
      var txn := content["transaction_id"];
      && txn in st.next.sessions && st.next == m.(sessions := m.sessions[txn := st.next.sessions[txn]])
      && var s := st.next.sessions[txn];
         && (if txn in m.sessions then s == m.sessions[txn]
             else s.them == (e.sender, Field(content, "from_device")) && s.priv == e.priv && s.theirKey.None?)
         && st.out == [Sent(s.them,
                            if "method" in content && content["method"] == "m.sas.v1"
                            then Accept(txn, cr.hash(cr.pub(s.priv) + cr.canon(content - {"transaction_id"})))
                            else Cancel(txn, "m.unknown_method"))]
  {
  }

  /** A request is answered by a ready, a cancel ends its transaction, and nothing else does
      anything. */
  lemma RestAnswered(cr: Crypto, dir: Directory, m: Manager, e: Event)
    requires !e.msg.Start? && !e.msg.KeyMsg? && !e.msg.MacMsg?
    ensures var txn, st := e.msg.txn, Handle(cr, dir, m, e);
      if e.msg.Request? && txn != "" then
        && txn in st.next.sessions && st.next == m.(sessions := m.sessions[txn := st.next.sessions[txn]])
        && st.out == [Sent(st.next.sessions[txn].them, Ready(txn))]
        && (if txn in m.sessions then st.next.sessions[txn] == m.sessions[txn]
            else st.next.sessions[txn] == Session((e.sender, e.msg.fromDevice), e.priv, None))
      else
        && st.out == []
        && st.next == if e.msg.Cancel? && txn != "" then m.(sessions := m.sessions - {txn}) else m
  {
  }

  /** And verification takes both equations to hold over the signing key the directory has for the
      device, under the secret shared with the key its transaction received. */
  lemma OnlyTrueMacVerifies(cr: Crypto, dir: Directory, m: Manager, e: Event, k: DeviceKey)
    requires Consistent(dir, m.devices) && !Verified(m, k) && Verified(Handle(cr, dir, m, e).next, k)
    ensures e.msg.MacMsg? && e.msg.txn in m.sessions && m.sessions[e.msg.txn].them == k && k in dir
    ensures var s := m.sessions[e.msg.txn];
      && s.theirKey.Some?
      && TrueMac(cr, cr.dh(s.priv, s.theirKey.value), dir[k], k, m.us, e.msg.txn, e.msg.mac, e.msg.keys)
  {
    var s := m.sessions[e.msg.txn];
    MacOkIsTrue(cr, cr.dh(s.priv, s.theirKey.value), dir[k], k, m.us, e.msg);
  }

  /** Event `i` of the run brings such a MAC, to the table as it then was. */
  ghost predicate TrulyVerifiedBy(cr: Crypto, dir: Directory, m: Manager, es: seq<Event>, i: nat, k: DeviceKey) {
    i < |es| && es[i].msg.MacMsg? && k in dir &&
    var sessions, msg := Run(cr, dir, m, es[..i]).next.sessions, es[i].msg;
    && msg.txn in sessions && sessions[msg.txn].them == k && sessions[msg.txn].theirKey.Some?
    && TrueMac(cr, cr.dh(sessions[msg.txn].priv, sessions[msg.txn].theirKey.value), dir[k], k, m.us,
               msg.txn, msg.mac, msg.keys)
  }

  lemma {:induction false} RunConsistent(cr: Crypto, dir: Directory, m: Manager, es: seq<Event>)
    requires Consistent(dir, m.devices)
    ensures Consistent(dir, Run(cr, dir, m, es).next.devices) && Run(cr, dir, m, es).next.us == m.us
  {
    hide Handle, Consistent;
    if es != [] {
      RunConsistent(cr, dir, m, es[..|es| - 1]);
      HandleIsLocal(cr, dir, Run(cr, dir, m, es[..|es| - 1]).next, es[|es| - 1]);
    }
  }

  /** Over whole runs: every device the run verifies has an event in it that brought a MAC over
      the signing key the directory has for that device, under the secret of its transaction. */
  lemma {:induction false} VerifiedTruly(cr: Crypto, dir: Directory, m: Manager, es: seq<Event>, k: DeviceKey)
    requires Consistent(dir, m.devices) && !Verified(m, k) && Verified(Run(cr, dir, m, es).next, k)
    ensures exists i: nat :: TrulyVerifiedBy(cr, dir, m, es, i, k)
  {
    hide Handle, MacOk, TrueMac;
    var front, e := es[..|es| - 1], es[|es| - 1];
    var a := Run(cr, dir, m, front).next;
    RunConsistent(cr, dir, m, front);
    if Verified(a, k) {
      VerifiedTruly(cr, dir, m, front, k);
      var i: nat :| TrulyVerifiedBy(cr, dir, m, front, i, k);
      assert front[..i] == es[..i];
      assert TrulyVerifiedBy(cr, dir, m, es, i, k);
    } else {
      OnlyTrueMacVerifies(cr, dir, a, e, k);
      assert TrulyVerifiedBy(cr, dir, m, es, |es| - 1, k);
    }
  }

  lemma FinishedJoin(a: seq<Sent>, b: seq<Sent>, k: DeviceKey)
    ensures Finished(a + b, k) <==> Finished(a, k) || Finished(b, k)
  {
    if i :| 0 <= i < |a| && a[i].to == k && a[i].msg.Done? {
      assert (a + b)[i] == a[i];
    }
    if i :| 0 <= i < |b| && b[i].to == k && b[i].msg.Done? {
      assert (a + b)[|a| + i] == b[i];
    }
  }

  // ---- The honest initiator --------------------------------------------------------

  /** One verification from the other end: who it is, whom it verifies and by which key. */
  datatype Initiator = Initiator(
    us: DeviceKey, signing: string, peer: DeviceKey, peerSigning: string, txn: string, priv: nat,
    content: map<string, string>, commitment: Option<string>, theirKey: Option<string>,
    success: bool, cancelled: bool)

  datatype Turn = Turn(next: Initiator, out: seq<Msg>)

  function React(cr: Crypto, i: Initiator, m: Msg): Turn {
    if Txn(m) != i.txn then Turn(i, [])
    else
      match m
      case Accept(_, commitment) => Turn(i.(commitment := Some(commitment)), [KeyMsg(i.txn, cr.pub(i.priv))])
      case KeyMsg(_, key) =>
        if Some(Commitment(cr, key, i.content)) != i.commitment then
          Turn(i.(cancelled := true), [Cancel(i.txn, KEY_MISMATCH)])
        else if !cr.valid(key) then Turn(i, [])
        else Turn(i.(theirKey := Some(key)), [MacFor(cr, cr.dh(i.priv, key), i.signing, i.us, i.peer, i.txn)])
      case MacMsg(_, _, _) =>
        if i.theirKey.None? then Turn(i, [])
        else if !MacOk(cr, cr.dh(i.priv, i.theirKey.value), i.peerSigning, i.peer, i.us, m) then
          Turn(i.(cancelled := true), [Cancel(i.txn, KEY_MISMATCH)])
        else Turn(i.(success := true), [Done(i.txn)])
      case Cancel(_, _) => Turn(i.(cancelled := true), [])
      case _ => Turn(i, [])
  }

  // ---- The two ends together -------------------------------------------------------

  /** Both ends, and the messages on their way in each direction, oldest first. */
  datatype Net = Net(i: Initiator, m: Manager, toR: seq<Msg>, toI: seq<Msg>)

  /** The next message arrives at the responder (with the key pair a new session would
      draw) or at the initiator, or the responder handles somebody else's event. */
  datatype Move = ToResponder(priv: nat) | ToInitiator | Other(event: Event)

  function Msgs(out: seq<Sent>, txn: string): seq<Msg> {
    seq(|About(out, txn)|, k requires 0 <= k < |About(out, txn)| => About(out, txn)[k].msg)
  }

  function Deliver(cr: Crypto, dir: Directory, n: Net, mv: Move): Net {
    match mv
    case ToResponder(priv) =>
      if n.toR == [] then n
      else
        var st := Handle(cr, dir, n.m, Event(n.i.us.0, n.toR[0], priv));
        n.(m := st.next, toR := n.toR[1..], toI := n.toI + Msgs(st.out, n.i.txn))
    case ToInitiator =>
      if n.toI == [] then n
      else
        var t := React(cr, n.i, n.toI[0]);
        n.(i := t.next, toI := n.toI[1..], toR := n.toR + t.out)
    case Other(e) =>
      var st := Handle(cr, dir, n.m, e);
      n.(m := st.next, toI := n.toI + Msgs(st.out, n.i.txn))
  }

  function Play(cr: Crypto, dir: Directory, n: Net, mvs: seq<Move>): Net {
    if mvs == [] then n else Deliver(cr, dir, Play(cr, dir, n, mvs[..|mvs| - 1]), mvs[|mvs| - 1])
  }

  /** What the initiator has just started, against a responder in any state that has not met
      this transaction: each knows the other's true signing key. */
  ghost predicate Ready0(dir: Directory, n: Net) {
    && n.i.txn != "" && n.i.txn !in n.m.sessions && Consistent(dir, n.m.devices)
    && n.i.us in dir && dir[n.i.us] == n.i.signing
    && n.i.peer == n.m.us && n.i.peerSigning == n.m.signing
    && n.i.commitment == None && n.i.theirKey == None && !n.i.success && !n.i.cancelled
    && Field(n.i.content, TRANSACTION_ID) == n.i.txn
    && Field(n.i.content, FROM_DEVICE) == n.i.us.1 && Field(n.i.content, METHOD) == SAS_METHOD
    && n.toR == [Start(n.i.content)] && n.toI == []
  }

  /** Nobody else's events carry this transaction's id. */
  predicate Apart(txn: string, mvs: seq<Move>) {
    forall k :: 0 <= k < |mvs| && mvs[k].Other? ==> Txn(mvs[k].event.msg) != txn
  }

  /** The parties are who they were, and know each other's true keys. */
  ghost predicate Parties(dir: Directory, n: Net) {
    && n.i.txn != "" && Consistent(dir, n.m.devices)
    && n.i.us in dir && dir[n.i.us] == n.i.signing
    && n.i.peer == n.m.us && n.i.peerSigning == n.m.signing
    && Field(n.i.content, TRANSACTION_ID) == n.i.txn
    && Field(n.i.content, FROM_DEVICE) == n.i.us.1 && Field(n.i.content, METHOD) == SAS_METHOD
    && !n.i.cancelled
  }

  function MacI(cr: Crypto, n: Net, r: nat): Msg {
    MacFor(cr, cr.dh(n.i.priv, cr.pub(r)), n.i.signing, n.i.us, n.m.us, n.i.txn)
  }

  function MacR(cr: Crypto, n: Net, r: nat): Msg {
    MacFor(cr, cr.dh(r, cr.pub(n.i.priv)), n.m.signing, n.m.us, n.i.us, n.i.txn)
  }

  /** The responder's session, once there, with key pair `r`. */
  predicate Open(cr: Crypto, n: Net, r: nat, keyed: bool) {
    && n.i.txn in n.m.sessions
    && n.m.sessions[n.i.txn] == Session(n.i.us, r, if keyed then Some(cr.pub(n.i.priv)) else None)
  }

  predicate Closed(n: Net) { n.i.txn !in n.m.sessions && Verified(n.m, n.i.us) }

  // The points the exchange can be at, by what is on its way.

  predicate Starting(n: Net) {
    && n.i.commitment == None && n.i.theirKey == None && !n.i.success
    && n.i.txn !in n.m.sessions && n.toR == [Start(n.i.content)] && n.toI == []
  }

  predicate Accepting(cr: Crypto, n: Net, r: nat) {
    && n.i.commitment == None && n.i.theirKey == None && !n.i.success
    && Open(cr, n, r, false) && n.toR == [] && n.toI == [Accept(n.i.txn, Commitment(cr, cr.pub(r), n.i.content))]
  }

  predicate Committed(cr: Crypto, n: Net, r: nat) {
    n.i.commitment == Some(Commitment(cr, cr.pub(r), n.i.content)) && n.i.theirKey == None && !n.i.success
  }

  predicate Keying(cr: Crypto, n: Net, r: nat) {
    && Committed(cr, n, r) && Open(cr, n, r, false)
    && n.toR == [KeyMsg(n.i.txn, cr.pub(n.i.priv))] && n.toI == []
  }

  predicate Answering(cr: Crypto, n: Net, r: nat) {
    && Committed(cr, n, r) && Open(cr, n, r, true)
    && n.toR == [] && n.toI == [KeyMsg(n.i.txn, cr.pub(r)), MacR(cr, n, r)]
  }

  predicate Crossing(cr: Crypto, n: Net, r: nat) {
    && n.i.theirKey == Some(cr.pub(r)) && !n.i.success && Open(cr, n, r, true)
    && n.toR == [MacI(cr, n, r)] && n.toI == [MacR(cr, n, r)]
  }

  predicate InitiatorFirst(cr: Crypto, n: Net, r: nat) {
    && n.i.success && Open(cr, n, r, true)
    && n.toR == [MacI(cr, n, r), Done(n.i.txn)] && n.toI == []
  }

  predicate ResponderFirst(cr: Crypto, n: Net, r: nat) {
    && n.i.theirKey == Some(cr.pub(r)) && !n.i.success && Closed(n)
    && n.toR == [] && n.toI == [MacR(cr, n, r), Done(n.i.txn)]
  }

  predicate Ending(n: Net) {
    && n.i.success && Closed(n)
    && (n.toR == [Done(n.i.txn)] || n.toR == []) && (n.toI == [Done(n.i.txn)] || n.toI == [])
  }

  predicate Point(cr: Crypto, n: Net, r: nat) {
    || Starting(n) || Accepting(cr, n, r) || Keying(cr, n, r) || Answering(cr, n, r)
    || Crossing(cr, n, r) || InitiatorFirst(cr, n, r) || ResponderFirst(cr, n, r) || Ending(n)
  }

  ghost predicate Agreeing(cr: Crypto, dir: Directory, n: Net) { Parties(dir, n) && exists r :: Point(cr, n, r) }

  lemma OneMsg(out: seq<Sent>, txn: string)
    requires AllAbout(out, txn)
    ensures |Msgs(out, txn)| == |out| && forall k :: 0 <= k < |out| ==> Msgs(out, txn)[k] == out[k].msg
  {
    AboutAll(out, txn, txn);
  }

  /** How many deliveries are still to come of a message: itself and what answers it. */
  function Worth(m: Msg, atResponder: bool): nat {
    match m
    case Start(_) => 8
    case Accept(_, _) => 7
    case KeyMsg(_, _) => if atResponder then 6 else 3
    case MacMsg(_, _, _) => 2
    case Done(_) => 1
    case _ => 0
  }

  function Load(ms: seq<Msg>, atResponder: bool): nat {
    if ms == [] then 0 else Worth(ms[0], atResponder) + Load(ms[1..], atResponder)
  }

  function Left(n: Net): nat { Load(n.toR, true) + Load(n.toI, false) }

  lemma Loads(a: Msg, b: Msg, at: bool)
    ensures Load([], at) == 0 && Load([a], at) == Worth(a, at) && Load([a, b], at) == Worth(a, at) + Worth(b, at)
  {
    assert [a][1..] == [] && [b][1..] == [] && [a, b][1..] == [b];
    assert Load([b], at) == Worth(b, at);
  }

  /** The exchange moves on: still agreeing, with one delivery fewer to come. */
  ghost predicate MovesOn(cr: Crypto, dir: Directory, n: Net, next: Net, r: nat) {
    Parties(dir, next) && Point(cr, next, r) && Left(next) + 1 == Left(n)
  }

  lemma StartArrives(cr: Crypto, dir: Directory, n: Net, priv: nat)
    requires Parties(dir, n) && Starting(n)
    ensures MovesOn(cr, dir, n, Deliver(cr, dir, n, ToResponder(priv)), priv)
  {
    var e := Event(n.i.us.0, n.toR[0], priv);
    var out := Handle(cr, dir, n.m, e).out;
    var accept := Accept(n.i.txn, Commitment(cr, cr.pub(priv), n.i.content));
    HandleIsLocal(cr, dir, n.m, e);
    OneMsg(out, n.i.txn);
    assert Msgs(out, n.i.txn) == [accept];
    assert Accepting(cr, Deliver(cr, dir, n, ToResponder(priv)), priv);
    Loads(n.toR[0], n.toR[0], true);
    Loads(accept, accept, false);
  }

  lemma AcceptArrives(cr: Crypto, dir: Directory, n: Net, r: nat)
    requires Parties(dir, n) && Accepting(cr, n, r)
    ensures MovesOn(cr, dir, n, Deliver(cr, dir, n, ToInitiator), r)
  {
    assert Keying(cr, Deliver(cr, dir, n, ToInitiator), r);
    Loads(n.toI[0], n.toI[0], false);
    Loads(KeyMsg(n.i.txn, cr.pub(n.i.priv)), n.toI[0], true);
  }

  lemma KeyArrivesAtResponder(cr: Crypto, dir: Directory, n: Net, r: nat, priv: nat)
    requires Lawful(cr) && Parties(dir, n) && Keying(cr, n, r)
    ensures MovesOn(cr, dir, n, Deliver(cr, dir, n, ToResponder(priv)), r)
  {
    var e := Event(n.i.us.0, n.toR[0], priv);
    var out := Handle(cr, dir, n.m, e).out;
    HandleIsLocal(cr, dir, n.m, e);
    OneMsg(out, n.i.txn);
    assert Msgs(out, n.i.txn) == [KeyMsg(n.i.txn, cr.pub(r)), MacR(cr, n, r)];
    assert Answering(cr, Deliver(cr, dir, n, ToResponder(priv)), r);
    Loads(n.toR[0], n.toR[0], true);
    Loads(KeyMsg(n.i.txn, cr.pub(r)), MacR(cr, n, r), false);
  }

  lemma KeyArrivesAtInitiator(cr: Crypto, dir: Directory, n: Net, r: nat)
    requires Lawful(cr) && Parties(dir, n) && Answering(cr, n, r)
    ensures MovesOn(cr, dir, n, Deliver(cr, dir, n, ToInitiator), r)
  {
    assert Crossing(cr, Deliver(cr, dir, n, ToInitiator), r);
    Loads(n.toI[0], MacR(cr, n, r), false);
    Loads(MacR(cr, n, r), MacR(cr, n, r), false);
    Loads(MacI(cr, n, r), MacI(cr, n, r), true);
  }

  /** A MAC made over the key the directory has, under the shared secret, is accepted. */
  lemma TrueMacAccepted(cr: Crypto, dir: Directory, m: Manager, e: Event, key: string)
    requires e.msg.MacMsg? && e.msg.txn != "" && e.msg.txn in m.sessions && Consistent(dir, m.devices)
    requires m.sessions[e.msg.txn].theirKey == Some(key) && m.sessions[e.msg.txn].them in dir
    requires var s := m.sessions[e.msg.txn];
      e.msg == MacFor(cr, cr.dh(s.priv, key), dir[s.them], s.them, m.us, e.msg.txn)
    ensures var st := OnMac(cr, dir, m, e); var k := m.sessions[e.msg.txn].them;
      st.out == [Sent(k, Done(e.msg.txn))] && Verified(st.next, k) && e.msg.txn !in st.next.sessions
  {
    var s := m.sessions[e.msg.txn];
    assert EnsureDevice(dir, m.devices, s.them)[s.them].signing == dir[s.them];
  }

  lemma MacArrivesAtResponder(cr: Crypto, dir: Directory, n: Net, r: nat, priv: nat)
    requires Lawful(cr) && Parties(dir, n) && (Crossing(cr, n, r) || InitiatorFirst(cr, n, r))
    ensures var next := Deliver(cr, dir, n, ToResponder(priv));
      && Parties(dir, next) && Closed(next) && next.i == n.i
      && next.toR == n.toR[1..] && next.toI == n.toI + [Done(n.i.txn)]
      && next.m.us == n.m.us && next.m.signing == n.m.signing
  {
    var e := Event(n.i.us.0, n.toR[0], priv);
    HandleIsLocal(cr, dir, n.m, e);
    TrueMacAccepted(cr, dir, n.m, e, cr.pub(n.i.priv));
    OneMsg(OnMac(cr, dir, n.m, e).out, n.i.txn);
    assert Msgs(OnMac(cr, dir, n.m, e).out, n.i.txn) == [Done(n.i.txn)];
  }

  lemma ResponderMoves(cr: Crypto, dir: Directory, n: Net, r: nat, priv: nat)
    requires Lawful(cr) && Parties(dir, n) && (Crossing(cr, n, r) || InitiatorFirst(cr, n, r))
    ensures MovesOn(cr, dir, n, Deliver(cr, dir, n, ToResponder(priv)), r)
  {
    var next, done := Deliver(cr, dir, n, ToResponder(priv)), Done(n.i.txn);
    MacArrivesAtResponder(cr, dir, n, r, priv);
    assert if n.i.success then Ending(next) else ResponderFirst(cr, next, r);
    Loads(MacI(cr, n, r), done, true);
    Loads(MacR(cr, n, r), done, false);
    Loads(done, done, true);
    Loads(done, done, false);
  }

  lemma MacArrivesAtInitiator(cr: Crypto, dir: Directory, n: Net, r: nat)
    requires Lawful(cr) && Parties(dir, n) && (Crossing(cr, n, r) || ResponderFirst(cr, n, r))
    ensures var next := Deliver(cr, dir, n, ToInitiator);
      && Parties(dir, next) && next.m == n.m && next.i == n.i.(success := true)
      && next.toI == n.toI[1..] && next.toR == n.toR + [Done(n.i.txn)]
  {
    assert cr.dh(r, cr.pub(n.i.priv)) == cr.dh(n.i.priv, cr.pub(r));
  }

  lemma InitiatorMoves(cr: Crypto, dir: Directory, n: Net, r: nat)
    requires Lawful(cr) && Parties(dir, n) && (Crossing(cr, n, r) || ResponderFirst(cr, n, r))
    ensures MovesOn(cr, dir, n, Deliver(cr, dir, n, ToInitiator), r)
  {
    var next, done := Deliver(cr, dir, n, ToInitiator), Done(n.i.txn);
    MacArrivesAtInitiator(cr, dir, n, r);
    assert if n.toR == [] then Ending(next) else InitiatorFirst(cr, next, r);
    Loads(MacI(cr, n, r), done, true);
    Loads(MacR(cr, n, r), done, false);
    Loads(done, done, true);
    Loads(done, done, false);
  }

  lemma DoneArrives(cr: Crypto, dir: Directory, n: Net, r: nat, mv: Move)
    requires Parties(dir, n) && Ending(n) && Moves(n, mv)
    ensures MovesOn(cr, dir, n, Deliver(cr, dir, n, mv), r)
  {
    var t := n.i.txn;
    assert Msgs([], t) == [];
    assert Ending(Deliver(cr, dir, n, mv));
    Loads(Done(t), Done(t), true);
    Loads(Done(t), Done(t), false);
  }

  lemma OtherArrives(cr: Crypto, dir: Directory, n: Net, r: nat, e: Event)
    requires Parties(dir, n) && Point(cr, n, r) && Txn(e.msg) != n.i.txn
    ensures var next := Deliver(cr, dir, n, Other(e));
      Parties(dir, next) && Point(cr, next, r) && Left(next) == Left(n)
  {
    var st := Handle(cr, dir, n.m, e);
    HandleIsLocal(cr, dir, n.m, e);
    AboutAll(st.out, Txn(e.msg), n.i.txn);
    assert Msgs(st.out, n.i.txn) == [];
    assert n.toI + [] == n.toI;
    StepVerifies(cr, dir, n.m, e, n.i.us);
  }

  predicate Moves(n: Net, mv: Move) {
    (mv.ToResponder? && n.toR != []) || (mv.ToInitiator? && n.toI != [])
  }

  lemma DeliveryAgrees(cr: Crypto, dir: Directory, n: Net, mv: Move)
    requires Lawful(cr) && Agreeing(cr, dir, n) && (mv.Other? ==> Txn(mv.event.msg) != n.i.txn)
    ensures Agreeing(cr, dir, Deliver(cr, dir, n, mv)) && Deliver(cr, dir, n, mv).i.txn == n.i.txn
    ensures Left(Deliver(cr, dir, n, mv)) + (if Moves(n, mv) then 1 else 0) == Left(n)
  {
    hide Point, Parties, Deliver, Left;
    var r :| Point(cr, n, r);
    SameTxn(cr, dir, n, mv);
    if mv.Other? {
      OtherArrives(cr, dir, n, r, mv.event);
    } else if Moves(n, mv) {
      SomeoneMoves(cr, dir, n, r, mv);
    }
  }

  lemma SameTxn(cr: Crypto, dir: Directory, n: Net, mv: Move)
    ensures Deliver(cr, dir, n, mv).i.txn == n.i.txn
    ensures !Moves(n, mv) && !mv.Other? ==> Deliver(cr, dir, n, mv) == n
  {
    hide Handle, Commitment, MacOk, MacFor;
  }

  lemma SomeoneMoves(cr: Crypto, dir: Directory, n: Net, r: nat, mv: Move)
    requires Lawful(cr) && Parties(dir, n) && Point(cr, n, r) && Moves(n, mv)
    ensures exists r' :: MovesOn(cr, dir, n, Deliver(cr, dir, n, mv), r')
  {
    if Starting(n) {
      StartArrives(cr, dir, n, mv.priv);
    } else if Accepting(cr, n, r) {
      AcceptArrives(cr, dir, n, r);
    } else if Keying(cr, n, r) {
      KeyArrivesAtResponder(cr, dir, n, r, mv.priv);
    } else if Answering(cr, n, r) {
      KeyArrivesAtInitiator(cr, dir, n, r);
    } else if Ending(n) {
      DoneArrives(cr, dir, n, r, mv);
    } else if mv.ToResponder? {
      ResponderMoves(cr, dir, n, r, mv.priv);
    } else {
      InitiatorMoves(cr, dir, n, r);
    }
  }

  function Deliveries(cr: Crypto, dir: Directory, n: Net, mvs: seq<Move>): nat {
    if mvs == [] then 0
    else
      Deliveries(cr, dir, n, mvs[..|mvs| - 1])
        + if Moves(Play(cr, dir, n, mvs[..|mvs| - 1]), mvs[|mvs| - 1]) then 1 else 0
  }

  /** Whatever the order of deliveries across the two directions, and whatever the responder
      handles for others in between, neither end ever cancels; and the eighth delivery ends
      it, with the initiator satisfied and its device verified. */
  lemma {:induction false} Agreement(cr: Crypto, dir: Directory, n: Net, mvs: seq<Move>)
    requires Lawful(cr) && Ready0(dir, n) && Apart(n.i.txn, mvs)
    ensures var end := Play(cr, dir, n, mvs);
      && Agreeing(cr, dir, end) && end.i.txn == n.i.txn
      && Left(end) + Deliveries(cr, dir, n, mvs) == 8
  {
    if mvs == [] {
      assert Point(cr, n, 0);
      Loads(n.toR[0], n.toR[0], true);
    } else {
      var front := mvs[..|mvs| - 1];
      assert Apart(n.i.txn, front);
      Agreement(cr, dir, n, front);
      DeliveryAgrees(cr, dir, Play(cr, dir, n, front), mvs[|mvs| - 1]);
    }
  }

  lemma NothingLeft(cr: Crypto, n: Net, r: nat)
    requires Point(cr, n, r)
    ensures Left(n) == 0 <==> n.toR == [] && n.toI == []
  {
    assert n.toR != [] ==> Worth(n.toR[0], true) > 0;
    assert n.toI != [] ==> Worth(n.toI[0], false) > 0;
  }

  /** The state of both ends when nothing is left to deliver. */
  lemma AgreedAtEnd(cr: Crypto, dir: Directory, n: Net, mvs: seq<Move>)
    requires Lawful(cr) && Ready0(dir, n) && Apart(n.i.txn, mvs)
    ensures var end := Play(cr, dir, n, mvs);
      && !end.i.cancelled
      && (8 <= Deliveries(cr, dir, n, mvs) <==> end.toR == [] && end.toI == [])
      && (end.toR == [] && end.toI == [] ==> end.i.success && Closed(end))
  {
    Agreement(cr, dir, n, mvs);
    var end := Play(cr, dir, n, mvs);
    var r :| Point(cr, end, r);
    NothingLeft(cr, end, r);
  }

  // ---- SASVerificationManager ------------------------------------------------------

  class SasManager {
    const us: DeviceKey
    const signing: string
    var sessions: map<string, Session>
    var devices: map<DeviceKey, Device>
    var outbox: seq<Sent>

    constructor (me: DeviceKey, key: string, store: map<DeviceKey, Device>)
      ensures View() == Manager(me, key, map[], store) && outbox == []
    {
      us, signing, sessions, devices, outbox := me, key, map[], store, [];
    }

    function View(): Manager
      reads this
    {
      Manager(us, signing, sessions, devices)
    }

    method Send(to: DeviceKey, m: Msg)
      modifies this`outbox
      ensures outbox == old(outbox) + [Sent(to, m)]
    {
      outbox := outbox + [Sent(to, m)];
    }

    /** `_get_or_create`, for a transaction id that is there. */
    method GetOrCreate(e: Event) returns (s: Session)
      modifies this`sessions
      ensures s == SessionFor(old(View()), e)
      ensures View() == WithSession(old(View()), Txn(e.msg), s)
    {
      var txn := Txn(e.msg);
      if txn !in sessions {
        var device := if e.msg.Start? then Field(e.msg.content, FROM_DEVICE)
                      else if e.msg.Request? then e.msg.fromDevice else "";
        sessions := sessions[txn := Session((e.sender, device), e.priv, None)];
      }
      s := sessions[txn];
      assert sessions == sessions[txn := s];
    }

    /** `_on_request`. */
    method Requested(e: Event)
      requires e.msg.Request?
      modifies this
      ensures Step(View(), outbox) == Step(OnRequest(old(View()), e).next, old(outbox) + OnRequest(old(View()), e).out)
    {
      if e.msg.txn != "" {
        var s := GetOrCreate(e);
        Send(s.them, Ready(e.msg.txn));
      }
    }

    /** `_on_start`. */
    method Started(cr: Crypto, e: Event)
      requires e.msg.Start?
      modifies this
      ensures Step(View(), outbox)
           == Step(OnStart(cr, old(View()), e).next, old(outbox) + OnStart(cr, old(View()), e).out)
    {
      var txn := Txn(e.msg);
      if txn == "" {
        return;
      }
      var s := GetOrCreate(e);
      if Field(e.msg.content, METHOD) != SAS_METHOD {
        Send(s.them, Cancel(txn, UNKNOWN_METHOD));
        return;
      }
      Send(s.them, Accept(txn, Commitment(cr, cr.pub(s.priv), e.msg.content)));
    }

    /** `_on_key`: the two messages go out in this order. */
    method Keyed(cr: Crypto, e: Event)
      requires e.msg.KeyMsg?
      modifies this
      ensures Step(View(), outbox) == Step(OnKey(cr, old(View()), e).next, old(outbox) + OnKey(cr, old(View()), e).out)
    {
      var txn := e.msg.txn;
      if txn == "" || txn !in sessions || !cr.valid(e.msg.key) {
        return;
      }
      var s := sessions[txn];
      sessions := sessions[txn := s.(theirKey := Some(e.msg.key))];
      Send(s.them, KeyMsg(txn, cr.pub(s.priv)));
      Send(s.them, MacFor(cr, cr.dh(s.priv, e.msg.key), signing, us, s.them, txn));
    }

    /** `_on_mac`. */
    method MacReceived(cr: Crypto, dir: Directory, e: Event)
      requires e.msg.MacMsg?
      modifies this
      ensures Step(View(), outbox)
           == Step(OnMac(cr, dir, old(View()), e).next, old(outbox) + OnMac(cr, dir, old(View()), e).out)
    {
      var txn := e.msg.txn;
      if txn == "" || txn !in sessions {
        return;
      }
      var s := sessions[txn];
      if s.them !in devices && s.them in dir {
        devices := devices[s.them := Device(dir[s.them], false)];
      }
      if s.them !in devices {
        Send(s.them, Cancel(txn, KEY_MISMATCH));
      } else if s.theirKey.None? {
        return;
      } else {
        var device := devices[s.them];
        if !MacOk(cr, cr.dh(s.priv, s.theirKey.value), device.signing, s.them, us, e.msg) {
          Send(s.them, Cancel(txn, KEY_MISMATCH));
        } else {
          devices := devices[s.them := device.(verified := true)];
          Send(s.them, Done(txn));
        }
      }
      sessions := sessions - {txn};
    }

    /** `_on_cancel`. */
    method Cancelled(e: Event)
      requires e.msg.Cancel?
      modifies this
      ensures View() == if e.msg.txn == "" then old(View()) else Without(old(View()), e.msg.txn)
      ensures outbox == old(outbox)
    {
      if e.msg.txn != "" {
        sessions := sessions - {e.msg.txn};
      }
    }

    /** An event reaches the handler registered for its type, or none. */
    method Dispatch(cr: Crypto, dir: Directory, e: Event)
      modifies this
      ensures Step(View(), outbox)
           == Step(Handle(cr, dir, old(View()), e).next, old(outbox) + Handle(cr, dir, old(View()), e).out)
    {
      match e.msg {
        case Request(_, _) => Requested(e);
        case Start(_) => Started(cr, e);
        case KeyMsg(_, _) => Keyed(cr, e);
        case MacMsg(_, _, _) => MacReceived(cr, dir, e);
        case Cancel(_, _) => Cancelled(e);
        case _ =>
      }
    }
  }
}
