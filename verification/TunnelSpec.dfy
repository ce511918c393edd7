/** The per-peer WireGuard tunnel as values: messages, sessions, and what each operation does.
    Random choices and the wall clock come in as a `Draw`; the monotonic clock as `now`. */
module TunnelSpec {
  import opened Common
  import opened Noise
  import Replay

  const CONSTRUCTION := "Noise_IKpsk2_25519_ChaChaPoly_BLAKE2s"
  const IDENTIFIER := Text("WireGuard v1 zx2c4 Jason@zx2c4.com")
  const LABEL_MAC1 := Text("mac1----")
  const PSK := Text("32 zero bytes")

  const INITIATION_LEN := 148
  const RESPONSE_LEN := 92
  const TRANSPORT_MIN_LEN := 32

  const REKEY_AFTER_TIME := 120_000
  const REJECT_AFTER_TIME := 180_000
  const REKEY_TIMEOUT := 5_000
  const KEEPALIVE_TIMEOUT := 10_000
  const REKEY_AFTER_MESSAGES := 0x1000_0000_0000_0000
  const MAX_HANDSHAKE_ATTEMPTS := 18
  const QUEUE_LIMIT := 8

  datatype WgError = BadLength | BadType | BadMac | BadReceiver | AuthFailed | NoSession | Replayed | UnknownPeer

  /** A datagram. `Junk` is one of no known type. */
  datatype Wire =
    | Initiation(sender: nat, ephemeral: Term, encStatic: Term, encStamp: Term, mac1: Term)
    | Response(sender: nat, receiver: nat, ephemeral: Term, encEmpty: Term, mac1: Term)
    | Transport(receiver: nat, counter: nat, body: Term)
    | Junk(len: nat)

  function WireLen(m: Wire): nat {
    match m
    case Initiation(_, _, _, _, _) => INITIATION_LEN
    case Response(_, _, _, _, _) => RESPONSE_LEN
    case Transport(_, _, body) => TRANSPORT_MIN_LEN + (if body.Sealed? && body.plain.Raw? then |body.plain.bytes| else 0)
    case Junk(len) => len
  }

  /** What one call may draw from the random source and the wall clock. */
  datatype Draw = Draw(ephemeral: nat, index: nat, stamp: nat)

  datatype Session = Session(
    localIndex: nat, remoteIndex: nat, sendKey: Term, recvKey: Term, sendCounter: nat,
    replay: Replay.Window, created: Time, isInitiator: bool, confirmed: bool)

  datatype Pending = Pending(localIndex: nat, ephemeral: nat, state: Sym, sentAt: Time, attempts: nat)

  datatype Tunn = Tunn(
    local: nat, peer: Term, pending: Option<Pending>, current: Option<Session>, previous: Option<Session>,
    lastStamp: nat, lastSent: Option<Time>, lastReceived: Option<Time>, needKeepalive: bool, queued: seq<Bytes>)

  function New(local: nat, peer: Term): Tunn {
    Tunn(local, peer, None, None, None, 0, None, None, false, [])
  }

  // ---- handshake ----

  function MacKey(public: Term): Term {
    Hash(Pair(LABEL_MAC1, public))
  }

  function InitiationMac(responder: Term, sender: nat, ephemeral: Term, encStatic: Term, encStamp: Term): Term {
    Mac(MacKey(responder), Pair(Index(sender), Pair(ephemeral, Pair(encStatic, encStamp))))
  }

  function ResponseMac(initiator: Term, sender: nat, receiver: nat, ephemeral: Term, encEmpty: Term): Term {
    Mac(MacKey(initiator), Pair(Index(sender), Pair(Index(receiver), Pair(ephemeral, encEmpty))))
  }

  /** The state both sides reach from the responder's key and the initiator's ephemeral. */
  function Opened(responder: Term, ephemeral: Term): Sym {
    var s := MixHash(MixHash(Start(CONSTRUCTION), IDENTIFIER), responder);
    MixHash(MixKey(s, ephemeral), ephemeral)
  }

  /** The initiation for fresh values, and the state kept for the response. */
  function Initiate(local: nat, peer: Term, d: Draw): (Wire, Sym) {
    var e := Pub(d.ephemeral);
    var s1 := MixDh(Opened(peer, e), d.ephemeral, peer);
    var encStatic := Sealing(s1, Pub(local));
    var s2 := MixDh(MixHash(s1, encStatic), local, peer);
    var encStamp := Sealing(s2, Stamp(d.stamp));
    (Initiation(d.index, e, encStatic, encStamp, InitiationMac(peer, d.index, e, encStatic, encStamp)),
     MixHash(s2, encStamp))
  }

  datatype Consumed = Consumed(peer: Term, remoteIndex: nat, remoteEphemeral: Term, state: Sym, stamp: nat)

  function StampOf(t: Term): nat {
    if t.Stamp? then t.time else 0
  }

  function ConsumeInitiation(local: nat, m: Wire): Result<Consumed, WgError> {
    if WireLen(m) != INITIATION_LEN then Err(BadLength) else
    if !m.Initiation? then Err(BadType) else
    if m.mac1 != InitiationMac(Pub(local), m.sender, m.ephemeral, m.encStatic, m.encStamp) then Err(BadMac) else
    var s1 := MixDh(Opened(Pub(local), m.ephemeral), local, m.ephemeral);
    match Opening(s1, m.encStatic)
    case None => Err(AuthFailed)
    case Some(peer) =>
      var s2 := MixDh(MixHash(s1, m.encStatic), local, peer);
      match Opening(s2, m.encStamp)
      case None => Err(AuthFailed)
      case Some(stamp) =>
        Ok(Consumed(peer, m.sender, m.ephemeral, MixHash(s2, m.encStamp), StampOf(stamp)))
  }

  /** The responder's half of the response: the state it encrypts the empty payload under. */
  function Answering(s: Sym, e: nat, remoteEphemeral: Term, initiator: Term): Sym {
    var s1 := MixKey(MixHash(s, Pub(e)), Pub(e));
    MixKeyAndHash(MixDh(MixDh(s1, e, remoteEphemeral), e, initiator), PSK)
  }

  /** The initiator's half. */
  function Answered(s: Sym, e: nat, local: nat, re: Term): Sym {
    var s1 := MixKey(MixHash(s, re), re);
    MixKeyAndHash(MixDh(MixDh(s1, e, re), local, re), PSK)
  }

  function NewSession(localIndex: nat, remoteIndex: nat, sendKey: Term, recvKey: Term, now: Time, initiator: bool): Session {
    Session(localIndex, remoteIndex, sendKey, recvKey, 0, Replay.EMPTY, now, initiator, initiator)
  }

  function AcceptInitiation(t: Tunn, ci: Consumed, now: Time, d: Draw): (Tunn, Result<Wire, WgError>) {
    if ci.peer != t.peer then (t, Err(UnknownPeer)) else
    if ci.stamp <= t.lastStamp then (t, Err(Replayed)) else
    var s := Answering(ci.state, d.ephemeral, ci.remoteEphemeral, t.peer);
    var encEmpty := Sealing(s, EMPTY);
    var e := Pub(d.ephemeral);
    var mac1 := ResponseMac(t.peer, d.index, ci.remoteIndex, e, encEmpty);
    var (toUs, fromUs) := Split(MixHash(s, encEmpty));
    (t.(lastStamp := ci.stamp, pending := None, previous := t.current,
        current := Some(NewSession(d.index, ci.remoteIndex, fromUs, toUs, now, false))),
     Ok(Response(d.index, ci.remoteIndex, e, encEmpty, mac1)))
  }

  function ConsumeResponse(t: Tunn, m: Wire, now: Time): (Tunn, Result<seq<Wire>, WgError>) {
    if WireLen(m) != RESPONSE_LEN then (t, Err(BadLength)) else
    if !m.Response? then (t, Err(BadType)) else
    if m.mac1 != ResponseMac(Pub(t.local), m.sender, m.receiver, m.ephemeral, m.encEmpty) then (t, Err(BadMac)) else
    if t.pending.None? || t.pending.value.localIndex != m.receiver then (t, Err(BadReceiver)) else
    var p := t.pending.value;
    var s := Answered(p.state, p.ephemeral, t.local, m.ephemeral);
    if Opening(s, m.encEmpty).None? then (t, Err(AuthFailed)) else
    var (fromUs, toUs) := Split(MixHash(s, m.encEmpty));
    var (t', out) := Flush(t.(pending := None, previous := t.current,
                              current := Some(NewSession(p.localIndex, m.sender, fromUs, toUs, now, true))), now);
    (t', Ok(out))
  }

  // ---- sending ----

  function Padded(plain: Bytes): Bytes {
    plain + Zeros((|plain| + 15) / 16 * 16 - |plain|)
  }

  function Seal(s: Session, plain: Bytes): (Session, Wire) {
    (s.(sendCounter := s.sendCounter + 1),
     Transport(s.remoteIndex, s.sendCounter, Sealed(s.sendKey, s.sendCounter, Raw(Padded(plain)), EMPTY)))
  }

  function SealAll(s: Session, plains: seq<Bytes>): (Session, seq<Wire>)
    decreases |plains|
  {
    if plains == [] then (s, []) else
    var n := |plains| - 1;
    var (s', out) := SealAll(s, plains[..n]);
    var (s'', m) := Seal(s', plains[n]);
    (s'', out + [m])
  }

  function Flush(t: Tunn, now: Time): (Tunn, seq<Wire>) {
    if t.current.None? then (t.(queued := []), []) else
    var (s, out) := SealAll(t.current.value, t.queued);
    (t.(current := Some(s), queued := [], lastSent := if out == [] then t.lastSent else Some(now)), out)
  }

  function Enqueue(q: seq<Bytes>, plain: Bytes): seq<Bytes> {
    (if |q| >= QUEUE_LIMIT then q[1..] else q) + [plain]
  }

  function NewInitiation(t: Tunn, now: Time, d: Draw): (Tunn, Wire) {
    var (m, s) := Initiate(t.local, t.peer, d);
    var attempts := if t.pending.Some? then t.pending.value.attempts + 1 else 1;
    (t.(pending := Some(Pending(d.index, d.ephemeral, s, now, attempts))), m)
  }

  function InitiateIfNeeded(t: Tunn, now: Time, d: Draw): (Tunn, seq<Wire>) {
    if t.current.Some? then (t, []) else
    if t.pending.Some? && Since(now, t.pending.value.sentAt) < REKEY_TIMEOUT then (t, []) else
    if t.pending.Some? && t.pending.value.attempts >= MAX_HANDSHAKE_ATTEMPTS then
      (t.(pending := None, queued := []), [])
    else
      var (t', m) := NewInitiation(t, now, d);
      (t', [m])
  }

  predicate Expired(s: Session, now: Time) {
    Since(now, s.created) >= REJECT_AFTER_TIME
  }

  predicate RekeyDue(s: Session, now: Time) {
    s.isInitiator && (Since(now, s.created) >= REKEY_AFTER_TIME || s.sendCounter >= REKEY_AFTER_MESSAGES)
  }

  function Encapsulate(t: Tunn, plain: Bytes, now: Time, d: Draw): (Tunn, seq<Wire>) {
    if t.current.None? || Expired(t.current.value, now) then
      InitiateIfNeeded(t.(current := None, queued := Enqueue(t.queued, plain)), now, d)
    else
      var (s, m) := Seal(t.current.value, plain);
      var t1 := t.(current := Some(s), lastSent := Some(now), needKeepalive := false);
      if RekeyDue(s, now) && t.pending.None? then
        var (t2, i) := NewInitiation(t1, now, d);
        (t2, [m, i])
      else (t1, [m])
  }

  // ---- receiving ----

  /** Length of an IP packet according to its header. */
  function IpPacketLen(p: Bytes): Option<nat> {
    if p == [] then None else
    if p[0] / 16 == 4 && |p| >= 20 then Some(Be16(p[2], p[3])) else
    if p[0] / 16 == 6 && |p| >= 40 then Some(40 + Be16(p[4], p[5])) else None
  }

  function Trimmed(p: Bytes): Bytes {
    match IpPacketLen(p)
    case Some(n) => if n <= |p| then p[..n] else p
    case None => p
  }

  function OpenBytes(key: Term, counter: nat, body: Term): Option<Bytes> {
    match Open(key, counter, body, EMPTY)
    case Some(Raw(b)) => Some(b)
    case _ => None
  }

  datatype Slot = InCurrent | InPrevious | Nowhere

  /** The session a receiver index addresses; the current one is looked at first. */
  function SlotOf(t: Tunn, index: nat): Slot {
    if t.current.Some? && t.current.value.localIndex == index then InCurrent else
    if t.previous.Some? && t.previous.value.localIndex == index then InPrevious else Nowhere
  }

  function Addressed(t: Tunn, index: nat): Session
    requires SlotOf(t, index) != Nowhere
  {
    if SlotOf(t, index) == InCurrent then t.current.value else t.previous.value
  }

  function ConsumeTransport(t: Tunn, m: Wire, now: Time): (Tunn, Result<Option<Bytes>, WgError>) {
    if WireLen(m) < TRANSPORT_MIN_LEN then (t, Err(BadLength)) else
    if !m.Transport? then (t, Err(BadType)) else
    var slot := SlotOf(t, m.receiver);
    if slot == Nowhere then (t, Err(NoSession)) else
    var s := Addressed(t, m.receiver);
    if Expired(s, now) then (t, Err(NoSession)) else
    match OpenBytes(s.recvKey, m.counter, m.body)
    case None => (t, Err(AuthFailed))
    case Some(plain) =>
      if !Replay.Fresh(s.replay, m.counter) then (t, Err(Replayed)) else
      var s' := s.(replay := Replay.Note(s.replay, m.counter), confirmed := true);
      var t1 := if slot == InCurrent then t.(current := Some(s'), previous := None) else t.(previous := Some(s'));
      var t2 := t1.(lastReceived := Some(now));
      if plain == [] then (t2, Ok(None)) else (t2.(needKeepalive := true), Ok(Some(Trimmed(plain))))
  }

  // ---- timers ----

  function Live(s: Option<Session>, now: Time): Option<Session> {
    if s.Some? && Expired(s.value, now) then None else s
  }

  predicate KeepaliveDue(t: Tunn, now: Time) {
    && t.needKeepalive && t.lastReceived.Some? && t.current.Some?
    && Since(now, t.lastReceived.value) < 2 * KEEPALIVE_TIMEOUT
    && (t.lastSent.Some? ==> Since(now, t.lastSent.value) >= KEEPALIVE_TIMEOUT)
  }

  function Keepalive(t: Tunn, now: Time): (Tunn, seq<Wire>) {
    if !KeepaliveDue(t, now) then (t, []) else
    var (s, m) := Seal(t.current.value, []);
    (t.(current := Some(s), lastSent := Some(now), needKeepalive := false), [m])
  }

  function Tick(t: Tunn, now: Time, d: Draw): (Tunn, seq<Wire>) {
    var t0 := t.(current := Live(t.current, now), previous := Live(t.previous, now));
    var (t1, o1) := if t0.pending.Some? || (t0.queued != [] && t0.current.None?)
                    then InitiateIfNeeded(t0, now, d) else (t0, []);
    var (t2, o2) := Keepalive(t1, now);
    (t2, o1 + o2)
  }

  /** Receiver indices that currently belong to the tunnel. */
  function LocalIndices(t: Tunn): set<nat> {
    (if t.pending.Some? then {t.pending.value.localIndex} else {}) +
    (if t.current.Some? then {t.current.value.localIndex} else {}) +
    (if t.previous.Some? then {t.previous.value.localIndex} else {})
  }
}
