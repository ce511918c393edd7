/** The tunnel as the object it is: sessions with a live replay window, fields updated in
    place. Every method is tied to the specification of the same operation. */
module Tunnel {
  import opened Common
  import opened Noise
  import Replay
  import Spec = TunnelSpec

  class LiveSession {
    const localIndex: nat
    const remoteIndex: nat
    const sendKey: Term
    const recvKey: Term
    var sendCounter: nat
    const replay: Replay.ReplayWindow
    const created: Time
    const isInitiator: bool
    var confirmed: bool

    ghost function Repr(): set<object> {
      {this, replay, replay.bitmap}
    }

    ghost predicate Valid()
      reads Repr()
    {
      replay.Valid()
    }

    ghost function View(): Spec.Session
      reads this, replay
    {
      Spec.Session(localIndex, remoteIndex, sendKey, recvKey, sendCounter, replay.View(), created, isInitiator, confirmed)
    }

    constructor (localIndex: nat, remoteIndex: nat, sendKey: Term, recvKey: Term, now: Time, initiator: bool)
      ensures Valid() && fresh(Repr())
      ensures View() == Spec.NewSession(localIndex, remoteIndex, sendKey, recvKey, now, initiator)
    {
      this.localIndex, this.remoteIndex, this.sendKey, this.recvKey := localIndex, remoteIndex, sendKey, recvKey;
      sendCounter, created, isInitiator, confirmed := 0, now, initiator, initiator;
      replay := new Replay.ReplayWindow();
    }

    method Seal(plain: Bytes) returns (m: Spec.Wire)
      modifies this`sendCounter
      ensures (View(), m) == Spec.Seal(old(View()), plain)
    {
      var paddedLen := (|plain| + 15) / 16 * 16;
      var padded := plain + Zeros(paddedLen - |plain|);
      m := Spec.Transport(remoteIndex, sendCounter, Sealed(sendKey, sendCounter, Raw(padded), EMPTY));
      sendCounter := sendCounter + 1;
    }
  }

  /** A response once it is known to answer the pending initiation. */
  ghost function Completed(t: Spec.Tunn, m: Spec.Wire, now: Time): (Spec.Tunn, Result<seq<Spec.Wire>, Spec.WgError>)
    requires t.pending.Some? && m.Response?
  {
    var p := t.pending.value;
    var keys := ResponseKeys(p.state, p.ephemeral, t.local, m.ephemeral, m.encEmpty);
    if keys.None? then (t, Err(Spec.AuthFailed)) else
    Flushed(t, p.localIndex, m.sender, keys.value.0, keys.value.1, now)
  }

  /** Both ends of a handshake of ours are known: the session is installed and the queue goes out. */
  ghost function Flushed(t: Spec.Tunn, localIndex: nat, remoteIndex: nat, sendKey: Term, recvKey: Term, now: Time): (Spec.Tunn, Result<seq<Spec.Wire>, Spec.WgError>) {
    var (t', out) := Spec.Flush(t.(pending := None, previous := t.current, current := Some(Spec.NewSession(localIndex, remoteIndex, sendKey, recvKey, now, true))), now);
    (t', Ok(out))
  }

  ghost function Part(s: LiveSession?): set<object> {
    if s == null then {} else s.Repr()
  }

  ghost function Seen(s: LiveSession?): Option<Spec.Session>
    reads Part(s)
  {
    if s == null then None else Some(s.View())
  }

  /** Decrypts an initiation far enough to know who sent it. */
  method ConsumeInitiation(local: nat, m: Spec.Wire) returns (r: Result<Spec.Consumed, Spec.WgError>)
    ensures r == Spec.ConsumeInitiation(local, m)
  {
    if Spec.WireLen(m) != Spec.INITIATION_LEN { return Err(Spec.BadLength); }
    if !m.Initiation? { return Err(Spec.BadType); }
    if m.mac1 != Spec.InitiationMac(Pub(local), m.sender, m.ephemeral, m.encStatic, m.encStamp) { return Err(Spec.BadMac); }
    var s := new SymmetricState(Spec.CONSTRUCTION);
    s.Absorb(Spec.IDENTIFIER);
    s.Absorb(Pub(local));
    s.Key(m.ephemeral);
    s.Absorb(m.ephemeral);
    s.Agree(local, m.ephemeral);
    var peer := s.Decrypt(m.encStatic);
    if peer.None? { return Err(Spec.AuthFailed); }
    s.Agree(local, peer.value);
    var stamp := s.Decrypt(m.encStamp);
    if stamp.None? { return Err(Spec.AuthFailed); }
    r := Ok(Spec.Consumed(peer.value, m.sender, m.ephemeral, s.View(), Spec.StampOf(stamp.value)));
  }

  /** Cuts the padding off according to the IP header. */
  method Trim(plain: Bytes) returns (ip: Bytes)
    ensures ip == Spec.Trimmed(plain)
  {
    var headerLen := Spec.IpPacketLen(plain);
    var len := Min(if headerLen.Some? then headerLen.value else |plain|, |plain|);
    ip := plain[..len];
  }

  /** Runs the initiator's side of the first message. */
  method BuildInitiation(local: nat, peer: Term, d: Spec.Draw) returns (m: Spec.Wire, state: Sym)
    ensures (m, state) == Spec.Initiate(local, peer, d)
  {
    var s := new SymmetricState(Spec.CONSTRUCTION);
    s.Absorb(Spec.IDENTIFIER);
    s.Absorb(peer);
    var e := Pub(d.ephemeral);
    s.Key(e);
    s.Absorb(e);
    s.Agree(d.ephemeral, peer);
    var encStatic := s.Encrypt(Pub(local));
    s.Agree(local, peer);
    var encStamp := s.Encrypt(Stamp(d.stamp));
    m := Spec.Initiation(d.index, e, encStatic, encStamp, Spec.InitiationMac(peer, d.index, e, encStatic, encStamp));
    state := s.View();
  }

  /** The session keys a response gives its initiator, if its empty payload opens. */
  ghost function ResponseKeys(state: Sym, e: nat, local: nat, re: Term, encEmpty: Term): Option<(Term, Term)> {
    var s := Spec.Answered(state, e, local, re);
    if Opening(s, encEmpty).Some? then Some(Split(MixHash(s, encEmpty))) else None
  }

  /** Mixes a response into a clone of the pending state and checks its empty payload. */
  method OpenResponse(state: Sym, e: nat, local: nat, re: Term, encEmpty: Term) returns (keys: Option<(Term, Term)>)
    ensures keys == ResponseKeys(state, e, local, re, encEmpty)
  {
    var s := new SymmetricState.Resume(state);
    s.Absorb(re);
    s.Key(re);
    s.Agree(e, re);
    s.Agree(local, re);
    s.KeyAndAbsorb(Spec.PSK);
    var empty := s.Decrypt(encEmpty);
    keys := if empty.Some? then Some(Split(s.View())) else None;
  }

  /** The responder's side of the second message: its empty payload and the split keys. */
  method SealResponse(state: Sym, e: nat, remoteEphemeral: Term, initiator: Term) returns (encEmpty: Term, keys: (Term, Term))
    ensures var s := Spec.Answering(state, e, remoteEphemeral, initiator);
            encEmpty == Sealing(s, EMPTY) && keys == Split(MixHash(s, encEmpty))
  {
    var s := new SymmetricState.Resume(state);
    s.Absorb(Pub(e));
    s.Key(Pub(e));
    s.Agree(e, remoteEphemeral);
    s.Agree(e, initiator);
    s.KeyAndAbsorb(Spec.PSK);
    encEmpty := s.Encrypt(EMPTY);
    keys := Split(s.View());
  }

  class Tunn {
    const local: nat
    const peer: Term
    var pending: Option<Spec.Pending>
    var current: LiveSession?
    var previous: LiveSession?
    var lastStamp: nat
    var lastSent: Option<Time>
    var lastReceived: Option<Time>
    var needKeepalive: bool
    var queued: seq<Bytes>

    ghost function Repr(): set<object>
      reads this
    {
      {this} + Part(current) + Part(previous)
    }

    ghost predicate Valid()
      reads this, Part(current), Part(previous)
    {
      && this !in Part(current) && this !in Part(previous) && Part(current) !! Part(previous)
      && (current != null ==> current.Valid())
      && (previous != null ==> previous.Valid())
    }

    ghost function View(): Spec.Tunn
      reads this, Part(current), Part(previous)
    {
      Spec.Tunn(local, peer, pending, Seen(current), Seen(previous), lastStamp, lastSent, lastReceived, needKeepalive, queued)
    }

    constructor (local: nat, peer: Term)
      ensures Valid() && fresh(Repr()) && View() == Spec.New(local, peer)
    {
      this.local, this.peer := local, peer;
      pending, current, previous, lastStamp := None, null, null, 0;
      lastSent, lastReceived, needKeepalive, queued := None, None, false, [];
    }

    method LocalIndices() returns (v: seq<nat>)
      requires Valid()
      ensures |v| <= 3 && (set i <- v) == Spec.LocalIndices(View())
    {
      v := [];
      if pending.Some? { v := v + [pending.value.localIndex]; }
      if current != null { v := v + [current.localIndex]; }
      if previous != null { v := v + [previous.localIndex]; }
    }

    method NewInitiation(now: Time, d: Spec.Draw) returns (m: Spec.Wire)
      requires Valid()
      modifies this`pending
      ensures Valid() && (View(), m) == Spec.NewInitiation(old(View()), now, d)
    {
      var state;
      m, state := BuildInitiation(local, peer, d);
      var attempts := if pending.Some? then pending.value.attempts + 1 else 1;
      pending := Some(Spec.Pending(d.index, d.ephemeral, state, now, attempts));
    }

    method InitiateIfNeeded(now: Time, d: Spec.Draw) returns (out: seq<Spec.Wire>)
      requires Valid()
      modifies this`pending, this`queued
      ensures Valid() && (View(), out) == Spec.InitiateIfNeeded(old(View()), now, d)
    {
      if current != null { return []; }
      if pending.Some? && Since(now, pending.value.sentAt) < Spec.REKEY_TIMEOUT { return []; }
      if pending.Some? && pending.value.attempts >= Spec.MAX_HANDSHAKE_ATTEMPTS {
        pending := None;
        queued := [];
        return [];
      }
      var m := NewInitiation(now, d);
      out := [m];
    }

    method Enqueue(plain: Bytes)
      modifies this`queued
      ensures queued == Spec.Enqueue(old(queued), plain)
    {
      if |queued| >= Spec.QUEUE_LIMIT { queued := queued[1..]; }
      queued := queued + [plain];
    }

    method Encapsulate(plain: Bytes, now: Time, d: Spec.Draw) returns (out: seq<Spec.Wire>)
      requires Valid()
      modifies Repr()
      ensures Valid() && Repr() <= old(Repr())
      ensures (View(), out) == Spec.Encapsulate(old(View()), plain, now, d)
    {
      var s := current;
      if s == null {
        Enqueue(plain);
        out := InitiateIfNeeded(now, d);
        return;
      }
      if Since(now, s.created) >= Spec.REJECT_AFTER_TIME {
        current := null;
        Enqueue(plain);
        out := InitiateIfNeeded(now, d);
        return;
      }
      var m := s.Seal(plain);
      out := [m];
      lastSent := Some(now);
      needKeepalive := false;
      if s.isInitiator && (Since(now, s.created) >= Spec.REKEY_AFTER_TIME || s.sendCounter >= Spec.REKEY_AFTER_MESSAGES)
         && pending.None?
      {
        var i := NewInitiation(now, d);
        out := [m, i];
      }
    }

    method FlushQueue(now: Time) returns (out: seq<Spec.Wire>)
      requires Valid()
      modifies this`queued, this`lastSent, Part(current)
      ensures Valid() && (View(), out) == Spec.Flush(old(View()), now)
    {
      var pkts := queued;
      queued := [];
      out := [];
      var s := current;
      if s != null {
        for i := 0 to |pkts|
          invariant Valid() && current == s && previous == old(previous) && queued == []
          invariant unchanged(this`lastSent) && unchanged(this`pending)
          invariant Seen(previous) == old(Seen(previous))
          invariant (s.View(), out) == Spec.SealAll(old(s.View()), pkts[..i])
        {
          assert pkts[..i + 1][..i] == pkts[..i];
          var m := s.Seal(pkts[i]);
          out := out + [m];
        }
        assert pkts[..|pkts|] == pkts;
        if out != [] { lastSent := Some(now); }
      }
    }

    method ClearPending()
      requires Valid()
      modifies this`pending
      ensures Valid() && View() == old(View()).(pending := None)
    {
      pending := None;
    }

    /** A new session becomes current, the current one previous. */
    method Adopt(localIndex: nat, remoteIndex: nat, sendKey: Term, recvKey: Term, now: Time, initiator: bool)
      requires Valid()
      modifies this`current, this`previous
      ensures Valid() && current != null && fresh(Part(current)) && previous == old(current)
      ensures View() == old(View()).(previous := old(View()).current,
                                     current := Some(Spec.NewSession(localIndex, remoteIndex, sendKey, recvKey, now, initiator)))
    {
      var session := new LiveSession(localIndex, remoteIndex, sendKey, recvKey, now, initiator);
      previous := current;
      current := session;
    }

    method ConsumeResponse(m: Spec.Wire, now: Time) returns (r: Result<seq<Spec.Wire>, Spec.WgError>)
      requires Valid()
      modifies this
      ensures Valid() && fresh(Repr() - old(Repr()))
      ensures (View(), r) == Spec.ConsumeResponse(old(View()), m, now)
    {
      if Spec.WireLen(m) != Spec.RESPONSE_LEN { return Err(Spec.BadLength); }
      if !m.Response? { return Err(Spec.BadType); }
      if m.mac1 != Spec.ResponseMac(Pub(local), m.sender, m.receiver, m.ephemeral, m.encEmpty) { return Err(Spec.BadMac); }
      if pending.None? || pending.value.localIndex != m.receiver { return Err(Spec.BadReceiver); }
      r := Complete(m, now);
    }

    /** The answer to the initiation in flight, which stays in flight if the answer does not open. */
    method Complete(m: Spec.Wire, now: Time) returns (r: Result<seq<Spec.Wire>, Spec.WgError>)
      requires Valid() && pending.Some? && m.Response?
      modifies this
      ensures Valid() && fresh(Repr() - old(Repr()))
      ensures (View(), r) == Completed(old(View()), m, now)
    {
      var p := pending.value;
      var keys := OpenResponse(p.state, p.ephemeral, local, m.ephemeral, m.encEmpty);
      if keys.None? { return Err(Spec.AuthFailed); }
      r := AdoptAndFlush(p.localIndex, m.sender, keys.value.0, keys.value.1, now);
    }

    /** A handshake of ours completed: what waited for it goes out under the new session. */
    method AdoptAndFlush(localIndex: nat, remoteIndex: nat, sendKey: Term, recvKey: Term, now: Time)
      returns (r: Result<seq<Spec.Wire>, Spec.WgError>)
      requires Valid()
      modifies this
      ensures Valid() && fresh(Repr() - old(Repr()))
      ensures (View(), r) == Flushed(old(View()), localIndex, remoteIndex, sendKey, recvKey, now)
    {
      ClearPending();
      Adopt(localIndex, remoteIndex, sendKey, recvKey, now, true);
      var out := FlushQueue(now);
      r := Ok(out);
    }

    method AcceptInitiation(ci: Spec.Consumed, now: Time, d: Spec.Draw) returns (r: Result<Spec.Wire, Spec.WgError>)
      requires Valid()
      modifies this
      ensures Valid() && fresh(Repr() - old(Repr()))
      ensures (View(), r) == Spec.AcceptInitiation(old(View()), ci, now, d)
    {
      if ci.peer != peer { return Err(Spec.UnknownPeer); }
      if ci.stamp <= lastStamp { return Err(Spec.Replayed); }
      lastStamp := ci.stamp;
      var e := Pub(d.ephemeral);
      var encEmpty, keys := SealResponse(ci.state, d.ephemeral, ci.remoteEphemeral, peer);
      var (initiatorSend, responderSend) := keys;
      Adopt(d.index, ci.remoteIndex, responderSend, initiatorSend, now, false);
      pending := None;
      r := Ok(Spec.Response(d.index, ci.remoteIndex, e, encEmpty, Spec.ResponseMac(peer, d.index, ci.remoteIndex, e, encEmpty)));
    }

    /** The session a receiver index addresses. */
    method FindSession(index: nat) returns (slot: LiveSession?, isCurrent: bool)
      requires Valid()
      ensures slot == if isCurrent then current else if Spec.SlotOf(View(), index) == Spec.InPrevious then previous else null
      ensures isCurrent <==> Spec.SlotOf(View(), index) == Spec.InCurrent
      ensures slot == null <==> Spec.SlotOf(View(), index) == Spec.Nowhere
    {
      if current != null && current.localIndex == index { return current, true; }
      if previous != null && previous.localIndex == index { return previous, false; }
      return null, false;
    }

    method ConsumeTransport(m: Spec.Wire, now: Time) returns (r: Result<Option<Bytes>, Spec.WgError>)
      requires Valid()
      modifies Repr()
      ensures Valid() && Repr() <= old(Repr())
      ensures (View(), r) == Spec.ConsumeTransport(old(View()), m, now)
    {
      if Spec.WireLen(m) < Spec.TRANSPORT_MIN_LEN { return Err(Spec.BadLength); }
      if !m.Transport? { return Err(Spec.BadType); }
      var slot, isCurrent := FindSession(m.receiver);
      if slot == null { return Err(Spec.NoSession); }
      if Since(now, slot.created) >= Spec.REJECT_AFTER_TIME { return Err(Spec.NoSession); }
      var plain := Spec.OpenBytes(slot.recvKey, m.counter, m.body);
      if plain.None? { return Err(Spec.AuthFailed); }
      var ok := slot.replay.CheckAndUpdate(m.counter);
      if !ok { return Err(Spec.Replayed); }
      slot.confirmed := true;
      Received(isCurrent, plain.value != [], now);
      if plain.value == [] { return Ok(None); }
      var ip := Trim(plain.value);
      r := Ok(Some(ip));
    }

    method Received(isCurrent: bool, payload: bool, now: Time)
      modifies this`lastReceived, this`previous, this`needKeepalive
      ensures lastReceived == Some(now) && needKeepalive == (payload || old(needKeepalive))
      ensures previous == if isCurrent then null else old(previous)
    {
      lastReceived := Some(now);
      if isCurrent { previous := null; }
      if payload { needKeepalive := true; }
    }

    method DropExpired(now: Time)
      requires Valid()
      modifies this`current, this`previous
      ensures Valid() && Repr() <= old(Repr())
      ensures View() == old(View()).(current := Spec.Live(old(View()).current, now), previous := Spec.Live(old(View()).previous, now))
    {
      if current != null && Since(now, current.created) >= Spec.REJECT_AFTER_TIME { current := null; }
      if previous != null && Since(now, previous.created) >= Spec.REJECT_AFTER_TIME { previous := null; }
    }

    method KeepaliveIfDue(now: Time) returns (out: seq<Spec.Wire>)
      requires Valid()
      modifies this`lastSent, this`needKeepalive, Part(current)
      ensures Valid() && (View(), out) == Spec.Keepalive(old(View()), now)
    {
      var s := current;
      if needKeepalive && lastReceived.Some? && s != null
         && Since(now, lastReceived.value) < 2 * Spec.KEEPALIVE_TIMEOUT
         && (lastSent.None? || Since(now, lastSent.value) >= Spec.KEEPALIVE_TIMEOUT)
      {
        var m := s.Seal([]);
        lastSent := Some(now);
        needKeepalive := false;
        return [m];
      }
      out := [];
    }

    method Tick(now: Time, d: Spec.Draw) returns (out: seq<Spec.Wire>)
      requires Valid()
      modifies Repr()
      ensures Valid() && Repr() <= old(Repr())
      ensures (View(), out) == Spec.Tick(old(View()), now, d)
    {
      DropExpired(now);
      out := Retry(now, d);
      var more := KeepaliveIfDue(now);
      out := out + more;
    }

    method Retry(now: Time, d: Spec.Draw) returns (out: seq<Spec.Wire>)
      requires Valid()
      modifies this`pending, this`queued
      ensures Valid() && current == old(current) && previous == old(previous)
      ensures (View(), out) == if old(View()).pending.Some? || (old(View()).queued != [] && old(View()).current.None?)
                               then Spec.InitiateIfNeeded(old(View()), now, d) else (old(View()), [])
    {
      out := [];
      if pending.Some? || (queued != [] && current == null) { out := InitiateIfNeeded(now, d); }
    }
  }
}
