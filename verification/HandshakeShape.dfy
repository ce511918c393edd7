/** The two handshake messages of WireGuard written out as terms (section 5.4 of the WireGuard whitepaper),
    chaining keys, transcript hashes and MACs included: what is sent is these, and nothing else is accepted. */
module HandshakeShape {
  import opened Common
  import opened Noise
  import opened TunnelSpec
  import TunnelRuns
  import Handshake
  import Replay

  /** The initiation to `responder` under ephemeral `e`, from static key `s`, with the two shared secrets. */
  function InitiationOf(responder: Term, index: nat, e: Term, es: Term, s: Term, ss: Term, stamp: Term): Wire {
    var c0 := Hash(Text("Noise_IKpsk2_25519_ChaChaPoly_BLAKE2s"));
    var c1 := Hkdf(c0, e, 1);
    var h1 := Hash(Pair(Hash(Pair(Hash(Pair(c0, Text("WireGuard v1 zx2c4 Jason@zx2c4.com"))), responder)), e));
    var encStatic := Sealed(Hkdf(c1, es, 2), 0, s, h1);
    var encStamp := Sealed(Hkdf(Hkdf(c1, es, 1), ss, 2), 0, stamp, Hash(Pair(h1, encStatic)));
    Initiation(index, e, encStatic, encStamp,
      Mac(Hash(Pair(Text("mac1----"), responder)), Pair(Index(index), Pair(e, Pair(encStatic, encStamp)))))
  }

  /** Chaining key and transcript hash after an initiation. */
  function ChainAfter(m: Wire, es: Term, ss: Term): Term
    requires m.Initiation?
  {
    Hkdf(Hkdf(Hkdf(Hash(Text("Noise_IKpsk2_25519_ChaChaPoly_BLAKE2s")), m.ephemeral, 1), es, 1), ss, 1)
  }

  function HashAfter(responder: Term, m: Wire): Term
    requires m.Initiation?
  {
    var c0 := Hash(Text("Noise_IKpsk2_25519_ChaChaPoly_BLAKE2s"));
    var h1 := Hash(Pair(Hash(Pair(Hash(Pair(c0, Text("WireGuard v1 zx2c4 Jason@zx2c4.com"))), responder)), m.ephemeral));
    Hash(Pair(Hash(Pair(h1, m.encStatic)), m.encStamp))
  }

  /** The response that goes on from `c` and `h`, under ephemeral `re`, with its two shared secrets. The
      payload is empty; on the wire the sealed field is 16 bytes long and has room for nothing else. */
  function ResponseOf(c: Term, h: Term, initiator: Term, sender: nat, receiver: nat, re: Term, ee: Term, se: Term, payload: Term): Wire {
    var c6 := Hkdf(Hkdf(Hkdf(c, re, 1), ee, 1), se, 1);
    var encEmpty := Sealed(Hkdf(c6, PSK, 3), 0, payload, Hash(Pair(Hash(Pair(h, re)), Hkdf(c6, PSK, 2))));
    Response(sender, receiver, re, encEmpty,
      Mac(Hash(Pair(Text("mac1----"), initiator)), Pair(Index(sender), Pair(Index(receiver), Pair(re, encEmpty)))))
  }

  lemma Names()
    ensures |CONSTRUCTION| > 32 && CONSTRUCTION == "Noise_IKpsk2_25519_ChaChaPoly_BLAKE2s"
  {
  }

  /** What an initiator sends, and the state it keeps. */
  lemma InitiationSent(local: nat, peer: Term, d: Draw)
    ensures var (m, s) := Initiate(local, peer, d);
            var es, ss := X25519(d.ephemeral, peer), X25519(local, peer);
            && m == InitiationOf(peer, d.index, Pub(d.ephemeral), es, Pub(local), ss, Stamp(d.stamp))
            && s.ck == ChainAfter(m, es, ss) && s.h == HashAfter(peer, m)
  {
    Names();
  }

  /** The message is the initiation of `peer` to us with this stamp. */
  predicate ComesFrom(local: nat, m: Wire, peer: Term, stamp: Term) {
    m.Initiation? && m == InitiationOf(Pub(local), m.sender, m.ephemeral, X25519(local, m.ephemeral), peer, X25519(local, peer), stamp)
  }

  /** What a responder takes is exactly that, and it reaches the same chaining key and hash. */
  lemma InitiationReadIff(local: nat, m: Wire, ci: Consumed)
    ensures ConsumeInitiation(local, m) == Ok(ci) <==>
            exists stamp :: ComesFrom(local, m, ci.peer, stamp) && IsRead(local, m, stamp, ci)
  {
    Names();
    if ConsumeInitiation(local, m) == Ok(ci) { assert ComesFrom(local, m, ci.peer, m.encStamp.plain) && IsRead(local, m, m.encStamp.plain, ci); }
  }

  predicate IsRead(local: nat, m: Wire, stamp: Term, ci: Consumed) {
    && m.Initiation? && ci.remoteIndex == m.sender && ci.remoteEphemeral == m.ephemeral
    && ci.stamp == (if stamp.Stamp? then stamp.time else 0)
    && ci.state.ck == ChainAfter(m, X25519(local, m.ephemeral), X25519(local, ci.peer))
    && ci.state.h == HashAfter(Pub(local), m)
    && ci.state.k == Some(Hkdf(ci.state.ck.ck, ci.state.ck.ikm, 2))
  }

  /** What a responder sends goes on from the initiation it took, and so do its session's keys. */
  lemma ResponseSent(t: Tunn, m: Wire, now: Time, d: Draw)
    requires ConsumeInitiation(t.local, m).Ok? && AcceptInitiation(t, ConsumeInitiation(t.local, m).value, now, d).1.Ok?
    ensures m.Initiation? && m.encStamp.Sealed?
    ensures var (t', r) := AcceptInitiation(t, ConsumeInitiation(t.local, m).value, now, d);
            var e := Pub(d.ephemeral);
            var c := ChainAfter(m, X25519(t.local, m.ephemeral), X25519(t.local, t.peer));
            var ee, se := X25519(d.ephemeral, m.ephemeral), X25519(d.ephemeral, t.peer);
            && r.value == ResponseOf(c, HashAfter(Pub(t.local), m), t.peer, d.index, m.sender, e, ee, se, Raw([]))
            && t' == t.(lastStamp := StampOf(m.encStamp.plain), pending := None, previous := t.current,
                        current := Some(Fresh(d.index, m.sender, KeyFrom(c, e, ee, se, 2), KeyFrom(c, e, ee, se, 1), now, false)))
  {
    var ci := ConsumeInitiation(t.local, m).value;
    InitiationReadIff(t.local, m, ci);
  }

  /** A transport key: the chaining key after the response, expanded. */
  function KeyFrom(c: Term, re: Term, ee: Term, se: Term, output: nat): Term {
    Hkdf(Hkdf(Hkdf(Hkdf(Hkdf(c, re, 1), ee, 1), se, 1), PSK, 1), Raw([]), output)
  }

  /** A session nothing has gone through yet. The initiator's is confirmed by the response itself. */
  function Fresh(localIndex: nat, remoteIndex: nat, sendKey: Term, recvKey: Term, now: Time, initiator: bool): Session {
    Session(localIndex, remoteIndex, sendKey, recvKey, 0, Replay.Window(0, {}), now, initiator, initiator)
  }

  /** The pending initiation of a tunnel is one it sent, drawn as `d`. */
  predicate Awaits(t: Tunn, d: Draw) {
    && t.pending.Some? && t.pending.value.state == Initiate(t.local, t.peer, d).1
    && t.pending.value.ephemeral == d.ephemeral && t.pending.value.localIndex == d.index
  }

  ghost predicate AwaitsOwn(t: Tunn) {
    t.pending.Some? ==> exists d :: Awaits(t, d)
  }

  /** Nothing but a new initiation sets the pending one. */
  lemma PendingStep(t: Tunn, ev: TunnelRuns.Event)
    requires AwaitsOwn(t)
    ensures AwaitsOwn(TunnelRuns.Step(t, ev).0)
  {
    var t' := TunnelRuns.Step(t, ev).0;
    assert t'.local == t.local && t'.peer == t.peer by { if !TunnelRuns.Creates(t, ev) { TunnelRuns.QuietStep(t, ev); } }
    if t'.pending.Some? {
      if t'.pending == t.pending { var d :| Awaits(t, d); assert Awaits(t', d); }
      else { assert Awaits(t', ev.d); }
    }
  }

  /** In every run a pending initiation is one this tunnel sent. */
  lemma {:induction false} PendingWasSent(local: nat, peer: Term, evs: seq<TunnelRuns.Event>)
    ensures AwaitsOwn(TunnelRuns.Run(TunnelRuns.Begin(local, peer), evs).t)
    decreases |evs|
  {
    if evs != [] {
      PendingWasSent(local, peer, evs[..|evs| - 1]);
      PendingStep(TunnelRuns.Run(TunnelRuns.Begin(local, peer), evs[..|evs| - 1]).t, evs[|evs| - 1]);
    }
  }

  /** An initiator that waits for the answer to an initiation it sent accepts exactly one message for each
      responder ephemeral and index: the response that goes on from its initiation. */
  lemma ResponseReadIff(t: Tunn, d: Draw, m: Wire, now: Time)
    requires Awaits(t, d)
    ensures ConsumeResponse(t, m, now).1.Ok? <==> m.Response? && m.encEmpty.Sealed? && m == Expected(t.local, t.peer, d, m.sender, m.ephemeral, m.encEmpty.plain)
  {
    InitiationSent(t.local, t.peer, d);
    if m.Response? && m.encEmpty.Sealed? && m == Expected(t.local, t.peer, d, m.sender, m.ephemeral, m.encEmpty.plain) {
      ExpectedOpens(t, d, m);
    }
  }

  /** The session it then has, and what has waited for it goes out first. */
  lemma ResponseInstalls(t: Tunn, d: Draw, m: Wire, now: Time)
    requires Awaits(t, d) && ConsumeResponse(t, m, now).1.Ok?
    ensures var (t', r) := ConsumeResponse(t, m, now);
            var re := m.ephemeral;
            var c := ChainAfter(Initiate(t.local, t.peer, d).0, X25519(d.ephemeral, t.peer), X25519(t.local, t.peer));
            var ee, se := X25519(d.ephemeral, re), X25519(t.local, re);
            var s := Fresh(d.index, m.sender, KeyFrom(c, re, ee, se, 1), KeyFrom(c, re, ee, se, 2), now, true);
            t' == t.(pending := None, current := Some(s.(sendCounter := |t.queued|)), previous := t.current, queued := [],
                     lastSent := if t.queued == [] then t.lastSent else Some(now))
  {
    InitiationSent(t.local, t.peer, d);
    TunnelRuns.ResponseForm(t, m, now);
    Handshake.SealAllKeeps(TunnelRuns.Installed(t, m, now), t.queued);
  }

  /** A response that is refused, for whatever reason, leaves the tunnel waiting as before. */
  lemma ResponseRefused(t: Tunn, m: Wire, now: Time)
    ensures ConsumeResponse(t, m, now).1.Err? ==> ConsumeResponse(t, m, now).0 == t
  {
  }

  function Expected(local: nat, peer: Term, d: Draw, sender: nat, re: Term, payload: Term): Wire {
    var m := Initiate(local, peer, d).0;
    ResponseOf(ChainAfter(m, X25519(d.ephemeral, peer), X25519(local, peer)), HashAfter(peer, m), Pub(local),
      sender, d.index, re, X25519(d.ephemeral, re), X25519(local, re), payload)
  }

  lemma ExpectedOpens(t: Tunn, d: Draw, m: Wire)
    requires m.Response? && m.encEmpty.Sealed? && m == Expected(t.local, t.peer, d, m.sender, m.ephemeral, m.encEmpty.plain)
    ensures Opening(Answered(Initiate(t.local, t.peer, d).1, d.ephemeral, t.local, m.ephemeral), m.encEmpty).Some?
    ensures m.mac1 == ResponseMac(Pub(t.local), m.sender, m.receiver, m.ephemeral, m.encEmpty)
  {
    InitiationSent(t.local, t.peer, d);
  }

  // ---- what mac1 covers ----

  /** An initiation changed in any field, under the mac1 of one that is taken, is refused for its mac1. */
  lemma InitiationMacBinds(local: nat, m: Wire, changed: Wire)
    requires ConsumeInitiation(local, m).Ok? && changed.Initiation? && changed.mac1 == m.mac1 && changed != m
    ensures ConsumeInitiation(local, changed) == Err(BadMac)
  {
  }

  /** And so is a response. */
  lemma ResponseMacBinds(t: Tunn, m: Wire, changed: Wire, now: Time)
    requires ConsumeResponse(t, m, now).1.Ok? && changed.Response? && changed.mac1 == m.mac1 && changed != m
    ensures ConsumeResponse(t, changed, now) == (t, Err(BadMac))
  {
  }
}
