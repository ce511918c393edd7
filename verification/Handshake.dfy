/** The WireGuard handshake (Noise IKpsk2, section 5.4 of the WireGuard whitepaper):
    both ends always agree, and no handshake key encrypts twice. */
module Handshake {
  import opened Common
  import opened Noise
  import opened TunnelSpec

  /** An initiation for our key is always consumed, names its sender and its stamp, and
      leaves the responder in the state the initiator kept. */
  lemma InitiationUnderstood(initiator: nat, responder: nat, d: Draw)
    ensures var (m, s) := Initiate(initiator, Pub(responder), d);
            ConsumeInitiation(responder, m) ==
              Ok(Consumed(Pub(initiator), d.index, Pub(d.ephemeral), s, d.stamp))
  {
    DhCommutes(d.ephemeral, responder);
    DhCommutes(initiator, responder);
  }

  /** Both halves of the response mix the same values. */
  lemma AnswersMatch(s: Sym, e: nat, initiator: nat, re: nat)
    ensures Answering(s, re, Pub(e), Pub(initiator)) == Answered(s, e, initiator, Pub(re))
  {
    DhCommutes(e, re);
    DhCommutes(initiator, re);
  }

  /** From any tunnel state of the two ends: initiation, acceptance and response succeed
      (unless the responder has already seen a stamp this late), and leave two sessions that
      mirror each other's keys and indices. */
  lemma HandshakeAgrees(i: Tunn, r: Tunn, now: Time, later: Time, di: Draw, dr: Draw)
    requires i.peer == Pub(r.local) && r.peer == Pub(i.local)
    requires di.stamp > r.lastStamp
    ensures var (i1, init) := NewInitiation(i, now, di);
            var ci := ConsumeInitiation(r.local, init);
            && ci.Ok? && ci.value.peer == r.peer
            && var (r1, resp) := AcceptInitiation(r, ci.value, now, dr);
            && resp.Ok? && r1.pending.None? && r1.current.Some?
            && var (i2, flushed) := ConsumeResponse(i1, resp.value, later);
            && flushed.Ok? && i2.pending.None? && i2.current.Some? && i2.queued == []
            && Mirrored(i2.current.value, r1.current.value)
            && i2.current.value.isInitiator && !r1.current.value.isInitiator
            && |flushed.value| == |i.queued|
  {
    var (i1, init) := NewInitiation(i, now, di);
    InitiationUnderstood(i.local, r.local, di);
    var (_, s) := Initiate(i.local, i.peer, di);
    AnswersMatch(s, di.ephemeral, i.local, dr.ephemeral);
    var (r1, resp) := AcceptInitiation(r, ConsumeInitiation(r.local, init).value, now, dr);
    var sym := Answered(s, di.ephemeral, i.local, Pub(dr.ephemeral));
    assert resp.value == Response(dr.index, di.index, Pub(dr.ephemeral), Sealing(sym, EMPTY),
      ResponseMac(r.peer, dr.index, di.index, Pub(dr.ephemeral), Sealing(sym, EMPTY)));
    var (fromUs, toUs) := Split(MixHash(sym, Sealing(sym, EMPTY)));
    var session := NewSession(di.index, dr.index, fromUs, toUs, later, true);
    SealAllKeeps(session, i.queued);
  }

  predicate Mirrored(a: Session, b: Session) {
    && a.sendKey == b.recvKey && a.recvKey == b.sendKey && a.sendKey != a.recvKey
    && a.localIndex == b.remoteIndex && a.remoteIndex == b.localIndex
  }

  /** Sealing changes nothing of a session but its counter. */
  lemma {:induction false} SealAllKeeps(s: Session, plains: seq<Bytes>)
    ensures SealAll(s, plains).0 == s.(sendCounter := s.sendCounter + |plains|)
    ensures |SealAll(s, plains).1| == |plains|
    ensures forall i :: 0 <= i < |plains| ==>
      SealAll(s, plains).1[i] == Seal(s.(sendCounter := s.sendCounter + i), plains[i]).1
    decreases |plains|
  {
    if plains != [] {
      var n := |plains| - 1;
      SealAllKeeps(s, plains[..n]);
      assert forall i :: 0 <= i < n ==> plains[..n][i] == plains[i];
    }
  }

  // ---- each key encrypts once ----

  /** Keys a handshake encrypts under: the two payloads of the initiation, and the response. */
  function HandshakeKeys(initiator: nat, responder: Term, di: Draw, re: nat): seq<Term> {
    var (m, s) := Initiate(initiator, responder, di);
    [m.encStatic.key, m.encStamp.key, Answering(s, re, Pub(di.ephemeral), Pub(initiator)).k.value]
  }

  function TransportKeys(initiator: nat, responder: Term, di: Draw, re: nat): seq<Term> {
    var (_, s) := Initiate(initiator, responder, di);
    var k := Split(Answering(s, re, Pub(di.ephemeral), Pub(initiator)));
    [k.0, k.1]
  }

  function AllKeys(initiator: nat, responder: Term, di: Draw, re: nat): seq<Term> {
    HandshakeKeys(initiator, responder, di, re) + TransportKeys(initiator, responder, di, re)
  }

  /** The chaining key before and after each mix, oldest first. */
  lemma ChainShape(initiator: nat, responder: Term, di: Draw, re: nat)
    ensures var e := Pub(di.ephemeral);
            var c1 := Hkdf(Hash(Text(CONSTRUCTION)), e, 1);
            var es := X25519(di.ephemeral, responder);
            var c2 := Hkdf(c1, es, 1);
            var ss := X25519(initiator, responder);
            var c6 := Hkdf(Hkdf(Hkdf(Hkdf(c2, ss, 1), Pub(re), 1), X25519(re, e), 1), X25519(re, Pub(initiator)), 1);
            var c7 := Hkdf(c6, PSK, 1);
            AllKeys(initiator, responder, di, re) ==
              [Hkdf(c1, es, 2), Hkdf(c2, ss, 2), Hkdf(c6, PSK, 3), Hkdf(c7, EMPTY, 1), Hkdf(c7, EMPTY, 2)]
  {
    assert |CONSTRUCTION| > 32;
  }

  /** Two of the five keys derived by any two handshakes are the same if and only if they have the
      same place and the same values have entered them: the initiator's ephemeral and the responder,
      from the second on the initiator, and from the third on the responder's ephemeral. In
      particular an initiation answered twice gives different response and transport keys, and no
      handshake key is ever a transport key. */
  lemma KeysNeverShared(a: nat, ra: Term, da: Draw, ea: nat, b: nat, rb: Term, db: Draw, eb: nat, i: nat, j: nat)
    requires i < 5 && j < 5
    ensures |AllKeys(a, ra, da, ea)| == |AllKeys(b, rb, db, eb)| == 5
    ensures AllKeys(a, ra, da, ea)[i] == AllKeys(b, rb, db, eb)[j] <==>
            i == j && da.ephemeral == db.ephemeral && ra == rb && (i >= 1 ==> a == b) && (i >= 2 ==> ea == eb)
  {
    DepthOf(a, ra, da, ea);
    DepthOf(b, rb, db, eb);
    ChainShape(a, ra, da, ea);
    ChainShape(b, rb, db, eb);
    if AllKeys(a, ra, da, ea)[i] == AllKeys(b, rb, db, eb)[j] {
      assert KdfDepth(AllKeys(a, ra, da, ea)[i]) == KdfDepth(AllKeys(b, rb, db, eb)[j]);
      assert i == j;
      KeyDetermines(a, ra, da, ea, b, rb, db, eb, i);
    }
  }

  lemma KeyDetermines(a: nat, ra: Term, da: Draw, ea: nat, b: nat, rb: Term, db: Draw, eb: nat, i: nat)
    requires i < 5 && |AllKeys(a, ra, da, ea)| == |AllKeys(b, rb, db, eb)| == 5 && AllKeys(a, ra, da, ea)[i] == AllKeys(b, rb, db, eb)[i]
    ensures da.ephemeral == db.ephemeral && ra == rb && (i >= 1 ==> a == b) && (i >= 2 ==> ea == eb)
  {
    ChainShape(a, ra, da, ea);
    ChainShape(b, rb, db, eb);
    assert X25519(da.ephemeral, ra) == X25519(db.ephemeral, rb) && da.ephemeral == db.ephemeral;
    DhInjective(da.ephemeral, ra, rb);
    if i >= 1 { DhSecret(a, b, ra); }
  }

  /** Number of key derivations on the chaining-key spine of a term. */
  function KdfDepth(t: Term): nat {
    if t.Hkdf? then 1 + KdfDepth(t.ck) else 0
  }

  /** One more derivation adds one to the depth. */
  lemma Derived(c: Term, ikm: Term, output: nat)
    ensures KdfDepth(Hkdf(c, ikm, output)) == 1 + KdfDepth(c)
  {
  }

  lemma DepthOf(a: nat, ra: Term, d: Draw, e: nat)
    ensures var ks := AllKeys(a, ra, d, e);
            && KdfDepth(ks[0]) == 2 && KdfDepth(ks[1]) == 3 && KdfDepth(ks[2]) == 7
            && KdfDepth(ks[3]) == 8 && KdfDepth(ks[4]) == 8 && ks[3] != ks[4]
  {
    ChainShape(a, ra, d, e);
    var ks := AllKeys(a, ra, d, e);
    var c4 := ks[2].ck.ck.ck;
    assert KdfDepth(c4) == 4 by { assert KdfDepth(c4.ck.ck) == 2 by { assert KdfDepth(ks[0].ck) == 1; } }
    assert KdfDepth(ks[2].ck) == 6;
    assert KdfDepth(ks[0].ck) == 1;
  }
}
