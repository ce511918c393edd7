/** What somebody on the network can make of the messages two tunnels have sent. The outsider knows
    every secret but the two static ones, may build and take apart terms, and decrypts what it has
    the key of; it never gets to seal anything under a key that the static secret has entered. */
module Outsider {
  import opened Common
  import opened Noise
  import opened TunnelSpec

  /** The terms a message shows. */
  function Fields(m: Wire): seq<Term> {
    match m
    case Initiation(_, ephemeral, encStatic, encStamp, mac1) => [ephemeral, encStatic, encStamp, mac1]
    case Response(_, _, ephemeral, encEmpty, mac1) => [ephemeral, encEmpty, mac1]
    case Transport(_, _, body) => [body]
    case Junk(_) => []
  }

  ghost predicate Shown(net: seq<Wire>, t: Term) {
    exists i :: 0 <= i < |net| && t in Fields(net[i])
  }

  // ---- deriving terms ----

  predicate Atomic(t: Term) {
    t.Text? || t.Raw? || t.Index? || t.Stamp? || t.Pub?
  }

  /** Built from terms known before. */
  predicate Built(known: seq<Term>, t: Term) {
    match t
    case Pair(a, b) => a in known && b in known
    case Hash(a) => a in known
    case Mac(k, a) => k in known && a in known
    case Hkdf(ck, ikm, _) => ck in known && ikm in known
    case Sealed(k, _, p, ad) => k in known && p in known && ad in known
    case _ => Atomic(t)
  }

  /** A Diffie-Hellman result with a secret that is not static at either end. */
  ghost predicate Agreed(l: nat, r: nat, known: seq<Term>, t: Term) {
    exists s, p :: s != l && s != r && p in known && t == X25519(s, p)
  }

  /** Taken out of a term known before; out of a ciphertext only with its key. */
  predicate TakenOut(known: seq<Term>, t: Term) {
    exists u <- known :: (u.Pair? && (t == u.left || t == u.right)) || (u.Sealed? && u.key in known && t == u.plain)
  }

  ghost predicate Derives(net: seq<Wire>, l: nat, r: nat, known: seq<Term>, t: Term) {
    Shown(net, t) || Built(known, t) || Agreed(l, r, known, t) || TakenOut(known, t)
  }

  /** Each term comes from the network or from terms before it. */
  ghost predicate Derivation(net: seq<Wire>, l: nat, r: nat, steps: seq<Term>)
    decreases |steps|
  {
    steps == [] || (Derivation(net, l, r, steps[..|steps| - 1]) && Derives(net, l, r, steps[..|steps| - 1], steps[|steps| - 1]))
  }

  /** Any message whose terms can be derived; indices and counters are free. */
  ghost predicate CanSend(net: seq<Wire>, l: nat, r: nat, m: Wire) {
    exists steps :: Derivation(net, l, r, steps) && forall f <- Fields(m) :: f in steps
  }

  // ---- what cannot be derived ----

  /** The static secret of the two ends has entered the key. */
  predicate Guarded(k: Term, secret: Term) {
    k.Hkdf? && (k.ikm == secret || Guarded(k.ck, secret))
  }

  /** Terms that give nothing away: no static secret, no guarded key, and under guarded keys only
      ciphertexts that were shown. */
  ghost predicate Safe(net: seq<Wire>, secret: Term, t: Term) {
    match t
    case Dh(_, _) => t != secret
    case Hkdf(_, _, _) => !Guarded(t, secret)
    case Pair(a, b) => Safe(net, secret, a) && Safe(net, secret, b)
    case Sealed(k, _, p, _) => if Guarded(k, secret) then Shown(net, t) else Safe(net, secret, p)
    case _ => true
  }

  /** What the ends send shows Safe terms only. */
  ghost predicate Discreet(net: seq<Wire>, secret: Term) {
    forall t :: Shown(net, t) ==> Safe(net, secret, t)
  }

  lemma AgreedSafe(net: seq<Wire>, l: nat, r: nat, s: nat, p: Term)
    requires s != l && s != r
    ensures Safe(net, X25519(l, Pub(r)), X25519(s, p))
  {
  }

  lemma StepSafe(net: seq<Wire>, l: nat, r: nat, known: seq<Term>, t: Term)
    requires Discreet(net, X25519(l, Pub(r))) && (forall u <- known :: Safe(net, X25519(l, Pub(r)), u)) && Derives(net, l, r, known, t)
    ensures Safe(net, X25519(l, Pub(r)), t)
  {
    if Shown(net, t) {
    } else if Agreed(l, r, known, t) {
      var s, p :| s != l && s != r && p in known && t == X25519(s, p);
      AgreedSafe(net, l, r, s, p);
    } else if TakenOut(known, t) {
      var u :| u in known && ((u.Pair? && (t == u.left || t == u.right)) || (u.Sealed? && u.key in known && t == u.plain));
      assert Safe(net, X25519(l, Pub(r)), u);
    } else {
      BuiltSafe(net, X25519(l, Pub(r)), known, t);
    }
  }

  lemma BuiltSafe(net: seq<Wire>, secret: Term, known: seq<Term>, t: Term)
    requires secret.Dh? && (forall u <- known :: Safe(net, secret, u)) && Built(known, t)
    ensures Safe(net, secret, t)
  {
    match t
    case Hkdf(ck, ikm, _) => assert Safe(net, secret, ck) && Safe(net, secret, ikm);
    case Sealed(k, _, p, _) => assert Safe(net, secret, k) && Safe(net, secret, p);
    case _ =>
  }

  /** Whatever an outsider derives is Safe: neither the static secret nor a guarded key, and no
      ciphertext under one that the ends did not show. */
  lemma {:induction false} DerivedSafe(net: seq<Wire>, l: nat, r: nat, steps: seq<Term>)
    requires Discreet(net, X25519(l, Pub(r))) && Derivation(net, l, r, steps)
    ensures forall t <- steps :: Safe(net, X25519(l, Pub(r)), t)
    decreases |steps|
  {
    if steps != [] {
      var n := |steps| - 1;
      DerivedSafe(net, l, r, steps[..n]);
      StepSafe(net, l, r, steps[..n], steps[n]);
    }
  }

  /** A ciphertext under a guarded key in a message anyone can send was shown by an end. */
  lemma GuardedWasShown(net: seq<Wire>, l: nat, r: nat, m: Wire, t: Term)
    requires Discreet(net, X25519(l, Pub(r))) && CanSend(net, l, r, m) && t in Fields(m)
    requires t.Sealed? && Guarded(t.key, X25519(l, Pub(r)))
    ensures Shown(net, t)
  {
    var steps :| Derivation(net, l, r, steps) && forall f <- Fields(m) :: f in steps;
    DerivedSafe(net, l, r, steps);
    assert Safe(net, X25519(l, Pub(r)), t);
  }

  /** A message that was sent can be sent again. */
  lemma ReplayCanSend(net: seq<Wire>, l: nat, r: nat, m: Wire)
    requires m in net
    ensures CanSend(net, l, r, m)
  {
    ShownDerivation(net, l, r, m, |Fields(m)|);
    assert Fields(m)[..|Fields(m)|] == Fields(m);
  }

  lemma {:induction false} ShownDerivation(net: seq<Wire>, l: nat, r: nat, m: Wire, n: nat)
    requires m in net && n <= |Fields(m)|
    ensures Derivation(net, l, r, Fields(m)[..n])
  {
    if n > 0 {
      ShownDerivation(net, l, r, m, n - 1);
      assert Fields(m)[..n][..n - 1] == Fields(m)[..n - 1];
      var i :| 0 <= i < |net| && net[i] == m;
      assert Fields(m)[n - 1] in Fields(net[i]);
    }
  }

  // ---- what the ends show ----

  /** How an end's own messages look: public keys, macs, and sealed atoms; transport bodies carry no
      associated data, handshake payloads a transcript hash. */
  predicate Plain(m: Wire) {
    match m
    case Initiation(_, ephemeral, encStatic, encStamp, mac1) =>
      ephemeral.Pub? && mac1.Mac? && SealedAtom(encStatic) && SealedAtom(encStamp) && encStatic.ad.Hash? && encStamp.ad.Hash?
    case Response(_, _, ephemeral, encEmpty, mac1) => ephemeral.Pub? && mac1.Mac? && SealedAtom(encEmpty) && encEmpty.ad.Hash?
    case Transport(_, _, body) => SealedAtom(body)
    case Junk(_) => false
  }

  predicate SealedAtom(t: Term) {
    t.Sealed? && Atomic(t.plain)
  }

  lemma PlainIsDiscreet(net: seq<Wire>, secret: Term)
    requires secret.Dh? && forall i :: 0 <= i < |net| ==> Plain(net[i])
    ensures Discreet(net, secret)
  {
    forall t | Shown(net, t) ensures Safe(net, secret, t) {
      var i :| 0 <= i < |net| && t in Fields(net[i]);
      assert Plain(net[i]);
    }
  }

  /** Only a transport message shows a ciphertext without associated data. */
  lemma BodyShown(net: seq<Wire>, t: Term) returns (i: nat)
    requires Shown(net, t) && t.Sealed? && t.ad == EMPTY && forall j :: 0 <= j < |net| ==> Plain(net[j])
    ensures i < |net| && net[i].Transport? && net[i].body == t
  {
    i :| 0 <= i < |net| && t in Fields(net[i]);
    assert Plain(net[i]);
  }
}
