/** Symbolic cryptography and the Noise symmetric state shared by both handshakes. */
module Noise {
  import opened Common

  /** Byte strings the handshakes exchange. Secrets are numbers; a public key names its
      secret, and a Diffie-Hellman result is the unordered pair of two secrets. */
  datatype Term =
    | Text(name: string)
    | Raw(bytes: Bytes)
    | Index(value: nat)
    | Stamp(time: nat)
    | Pub(secret: nat)
    | Dh(low: nat, high: nat)
    | OddDh(scalar: nat, point: Term)
    | Pair(left: Term, right: Term)
    | Hash(of: Term)
    | Mac(macKey: Term, over: Term)
    | Hkdf(ck: Term, ikm: Term, output: nat)
    | Sealed(key: Term, nonce: nat, plain: Term, ad: Term)

  const EMPTY := Raw([])

  /** x25519; `OddDh` stands for a point that is nobody's public key. */
  function X25519(secret: nat, point: Term): Term {
    if point.Pub? then
      if secret <= point.secret then Dh(secret, point.secret) else Dh(point.secret, secret)
    else OddDh(secret, point)
  }

  lemma DhCommutes(a: nat, b: nat)
    ensures X25519(a, Pub(b)) == X25519(b, Pub(a))
  {
  }

  /** With one secret fixed, the shared value determines the other party's point. */
  lemma DhInjective(a: nat, p: Term, q: Term)
    requires X25519(a, p) == X25519(a, q)
    ensures p == q
  {
  }

  /** And with the point fixed, the secret. */
  lemma DhSecret(a: nat, b: nat, p: Term)
    requires X25519(a, p) == X25519(b, p)
    ensures a == b
  {
  }

  function Open(key: Term, nonce: nat, ct: Term, ad: Term): Option<Term> {
    if ct.Sealed? && ct.key == key && ct.nonce == nonce && ct.ad == ad then Some(ct.plain) else None
  }

  /** The symmetric state as a value. */
  datatype Sym = Sym(h: Term, ck: Term, k: Option<Term>)

  function Start(protocol: string): Sym {
    var h := if |protocol| <= 32 then Text(protocol) else Hash(Text(protocol));
    Sym(h, h, None)
  }

  function MixHash(s: Sym, data: Term): Sym {
    s.(h := Hash(Pair(s.h, data)))
  }

  function MixKey(s: Sym, ikm: Term): Sym {
    s.(ck := Hkdf(s.ck, ikm, 1), k := Some(Hkdf(s.ck, ikm, 2)))
  }

  function MixKeyAndHash(s: Sym, ikm: Term): Sym {
    MixHash(s.(ck := Hkdf(s.ck, ikm, 1), k := Some(Hkdf(s.ck, ikm, 3))), Hkdf(s.ck, ikm, 2))
  }

  function MixDh(s: Sym, secret: nat, point: Term): Sym {
    MixKey(s, X25519(secret, point))
  }

  /** The ciphertext produced by `encrypt_and_hash`: nonce 0 under the current key. */
  function Sealing(s: Sym, plain: Term): Term
    requires s.k.Some?
  {
    Sealed(s.k.value, 0, plain, s.h)
  }

  function Opening(s: Sym, ct: Term): Option<Term>
    requires s.k.Some?
  {
    Open(s.k.value, 0, ct, s.h)
  }

  /** (initiator to responder, responder to initiator) */
  function Split(s: Sym): (Term, Term) {
    (Hkdf(s.ck, EMPTY, 1), Hkdf(s.ck, EMPTY, 2))
  }

  class SymmetricState {
    var h: Term
    var ck: Term
    var k: Option<Term>

    function View(): Sym
      reads this
    {
      Sym(h, ck, k)
    }

    constructor (protocol: string)
      ensures View() == Start(protocol)
    {
      var digest := if |protocol| <= 32 then Text(protocol) else Hash(Text(protocol));
      h, ck, k := digest, digest, None;
    }

    /** A clone of a saved state. */
    constructor Resume(s: Sym)
      ensures View() == s
    {
      h, ck, k := s.h, s.ck, s.k;
    }

    method Absorb(data: Term)
      modifies this`h
      ensures View() == MixHash(old(View()), data)
    {
      h := Hash(Pair(h, data));
    }

    method Key(ikm: Term)
      modifies this`ck, this`k
      ensures View() == MixKey(old(View()), ikm)
    {
      var before := ck;
      ck := Hkdf(before, ikm, 1);
      k := Some(Hkdf(before, ikm, 2));
    }

    method KeyAndAbsorb(ikm: Term)
      modifies this
      ensures View() == MixKeyAndHash(old(View()), ikm)
    {
      var before := ck;
      ck := Hkdf(before, ikm, 1);
      Absorb(Hkdf(before, ikm, 2));
      k := Some(Hkdf(before, ikm, 3));
    }

    method Agree(secret: nat, point: Term)
      modifies this`ck, this`k
      ensures View() == MixDh(old(View()), secret, point)
    {
      Key(X25519(secret, point));
    }

    method Encrypt(plain: Term) returns (ct: Term)
      requires k.Some?
      modifies this`h
      ensures ct == Sealing(old(View()), plain) && View() == MixHash(old(View()), ct)
      ensures Opening(old(View()), ct) == Some(plain)
    {
      ct := Sealed(k.value, 0, plain, h);
      Absorb(ct);
    }

    method Decrypt(ct: Term) returns (plain: Option<Term>)
      requires k.Some?
      modifies this`h
      ensures plain == Opening(old(View()), ct)
      ensures View() == if plain.Some? then MixHash(old(View()), ct) else old(View())
    {
      plain := Open(k.value, 0, ct, h);
      if plain.Some? {
        Absorb(ct);
      }
    }
  }
}
