/** The ts2021 control handshake (Noise IK, section 7.5 of the Noise specification), client and
    server: they always agree, the version is authenticated, and no key encrypts twice. */
module ControlHandshake {
  import opened Common
  import opened Noise
  import Handshake

  const PROTOCOL_NAME := "Noise_IK_25519_ChaChaPoly_BLAKE2s"

  const MSG_INITIATION := 1
  const MSG_RESPONSE := 2
  const RESPONSE_PAYLOAD := 48

  /** The two handshake frames, with the header fields either side looks at; any other byte
      string is `Short`. */
  datatype Frame =
    | Initiation(version: nat, kind: nat, ephemeral: Term, encStatic: Term, tag: Term)
    | Response(kind: nat, length: nat, ephemeral: Term, tag: Term)
    | Short

  datatype Failure = BadInitiation | BadStatic | BadTag | BadResponse | BadResponseLength | Unauthenticated

  /** `tx` encrypts what we send, `rx` decrypts what we receive. */
  datatype SessionKeys = SessionKeys(tx: Term, rx: Term)

  function Prologue(version: nat): Term {
    Pair(Text("Tailscale Control Protocol v"), Index(version))
  }

  // ---- specification ----

  /** The state after the prologue, the server's static key and the client's ephemeral. */
  function Opened(version: nat, control: Term, e: Term): Sym {
    MixHash(MixHash(MixHash(Start(PROTOCOL_NAME), Prologue(version)), control), e)
  }

  function ClientStart(machine: nat, control: Term, version: nat, e: nat): (Sym, Frame) {
    var s1 := MixDh(Opened(version, control, Pub(e)), e, control);
    var encStatic := Sealing(s1, Pub(machine));
    var s2 := MixDh(MixHash(s1, encStatic), machine, control);
    var tag := Sealing(s2, EMPTY);
    (MixHash(s2, tag), Initiation(version, MSG_INITIATION, Pub(e), encStatic, tag))
  }

  function ClientAnswered(s: Sym, machine: nat, e: nat, re: Term): Sym {
    MixDh(MixDh(MixHash(s, re), e, re), machine, re)
  }

  function ClientFinish(s: Sym, machine: nat, e: nat, f: Frame): Result<SessionKeys, Failure> {
    if !f.Response? || f.kind != MSG_RESPONSE then Err(BadResponse) else
    if f.length != RESPONSE_PAYLOAD then Err(BadResponseLength) else
    var s1 := ClientAnswered(s, machine, e, f.ephemeral);
    if Opening(s1, f.tag).None? then Err(Unauthenticated) else
    var (tx, rx) := Split(MixHash(s1, f.tag));
    Ok(SessionKeys(tx, rx))
  }

  datatype Accepted = Accepted(keys: SessionKeys, machine: Term, response: Frame)

  function ServerAnswering(s: Sym, e: nat, re: Term, machine: Term): Sym {
    MixDh(MixDh(MixHash(s, Pub(e)), e, re), e, machine)
  }

  function ServerAccept(control: nat, f: Frame, e: nat): Result<Accepted, Failure> {
    if !f.Initiation? || f.kind != MSG_INITIATION then Err(BadInitiation) else
    var s1 := MixDh(Opened(f.version, Pub(control), f.ephemeral), control, f.ephemeral);
    match Opening(s1, f.encStatic)
    case None => Err(BadStatic)
    case Some(machine) =>
      var s2 := MixDh(MixHash(s1, f.encStatic), control, machine);
      if Opening(s2, f.tag).None? then Err(BadTag) else
      var s3 := ServerAnswering(MixHash(s2, f.tag), e, f.ephemeral, machine);
      var tag := Sealing(s3, EMPTY);
      var (toServer, toClient) := Split(MixHash(s3, tag));
      Ok(Accepted(SessionKeys(toClient, toServer), machine, Response(MSG_RESPONSE, RESPONSE_PAYLOAD, Pub(e), tag)))
  }

  // ---- the code ----

  class ClientHandshake {
    const state: SymmetricState
    const ephemeralSecret: nat
    const machineSecret: nat
    const initiation: Frame

    constructor (machine: nat, control: Term, version: nat, e: nat)
      ensures (state.View(), initiation) == ClientStart(machine, control, version, e)
      ensures ephemeralSecret == e && machineSecret == machine && fresh(state)
    {
      var s := new SymmetricState(PROTOCOL_NAME);
      s.Absorb(Prologue(version));
      s.Absorb(control);
      s.Absorb(Pub(e));
      s.Agree(e, control);
      var encStatic := s.Encrypt(Pub(machine));
      s.Agree(machine, control);
      var tag := s.Encrypt(EMPTY);
      state, ephemeralSecret, machineSecret := s, e, machine;
      initiation := Initiation(version, MSG_INITIATION, Pub(e), encStatic, tag);
    }

    /** Consumes the response and derives the transport keys. */
    method Finish(f: Frame) returns (r: Result<SessionKeys, Failure>)
      modifies state
      ensures r == ClientFinish(old(state.View()), machineSecret, ephemeralSecret, f)
    {
      if !f.Response? || f.kind != MSG_RESPONSE { return Err(BadResponse); }
      if f.length != RESPONSE_PAYLOAD { return Err(BadResponseLength); }
      state.Absorb(f.ephemeral);
      state.Agree(ephemeralSecret, f.ephemeral);
      state.Agree(machineSecret, f.ephemeral);
      var empty := state.Decrypt(f.tag);
      if empty.None? { return Err(Unauthenticated); }
      var (tx, rx) := Split(state.View());
      r := Ok(SessionKeys(tx, rx));
    }
  }

  method ServerHandshake(control: nat, f: Frame, e: nat) returns (r: Result<Accepted, Failure>)
    ensures r == ServerAccept(control, f, e)
  {
    if !f.Initiation? || f.kind != MSG_INITIATION { return Err(BadInitiation); }
    var s := new SymmetricState(PROTOCOL_NAME);
    s.Absorb(Prologue(f.version));
    s.Absorb(Pub(control));
    s.Absorb(f.ephemeral);
    s.Agree(control, f.ephemeral);
    var machine := s.Decrypt(f.encStatic);
    if machine.None? { return Err(BadStatic); }
    s.Agree(control, machine.value);
    var empty := s.Decrypt(f.tag);
    if empty.None? { return Err(BadTag); }
    s.Absorb(Pub(e));
    s.Agree(e, f.ephemeral);
    s.Agree(e, machine.value);
    var tag := s.Encrypt(EMPTY);
    var (toServer, toClient) := Split(s.View());
    r := Ok(Accepted(SessionKeys(toClient, toServer), machine.value, Response(MSG_RESPONSE, RESPONSE_PAYLOAD, Pub(e), tag)));
  }

  // ---- agreement ----

  /** Each side mixes the other's ephemeral to the same state. */
  lemma AnswersMatch(s: Sym, machine: nat, e: nat, re: nat)
    ensures ServerAnswering(s, re, Pub(e), Pub(machine)) == ClientAnswered(s, machine, e, Pub(re))
  {
    DhCommutes(e, re);
    DhCommutes(machine, re);
  }

  /** For all static and ephemeral keys and every version: the server accepts the initiation and
      names the client's machine key, the client accepts the response, and each end sends under
      the key the other receives under, with different keys in the two directions. */
  lemma HandshakeAgrees(machine: nat, control: nat, version: nat, e: nat, re: nat)
    ensures var (s, init) := ClientStart(machine, Pub(control), version, e);
            var server := ServerAccept(control, init, re);
            && server.Ok? && server.value.machine == Pub(machine)
            && var client := ClientFinish(s, machine, e, server.value.response);
            && client.Ok?
            && client.value.tx == server.value.keys.rx && client.value.rx == server.value.keys.tx
            && client.value.tx != client.value.rx
  {
    DhCommutes(e, control);
    DhCommutes(machine, control);
    var (s, init) := ClientStart(machine, Pub(control), version, e);
    AnswersMatch(s, machine, e, re);
  }

  /** The version is part of what is authenticated: changing it on the way is always caught. */
  lemma VersionBound(machine: nat, control: nat, version: nat, e: nat, claimed: nat, re: nat)
    ensures var init := ClientStart(machine, Pub(control), version, e).1;
            ServerAccept(control, init.(version := claimed), re).Ok? <==> claimed == version
  {
    HandshakeAgrees(machine, control, version, e, re);
  }

  /** A server with another static key refuses the initiation. */
  lemma WrongServer(machine: nat, control: nat, other: nat, version: nat, e: nat, re: nat)
    requires other != control
    ensures ServerAccept(other, ClientStart(machine, Pub(control), version, e).1, re) == Err(BadStatic)
  {
  }

  // ---- the messages written out ----

  /** The initiation to `control`, with the two shared secrets. The payload is empty; on the wire its
      sealed field has room for nothing else. */
  function InitiationOf(version: nat, control: Term, e: Term, es: Term, machine: Term, ss: Term, payload: Term): Frame {
    var c0 := Hash(Text("Noise_IK_25519_ChaChaPoly_BLAKE2s"));
    var h0 := Hash(Pair(c0, Pair(Text("Tailscale Control Protocol v"), Index(version))));
    var h1 := Hash(Pair(Hash(Pair(h0, control)), e));
    var encStatic := Sealed(Hkdf(c0, es, 2), 0, machine, h1);
    Initiation(version, 1, e, encStatic, Sealed(Hkdf(Hkdf(c0, es, 1), ss, 2), 0, payload, Hash(Pair(h1, encStatic))))
  }

  function ChainAfter(es: Term, ss: Term): Term {
    Hkdf(Hkdf(Hash(Text("Noise_IK_25519_ChaChaPoly_BLAKE2s")), es, 1), ss, 1)
  }

  function HashAfter(control: Term, f: Frame): Term
    requires f.Initiation?
  {
    var h0 := Hash(Pair(Hash(Text("Noise_IK_25519_ChaChaPoly_BLAKE2s")), Pair(Text("Tailscale Control Protocol v"), Index(f.version))));
    var h1 := Hash(Pair(Hash(Pair(h0, control)), f.ephemeral));
    Hash(Pair(Hash(Pair(h1, f.encStatic)), f.tag))
  }

  /** The response that goes on from `c` and `h`. */
  function ResponseOf(c: Term, h: Term, re: Term, ee: Term, se: Term, payload: Term): Frame {
    Response(2, 48, re, Sealed(Hkdf(Hkdf(c, ee, 1), se, 2), 0, payload, Hash(Pair(h, re))))
  }

  function KeysFrom(c: Term, ee: Term, se: Term): (Term, Term) {
    var last := Hkdf(Hkdf(c, ee, 1), se, 1);
    (Hkdf(last, Raw([]), 1), Hkdf(last, Raw([]), 2))
  }

  /** What the client sends, and the state it keeps. */
  lemma InitiationSent(machine: nat, control: Term, version: nat, e: nat)
    ensures var (s, f) := ClientStart(machine, control, version, e);
            var es, ss := X25519(e, control), X25519(machine, control);
            && f == InitiationOf(version, control, Pub(e), es, Pub(machine), ss, Raw([]))
            && s.ck == ChainAfter(es, ss) && s.h == HashAfter(control, f)
  {
    assert |PROTOCOL_NAME| > 32;
  }

  /** The frame is the initiation of `machine` to the server. */
  predicate ComesFrom(control: nat, f: Frame, machine: Term) {
    && f.Initiation? && f.tag.Sealed?
    && f == InitiationOf(f.version, Pub(control), f.ephemeral, X25519(control, f.ephemeral), machine, X25519(control, machine), f.tag.plain)
  }

  /** The server accepts exactly such a frame; what it answers and its keys go on from there. */
  lemma ServerAcceptsIff(control: nat, f: Frame, e: nat, machine: Term)
    ensures (ServerAccept(control, f, e).Ok? && ServerAccept(control, f, e).value.machine == machine) <==> ComesFrom(control, f, machine)
    ensures ComesFrom(control, f, machine) ==>
              var a := ServerAccept(control, f, e).value;
              var c := ChainAfter(X25519(control, f.ephemeral), X25519(control, machine));
              var ee, se := X25519(e, f.ephemeral), X25519(e, machine);
              && a.response == ResponseOf(c, HashAfter(Pub(control), f), Pub(e), ee, se, Raw([]))
              && (a.keys.rx, a.keys.tx) == KeysFrom(c, ee, se)
  {
    assert |PROTOCOL_NAME| > 32;
  }

  /** The client accepts exactly the response that goes on from its initiation. */
  lemma ClientAcceptsIff(machine: nat, control: Term, version: nat, e: nat, f: Frame)
    ensures var (s, init) := ClientStart(machine, control, version, e);
            var c := ChainAfter(X25519(e, control), X25519(machine, control));
            var r := ClientFinish(s, machine, e, f);
            && (r.Ok? <==> && f.Response? && f.tag.Sealed?
                           && f == ResponseOf(c, HashAfter(control, init), f.ephemeral, X25519(e, f.ephemeral), X25519(machine, f.ephemeral), f.tag.plain))
            && (r.Ok? ==> (r.value.tx, r.value.rx) == KeysFrom(c, X25519(e, f.ephemeral), X25519(machine, f.ephemeral)))
  {
    InitiationSent(machine, control, version, e);
  }

  // ---- each key encrypts once ----

  /** The keys of one handshake: client static, client tag, server tag, and the two directions. */
  function Keys(machine: nat, control: nat, version: nat, e: nat, re: nat): seq<Term> {
    var (s, init) := ClientStart(machine, Pub(control), version, e);
    var server := ServerAnswering(s, re, Pub(e), Pub(machine));
    var (toServer, toClient) := Split(server);
    [init.encStatic.key, init.tag.key, server.k.value, toServer, toClient]
  }

  lemma KeyShape(machine: nat, control: nat, version: nat, e: nat, re: nat)
    ensures var es := X25519(e, Pub(control));
            var c0 := Hash(Text(PROTOCOL_NAME));
            var ss := X25519(machine, Pub(control));
            var c3 := Hkdf(Hkdf(Hkdf(c0, es, 1), ss, 1), X25519(re, Pub(e)), 1);
            var c4 := Hkdf(c3, X25519(re, Pub(machine)), 1);
            Keys(machine, control, version, e, re) ==
              [Hkdf(c0, es, 2), Hkdf(Hkdf(c0, es, 1), ss, 2), Hkdf(c3, X25519(re, Pub(machine)), 2), Hkdf(c4, EMPTY, 1), Hkdf(c4, EMPTY, 2)]
  {
    assert |PROTOCOL_NAME| > 32;
  }

  lemma KeyFacts(machine: nat, control: nat, version: nat, e: nat, re: nat)
    ensures var ks := Keys(machine, control, version, e, re);
            && Handshake.KdfDepth(ks[0]) == 1 && Handshake.KdfDepth(ks[1]) == 2 && Handshake.KdfDepth(ks[2]) == 4
            && Handshake.KdfDepth(ks[3]) == 5 && Handshake.KdfDepth(ks[4]) == 5 && ks[3] != ks[4]
  {
    KeyShape(machine, control, version, e, re);
    var ks := Keys(machine, control, version, e, re);
    var c3 := ks[2].ck;
    Handshake.Derived(Hash(Text(PROTOCOL_NAME)), X25519(e, Pub(control)), 1);
    Handshake.Derived(Hash(Text(PROTOCOL_NAME)), X25519(e, Pub(control)), 2);
    Handshake.Derived(c3.ck.ck, c3.ck.ikm, 1);
    Handshake.Derived(ks[1].ck, ks[1].ikm, 2);
    Handshake.Derived(c3.ck, c3.ikm, 1);
    Handshake.Derived(c3, ks[2].ikm, 2);
    Handshake.Derived(c3, ks[2].ikm, 1);
    Handshake.Derived(ks[3].ck, EMPTY, 1);
    Handshake.Derived(ks[3].ck, EMPTY, 2);
  }

  /** With one server, two of the five keys of any two handshakes are the same if and only if they have
      the same place and the same values have entered them: the client's ephemeral, from the second on
      the machine, and from the third on the server's ephemeral. So an initiation answered twice, which
      the server does not prevent, gives different response and transport keys. */
  lemma KeysNeverShared(control: nat, a: nat, va: nat, ea: nat, ra: nat, b: nat, vb: nat, eb: nat, rb: nat, i: nat, j: nat)
    requires i < 5 && j < 5
    ensures |Keys(a, control, va, ea, ra)| == |Keys(b, control, vb, eb, rb)| == 5
    ensures Keys(a, control, va, ea, ra)[i] == Keys(b, control, vb, eb, rb)[j] <==>
            i == j && ea == eb && (i >= 1 ==> a == b) && (i >= 2 ==> ra == rb)
  {
    KeyFacts(a, control, va, ea, ra);
    KeyFacts(b, control, vb, eb, rb);
    KeyShape(a, control, va, ea, ra);
    KeyShape(b, control, vb, eb, rb);
    if Keys(a, control, va, ea, ra)[i] == Keys(b, control, vb, eb, rb)[j] {
      assert Handshake.KdfDepth(Keys(a, control, va, ea, ra)[i]) == Handshake.KdfDepth(Keys(b, control, vb, eb, rb)[j]);
      assert i == j;
      KeyDetermines(control, a, va, ea, ra, b, vb, eb, rb, i);
    }
  }

  lemma KeyDetermines(control: nat, a: nat, va: nat, ea: nat, ra: nat, b: nat, vb: nat, eb: nat, rb: nat, i: nat)
    requires i < 5 && |Keys(a, control, va, ea, ra)| == |Keys(b, control, vb, eb, rb)| == 5
    requires Keys(a, control, va, ea, ra)[i] == Keys(b, control, vb, eb, rb)[i]
    ensures ea == eb && (i >= 1 ==> a == b) && (i >= 2 ==> ra == rb)
  {
    KeyShape(a, control, va, ea, ra);
    KeyShape(b, control, vb, eb, rb);
    assert X25519(ea, Pub(control)) == X25519(eb, Pub(control));
    DhSecret(ea, eb, Pub(control));
    if i >= 1 { DhSecret(a, b, Pub(control)); }
    if i >= 2 {
      assert X25519(ra, Pub(ea)) == X25519(rb, Pub(ea));
      DhSecret(ra, rb, Pub(ea));
    }
  }
}
