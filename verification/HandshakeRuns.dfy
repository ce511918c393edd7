/** Handshake keys over whole runs of a tunnel: no key seals a handshake payload twice. */
module HandshakeRuns {
  import opened Common
  import opened Noise
  import opened TunnelSpec
  import opened TunnelRuns
  import Handshake

  function KeyOf(t: Term): Term {
    if t.Sealed? then t.key else EMPTY
  }

  /** Keys a message's handshake payloads are sealed under, all with nonce 0. */
  function PayloadKeys(m: Wire): seq<Term> {
    match m
    case Initiation(_, _, encStatic, encStamp, _) => [KeyOf(encStatic), KeyOf(encStamp)]
    case Response(_, _, _, encEmpty, _) => [KeyOf(encEmpty)]
    case _ => []
  }

  function SentKeys(out: seq<Wire>): seq<Term> {
    if out == [] then [] else SentKeys(out[..|out| - 1]) + PayloadKeys(out[|out| - 1])
  }

  /** Every key a run has sealed a handshake payload under, in order. */
  function HandshakeLog(x: End, evs: seq<Event>): seq<Term>
    decreases |evs|
  {
    if evs == [] then [] else
    var n := |evs| - 1;
    HandshakeLog(x, evs[..n]) + SentKeys(Step(Run(x, evs[..n]).t, evs[n]).1)
  }

  /** The ephemeral drawn for a handshake key: a response's key is the third output of its last mix,
      the keys of an initiation are second outputs of its second and third. */
  function Own(k: Term): Term {
    if k.Hkdf? && k.output == 3 then Ikm(Up3(k)) else
    if Up(Up(k)).Hkdf? then Ikm(Up(Up(k))) else Ikm(Up(k))
  }

  /** Different keys, each from this ephemeral. */
  predicate FreshKeys(keys: seq<Term>, e: nat) {
    && (forall i :: 0 <= i < |keys| ==> Own(keys[i]) == Pub(e))
    && (forall i, j :: 0 <= i < j < |keys| ==> keys[i] != keys[j])
  }

  lemma InitiationKeys(t: Tunn, now: Time, d: Draw)
    ensures FreshKeys(PayloadKeys(NewInitiation(t, now, d).1), d.ephemeral)
  {
    var c0 := Hash(Text(CONSTRUCTION));
    assert |CONSTRUCTION| > 32;
    var c1 := Hkdf(c0, Pub(d.ephemeral), 1);
    var es := X25519(d.ephemeral, t.peer);
    assert PayloadKeys(NewInitiation(t, now, d).1) == [Hkdf(c1, es, 2), Hkdf(Hkdf(c1, es, 1), X25519(t.local, t.peer), 2)];
  }

  lemma AnsweringKey(s: Sym, e: nat, re: Term, initiator: Term)
    ensures var k := Answering(s, e, re, initiator).k; k.Some? && Own(k.value) == Pub(e)
  {
  }

  lemma ResponseKey(t: Tunn, ci: Consumed, now: Time, d: Draw)
    requires AcceptInitiation(t, ci, now, d).1.Ok?
    ensures FreshKeys(PayloadKeys(AcceptInitiation(t, ci, now, d).1.value), d.ephemeral)
  {
    AnsweringKey(ci.state, d.ephemeral, ci.remoteEphemeral, t.peer);
  }

  lemma {:induction false} NoPayloads(out: seq<Wire>)
    requires forall i :: 0 <= i < |out| ==> PayloadKeys(out[i]) == []
    ensures SentKeys(out) == []
  {
    if out != [] { NoPayloads(out[..|out| - 1]); }
  }

  lemma SentOne(m: Wire)
    ensures SentKeys([m]) == PayloadKeys(m)
  {
    assert [m][..0] == [] && SentKeys([]) + PayloadKeys(m) == PayloadKeys(m);
  }

  /** A transport message in front or behind adds no key. */
  lemma SentBeside(m: Wire, t: Wire)
    requires t.Transport?
    ensures SentKeys([t, m]) == SentKeys([m, t]) == PayloadKeys(m)
  {
    assert [t, m][..1] == [t] && [m, t][..1] == [m];
    SentOne(t);
    SentOne(m);
    assert PayloadKeys(t) + PayloadKeys(m) == PayloadKeys(m) && PayloadKeys(m) + PayloadKeys(t) == PayloadKeys(m);
  }

  predicate KeysFrom(out: seq<Wire>, d: Draw) {
    SentKeys(out) == [] || FreshKeys(SentKeys(out), d.ephemeral)
  }

  lemma InitiateKeys(t: Tunn, now: Time, d: Draw)
    ensures var out := InitiateIfNeeded(t, now, d).1; KeysFrom(out, d) && (out == [] || out == [NewInitiation(t, now, d).1])
  {
    SentOne(NewInitiation(t, now, d).1);
    InitiationKeys(t, now, d);
  }

  lemma SendKeys(t: Tunn, plain: Bytes, now: Time, d: Draw)
    ensures KeysFrom(Encapsulate(t, plain, now, d).1, d)
  {
    if t.current.None? || Expired(t.current.value, now) {
      InitiateKeys(t.(current := None, queued := Enqueue(t.queued, plain)), now, d);
    } else {
      var (s, m) := Seal(t.current.value, plain);
      var u := t.(current := Some(s), lastSent := Some(now), needKeepalive := false);
      InitiationKeys(u, now, d);
      SentOne(m);
      SentBeside(NewInitiation(u, now, d).1, m);
    }
  }

  lemma BesideKeepalive(o1: seq<Wire>, o2: seq<Wire>, d: Draw)
    requires KeysFrom(o1, d) && |o1| <= 1 && (o2 == [] || (|o2| == 1 && o2[0].Transport?))
    ensures KeysFrom(o1 + o2, d)
  {
    if o2 == [] {
      assert o1 + o2 == o1;
    } else if o1 == [] {
      assert o1 + o2 == [o2[0]];
      SentOne(o2[0]);
    } else {
      assert o1 + o2 == [o1[0], o2[0]] && o1 == [o1[0]];
      SentBeside(o1[0], o2[0]);
      SentOne(o1[0]);
    }
  }

  lemma TickKeys(t: Tunn, now: Time, d: Draw)
    ensures KeysFrom(Tick(t, now, d).1, d)
  {
    var t0 := t.(current := Live(t.current, now), previous := Live(t.previous, now));
    InitiateKeys(t0, now, d);
    var (t1, o1) := if t0.pending.Some? || (t0.queued != [] && t0.current.None?) then InitiateIfNeeded(t0, now, d) else (t0, []);
    BesideKeepalive(o1, Keepalive(t1, now).1, d);
  }

  lemma FlushedKeys(t: Tunn, m: Wire, now: Time)
    ensures SentKeys(Step(t, GotResponse(m, now)).1) == []
  {
    if ConsumeResponse(t, m, now).1.Ok? {
      ResponseForm(t, m, now);
      Handshake.SealAllKeeps(Installed(t, m, now), t.queued);
      NoPayloads(Step(t, GotResponse(m, now)).1);
    }
  }

  lemma TakenKeys(t: Tunn, m: Wire, now: Time, d: Draw)
    ensures KeysFrom(Step(t, GotInitiation(m, now, d)).1, d)
  {
    var r := ConsumeInitiation(t.local, m);
    if r.Ok? && AcceptInitiation(t, r.value, now, d).1.Ok? {
      ResponseKey(t, r.value, now, d);
      SentOne(AcceptInitiation(t, r.value, now, d).1.value);
    }
  }

  lemma EventKeys(t: Tunn, ev: Event)
    ensures if Draws(ev) then KeysFrom(Step(t, ev).1, ev.d) else SentKeys(Step(t, ev).1) == []
  {
    match ev
    case Send(plain, now, d) => SendKeys(t, plain, now, d);
    case Ensure(now, d) => InitiateKeys(t, now, d);
    case TickAt(now, d) => TickKeys(t, now, d);
    case GotInitiation(m, now, d) => TakenKeys(t, m, now, d);
    case GotResponse(m, now) => FlushedKeys(t, m, now);
    case GotTransport(m, now) =>
  }

  ghost predicate OnceEach(log: seq<Term>, drawn: set<nat>) {
    && (forall i :: 0 <= i < |log| ==> Own(log[i]).Pub? && Own(log[i]).secret in drawn)
    && (forall i, j :: 0 <= i < j < |log| ==> log[i] != log[j])
  }

  lemma OnceMore(log: seq<Term>, keys: seq<Term>, drawn: set<nat>, e: nat)
    requires OnceEach(log, drawn) && FreshKeys(keys, e) && e !in drawn
    ensures OnceEach(log + keys, drawn + {e})
  {
    forall i, j | 0 <= i < j < |log + keys| ensures (log + keys)[i] != (log + keys)[j] {
      if i < |log| && j >= |log| { assert Own(log[i]) != Own(keys[j - |log|]); }
    }
  }

  /** In every run of a tunnel, as initiator and as responder, no key seals a handshake payload twice. */
  lemma {:induction false} PayloadKeysOnce(local: nat, peer: Term, evs: seq<Event>)
    requires ValidRun(Begin(local, peer), evs)
    ensures OnceEach(HandshakeLog(Begin(local, peer), evs), Run(Begin(local, peer), evs).drawn)
    decreases |evs|
  {
    if evs != [] {
      var n := |evs| - 1;
      var x := Run(Begin(local, peer), evs[..n]);
      PayloadKeysOnce(local, peer, evs[..n]);
      EventKeys(x.t, evs[n]);
      var keys := SentKeys(Step(x.t, evs[n]).1);
      if keys == [] {
        assert HandshakeLog(Begin(local, peer), evs) == HandshakeLog(Begin(local, peer), evs[..n]);
      } else {
        OnceMore(HandshakeLog(Begin(local, peer), evs[..n]), keys, x.drawn, evs[n].d.ephemeral);
      }
    }
  }
}
