/** One tunnel over a whole run: every event its owner can feed it, with a history of what it
    sealed and opened. No (key, counter) pair is ever sealed twice, no message is opened twice. */
module TunnelRuns {
  import opened Common
  import opened Noise
  import opened TunnelSpec
  import Handshake
  import Replay

  datatype Event =
    | Send(plain: Bytes, now: Time, d: Draw)
    | Ensure(now: Time, d: Draw)
    | TickAt(now: Time, d: Draw)
    | GotInitiation(m: Wire, now: Time, d: Draw)
    | GotResponse(m: Wire, now: Time)
    | GotTransport(m: Wire, now: Time)

  /** What a message was sealed from. */
  datatype Packet = Packet(key: Term, counter: nat, plain: Bytes, keepalive: bool)

  /** A message opened: the session key and counter it came under, and the IP packet handed on. */
  datatype Got = Got(key: Term, counter: nat, padded: Bytes, ip: Option<Bytes>)

  /** The tunnel's part of receiving an initiation: the device decrypts it, the tunnel accepts it. */
  function TakeInitiation(t: Tunn, m: Wire, now: Time, d: Draw): (Tunn, Result<Wire, WgError>) {
    match ConsumeInitiation(t.local, m)
    case Err(e) => (t, Err(e))
    case Ok(ci) => AcceptInitiation(t, ci, now, d)
  }

  /** The new state and the messages sent. */
  function Step(t: Tunn, ev: Event): (Tunn, seq<Wire>) {
    match ev
    case Send(plain, now, d) => Encapsulate(t, plain, now, d)
    case Ensure(now, d) => InitiateIfNeeded(t, now, d)
    case TickAt(now, d) => Tick(t, now, d)
    case GotInitiation(m, now, d) =>
      var (t', r) := TakeInitiation(t, m, now, d);
      (t', if r.Ok? then [r.value] else [])
    case GotResponse(m, now) =>
      var (t', r) := ConsumeResponse(t, m, now);
      (t', if r.Ok? then r.value else [])
    case GotTransport(m, now) => (ConsumeTransport(t, m, now).0, [])
  }

  /** The event installs a new session. */
  predicate Creates(t: Tunn, ev: Event) {
    match ev
    case GotInitiation(m, now, d) => TakeInitiation(t, m, now, d).1.Ok?
    case GotResponse(m, now) => ConsumeResponse(t, m, now).1.Ok?
    case _ => false
  }

  /** Plaintexts the event seals, in order. */
  function Seals(t: Tunn, ev: Event): seq<Packet> {
    match ev
    case Send(plain, now, d) =>
      if t.current.None? || Expired(t.current.value, now) then [] else
      [Packet(t.current.value.sendKey, t.current.value.sendCounter, plain, false)]
    case TickAt(now, d) =>
      var s := Live(t.current, now);
      if s.Some? && KeepaliveDue(t.(current := s), now) then [Packet(s.value.sendKey, s.value.sendCounter, [], true)] else []
    case GotResponse(m, now) =>
      var (t', r) := ConsumeResponse(t, m, now);
      if r.Ok? && t'.current.Some? then seq(|t.queued|, i requires 0 <= i < |t.queued| => Packet(t'.current.value.sendKey, i, t.queued[i], false)) else []
    case _ => []
  }

  function Opens(t: Tunn, ev: Event): seq<Got> {
    if !ev.GotTransport? then [] else
    var r := ConsumeTransport(t, ev.m, ev.now).1;
    if r.Err? then [] else
    var s := Addressed(t, ev.m.receiver);
    [Got(s.recvKey, ev.m.counter, OpenBytes(s.recvKey, ev.m.counter, ev.m.body).value, r.value)]
  }

  // ---- histories ----

  /** A tunnel with its history: ephemerals drawn, ephemerals that became sessions, packets
      offered to it, everything sealed and everything opened. */
  datatype End = End(t: Tunn, drawn: set<nat>, spent: set<nat>, offered: seq<Bytes>, sealed: seq<Packet>, got: seq<Got>)

  function Begin(local: nat, peer: Term): End {
    End(New(local, peer), {}, {}, [], [], [])
  }

  predicate Draws(ev: Event) {
    ev.Send? || ev.Ensure? || ev.TickAt? || ev.GotInitiation?
  }

  /** Fresh ephemerals have not been drawn before. */
  predicate Enabled(x: End, ev: Event) {
    Draws(ev) ==> ev.d.ephemeral !in x.drawn
  }

  function Advance(x: End, ev: Event): End {
    End(Step(x.t, ev).0,
        if Draws(ev) then x.drawn + {ev.d.ephemeral} else x.drawn,
        if !Creates(x.t, ev) then x.spent
        else x.spent + {if ev.GotInitiation? then ev.d.ephemeral else if x.t.pending.Some? then x.t.pending.value.ephemeral else 0},
        if ev.Send? then x.offered + [ev.plain] else x.offered,
        x.sealed + Seals(x.t, ev),
        x.got + Opens(x.t, ev))
  }

  ghost predicate ValidRun(x: End, evs: seq<Event>)
    decreases |evs|
  {
    evs == [] || (ValidRun(x, evs[..|evs| - 1]) && Enabled(Run(x, evs[..|evs| - 1]), evs[|evs| - 1]))
  }

  function Run(x: End, evs: seq<Event>): End
    decreases |evs|
  {
    if evs == [] then x else Advance(Run(x, evs[..|evs| - 1]), evs[|evs| - 1])
  }

  // ---- what a session key remembers ----

  function Up(k: Term): Term { if k.Hkdf? then k.ck else k }
  function Up3(k: Term): Term { Up(Up(Up(k))) }
  function Ikm(k: Term): Term { if k.Hkdf? then k.ikm else k }
  function ResponderEphemeral(k: Term): Term { Ikm(Up(Up3(k))) }
  function StaticStatic(k: Term): Term { Ikm(Up(Up(Up3(k)))) }
  function EphemeralStatic(k: Term): Term { Ikm(Up3(Up3(k))) }
  function InitiatorEphemeral(k: Term): Term { Ikm(Up(Up3(Up3(k)))) }

  /** The ephemeral we drew for the session with this send key: an initiator sends under
      output 1 of the split, a responder under output 2. */
  function OwnOfSend(k: Term): Term {
    if k.Hkdf? && k.output == 1 then InitiatorEphemeral(k) else ResponderEphemeral(k)
  }

  function OwnOfRecv(k: Term): Term {
    if k.Hkdf? && k.output == 2 then InitiatorEphemeral(k) else ResponderEphemeral(k)
  }

  function InitiationCk(local: nat, peer: Term, e: nat): Term {
    Hkdf(Hkdf(Hkdf(Hash(Text(CONSTRUCTION)), Pub(e), 1), X25519(e, peer), 1), X25519(local, peer), 1)
  }

  /** A session produced by a handshake of this tunnel. */
  predicate Made(s: Session, local: nat, peer: Term) {
    && s.sendKey.Hkdf? && s.recvKey.Hkdf?
    && s.sendKey.ck == s.recvKey.ck && s.sendKey.ikm == s.recvKey.ikm == EMPTY
    && Up(Up(Up3(s.sendKey))).Hkdf? && StaticStatic(s.sendKey) == X25519(local, peer)
    && (if s.isInitiator then s.sendKey.output == 1 && s.recvKey.output == 2
        else s.sendKey.output == 2 && s.recvKey.output == 1)
    && (if s.isInitiator then
          InitiatorEphemeral(s.sendKey).Pub? && EphemeralStatic(s.sendKey) == X25519(InitiatorEphemeral(s.sendKey).secret, peer)
        else EphemeralStatic(s.sendKey) == X25519(local, InitiatorEphemeral(s.sendKey)))
  }

  predicate Spent(x: End, own: Term) {
    own.Pub? && own.secret in x.spent
  }

  predicate SessionOk(x: End, s: Session) {
    Made(s, x.t.local, x.t.peer) && Spent(x, OwnOfSend(s.sendKey)) && OwnOfSend(s.sendKey) == OwnOfRecv(s.recvKey)
  }

  predicate KeysInv(x: End) {
    && x.spent <= x.drawn
    && (x.t.pending.Some? ==>
          var p := x.t.pending.value;
          p.state.ck == InitiationCk(x.t.local, x.t.peer, p.ephemeral) && p.ephemeral in x.drawn && p.ephemeral !in x.spent)
    && (x.t.current.Some? ==> SessionOk(x, x.t.current.value))
    && (x.t.previous.Some? ==> SessionOk(x, x.t.previous.value))
    && (x.t.current.Some? && x.t.previous.Some? ==>
          OwnOfSend(x.t.current.value.sendKey) != OwnOfSend(x.t.previous.value.sendKey))
  }

  /** Counters sealed under `key`, in the order they were used. */
  function CountersOf(log: seq<Packet>, key: Term): seq<nat> {
    if log == [] then [] else
    var n := |log| - 1;
    CountersOf(log[..n], key) + (if log[n].key == key then [log[n].counter] else [])
  }

  function UpTo(n: nat): (s: seq<nat>)
    ensures |s| == n
  {
    seq(n, i => i)
  }

  ghost predicate LogInv(x: End) {
    && (forall i :: 0 <= i < |x.sealed| ==> Spent(x, OwnOfSend(x.sealed[i].key)))
    && (forall key :: CountersOf(x.sealed, key) == UpTo(|CountersOf(x.sealed, key)|))
    && (x.t.current.Some? ==> |CountersOf(x.sealed, x.t.current.value.sendKey)| == x.t.current.value.sendCounter)
    && (x.t.previous.Some? ==> |CountersOf(x.sealed, x.t.previous.value.sendKey)| == x.t.previous.value.sendCounter)
  }

  ghost predicate OpenInv(x: End) {
    && (forall i :: 0 <= i < |x.got| ==> Spent(x, OwnOfRecv(x.got[i].key)))
    && (forall i, j :: 0 <= i < j < |x.got| ==> (x.got[i].key, x.got[i].counter) != (x.got[j].key, x.got[j].counter))
    && (x.t.current.Some? ==> SeenInv(x, x.t.current.value))
    && (x.t.previous.Some? ==> SeenInv(x, x.t.previous.value))
  }

  /** The window of a live session has seen every counter opened under its key. */
  ghost predicate SeenInv(x: End, s: Session) {
    forall i :: 0 <= i < |x.got| && x.got[i].key == s.recvKey ==> x.got[i].counter in s.replay.seen && x.got[i].counter <= s.replay.last
  }

  // ---- keys ----

  lemma Unsent(x: End, s: Session)
    requires LogInv(x) && !Spent(x, OwnOfSend(s.sendKey))
    ensures CountersOf(x.sealed, s.sendKey) == []
  {
    CountersAbsent(x.sealed, s.sendKey);
  }

  lemma {:induction false} CountersAbsent(log: seq<Packet>, key: Term)
    requires forall i :: 0 <= i < |log| ==> log[i].key != key
    ensures CountersOf(log, key) == []
  {
    if log != [] { CountersAbsent(log[..|log| - 1], key); }
  }

  /** A response accepted makes a session of ours whose own ephemeral is the pending one. */
  lemma ResponseMakes(x: End, ev: Event)
    requires KeysInv(x) && ev.GotResponse? && Creates(x.t, ev)
    ensures x.t.pending.Some?
    ensures var x' := Advance(x, ev); var t' := x'.t;
            && t'.current.Some? && SessionOk(x', t'.current.value)
            && t'.pending.None? && t'.previous == x.t.current && t'.queued == []
            && OwnOfSend(t'.current.value.sendKey) == Pub(x.t.pending.value.ephemeral)
            && t'.current.value.sendCounter == |x.t.queued| && t'.current.value.replay == Replay.EMPTY
            && t'.local == x.t.local && t'.peer == x.t.peer
  {
    var session := Installed(x.t, ev.m, ev.now);
    ResponseForm(x.t, ev.m, ev.now);
    InstalledMade(x.t, ev.m, ev.now);
    Handshake.SealAllKeeps(session, x.t.queued);
  }

  lemma InstalledMade(t: Tunn, m: Wire, now: Time)
    requires ConsumeResponse(t, m, now).1.Ok?
    requires t.pending.value.state.ck == InitiationCk(t.local, t.peer, t.pending.value.ephemeral)
    ensures var s := Installed(t, m, now);
            && Made(s, t.local, t.peer)
            && OwnOfSend(s.sendKey) == OwnOfRecv(s.recvKey) == Pub(t.pending.value.ephemeral)
  {
    var key := Installed(t, m, now).sendKey;
    assert Up3(key).ck.ck == t.pending.value.state.ck;
    assert StaticStatic(key) == X25519(t.local, t.peer);
    assert InitiatorEphemeral(key) == Pub(t.pending.value.ephemeral);
  }

  /** An initiation accepted makes a session of ours whose own ephemeral is the one drawn now. */
  lemma InitiationMakes(x: End, ev: Event)
    requires KeysInv(x) && ev.GotInitiation? && Creates(x.t, ev)
    ensures var x' := Advance(x, ev); var t' := x'.t;
            && t'.current.Some? && SessionOk(x', t'.current.value)
            && t'.pending.None? && t'.previous == x.t.current && t'.queued == x.t.queued
            && OwnOfSend(t'.current.value.sendKey) == Pub(ev.d.ephemeral)
            && t'.current.value.sendCounter == 0 && t'.current.value.replay == Replay.EMPTY
            && t'.local == x.t.local && t'.peer == x.t.peer
  {
    var ci := ConsumeInitiation(x.t.local, ev.m).value;
    var k := Advance(x, ev).t.current.value.sendKey;
    assert ci.state.ck.ck == Hkdf(Hkdf(Hash(Text(CONSTRUCTION)), ev.m.ephemeral, 1), X25519(x.t.local, ev.m.ephemeral), 1);
    assert Up3(k).ck.ck == ci.state.ck;
    assert StaticStatic(k) == X25519(x.t.local, x.t.peer);
    assert ResponderEphemeral(k) == Pub(ev.d.ephemeral);
    assert InitiatorEphemeral(k) == ev.m.ephemeral;
  }

  lemma NewInitiationKeeps(t: Tunn, now: Time, d: Draw)
    ensures var (t', m) := NewInitiation(t, now, d);
            t'.pending.Some? && t'.pending.value.ephemeral == d.ephemeral && m.Initiation?
            && t'.pending.value.state.ck == InitiationCk(t.local, t.peer, d.ephemeral)
  {
    assert |CONSTRUCTION| > 32;
  }

  /** How an event that installs no session can change the sessions: dropped, or the counter and
      the window moved on. */
  predicate Continues(before: Option<Session>, after: Option<Session>) {
    after.None? || (before.Some? &&
      after.value == before.value.(sendCounter := after.value.sendCounter, replay := after.value.replay, confirmed := after.value.confirmed))
  }

  /** How a pending initiation can change without a session: kept, dropped, or drawn anew. */
  predicate PendingFrom(t: Tunn, t': Tunn, d: Draw) {
    || t'.pending.None?
    || t'.pending == t.pending
    || (t'.pending.value.ephemeral == d.ephemeral
        && t'.pending.value.state.ck == InitiationCk(t.local, t.peer, d.ephemeral))
  }

  predicate Quiet(t: Tunn, t': Tunn) {
    t'.local == t.local && t'.peer == t.peer && Continues(t.current, t'.current) && Continues(t.previous, t'.previous)
  }

  lemma QuietInitiate(t: Tunn, now: Time, d: Draw)
    ensures var t' := InitiateIfNeeded(t, now, d).0;
            Quiet(t, t') && PendingFrom(t, t', d) && t'.current == t.current && t'.previous == t.previous
            && (t'.queued == t.queued || t'.queued == [])
  {
    NewInitiationKeeps(t, now, d);
  }

  lemma QuietSend(t: Tunn, plain: Bytes, now: Time, d: Draw)
    ensures var t' := Encapsulate(t, plain, now, d).0; Quiet(t, t') && PendingFrom(t, t', d)
  {
    if t.current.None? || Expired(t.current.value, now) {
      QuietInitiate(t.(current := None, queued := Enqueue(t.queued, plain)), now, d);
    } else {
      var s := Seal(t.current.value, plain).0;
      NewInitiationKeeps(t.(current := Some(s), lastSent := Some(now), needKeepalive := false), now, d);
    }
  }

  lemma QuietTick(t: Tunn, now: Time, d: Draw)
    ensures var t' := Tick(t, now, d).0; Quiet(t, t') && PendingFrom(t, t', d)
  {
    QuietInitiate(t.(current := Live(t.current, now), previous := Live(t.previous, now)), now, d);
  }

  lemma QuietReceive(t: Tunn, m: Wire, now: Time)
    ensures var t' := ConsumeTransport(t, m, now).0; Quiet(t, t') && t'.pending == t.pending
  {
  }

  lemma QuietStep(t: Tunn, ev: Event)
    requires !Creates(t, ev)
    ensures var t' := Step(t, ev).0;
            Quiet(t, t') && (if Draws(ev) then PendingFrom(t, t', ev.d) else t'.pending == t.pending)
  {
    match ev
    case Send(plain, now, d) => QuietSend(t, plain, now, d);
    case Ensure(now, d) => QuietInitiate(t, now, d);
    case TickAt(now, d) => QuietTick(t, now, d);
    case GotTransport(m, now) => QuietReceive(t, m, now);
    case GotInitiation(m, now, d) =>
    case GotResponse(m, now) =>
  }

  lemma KeysKept(x: End, ev: Event)
    requires KeysInv(x) && Enabled(x, ev)
    ensures KeysInv(Advance(x, ev))
  {
    if ev.GotResponse? && Creates(x.t, ev) { ResponseMakes(x, ev); }
    else if ev.GotInitiation? && Creates(x.t, ev) { InitiationMakes(x, ev); }
    else { QuietStep(x.t, ev); }
  }

  // ---- counters ----

  lemma {:induction false} CountersJoin(a: seq<Packet>, b: seq<Packet>, key: Term)
    ensures CountersOf(a + b, key) == CountersOf(a, key) + CountersOf(b, key)
  {
    if b == [] {
      assert a + b == a;
    } else {
      var n := |b| - 1;
      CountersJoin(a, b[..n], key);
      assert (a + b)[..|a + b| - 1] == a + b[..n];
    }
  }

  /** Packets sealed one after the other under one key. */
  predicate Consecutive(log: seq<Packet>, key: Term, first: nat) {
    forall i :: 0 <= i < |log| ==> log[i].key == key && log[i].counter == first + i
  }

  lemma {:induction false} ConsecutiveCounters(log: seq<Packet>, key: Term, first: nat)
    requires Consecutive(log, key, first)
    ensures CountersOf(log, key) == seq(|log|, i => first + i)
  {
    if log != [] { ConsecutiveCounters(log[..|log| - 1], key, first); }
  }

  /** An event seals only under the session that is current when it returns, taking its counters
      from where that session stood. */
  lemma SealsCurrent(x: End, ev: Event)
    requires KeysInv(x)
    ensures var t' := Advance(x, ev).t; var log := Seals(x.t, ev);
            if t'.current.None? then log == [] else
            var s := t'.current.value;
            var first := if Creates(x.t, ev) then 0 else x.t.current.value.sendCounter;
            (Creates(x.t, ev) || x.t.current.Some?) && Consecutive(log, s.sendKey, first) && s.sendCounter == first + |log|
  {
    match ev
    case Send(plain, now, d) =>
    case Ensure(now, d) => QuietInitiate(x.t, now, d);
    case TickAt(now, d) => TickSeals(x.t, now, d);
    case GotTransport(m, now) => QuietReceive(x.t, m, now); ReceiveSeals(x.t, m, now);
    case GotInitiation(m, now, d) => if Creates(x.t, ev) { InitiationMakes(x, ev); }
    case GotResponse(m, now) => if Creates(x.t, ev) { ResponseMakes(x, ev); }
  }

  lemma TickSeals(t: Tunn, now: Time, d: Draw)
    ensures var t' := Tick(t, now, d).0; var log := Seals(t, TickAt(now, d));
            if t'.current.None? then log == [] else
            t.current.Some? && Consecutive(log, t.current.value.sendKey, t.current.value.sendCounter)
            && t'.current.value.sendKey == t.current.value.sendKey
            && t'.current.value.sendCounter == t.current.value.sendCounter + |log|
  {
    var t0 := t.(current := Live(t.current, now), previous := Live(t.previous, now));
    QuietInitiate(t0, now, d);
  }

  lemma ReceiveSeals(t: Tunn, m: Wire, now: Time)
    ensures var t' := ConsumeTransport(t, m, now).0;
            && t'.current.Some? == t.current.Some?
            && (t.current.Some? ==> t'.current.value.sendCounter == t.current.value.sendCounter)
            && (t'.previous.Some? ==> t'.previous.value.sendCounter == t.previous.value.sendCounter)
  {
  }

  lemma PreviousFrozen(x: End, ev: Event)
    requires KeysInv(x)
    ensures var t' := Advance(x, ev).t; t'.previous.Some? ==>
              if Creates(x.t, ev) then t'.previous == x.t.current
              else x.t.previous.Some? && t'.previous.value.sendCounter == x.t.previous.value.sendCounter
                   && t'.previous.value.sendKey == x.t.previous.value.sendKey
  {
    match ev
    case Send(plain, now, d) => FrozenSend(x.t, plain, now, d);
    case Ensure(now, d) => QuietInitiate(x.t, now, d);
    case TickAt(now, d) => FrozenTick(x.t, now, d);
    case GotTransport(m, now) => QuietReceive(x.t, m, now); ReceiveSeals(x.t, m, now);
    case GotInitiation(m, now, d) => if Creates(x.t, ev) { InitiationMakes(x, ev); }
    case GotResponse(m, now) => if Creates(x.t, ev) { ResponseMakes(x, ev); }
  }

  lemma FrozenSend(t: Tunn, plain: Bytes, now: Time, d: Draw)
    ensures Encapsulate(t, plain, now, d).0.previous == t.previous
  {
    QuietInitiate(t.(current := None, queued := Enqueue(t.queued, plain)), now, d);
  }

  lemma FrozenTick(t: Tunn, now: Time, d: Draw)
    ensures Tick(t, now, d).0.previous == Live(t.previous, now)
  {
    QuietInitiate(t.(current := Live(t.current, now), previous := Live(t.previous, now)), now, d);
  }

  lemma LogKept(x: End, ev: Event)
    requires KeysInv(x) && LogInv(x) && Enabled(x, ev)
    ensures LogInv(Advance(x, ev))
  {
    var x' := Advance(x, ev);
    KeysKept(x, ev);
    SealsCurrent(x, ev);
    LogCurrent(x, ev);
    LogPrevious(x, ev);
    forall key ensures CountersOf(x'.sealed, key) == UpTo(|CountersOf(x'.sealed, key)|) { LogOther(x, ev, key); }
  }

  /** Only the current key gains counters. */
  lemma LogOther(x: End, ev: Event, key: Term)
    requires KeysInv(x) && LogInv(x) && Enabled(x, ev)
    ensures var c := CountersOf(Advance(x, ev).sealed, key); c == UpTo(|c|)
    ensures Advance(x, ev).t.current.None? || Advance(x, ev).t.current.value.sendKey != key ==>
              CountersOf(Advance(x, ev).sealed, key) == CountersOf(x.sealed, key)
  {
    var log := Seals(x.t, ev);
    SealsCurrent(x, ev);
    CountersJoin(x.sealed, log, key);
    var t' := Advance(x, ev).t;
    if t'.current.Some? && t'.current.value.sendKey == key { LogCurrent(x, ev); } else { CountersAbsent(log, key); }
  }

  lemma LogPrevious(x: End, ev: Event)
    requires KeysInv(x) && LogInv(x) && Enabled(x, ev)
    ensures var x' := Advance(x, ev); x'.t.previous.Some? ==>
              |CountersOf(x'.sealed, x'.t.previous.value.sendKey)| == x'.t.previous.value.sendCounter
  {
    var x' := Advance(x, ev);
    if x'.t.previous.Some? {
      var key := x'.t.previous.value.sendKey;
      KeysKept(x, ev);
      PreviousFrozen(x, ev);
      if x'.t.current.Some? { assert OwnOfSend(key) != OwnOfSend(x'.t.current.value.sendKey); }
      LogOther(x, ev, key);
    }
  }

  /** The counters under the current key run from 0 to the session's send counter. */
  lemma LogCurrent(x: End, ev: Event)
    requires KeysInv(x) && LogInv(x) && Enabled(x, ev)
    ensures var x' := Advance(x, ev); x'.t.current.Some? ==>
              CountersOf(x'.sealed, x'.t.current.value.sendKey) == UpTo(x'.t.current.value.sendCounter)
  {
    var x' := Advance(x, ev);
    if x'.t.current.Some? {
      var s := x'.t.current.value;
      var log := Seals(x.t, ev);
      SealsCurrent(x, ev);
      CountersJoin(x.sealed, log, s.sendKey);
      if Creates(x.t, ev) {
        if ev.GotResponse? { ResponseMakes(x, ev); } else { InitiationMakes(x, ev); }
        Unsent(x, s);
        ConsecutiveCounters(log, s.sendKey, 0);
      } else {
        QuietStep(x.t, ev);
        ConsecutiveCounters(log, s.sendKey, x.t.current.value.sendCounter);
      }
    }
  }

  // ---- openings ----

  lemma OpensFresh(t: Tunn, m: Wire, now: Time)
    requires ConsumeTransport(t, m, now).1.Ok?
    ensures m.Transport? && SlotOf(t, m.receiver) != Nowhere
    ensures var s := Addressed(t, m.receiver); var t' := ConsumeTransport(t, m, now).0;
            && Replay.Fresh(s.replay, m.counter) && !Expired(s, now)
            && m.body == Sealed(s.recvKey, m.counter, Raw(Opens(t, GotTransport(m, now))[0].padded), EMPTY)
            && var s' := s.(replay := Replay.Note(s.replay, m.counter), confirmed := true);
            (if SlotOf(t, m.receiver) == InCurrent then t'.current == Some(s') && t'.previous.None?
             else t'.previous == Some(s') && t'.current == t.current)
  {
  }

  lemma WindowsKept(t: Tunn, ev: Event)
    requires !ev.GotTransport? && !Creates(t, ev)
    ensures var t' := Step(t, ev).0;
            && (t'.current.Some? ==> t.current.Some? && t'.current.value.replay == t.current.value.replay)
            && (t'.previous.Some? ==> t.previous.Some? && t'.previous.value.replay == t.previous.value.replay)
  {
    match ev
    case Send(plain, now, d) => QuietInitiate(t.(current := None, queued := Enqueue(t.queued, plain)), now, d);
    case Ensure(now, d) => QuietInitiate(t, now, d);
    case TickAt(now, d) => QuietInitiate(t.(current := Live(t.current, now), previous := Live(t.previous, now)), now, d);
    case GotInitiation(m, now, d) =>
    case GotResponse(m, now) =>
  }

  lemma OpenKept(x: End, ev: Event)
    requires KeysInv(x) && OpenInv(x) && Enabled(x, ev)
    ensures OpenInv(Advance(x, ev))
  {
    if Creates(x.t, ev) {
      OpenCreated(x, ev);
    } else if ev.GotTransport? {
      QuietReceive(x.t, ev.m, ev.now);
      if Opens(x.t, ev) != [] { OpensFresh(x.t, ev.m, ev.now); OpenOne(x, ev); }
    } else {
      QuietStep(x.t, ev);
      WindowsKept(x.t, ev);
    }
  }

  lemma OpenCreated(x: End, ev: Event)
    requires KeysInv(x) && OpenInv(x) && Enabled(x, ev) && Creates(x.t, ev)
    ensures OpenInv(Advance(x, ev))
  {
    if ev.GotResponse? { OpenAnswered(x, ev); } else { OpenAccepted(x, ev); }
  }

  lemma OpenAnswered(x: End, ev: Event)
    requires KeysInv(x) && OpenInv(x) && ev.GotResponse? && Creates(x.t, ev)
    ensures OpenInv(Advance(x, ev))
  {
    ResponseMakes(x, ev);
    OpenInstalled(x, Advance(x, ev));
  }

  lemma OpenAccepted(x: End, ev: Event)
    requires KeysInv(x) && OpenInv(x) && Enabled(x, ev) && ev.GotInitiation? && Creates(x.t, ev)
    ensures OpenInv(Advance(x, ev))
  {
    InitiationMakes(x, ev);
    OpenInstalled(x, Advance(x, ev));
  }

  lemma OpenInstalled(x: End, x': End)
    requires OpenInv(x) && x'.got == x.got && x.spent <= x'.spent && x'.t.previous == x.t.current
    requires x'.t.current.Some? && !Spent(x, OwnOfRecv(x'.t.current.value.recvKey))
    ensures OpenInv(x')
  {
    SeenNothing(x, x', x'.t.current.value);
  }

  /** Nothing was opened under a key whose own ephemeral made no session yet. */
  lemma SeenNothing(x: End, x': End, s: Session)
    requires x'.got == x.got && !Spent(x, OwnOfRecv(s.recvKey)) && forall i :: 0 <= i < |x.got| ==> Spent(x, OwnOfRecv(x.got[i].key))
    ensures SeenInv(x', s)
  {
  }

  lemma OpenOne(x: End, ev: Event)
    requires KeysInv(x) && OpenInv(x) && ev.GotTransport? && Opens(x.t, ev) != []
    ensures OpenInv(Advance(x, ev))
  {
    OpensFresh(x.t, ev.m, ev.now);
    var x' := Advance(x, ev);
    var s := Addressed(x.t, ev.m.receiver);
    assert SeenInv(x, s) && SessionOk(x, s);
    forall i | 0 <= i < |x.got| ensures (x.got[i].key, x.got[i].counter) != (s.recvKey, ev.m.counter) {
    }
  }

  // ---- whole runs ----

  lemma {:induction false} RunKeeps(local: nat, peer: Term, evs: seq<Event>)
    requires ValidRun(Begin(local, peer), evs)
    ensures var x := Run(Begin(local, peer), evs);
            KeysInv(x) && LogInv(x) && OpenInv(x) && x.t.local == local && x.t.peer == peer
    decreases |evs|
  {
    if evs != [] {
      var n := |evs| - 1;
      RunKeeps(local, peer, evs[..n]);
      var x := Run(Begin(local, peer), evs[..n]);
      KeysKept(x, evs[n]);
      LogKept(x, evs[n]);
      OpenKept(x, evs[n]);
      if Creates(x.t, evs[n]) {
        if evs[n].GotResponse? { ResponseMakes(x, evs[n]); } else { InitiationMakes(x, evs[n]); }
      } else { QuietStep(x.t, evs[n]); }
    }
  }

  /** In no run is a (key, counter) pair sealed twice. */
  lemma NoncesUnique(local: nat, peer: Term, evs: seq<Event>, i: nat, j: nat)
    requires ValidRun(Begin(local, peer), evs)
    requires i < j < |Run(Begin(local, peer), evs).sealed|
    ensures var log := Run(Begin(local, peer), evs).sealed;
            (log[i].key, log[i].counter) != (log[j].key, log[j].counter)
  {
    RunKeeps(local, peer, evs);
    var log := Run(Begin(local, peer), evs).sealed;
    if log[i].key == log[j].key { CountersDiffer(log, log[i].key, i, j); }
  }

  lemma CountersDiffer(log: seq<Packet>, key: Term, i: nat, j: nat)
    requires i < j < |log| && log[i].key == log[j].key == key
    requires CountersOf(log, key) == UpTo(|CountersOf(log, key)|)
    ensures log[i].counter != log[j].counter
  {
    CountersAt(log, key, i);
    CountersAt(log, key, j);
    CountersGrow(log, key, i + 1, j);
    assert log[..i + 1][..i] == log[..i];
  }

  /** The place of a sealed packet among the counters of its key. */
  lemma CountersAt(log: seq<Packet>, key: Term, i: nat)
    requires i < |log| && log[i].key == key
    ensures |CountersOf(log[..i], key)| < |CountersOf(log, key)|
    ensures CountersOf(log, key)[|CountersOf(log[..i], key)|] == log[i].counter
  {
    assert log[..i + 1][..i] == log[..i];
    CountersGrow(log, key, i + 1, |log|);
    assert log[..|log|] == log;
  }

  lemma {:induction false} CountersGrow(log: seq<Packet>, key: Term, i: nat, j: nat)
    requires i <= j <= |log|
    ensures CountersOf(log[..i], key) <= CountersOf(log[..j], key)
    decreases j
  {
    if i < j {
      CountersGrow(log, key, i, j - 1);
      assert log[..j][..j - 1] == log[..j - 1];
    }
  }

  /** The counters sealed under the current key are exactly 0 up to its send counter. */
  lemma UsedExactly(local: nat, peer: Term, evs: seq<Event>, n: nat)
    requires ValidRun(Begin(local, peer), evs)
    requires Run(Begin(local, peer), evs).t.current.Some?
    ensures var x := Run(Begin(local, peer), evs); var s := x.t.current.value;
            n < s.sendCounter <==> exists i :: 0 <= i < |x.sealed| && x.sealed[i].key == s.sendKey && x.sealed[i].counter == n
  {
    RunKeeps(local, peer, evs);
    var x := Run(Begin(local, peer), evs);
    var key := x.t.current.value.sendKey;
    if n < x.t.current.value.sendCounter {
      CounterFound(x.sealed, key, n);
    }
    forall i | 0 <= i < |x.sealed| && x.sealed[i].key == key ensures x.sealed[i].counter < x.t.current.value.sendCounter {
      CountersAt(x.sealed, key, i);
    }
  }

  lemma {:induction false} CounterFound(log: seq<Packet>, key: Term, n: nat)
    requires n < |CountersOf(log, key)|
    ensures exists i :: 0 <= i < |log| && log[i].key == key && log[i].counter == CountersOf(log, key)[n]
  {
    var m := |log| - 1;
    if n < |CountersOf(log[..m], key)| {
      CounterFound(log[..m], key, n);
      var i :| 0 <= i < m && log[..m][i].key == key && log[..m][i].counter == CountersOf(log, key)[n];
      assert log[i].key == key && log[i].counter == CountersOf(log, key)[n];
    } else {
      assert log[m].key == key && log[m].counter == CountersOf(log, key)[n];
    }
  }

  // ---- a session that left `current` ----

  predicate Retired(x: End, key: Term) {
    Spent(x, OwnOfSend(key)) && (x.t.current.Some? ==> x.t.current.value.sendKey != key)
  }

  lemma RetiredStep(x: End, ev: Event, key: Term)
    requires KeysInv(x) && Enabled(x, ev) && Retired(x, key)
    ensures Retired(Advance(x, ev), key)
    ensures CountersOf(Advance(x, ev).sealed, key) == CountersOf(x.sealed, key)
  {
    SealsCurrent(x, ev);
    if Creates(x.t, ev) {
      if ev.GotResponse? { ResponseMakes(x, ev); } else { InitiationMakes(x, ev); }
    } else {
      QuietStep(x.t, ev);
    }
    CountersJoin(x.sealed, Seals(x.t, ev), key);
    CountersAbsent(Seals(x.t, ev), key);
  }

  /** Once a session is no longer current, nothing is sealed under its key again,
      however the run goes on. */
  lemma {:induction false} RetiredForever(local: nat, peer: Term, evs: seq<Event>, n: nat, key: Term)
    requires n <= |evs| && ValidRun(Begin(local, peer), evs)
    requires Retired(Run(Begin(local, peer), evs[..n]), key)
    ensures Retired(Run(Begin(local, peer), evs), key)
    ensures CountersOf(Run(Begin(local, peer), evs).sealed, key) == CountersOf(Run(Begin(local, peer), evs[..n]).sealed, key)
    decreases |evs|
  {
    if n == |evs| {
      assert evs[..n] == evs;
    } else {
      var m := |evs| - 1;
      assert evs[..m][..n] == evs[..n];
      RetiredForever(local, peer, evs[..m], n, key);
      RunKeeps(local, peer, evs[..m]);
      RetiredStep(Run(Begin(local, peer), evs[..m]), evs[m], key);
    }
  }

  /** Every session that is ever current has its key spent, so leaving `current` retires it. */
  lemma LeavingRetires(local: nat, peer: Term, evs: seq<Event>, ev: Event)
    requires ValidRun(Begin(local, peer), evs) && Enabled(Run(Begin(local, peer), evs), ev)
    requires Run(Begin(local, peer), evs).t.current.Some?
    ensures var x := Run(Begin(local, peer), evs); var x' := Advance(x, ev); var key := x.t.current.value.sendKey;
            (x'.t.current.Some? && x'.t.current.value.sendKey == key) || Retired(x', key)
  {
    RunKeeps(local, peer, evs);
  }

  // ---- messages and packets ----

  function Body(p: Packet): Term {
    Sealed(p.key, p.counter, Raw(Padded(p.plain)), EMPTY)
  }

  /** Bodies of the transport messages among `out`, in order. */
  function Bodies(out: seq<Wire>): seq<Term> {
    if out == [] then [] else
    var n := |out| - 1;
    Bodies(out[..n]) + (if out[n].Transport? then [out[n].body] else [])
  }

  lemma {:induction false} BodiesAll(out: seq<Wire>, bodies: seq<Term>)
    requires |out| == |bodies| && forall i :: 0 <= i < |out| ==> out[i].Transport? && out[i].body == bodies[i]
    ensures Bodies(out) == bodies
  {
    if out != [] { BodiesAll(out[..|out| - 1], bodies[..|out| - 1]); }
  }

  /** The transport messages an event sends are its sealed packets, in order. */
  lemma OutIsSeals(t: Tunn, ev: Event)
    ensures var ps := Seals(t, ev); Bodies(Step(t, ev).1) == seq(|ps|, i requires 0 <= i < |ps| => Body(ps[i]))
  {
    match ev
    case Send(plain, now, d) => SendOut(t, plain, now, d);
    case Ensure(now, d) => InitiateOut(t, now, d);
    case TickAt(now, d) => TickOut(t, now, d);
    case GotTransport(m, now) =>
    case GotInitiation(m, now, d) => BodiesNone(t, m, now, d);
    case GotResponse(m, now) => if Creates(t, ev) { ResponseOut(t, m, now); }
  }

  lemma BodiesNone(t: Tunn, m: Wire, now: Time, d: Draw)
    ensures Bodies(Step(t, GotInitiation(m, now, d)).1) == []
  {
    var out := Step(t, GotInitiation(m, now, d)).1;
    if out != [] { assert out[..0] == []; }
  }

  lemma InitiateOut(t: Tunn, now: Time, d: Draw)
    ensures Bodies(InitiateIfNeeded(t, now, d).1) == []
    ensures t.current.Some? ==> InitiateIfNeeded(t, now, d).1 == []
  {
    var out := InitiateIfNeeded(t, now, d).1;
    if out != [] { assert out[..0] == []; }
  }

  lemma SendOut(t: Tunn, plain: Bytes, now: Time, d: Draw)
    ensures var ps := Seals(t, Send(plain, now, d));
            Bodies(Encapsulate(t, plain, now, d).1) == seq(|ps|, i requires 0 <= i < |ps| => Body(ps[i]))
  {
    if t.current.None? || Expired(t.current.value, now) {
      InitiateOut(t.(current := None, queued := Enqueue(t.queued, plain)), now, d);
    } else {
      var out := Encapsulate(t, plain, now, d).1;
      BodiesAll(out[..1], [out[0].body]);
      if |out| == 2 { assert Bodies(out) == Bodies(out[..1]); } else { assert out[..1] == out; }
    }
  }

  lemma TickOut(t: Tunn, now: Time, d: Draw)
    ensures var ps := Seals(t, TickAt(now, d));
            Bodies(Tick(t, now, d).1) == seq(|ps|, i requires 0 <= i < |ps| => Body(ps[i]))
  {
    var t0 := t.(current := Live(t.current, now), previous := Live(t.previous, now));
    InitiateOut(t0, now, d);
    if t0.current.Some? {
      TickOutAwake(t, t0, now, d);
      OneOut(Tick(t, now, d).1, Seals(t, TickAt(now, d)), t0.current.value.remoteIndex);
    } else {
      TickOutAsleep(t, t0, now, d);
    }
  }

  lemma OneOut(out: seq<Wire>, ps: seq<Packet>, index: nat)
    requires |out| == |ps| <= 1 && (ps != [] ==> out == [Transport(index, ps[0].counter, Body(ps[0]))])
    ensures Bodies(out) == seq(|ps|, i requires 0 <= i < |ps| => Body(ps[i]))
  {
    if ps != [] { BodiesAll(out, [Body(ps[0])]); }
  }

  lemma TickOutAwake(t: Tunn, t0: Tunn, now: Time, d: Draw)
    requires t0 == t.(current := Live(t.current, now), previous := Live(t.previous, now)) && t0.current.Some?
    ensures var out := Tick(t, now, d).1; var ps := Seals(t, TickAt(now, d));
            |out| == |ps| <= 1 && (ps != [] ==> out == [Transport(t0.current.value.remoteIndex, ps[0].counter, Body(ps[0]))])
  {
  }

  lemma TickOutAsleep(t: Tunn, t0: Tunn, now: Time, d: Draw)
    requires t0 == t.(current := Live(t.current, now), previous := Live(t.previous, now)) && t0.current.None?
    ensures Seals(t, TickAt(now, d)) == []
    ensures Tick(t, now, d).1 == [] || Tick(t, now, d).1 == InitiateIfNeeded(t0, now, d).1
  {
    QuietInitiate(t0, now, d);
    var o1 := if t0.pending.Some? || t0.queued != [] then InitiateIfNeeded(t0, now, d).1 else [];
    assert Tick(t, now, d).1 == o1 + [] && o1 + [] == o1;
  }

  /** The session an accepted response installs. */
  function Installed(t: Tunn, m: Wire, now: Time): Session
    requires ConsumeResponse(t, m, now).1.Ok?
  {
    var p := t.pending.value;
    var s := Answered(p.state, p.ephemeral, t.local, m.ephemeral);
    var (fromUs, toUs) := Split(MixHash(s, m.encEmpty));
    NewSession(p.localIndex, m.sender, fromUs, toUs, now, true)
  }

  lemma ResponseForm(t: Tunn, m: Wire, now: Time)
    requires ConsumeResponse(t, m, now).1.Ok?
    ensures var (t', r) := ConsumeResponse(t, m, now); var s := Installed(t, m, now);
            && t'.current == Some(SealAll(s, t.queued).0) && r.value == SealAll(s, t.queued).1
            && t'.queued == [] && t'.pending.None? && t'.previous == t.current && s.sendCounter == 0 && s.replay == Replay.EMPTY
            && t'.local == t.local && t'.peer == t.peer
  {
  }

  lemma ResponseOut(t: Tunn, m: Wire, now: Time)
    requires ConsumeResponse(t, m, now).1.Ok?
    ensures var ps := Seals(t, GotResponse(m, now));
            Bodies(ConsumeResponse(t, m, now).1.value) == seq(|ps|, i requires 0 <= i < |ps| => Body(ps[i]))
  {
    ResponseForm(t, m, now);
    SealAllBodies(Installed(t, m, now), t.queued);
    var ps := Seals(t, GotResponse(m, now));
    Handshake.SealAllKeeps(Installed(t, m, now), t.queued);
    var q := t.queued; var key := Installed(t, m, now).sendKey;
    assert ps == seq(|q|, i requires 0 <= i < |q| => Packet(key, i, q[i], false));
  }

  lemma SealAllBodies(s: Session, plains: seq<Bytes>)
    requires s.sendCounter == 0
    ensures Bodies(SealAll(s, plains).1) ==
      seq(|plains|, i requires 0 <= i < |plains| => Body(Packet(s.sendKey, i, plains[i], false)))
  {
    Handshake.SealAllKeeps(s, plains);
    BodiesAll(SealAll(s, plains).1, seq(|plains|, i requires 0 <= i < |plains| => Body(Packet(s.sendKey, i, plains[i], false))));
  }

  // ---- each packet offered is sealed at most once ----

  function Plains(log: seq<Packet>): seq<Bytes> {
    if log == [] then [] else
    var n := |log| - 1;
    Plains(log[..n]) + (if log[n].keepalive then [] else [log[n].plain])
  }

  lemma {:induction false} PlainsJoin(a: seq<Packet>, b: seq<Packet>)
    ensures Plains(a + b) == Plains(a) + Plains(b)
  {
    if b == [] {
      assert a + b == a;
    } else {
      PlainsJoin(a, b[..|b| - 1]);
      assert (a + b)[..|a + b| - 1] == a + b[..|b| - 1];
    }
  }

  lemma {:induction false} PlainsAll(log: seq<Packet>, plains: seq<Bytes>)
    requires |log| == |plains| && forall i :: 0 <= i < |log| ==> !log[i].keepalive && log[i].plain == plains[i]
    ensures Plains(log) == plains
  {
    if log != [] { PlainsAll(log[..|log| - 1], plains[..|log| - 1]); }
  }

  /** Packets waiting and packets sealed are, together, among the packets offered. */
  predicate Conserved(x: End) {
    multiset(x.t.queued) + multiset(Plains(x.sealed)) <= multiset(x.offered)
  }

  lemma EnqueueBag(q: seq<Bytes>, plain: Bytes)
    ensures multiset(Enqueue(q, plain)) <= multiset(q) + multiset{plain}
  {
    if |q| >= QUEUE_LIMIT { assert q == [q[0]] + q[1..]; }
  }

  lemma QueueSend(t: Tunn, plain: Bytes, now: Time, d: Draw)
    ensures var t' := Encapsulate(t, plain, now, d).0; var ps := Plains(Seals(t, Send(plain, now, d)));
            multiset(t'.queued) + multiset(ps) <= multiset(t.queued) + multiset{plain}
  {
    if t.current.None? || Expired(t.current.value, now) {
      EnqueueBag(t.queued, plain);
      QuietInitiate(t.(current := None, queued := Enqueue(t.queued, plain)), now, d);
    } else {
      PlainsAll(Seals(t, Send(plain, now, d)), [plain]);
      assert multiset([plain]) == multiset{plain};
    }
  }

  lemma QueueTick(t: Tunn, now: Time, d: Draw)
    ensures var t' := Tick(t, now, d).0;
            (t'.queued == t.queued || t'.queued == []) && Plains(Seals(t, TickAt(now, d))) == []
  {
    QuietInitiate(t.(current := Live(t.current, now), previous := Live(t.previous, now)), now, d);
    var ps := Seals(t, TickAt(now, d));
    if ps != [] { assert ps[..0] == []; }
  }

  lemma QueueResponse(t: Tunn, m: Wire, now: Time)
    ensures var t' := ConsumeResponse(t, m, now).0;
            if Creates(t, GotResponse(m, now)) then t'.queued == [] && Plains(Seals(t, GotResponse(m, now))) == t.queued
            else t'.queued == t.queued && Plains(Seals(t, GotResponse(m, now))) == []
  {
    if Creates(t, GotResponse(m, now)) {
      ResponseForm(t, m, now);
      PlainsAll(Seals(t, GotResponse(m, now)), t.queued);
    }
  }

  lemma QueueStep(t: Tunn, ev: Event)
    ensures var t' := Step(t, ev).0; var ps := Plains(Seals(t, ev));
            var offer := if ev.Send? then [ev.plain] else [];
            multiset(t'.queued) + multiset(ps) <= multiset(t.queued) + multiset(offer)
  {
    match ev
    case Send(plain, now, d) => QueueSend(t, plain, now, d);
    case Ensure(now, d) => QuietInitiate(t, now, d);
    case TickAt(now, d) => QueueTick(t, now, d);
    case GotTransport(m, now) =>
    case GotInitiation(m, now, d) =>
    case GotResponse(m, now) => QueueResponse(t, m, now);
  }

  lemma BagStep(q: multiset<Bytes>, q': multiset<Bytes>, sealed: multiset<Bytes>, ps: multiset<Bytes>,
                offered: multiset<Bytes>, offer: multiset<Bytes>)
    requires q + sealed <= offered && q' + ps <= q + offer
    ensures q' + (sealed + ps) <= offered + offer
  {
    forall b ensures (q' + (sealed + ps))[b] <= (offered + offer)[b] {
      assert (q + sealed)[b] <= offered[b];
      assert (q' + ps)[b] <= (q + offer)[b];
    }
  }

  lemma ConserveStep(x: End, ev: Event)
    requires Conserved(x)
    ensures Conserved(Advance(x, ev))
  {
    var ps := Plains(Seals(x.t, ev));
    var offer := if ev.Send? then [ev.plain] else [];
    QueueStep(x.t, ev);
    PlainsJoin(x.sealed, Seals(x.t, ev));
    BagStep(multiset(x.t.queued), multiset(Step(x.t, ev).0.queued), multiset(Plains(x.sealed)), multiset(ps),
            multiset(x.offered), multiset(offer));
    assert Advance(x, ev).offered == x.offered + offer;
  }

  lemma {:induction false} PacketsConserved(local: nat, peer: Term, evs: seq<Event>)
    ensures Conserved(Run(Begin(local, peer), evs))
    decreases |evs|
  {
    if evs != [] {
      var n := |evs| - 1;
      PacketsConserved(local, peer, evs[..n]);
      ConserveStep(Run(Begin(local, peer), evs[..n]), evs[n]);
    }
  }
}
