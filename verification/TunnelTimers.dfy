/** The timers of a tunnel: how far apart its initiations are, what its queue holds, and why
    its retries stop when the peer stays silent. */
module TunnelTimers {
  import opened Common
  import opened Noise
  import opened TunnelSpec
  import opened TunnelRuns
  import Handshake

  // ---- runs against a clock ----

  /** A tunnel with the time of its last event, the times of the initiations it sent, and the
      packets queued since the queue was last flushed or cleared. */
  datatype Clocked = Clocked(t: Tunn, clock: Time, inits: seq<Time>, waiting: seq<Bytes>)

  function Started(local: nat, peer: Term): Clocked {
    Clocked(New(local, peer), 0, [], [])
  }

  function CountInits(out: seq<Wire>): nat {
    if out == [] then 0 else
    CountInits(out[..|out| - 1]) + (if out[|out| - 1].Initiation? then 1 else 0)
  }

  /** The last attempt has timed out too: the initiation is given up and the queue cleared. */
  predicate GivesUp(t: Tunn, now: Time) {
    && t.current.None? && t.pending.Some?
    && Since(now, t.pending.value.sentAt) >= REKEY_TIMEOUT && t.pending.value.attempts >= MAX_HANDSHAKE_ATTEMPTS
  }

  predicate Unusable(t: Tunn, now: Time) {
    t.current.None? || Expired(t.current.value, now)
  }

  function Waiting(t: Tunn, waiting: seq<Bytes>, ev: Event): seq<Bytes> {
    match ev
    case Send(plain, now, d) =>
      if !Unusable(t, now) then waiting else
      if GivesUp(t.(current := None), now) then [] else waiting + [plain]
    case Ensure(now, d) => if GivesUp(t, now) then [] else waiting
    case TickAt(now, d) => if GivesUp(t.(current := Live(t.current, now)), now) then [] else waiting
    case GotResponse(m, now) => if Creates(t, ev) then [] else waiting
    case _ => waiting
  }

  function Pass(c: Clocked, ev: Event): Clocked {
    var (t', out) := Step(c.t, ev);
    Clocked(t', ev.now, c.inits + seq(CountInits(out), _ => ev.now), Waiting(c.t, c.waiting, ev))
  }

  /** The clock never goes back, and no session seals REKEY_AFTER_MESSAGES messages. */
  predicate InTime(c: Clocked, ev: Event) {
    && ev.now >= c.clock
    && (Pass(c, ev).t.current.Some? ==> Pass(c, ev).t.current.value.sendCounter < REKEY_AFTER_MESSAGES)
  }

  function Passed(local: nat, peer: Term, evs: seq<Event>): Clocked
    decreases |evs|
  {
    if evs == [] then Started(local, peer) else Pass(Passed(local, peer, evs[..|evs| - 1]), evs[|evs| - 1])
  }

  predicate Timely(local: nat, peer: Term, evs: seq<Event>)
    decreases |evs|
  {
    evs == [] || (Timely(local, peer, evs[..|evs| - 1]) && InTime(Passed(local, peer, evs[..|evs| - 1]), evs[|evs| - 1]))
  }

  // ---- spacing ----

  predicate Spaced(times: seq<Time>) {
    forall i, j :: 0 <= i < j < |times| ==> times[i] + REKEY_TIMEOUT <= times[j]
  }

  predicate SpaceInv(c: Clocked) {
    && Spaced(c.inits)
    && (c.inits != [] ==> c.inits[|c.inits| - 1] <= c.clock)
    && (c.t.pending.Some? ==> c.inits != [] && c.t.pending.value.sentAt == c.inits[|c.inits| - 1]
                              && 1 <= c.t.pending.value.attempts <= MAX_HANDSHAKE_ATTEMPTS)
    && (c.t.pending.None? && c.inits != [] ==>
          if c.t.current.Some? then c.inits[|c.inits| - 1] <= c.t.current.value.created
          else c.inits[|c.inits| - 1] + REKEY_TIMEOUT <= c.clock)
  }

  /** What one operation does to the initiations: at most one, and then only long enough after
      the last one. */
  predicate SpaceStep(c: Clocked, t': Tunn, out: seq<Wire>, now: Time) {
    && CountInits(out) <= 1
    && SpaceInv(Clocked(t', now, c.inits + seq(CountInits(out), _ => now), c.waiting))
  }

  lemma CountNone(out: seq<Wire>)
    requires forall i :: 0 <= i < |out| ==> !out[i].Initiation?
    ensures CountInits(out) == 0
  {
  }

  lemma CountLast(out: seq<Wire>)
    requires out != [] && forall i :: 0 <= i < |out| - 1 ==> !out[i].Initiation?
    ensures CountInits(out) == if out[|out| - 1].Initiation? then 1 else 0
  {
    CountNone(out[..|out| - 1]);
  }

  /** The tunnel may be handed to `initiate_if_needed` after its current session was dropped. */
  lemma SpaceInitiate(c: Clocked, u: Tunn, now: Time, d: Draw)
    requires SpaceInv(c) && now >= c.clock && u.pending == c.t.pending
    requires u.current == c.t.current || (u.current.None? && c.t.current.Some? && Expired(c.t.current.value, now))
    ensures var (t', out) := InitiateIfNeeded(u, now, d); SpaceStep(c, t', out, now)
    ensures var (t', out) := InitiateIfNeeded(u, now, d); t'.current == u.current
  {
    var out := InitiateIfNeeded(u, now, d).1;
    if out != [] { CountLast(out); }
  }

  lemma SpaceSend(c: Clocked, plain: Bytes, now: Time, d: Draw)
    requires SpaceInv(c) && InTime(c, Send(plain, now, d))
    ensures var (t', out) := Encapsulate(c.t, plain, now, d); SpaceStep(c, t', out, now)
  {
    if Unusable(c.t, now) {
      SpaceInitiate(c, c.t.(current := None, queued := Enqueue(c.t.queued, plain)), now, d);
    } else {
      CountLast(Encapsulate(c.t, plain, now, d).1);
    }
  }

  lemma SpaceTick(c: Clocked, now: Time, d: Draw)
    requires SpaceInv(c) && now >= c.clock
    ensures var (t', out) := Tick(c.t, now, d); SpaceStep(c, t', out, now)
  {
    var t0 := c.t.(current := Live(c.t.current, now), previous := Live(c.t.previous, now));
    SpaceInitiate(c, t0, now, d);
    if t0.current.Some? {
      TickAwake(t0, now, d);
      var (t', out) := Keepalive(t0, now);
      assert Tick(c.t, now, d) == (t', [] + out) && [] + out == out;
      SpaceQuiet(c, t', out, now);
    } else {
      TickAsleep(t0, now, d);
      var (t', out) := InitiateIfNeeded(t0, now, d);
      assert out + [] == out;
      if !t0.pending.Some? && t0.queued == [] { SpaceDropped(c, t0, now); }
    }
  }

  /** Nothing but data is sent, and the session stays. */
  lemma SpaceQuiet(c: Clocked, t': Tunn, out: seq<Wire>, now: Time)
    requires SpaceInv(c) && now >= c.clock && (forall i :: 0 <= i < |out| ==> !out[i].Initiation?)
    requires t'.pending == c.t.pending && t'.current.Some? && c.t.current.Some? && t'.current.value.created == c.t.current.value.created
    ensures SpaceStep(c, t', out, now)
  {
    CountNone(out);
  }

  lemma SpaceDropped(c: Clocked, u: Tunn, now: Time)
    requires SpaceInv(c) && now >= c.clock && u.pending == c.t.pending && u.pending.None?
    requires u.current == c.t.current || (u.current.None? && c.t.current.Some? && Expired(c.t.current.value, now))
    ensures SpaceStep(c, u, [], now)
  {
  }

  /** With a session a tick sends at most a keepalive. */
  lemma TickAwake(t: Tunn, now: Time, d: Draw)
    requires t.current.Some?
    ensures InitiateIfNeeded(t, now, d) == (t, [])
    ensures var (t', out) := Keepalive(t, now);
            && t'.pending == t.pending && t'.current.Some? && t'.current.value.created == t.current.value.created
            && |out| <= 1 && (out != [] ==> out[0].Transport?)
  {
  }

  /** Without one it sends no keepalive. */
  lemma TickAsleep(t: Tunn, now: Time, d: Draw)
    requires t.current.None?
    ensures var t' := InitiateIfNeeded(t, now, d).0; Keepalive(t', now) == (t', []) && Keepalive(t, now) == (t, [])
  {
  }

  lemma SpaceAccept(c: Clocked, m: Wire, now: Time, d: Draw)
    requires SpaceInv(c) && now >= c.clock
    ensures var (t', out) := Step(c.t, GotInitiation(m, now, d)); SpaceStep(c, t', out, now)
  {
    var (t', r) := TakeInitiation(c.t, m, now, d);
    CountNone(Step(c.t, GotInitiation(m, now, d)).1);
  }

  lemma SpaceReceive(c: Clocked, m: Wire, now: Time)
    requires SpaceInv(c) && now >= c.clock
    ensures var (t', out) := Step(c.t, GotTransport(m, now)); SpaceStep(c, t', out, now)
  {
    QuietReceive(c.t, m, now);
    ReceiveSeals(c.t, m, now);
  }

  lemma SealAllPlain(s: Session, plains: seq<Bytes>)
    ensures SealAll(s, plains).0.created == s.created && CountInits(SealAll(s, plains).1) == 0
  {
    Handshake.SealAllKeeps(s, plains);
    CountNone(SealAll(s, plains).1);
  }

  lemma SpaceResponse(c: Clocked, m: Wire, now: Time)
    requires SpaceInv(c) && now >= c.clock
    ensures var (t', out) := Step(c.t, GotResponse(m, now)); SpaceStep(c, t', out, now)
  {
    if ConsumeResponse(c.t, m, now).1.Ok? {
      ResponseForm(c.t, m, now);
      SealAllPlain(Installed(c.t, m, now), c.t.queued);
    }
  }

  lemma SpaceKept(c: Clocked, ev: Event)
    requires SpaceInv(c) && InTime(c, ev)
    ensures SpaceInv(Pass(c, ev)) && CountInits(Step(c.t, ev).1) <= 1
  {
    match ev
    case Send(plain, now, d) => SpaceSend(c, plain, now, d);
    case Ensure(now, d) => SpaceInitiate(c, c.t, now, d);
    case TickAt(now, d) => SpaceTick(c, now, d);
    case GotResponse(m, now) => SpaceResponse(c, m, now);
    case GotInitiation(m, now, d) => SpaceAccept(c, m, now, d);
    case GotTransport(m, now) => SpaceReceive(c, m, now);
  }

  /** In every run, any two initiations are at least REKEY_TIMEOUT apart and the attempt count
      of a pending one stays between 1 and MAX_HANDSHAKE_ATTEMPTS. */
  lemma {:induction false} InitiationsSpaced(local: nat, peer: Term, evs: seq<Event>)
    requires Timely(local, peer, evs)
    ensures var c := Passed(local, peer, evs);
            && SpaceInv(c) && Spaced(c.inits)
            && (c.t.pending.Some? ==> 1 <= c.t.pending.value.attempts <= MAX_HANDSHAKE_ATTEMPTS)
    decreases |evs|
  {
    if evs != [] {
      InitiationsSpaced(local, peer, evs[..|evs| - 1]);
      SpaceKept(Passed(local, peer, evs[..|evs| - 1]), evs[|evs| - 1]);
    }
  }

  // ---- queue ----

  function LastOf(s: seq<Bytes>, n: nat): seq<Bytes> {
    if |s| <= n then s else s[|s| - n..]
  }

  lemma EnqueueLast(waiting: seq<Bytes>, plain: Bytes)
    ensures Enqueue(LastOf(waiting, QUEUE_LIMIT), plain) == LastOf(waiting + [plain], QUEUE_LIMIT)
  {
  }

  lemma QueueKept(c: Clocked, ev: Event)
    requires c.t.queued == LastOf(c.waiting, QUEUE_LIMIT)
    ensures Pass(c, ev).t.queued == LastOf(Pass(c, ev).waiting, QUEUE_LIMIT)
  {
    match ev
    case Send(plain, now, d) =>
      EnqueueLast(c.waiting, plain);
    case Ensure(now, d) =>
    case TickAt(now, d) =>
    case GotResponse(m, now) => if Creates(c.t, ev) { ResponseForm(c.t, m, now); }
    case GotInitiation(m, now, d) =>
    case GotTransport(m, now) =>
  }

  /** The queue always holds the last at most QUEUE_LIMIT packets queued since its last flush
      or clear, in order. */
  lemma {:induction false} QueueHoldsLast(local: nat, peer: Term, evs: seq<Event>)
    ensures var c := Passed(local, peer, evs); c.t.queued == LastOf(c.waiting, QUEUE_LIMIT)
    decreases |evs|
  {
    if evs != [] {
      QueueHoldsLast(local, peer, evs[..|evs| - 1]);
      QueueKept(Passed(local, peer, evs[..|evs| - 1]), evs[|evs| - 1]);
    }
  }

  // ---- a silent peer ----

  datatype Beat = Beat(now: Time, d: Draw)

  /** Ticks and nothing else; the final tunnel and everything it sent. */
  function Ticks(t: Tunn, beats: seq<Beat>): (Tunn, seq<Wire>)
    decreases |beats|
  {
    if beats == [] then (t, []) else
    var (u, out) := Ticks(t, beats[..|beats| - 1]);
    var b := beats[|beats| - 1];
    var (u', out') := Tick(u, b.now, b.d);
    (u', out + out')
  }

  /** Nothing in flight, nothing to send on, nothing waiting. */
  predicate AtRest(t: Tunn) {
    t.pending.None? && t.current.None? && t.queued == []
  }

  /** An upper bound on the messages ticks alone can still cause. */
  function Budget(t: Tunn): nat {
    Retries(t) + (if t.needKeepalive && t.current.Some? then 1 else 0)
  }

  function Retries(t: Tunn): nat {
    if t.pending.Some? then Max(0, MAX_HANDSHAKE_ATTEMPTS - t.pending.value.attempts)
    else if t.queued != [] then MAX_HANDSHAKE_ATTEMPTS else 0
  }

  lemma TickSpends(t: Tunn, now: Time, d: Draw)
    ensures var (t', out) := Tick(t, now, d); |out| + Budget(t') <= Budget(t)
    ensures AtRest(t) ==> AtRest(Tick(t, now, d).0) && Tick(t, now, d).1 == []
  {
  }

  /** With a silent peer a tunnel sends at most `Budget` further messages, whenever its ticks
      come; and once at rest it stays at rest without a word. */
  lemma {:induction false} SilenceIsBounded(t: Tunn, beats: seq<Beat>)
    ensures var (t', out) := Ticks(t, beats); |out| + Budget(t') <= Budget(t)
    ensures AtRest(t) ==> AtRest(Ticks(t, beats).0) && Ticks(t, beats).1 == []
    decreases |beats|
  {
    if beats != [] {
      SilenceIsBounded(t, beats[..|beats| - 1]);
      var b := beats[|beats| - 1];
      TickSpends(Ticks(t, beats[..|beats| - 1]).0, b.now, b.d);
    }
  }

  /** Every tick comes at most `gap` after the one before it. */
  predicate Steady(clock: Time, beats: seq<Beat>, gap: nat)
    decreases |beats|
  {
    beats == [] ||
    (var n := |beats| - 1;
     Steady(clock, beats[..n], gap) && LastBeat(clock, beats[..n]) <= beats[n].now <= LastBeat(clock, beats[..n]) + gap)
  }

  function LastBeat(clock: Time, beats: seq<Beat>): Time {
    if beats == [] then clock else beats[|beats| - 1].now
  }

  /** When the remaining attempts are over, if the tunnel has no session at time `x`. */
  function RetriesOver(t: Tunn, x: Time, gap: nat): nat {
    if t.pending.Some? then
      Max(x, t.pending.value.sentAt + REKEY_TIMEOUT) + gap + Retries(t) * (REKEY_TIMEOUT + gap)
    else if t.queued != [] then x + gap + MAX_HANDSHAKE_ATTEMPTS * (REKEY_TIMEOUT + gap)
    else x
  }

  /** A time after which the tunnel is at rest, if only ticks come. */
  function RestBy(t: Tunn, clock: Time, gap: nat): nat {
    RetriesOver(t, if t.current.Some? then Max(clock, t.current.value.created + REJECT_AFTER_TIME) + gap else clock, gap)
  }

  lemma Times(a: nat, k: nat)
    ensures (a + 1) * k == a * k + k
  {
  }

  /** A call of `initiate_if_needed` without a session never moves the end of the retries out. */
  lemma RetryInTime(u: Tunn, x: Time, now: Time, gap: nat, d: Draw)
    requires u.current.None? && now <= x + gap && (u.pending.Some? || u.queued != [])
    ensures var t' := InitiateIfNeeded(u, now, d).0;
            t'.current.None? && (AtRest(t') || RetriesOver(t', now, gap) <= RetriesOver(u, x, gap))
  {
    var t' := InitiateIfNeeded(u, now, d).0;
    if t'.pending != u.pending && t'.pending.Some? {
      assert Retries(u) == Retries(t') + 1;
      Times(Retries(t'), REKEY_TIMEOUT + gap);
    }
  }

  lemma TickInTime(t: Tunn, clock: Time, b: Beat, gap: nat)
    requires clock <= b.now <= clock + gap
    ensures var t' := Tick(t, b.now, b.d).0; AtRest(t') || RestBy(t', b.now, gap) <= RestBy(t, clock, gap)
  {
    var t0 := t.(current := Live(t.current, b.now), previous := Live(t.previous, b.now));
    if t0.current.None? && (t0.pending.Some? || t0.queued != []) {
      var x := if t.current.Some? then Max(clock, t.current.value.created + REJECT_AFTER_TIME) + gap else clock;
      RetryInTime(t0, x, b.now, gap, b.d);
      assert Tick(t, b.now, b.d).0 == InitiateIfNeeded(t0, b.now, b.d).0;
    }
  }

  /** At rest, or sure to be at rest once the clock passes `bound`. */
  predicate Ending(t: Tunn, clock: Time, gap: nat, bound: nat) {
    AtRest(t) || clock <= RestBy(t, clock, gap) <= bound
  }

  lemma EndingKept(t: Tunn, clock: Time, b: Beat, gap: nat, bound: nat)
    requires Ending(t, clock, gap, bound) && clock <= b.now <= clock + gap
    ensures Ending(Tick(t, b.now, b.d).0, b.now, gap, bound)
  {
    if AtRest(t) {
      TickSpends(t, b.now, b.d);
    } else {
      TickInTime(t, clock, b, gap);
      NotBefore(Tick(t, b.now, b.d).0, b.now, gap);
    }
  }

  lemma NotBefore(t: Tunn, clock: Time, gap: nat)
    ensures clock <= RestBy(t, clock, gap)
  {
  }

  lemma {:induction false} SilenceBound(t: Tunn, clock: Time, beats: seq<Beat>, gap: nat)
    requires Steady(clock, beats, gap)
    ensures Ending(Ticks(t, beats).0, LastBeat(clock, beats), gap, RestBy(t, clock, gap))
    decreases |beats|
  {
    if beats == [] {
      NotBefore(t, clock, gap);
    } else {
      var n := |beats| - 1;
      SilenceBound(t, clock, beats[..n], gap);
      EndingKept(Ticks(t, beats[..n]).0, LastBeat(clock, beats[..n]), beats[n], gap, RestBy(t, clock, gap));
    }
  }

  /** With a silent peer and ticks at most `gap` apart, the tunnel is at rest (no attempt in
      flight, no session, an empty queue) once the clock has passed `RestBy`; and at rest it
      sends nothing (SilenceIsBounded). */
  lemma SilenceEnds(t: Tunn, clock: Time, beats: seq<Beat>, gap: nat)
    requires Steady(clock, beats, gap) && LastBeat(clock, beats) > RestBy(t, clock, gap)
    ensures AtRest(Ticks(t, beats).0)
  {
    SilenceBound(t, clock, beats, gap);
  }
}
