/** When a tunnel sends what: sealing, rekeying, retrying, giving up and keepalives, each as an
    if-and-only-if over times in milliseconds and what was sent and heard before. */
module TunnelSteps {
  import opened Common
  import opened Noise
  import opened TunnelSpec
  import opened TunnelRuns
  import Handshake
  import Replay

  /** A session is usable for 180 s. */
  predicate Usable(s: Option<Session>, now: Time) {
    s.Some? && now < s.value.created + 180_000
  }

  /** An initiation may go out now: none is pending, or the pending one is 5 s old and was not the 18th. */
  predicate MayInitiate(p: Option<Pending>, now: Time) {
    p.Some? ==> now >= p.value.sentAt + 5_000 && p.value.attempts < 18
  }

  /** The 18th attempt has had its 5 s. */
  predicate Exhausted(p: Option<Pending>, now: Time) {
    p.Some? && now >= p.value.sentAt + 5_000 && p.value.attempts >= 18
  }

  /** The pending initiation after a new one at `now`. */
  predicate Renewed(before: Option<Pending>, after: Option<Pending>, now: Time, d: Draw) {
    && after.Some? && after.value.sentAt == now && after.value.localIndex == d.index && after.value.ephemeral == d.ephemeral
    && after.value.attempts == if before.Some? then before.value.attempts + 1 else 1
  }

  /** Without a session: one initiation if it may, the queue cleared and the attempt given up if it was the
      last, and nothing otherwise. With one: nothing. */
  lemma InitiateExact(t: Tunn, now: Time, d: Draw)
    ensures var (t', out) := InitiateIfNeeded(t, now, d);
            if t.current.None? && MayInitiate(t.pending, now) then
              out == [Initiate(t.local, t.peer, d).0] && t' == t.(pending := t'.pending) && Renewed(t.pending, t'.pending, now, d)
            else if t.current.None? && Exhausted(t.pending, now) then out == [] && t' == t.(pending := None, queued := [])
            else out == [] && t' == t
  {
  }

  /** A packet to send is sealed at once, under the next counter, exactly when there is a usable session. The
      initiator's session is then renewed from 120 s or 2^60 messages on, unless that is under way. Without
      a usable session the packet joins the queue, the oldest of eight leaving it, and an initiation goes
      out if it may. */
  lemma SendExact(t: Tunn, plain: Bytes, now: Time, d: Draw)
    ensures var (t', out) := Encapsulate(t, plain, now, d);
            if Usable(t.current, now) then
              var s := t.current.value;
              var due := s.isInitiator && (now >= s.created + 120_000 || s.sendCounter + 1 >= 0x1000_0000_0000_0000) && t.pending.None?;
              && out == [Transport(s.remoteIndex, s.sendCounter, Sealed(s.sendKey, s.sendCounter, Raw(Padded(plain)), Raw([])))]
                        + (if due then [Initiate(t.local, t.peer, d).0] else [])
              && t' == t.(current := Some(s.(sendCounter := s.sendCounter + 1)), lastSent := Some(now), needKeepalive := false, pending := t'.pending)
              && (if due then Renewed(None, t'.pending, now, d) else t'.pending == t.pending)
            else
              && t'.current.None? && out == (if MayInitiate(t.pending, now) then [Initiate(t.local, t.peer, d).0] else [])
              && t'.queued == if Exhausted(t.pending, now) then [] else (if |t.queued| >= 8 then t.queued[1..] else t.queued) + [plain]
  {
    if t.current.None? || Expired(t.current.value, now) {
      InitiateExact(t.(current := None, queued := Enqueue(t.queued, plain)), now, d);
    } else {
      assert Usable(t.current, now);
    }
  }

  // ---- receiving ----

  /** The message opens under the session its index addresses, which is usable, with a counter not yet taken. */
  ghost predicate Takes(t: Tunn, m: Wire, now: Time, plain: Bytes) {
    && m.Transport? && SlotOf(t, m.receiver) != Nowhere
    && var s := Addressed(t, m.receiver);
       Usable(Some(s), now) && m.body == Sealed(s.recvKey, m.counter, Raw(plain), Raw([])) && Replay.Fresh(s.replay, m.counter)
  }

  lemma TakesOne(t: Tunn, m: Wire, now: Time, a: Bytes, b: Bytes)
    requires Takes(t, m, now, a) && Takes(t, m, now, b)
    ensures a == b
  {
  }

  /** A transport message is taken exactly then, and its plaintext handed on without padding, unless it is
      empty. A message for the current session ends the previous one. Any other changes nothing. */
  lemma TransportExact(t: Tunn, m: Wire, now: Time, plain: Bytes)
    ensures var (t', r) := ConsumeTransport(t, m, now);
            && (Takes(t, m, now, plain) ==>
                  var s := Addressed(t, m.receiver);
                  var s' := s.(replay := Replay.Note(s.replay, m.counter), confirmed := true);
                  var current := SlotOf(t, m.receiver) == InCurrent;
                  && r == Ok(if plain == [] then None else Some(Trimmed(plain)))
                  && t' == t.(current := if current then Some(s') else t.current, previous := if current then None else Some(s'),
                              lastReceived := Some(now), needKeepalive := t.needKeepalive || plain != []))
            && (r.Ok? ==> exists p :: Takes(t, m, now, p))
            && (r.Err? ==> t' == t)
  {
    if ConsumeTransport(t, m, now).1.Ok? {
      OpensFresh(t, m, now);
      assert Takes(t, m, now, Opens(t, GotTransport(m, now))[0].padded);
    }
  }

  /** The addressed session: the current one if the index is its, else the previous one if it is its. */
  lemma SlotExact(t: Tunn, index: nat)
    ensures SlotOf(t, index) == InCurrent <==> t.current.Some? && t.current.value.localIndex == index
    ensures SlotOf(t, index) == Nowhere <==> (t.current.Some? ==> t.current.value.localIndex != index) && (t.previous.Some? ==> t.previous.value.localIndex != index)
    ensures SlotOf(t, index) == InCurrent ==> Addressed(t, index) == t.current.value
    ensures SlotOf(t, index) == InPrevious ==> t.previous.Some? && Addressed(t, index) == t.previous.value && t.previous.value.localIndex == index
  {
  }

  // ---- ticks ----

  predicate IsKeepalive(m: Wire, s: Session) {
    m == Transport(s.remoteIndex, s.sendCounter, Sealed(s.sendKey, s.sendCounter, Raw([]), Raw([])))
  }

  /** Something was heard that asked for an answer, less than 20 s ago, and nothing sent for 10 s. */
  predicate Owes(t: Tunn, now: Time) {
    && t.needKeepalive && t.lastReceived.Some? && now < t.lastReceived.value + 20_000
    && (t.lastSent.Some? ==> now >= t.lastSent.value + 10_000)
  }

  /** A tick drops sessions past their 180 s; retries, or gives up, when an initiation is pending or packets wait
      without a session; and sends an empty message when one is owed and there is a session. */
  lemma TickExact(t: Tunn, now: Time, d: Draw)
    ensures var (t', out) := Tick(t, now, d);
            var usable := Usable(t.current, now);
            && (t'.current.Some? <==> usable)
            && t'.previous == (if Usable(t.previous, now) then t.previous else None)
            && (usable && Owes(t, now) ==>
                  && |out| == 1 && IsKeepalive(out[0], t.current.value) && t'.pending == t.pending && t'.queued == t.queued
                  && t'.current == Some(t.current.value.(sendCounter := t.current.value.sendCounter + 1))
                  && t'.lastSent == Some(now) && !t'.needKeepalive)
            && (usable && !Owes(t, now) ==> out == [] && t' == t.(previous := t'.previous))
            && (!usable && (t.pending.Some? || t.queued != []) && MayInitiate(t.pending, now) ==>
                  out == [Initiate(t.local, t.peer, d).0] && Renewed(t.pending, t'.pending, now, d) && t'.queued == t.queued)
            && (!usable && Exhausted(t.pending, now) ==> out == [] && t'.pending.None? && t'.queued == [])
            && (!usable && !Exhausted(t.pending, now) && !((t.pending.Some? || t.queued != []) && MayInitiate(t.pending, now)) ==>
                  out == [] && t'.pending == t.pending && t'.queued == t.queued)
  {
    var t0 := t.(current := Live(t.current, now), previous := Live(t.previous, now));
    InitiateExact(t0, now, d);
    assert Padded([]) == [];
  }

  // ---- keepalives over runs ----

  /** What the tunnel's owner can see: when it last sent and last heard a transport message, and if a packet
      heard has not been followed by anything sent, other than by a flush. */
  datatype Ear = Ear(sent: Option<Time>, heard: Option<Time>, owed: bool)

  predicate SendsData(t: Tunn, ev: Event) {
    Bodies(Step(t, ev).1) != []
  }

  function Hear(e: Ear, t: Tunn, ev: Event): Ear {
    var got := Opens(t, ev);
    Ear(if SendsData(t, ev) then Some(ev.now) else e.sent,
        if got != [] then Some(ev.now) else e.heard,
        if got != [] && got[0].padded != [] then true
        else if SendsData(t, ev) && (ev.Send? || ev.TickAt?) then false else e.owed)
  }

  function Listened(local: nat, peer: Term, evs: seq<Event>): Ear
    decreases |evs|
  {
    if evs == [] then Ear(None, None, false) else
    Hear(Listened(local, peer, evs[..|evs| - 1]), Run(Begin(local, peer), evs[..|evs| - 1]).t, evs[|evs| - 1])
  }

  function EarOf(t: Tunn): Ear {
    Ear(t.lastSent, t.lastReceived, t.needKeepalive)
  }

  lemma HearStep(t: Tunn, ev: Event)
    ensures EarOf(Step(t, ev).0) == Hear(EarOf(t), t, ev)
  {
    OutIsSeals(t, ev);
    match ev
    case Send(plain, now, d) => SendExact(t, plain, now, d); HearSend(t, plain, now, d);
    case Ensure(now, d) => InitiateExact(t, now, d);
    case TickAt(now, d) => TickExact(t, now, d); HearTick(t, now, d);
    case GotInitiation(m, now, d) =>
    case GotResponse(m, now) => if Creates(t, ev) { HearResponse(t, m, now); }
    case GotTransport(m, now) => HearTransport(t, m, now);
  }

  lemma HearSend(t: Tunn, plain: Bytes, now: Time, d: Draw)
    ensures EarOf(Encapsulate(t, plain, now, d).0) == if Usable(t.current, now) then Ear(Some(now), t.lastReceived, false) else EarOf(t)
    ensures Seals(t, Send(plain, now, d)) != [] <==> Usable(t.current, now)
  {
    InitiateExact(t.(current := None, queued := Enqueue(t.queued, plain)), now, d);
  }

  lemma HearTick(t: Tunn, now: Time, d: Draw)
    ensures EarOf(Tick(t, now, d).0) == if Usable(t.current, now) && Owes(t, now) then Ear(Some(now), t.lastReceived, false) else EarOf(t)
    ensures Seals(t, TickAt(now, d)) != [] <==> Usable(t.current, now) && Owes(t, now)
  {
    InitiateExact(t.(current := Live(t.current, now), previous := Live(t.previous, now)), now, d);
  }

  lemma HearResponse(t: Tunn, m: Wire, now: Time)
    requires ConsumeResponse(t, m, now).1.Ok?
    ensures EarOf(ConsumeResponse(t, m, now).0) == Ear(if t.queued == [] then t.lastSent else Some(now), t.lastReceived, t.needKeepalive)
    ensures Seals(t, GotResponse(m, now)) != [] <==> t.queued != []
  {
    ResponseForm(t, m, now);
    Handshake.SealAllKeeps(Installed(t, m, now), t.queued);
  }

  lemma HearTransport(t: Tunn, m: Wire, now: Time)
    ensures EarOf(ConsumeTransport(t, m, now).0) == Hear(EarOf(t), t, GotTransport(m, now))
  {
    if ConsumeTransport(t, m, now).1.Ok? { OpensFresh(t, m, now); }
  }

  lemma {:induction false} EarIsHistory(local: nat, peer: Term, evs: seq<Event>)
    ensures EarOf(Run(Begin(local, peer), evs).t) == Listened(local, peer, evs)
    decreases |evs|
  {
    if evs != [] {
      EarIsHistory(local, peer, evs[..|evs| - 1]);
      HearStep(Run(Begin(local, peer), evs[..|evs| - 1]).t, evs[|evs| - 1]);
    }
  }

  /** In every run a tick sends an empty message if and only if there is a session younger than 180 s, a packet
      was heard since anything but a flush was sent, the last message was heard less than 20 s ago, and none
      was sent in the last 10 s. */
  lemma KeepaliveIff(local: nat, peer: Term, evs: seq<Event>, now: Time, d: Draw)
    ensures var t := Run(Begin(local, peer), evs).t; var e := Listened(local, peer, evs);
            SendsData(t, TickAt(now, d)) <==>
            Usable(t.current, now) && e.owed && e.heard.Some? && now < e.heard.value + 20_000 && (e.sent.Some? ==> now >= e.sent.value + 10_000)
  {
    EarIsHistory(local, peer, evs);
    var t := Run(Begin(local, peer), evs).t;
    OutIsSeals(t, TickAt(now, d));
    HearTick(t, now, d);
  }
}
