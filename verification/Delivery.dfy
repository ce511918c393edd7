/** Two tunnels joined by a network that drops, duplicates, delays, reorders and reflects messages,
    takes them apart and makes up its own: what comes out of one end is what the other end put in,
    at most once. */
module Delivery {
  import opened Common
  import opened Noise
  import opened TunnelSpec
  import opened TunnelRuns
  import opened Outsider
  import opened IpBytes
  import Handshake

  datatype Side = Left | Right

  /** Both ends, and every message either has ever sent. */
  datatype World = World(left: End, right: End, net: seq<Wire>)

  function EndOf(w: World, side: Side): End {
    if side == Left then w.left else w.right
  }

  function Other(side: Side): Side {
    if side == Left then Right else Left
  }

  datatype Move = Move(side: Side, ev: Event)

  predicate Receives(ev: Event) {
    ev.GotInitiation? || ev.GotResponse? || ev.GotTransport?
  }

  /** Any event at either end; a message received is any that an outsider could send who has seen
      everything sent so far. It may be one that some end sent, once more, late, or to that end itself
      (`Outsider.ReplayCanSend`). */
  ghost predicate Allowed(w: World, mv: Move) {
    Enabled(EndOf(w, mv.side), mv.ev) && (Receives(mv.ev) ==> CanSend(w.net, w.left.t.local, w.right.t.local, mv.ev.m))
  }

  function Next(w: World, mv: Move): World {
    var out := Step(EndOf(w, mv.side).t, mv.ev).1;
    if mv.side == Left then World(Advance(w.left, mv.ev), w.right, w.net + out)
    else World(w.left, Advance(w.right, mv.ev), w.net + out)
  }

  function Launch(l: nat, r: nat): World {
    World(Begin(l, Pub(r)), Begin(r, Pub(l)), [])
  }

  function After(l: nat, r: nat, mvs: seq<Move>): World
    decreases |mvs|
  {
    if mvs == [] then Launch(l, r) else Next(After(l, r, mvs[..|mvs| - 1]), mvs[|mvs| - 1])
  }

  ghost predicate Possible(l: nat, r: nat, mvs: seq<Move>)
    decreases |mvs|
  {
    mvs == [] || (Possible(l, r, mvs[..|mvs| - 1]) && Allowed(After(l, r, mvs[..|mvs| - 1]), mvs[|mvs| - 1]))
  }

  // ---- whose key is it ----

  /** A send key an end with these statics can have: as initiator, or as responder. */
  predicate SendKeyOf(k: Term, local: nat, peer: Term) {
    && k.Hkdf? && k.ikm == EMPTY
    && ((k.output == 1 && InitiatorEphemeral(k).Pub? && EphemeralStatic(k) == X25519(InitiatorEphemeral(k).secret, peer))
        || (k.output == 2 && EphemeralStatic(k) == X25519(local, InitiatorEphemeral(k))))
  }

  /** What an end sends under, it never receives under: a reflected message does not open. */
  lemma NotOurs(s: Session, k: Term, local: nat, peer: nat)
    requires local != peer && Made(s, local, Pub(peer)) && SendKeyOf(k, local, Pub(peer))
    ensures s.recvKey != k
  {
    if s.recvKey == k {
      var e := InitiatorEphemeral(k);
      assert Up(s.sendKey) == Up(k);
      assert X25519(local, e) == X25519(e.secret, Pub(peer));
      DhCommutes(local, e.secret);
      DhInjective(e.secret, Pub(local), Pub(peer));
      assert false;
    }
  }

  /** The key of the opposite direction. */
  function Sibling(k: Term): Term {
    if k.Hkdf? then Hkdf(k.ck, k.ikm, if k.output == 1 then 2 else 1) else k
  }

  /** Two live sessions, one at each end, that share a key in one direction share both,
      with opposite roles. */
  lemma SessionsMatch(a: Session, b: Session, l: nat, r: nat)
    requires Made(a, l, Pub(r)) && Made(b, r, Pub(l)) && a.recvKey == b.sendKey
    ensures a.sendKey == b.recvKey == Sibling(b.sendKey) && a.isInitiator != b.isInitiator
  {
  }

  // ---- invariant ----

  ghost predicate From(x: End, body: Term) {
    exists i :: 0 <= i < |x.sealed| && body == Body(x.sealed[i])
  }

  ghost predicate Genuine(w: World, m: Wire) {
    m.Transport? ==> From(w.left, m.body) || From(w.right, m.body)
  }

  /** One message opened at an end: the other end sealed it under the same key and counter. */
  ghost predicate Matched(g: Got, y: End) {
    exists i :: 0 <= i < |y.sealed| && Matches(g, y.sealed[i])
  }

  predicate Matches(g: Got, p: Packet) {
    && p.key == g.key && p.counter == g.counter && g.padded == Padded(p.plain)
    && g.ip == if g.padded == [] then None else Some(Trimmed(g.padded))
  }

  ghost predicate EndInv(x: End, local: nat, peer: Term) {
    && KeysInv(x) && LogInv(x) && OpenInv(x) && Conserved(x) && x.t.local == local && x.t.peer == peer
    && (forall i :: 0 <= i < |x.sealed| ==> SendKeyOf(x.sealed[i].key, local, peer) && KeepaliveOk(x.sealed[i]))
  }

  predicate KeepaliveOk(p: Packet) {
    p.keepalive ==> p.plain == []
  }

  ghost predicate Inv(w: World, l: nat, r: nat) {
    && EndInv(w.left, l, Pub(r)) && EndInv(w.right, r, Pub(l))
    && (forall i :: 0 <= i < |w.net| ==> Genuine(w, w.net[i]) && Plain(w.net[i]))
    && (forall i :: 0 <= i < |w.left.got| ==> Matched(w.left.got[i], w.right))
    && (forall i :: 0 <= i < |w.right.got| ==> Matched(w.right.got[i], w.left))
  }

  lemma SealedGrows(x: End, ev: Event, body: Term)
    requires From(x, body)
    ensures From(Advance(x, ev), body)
  {
    var i :| 0 <= i < |x.sealed| && body == Body(x.sealed[i]);
    assert Advance(x, ev).sealed[i] == x.sealed[i];
  }

  lemma MatchedGrows(g: Got, y: End, ev: Event)
    requires Matched(g, y)
    ensures Matched(g, Advance(y, ev))
  {
    var i :| 0 <= i < |y.sealed| && Matches(g, y.sealed[i]);
    assert Advance(y, ev).sealed[i] == y.sealed[i];
  }

  lemma EndKept(x: End, ev: Event, local: nat, peer: Term)
    requires EndInv(x, local, peer) && Enabled(x, ev)
    ensures EndInv(Advance(x, ev), local, peer)
  {
    KeysKept(x, ev);
    LogKept(x, ev);
    OpenKept(x, ev);
    ConserveStep(x, ev);
    StaticsKept(x, ev);
    SealedOk(x, ev, local, peer);
  }

  lemma SealedOk(x: End, ev: Event, local: nat, peer: Term)
    requires KeysInv(x) && Enabled(x, ev) && x.t.local == local && x.t.peer == peer
    ensures forall i :: 0 <= i < |Seals(x.t, ev)| ==> SendKeyOf(Seals(x.t, ev)[i].key, local, peer) && KeepaliveOk(Seals(x.t, ev)[i])
  {
    KeysKept(x, ev);
    SealsCurrent(x, ev);
    StaticsKept(x, ev);
    if Seals(x.t, ev) != [] { assert Made(Advance(x, ev).t.current.value, local, peer); }
  }

  lemma StaticsKept(x: End, ev: Event)
    requires KeysInv(x)
    ensures Advance(x, ev).t.local == x.t.local && Advance(x, ev).t.peer == x.t.peer
  {
    if Creates(x.t, ev) {
      if ev.GotResponse? { ResponseMakes(x, ev); } else { InitiationMakes(x, ev); }
    } else {
      QuietStep(x.t, ev);
    }
  }

  lemma {:induction false} BodyListed(out: seq<Wire>, i: nat)
    requires i < |out| && out[i].Transport?
    ensures exists j :: 0 <= j < |Bodies(out)| && Bodies(out)[j] == out[i].body
  {
    var n := |out| - 1;
    if i < n {
      BodyListed(out[..n], i);
      var j :| 0 <= j < |Bodies(out[..n])| && Bodies(out[..n])[j] == out[i].body;
      assert Bodies(out)[j] == out[i].body;
    } else {
      assert Bodies(out)[|Bodies(out[..n])|] == out[n].body;
    }
  }

  /** Every transport message an event sends is sealed by that end. */
  lemma SentIsSealed(x: End, ev: Event, i: nat)
    requires i < |Step(x.t, ev).1| && Step(x.t, ev).1[i].Transport?
    ensures From(Advance(x, ev), Step(x.t, ev).1[i].body)
  {
    OutIsSeals(x.t, ev);
    var j := SealedAt(Step(x.t, ev).1, Seals(x.t, ev), i);
    assert Advance(x, ev).sealed[|x.sealed| + j] == Seals(x.t, ev)[j];
  }

  lemma SealedAt(out: seq<Wire>, ps: seq<Packet>, i: nat) returns (j: nat)
    requires Bodies(out) == seq(|ps|, k requires 0 <= k < |ps| => Body(ps[k]))
    requires i < |out| && out[i].Transport?
    ensures j < |ps| && out[i].body == Body(ps[j])
  {
    BodyListed(out, i);
    j :| 0 <= j < |Bodies(out)| && Bodies(out)[j] == out[i].body;
  }

  // ---- what the ends show ----

  lemma InitiationPlain(t: Tunn, now: Time, d: Draw)
    ensures Plain(NewInitiation(t, now, d).1)
  {
  }

  lemma SendPlain(t: Tunn, plain: Bytes, now: Time, d: Draw)
    ensures forall m <- Encapsulate(t, plain, now, d).1 :: Plain(m)
  {
    InitiationPlain(t.(current := None, queued := Enqueue(t.queued, plain)), now, d);
    if t.current.Some? {
      InitiationPlain(t.(current := Some(Seal(t.current.value, plain).0), lastSent := Some(now), needKeepalive := false), now, d);
    }
  }

  lemma InitiatePlain(t: Tunn, now: Time, d: Draw)
    ensures forall m <- InitiateIfNeeded(t, now, d).1 :: Plain(m)
  {
    InitiationPlain(t, now, d);
  }

  lemma TickPlain(t: Tunn, now: Time, d: Draw)
    ensures forall m <- Tick(t, now, d).1 :: Plain(m)
  {
    InitiatePlain(t.(current := Live(t.current, now), previous := Live(t.previous, now)), now, d);
  }

  lemma FlushPlain(t: Tunn, m: Wire, now: Time)
    ensures forall x <- Step(t, GotResponse(m, now)).1 :: Plain(x)
  {
    if ConsumeResponse(t, m, now).1.Ok? {
      ResponseForm(t, m, now);
      Handshake.SealAllKeeps(Installed(t, m, now), t.queued);
    }
  }

  lemma AcceptPlain(t: Tunn, ci: Consumed, now: Time, d: Draw)
    ensures var r := AcceptInitiation(t, ci, now, d).1; r.Ok? ==> Plain(r.value)
  {
  }

  lemma OutPlain(t: Tunn, ev: Event)
    ensures forall m <- Step(t, ev).1 :: Plain(m)
  {
    match ev
    case Send(plain, now, d) => SendPlain(t, plain, now, d);
    case Ensure(now, d) => InitiatePlain(t, now, d);
    case TickAt(now, d) => TickPlain(t, now, d);
    case GotInitiation(m, now, d) =>
      var r := ConsumeInitiation(t.local, m);
      if r.Ok? { AcceptPlain(t, r.value, now, d); }
    case GotResponse(m, now) => FlushPlain(t, m, now);
    case GotTransport(m, now) =>
  }

  lemma NetKept(w: World, mv: Move, i: nat)
    requires i < |Next(w, mv).net|
    requires forall j :: 0 <= j < |w.net| ==> Genuine(w, w.net[j]) && Plain(w.net[j])
    ensures Genuine(Next(w, mv), Next(w, mv).net[i]) && Plain(Next(w, mv).net[i])
  {
    var m := Next(w, mv).net[i];
    var x := EndOf(w, mv.side);
    OutPlain(x.t, mv.ev);
    if i < |w.net| {
      assert Genuine(w, w.net[i]);
      if m.Transport? && From(x, m.body) { SealedGrows(x, mv.ev, m.body); }
    } else {
      assert m == Step(x.t, mv.ev).1[i - |w.net|];
      if m.Transport? { SentIsSealed(x, mv.ev, i - |w.net|); }
    }
  }

  /** The static secret has entered every session key. */
  lemma SessionGuarded(s: Session, local: nat, peer: Term)
    requires Made(s, local, peer)
    ensures Guarded(s.recvKey, X25519(local, peer))
  {
    var secret := X25519(local, peer);
    var k := s.recvKey;
    assert Up(k) == Up(s.sendKey);
    assert Guarded(Up(Up(Up3(k))), secret);
    GuardedUp(Up(Up3(k)), secret);
    GuardedUp(Up3(k), secret);
    GuardedUp(Up(Up(k)), secret);
    GuardedUp(Up(k), secret);
    GuardedUp(k, secret);
  }

  lemma GuardedUp(k: Term, secret: Term)
    requires Guarded(Up(k), secret)
    ensures Guarded(k, secret)
  {
  }

  /** What an end opens, the other end sealed. */
  lemma OpensTheirs(x: End, y: End, ev: Event, local: nat, peer: nat)
    requires local != peer && KeysInv(x) && x.t.local == local && x.t.peer == Pub(peer)
    requires forall i :: 0 <= i < |x.sealed| ==> SendKeyOf(x.sealed[i].key, local, Pub(peer))
    requires ev.GotTransport? && Opens(x.t, ev) != []
    requires From(x, ev.m.body) || From(y, ev.m.body)
    ensures |Opens(x.t, ev)| == 1 && Matched(Opens(x.t, ev)[0], y)
  {
    OpensFresh(x.t, ev.m, ev.now);
    var s := Addressed(x.t, ev.m.receiver);
    var g := Opens(x.t, ev)[0];
    forall i | 0 <= i < |x.sealed| ensures ev.m.body != Body(x.sealed[i]) {
      NotOurs(s, x.sealed[i].key, local, peer);
    }
    var i :| 0 <= i < |y.sealed| && ev.m.body == Body(y.sealed[i]);
    assert Matches(g, y.sealed[i]);
  }

  /** A message that opens shows a ciphertext under a guarded key, so some end sealed it. */
  lemma OpenedWasSent(w: World, l: nat, r: nat, mv: Move)
    requires Inv(w, l, r) && Allowed(w, mv) && mv.ev.GotTransport? && Opens(EndOf(w, mv.side).t, mv.ev) != []
    ensures From(w.left, mv.ev.m.body) || From(w.right, mv.ev.m.body)
  {
    var t := EndOf(w, mv.side).t;
    var m := mv.ev.m;
    OpensFresh(t, m, mv.ev.now);
    SessionGuarded(Addressed(t, m.receiver), t.local, t.peer);
    DhCommutes(l, r);
    PlainIsDiscreet(w.net, X25519(l, Pub(r)));
    assert m.body in Fields(m);
    GuardedWasShown(w.net, l, r, m, m.body);
    var i := BodyShown(w.net, m.body);
    assert Genuine(w, w.net[i]);
  }

  lemma GotKept(x: End, y: End, ev: Event, local: nat, peer: nat)
    requires local != peer && KeysInv(x) && x.t.local == local && x.t.peer == Pub(peer)
    requires forall i :: 0 <= i < |x.sealed| ==> SendKeyOf(x.sealed[i].key, local, Pub(peer))
    requires Opens(x.t, ev) != [] ==> ev.GotTransport? && (From(x, ev.m.body) || From(y, ev.m.body))
    requires forall i :: 0 <= i < |x.got| ==> Matched(x.got[i], y)
    ensures forall i :: 0 <= i < |Advance(x, ev).got| ==> Matched(Advance(x, ev).got[i], y)
  {
    if Opens(x.t, ev) != [] { OpensTheirs(x, y, ev, local, peer); }
  }

  lemma MatchesKept(w: World, l: nat, r: nat, mv: Move)
    requires l != r && Inv(w, l, r) && Allowed(w, mv)
    ensures var w' := Next(w, mv);
            && (forall i :: 0 <= i < |w'.left.got| ==> Matched(w'.left.got[i], w'.right))
            && (forall i :: 0 <= i < |w'.right.got| ==> Matched(w'.right.got[i], w'.left))
  {
    if Opens(EndOf(w, mv.side).t, mv.ev) != [] { OpenedWasSent(w, l, r, mv); }
    if mv.side == Left {
      GotKept(w.left, w.right, mv.ev, l, r);
      forall i | 0 <= i < |w.right.got| ensures Matched(w.right.got[i], Advance(w.left, mv.ev)) {
        MatchedGrows(w.right.got[i], w.left, mv.ev);
      }
    } else {
      GotKept(w.right, w.left, mv.ev, r, l);
      forall i | 0 <= i < |w.left.got| ensures Matched(w.left.got[i], Advance(w.right, mv.ev)) {
        MatchedGrows(w.left.got[i], w.right, mv.ev);
      }
    }
  }

  lemma EndsKept(w: World, l: nat, r: nat, mv: Move)
    requires EndInv(w.left, l, Pub(r)) && EndInv(w.right, r, Pub(l)) && Allowed(w, mv)
    ensures EndInv(Next(w, mv).left, l, Pub(r)) && EndInv(Next(w, mv).right, r, Pub(l))
  {
    if mv.side == Left { EndKept(w.left, mv.ev, l, Pub(r)); } else { EndKept(w.right, mv.ev, r, Pub(l)); }
  }

  lemma InvKept(w: World, l: nat, r: nat, mv: Move)
    requires l != r && Inv(w, l, r) && Allowed(w, mv)
    ensures Inv(Next(w, mv), l, r)
  {
    EndsKept(w, l, r, mv);
    forall i | 0 <= i < |Next(w, mv).net| ensures Genuine(Next(w, mv), Next(w, mv).net[i]) && Plain(Next(w, mv).net[i]) { NetKept(w, mv, i); }
    MatchesKept(w, l, r, mv);
  }

  lemma {:induction false} RunInv(l: nat, r: nat, mvs: seq<Move>)
    requires l != r && Possible(l, r, mvs)
    ensures Inv(After(l, r, mvs), l, r)
    decreases |mvs|
  {
    if mvs == [] {
      assert Conserved(Begin(l, Pub(r))) && Conserved(Begin(r, Pub(l)));
    } else {
      RunInv(l, r, mvs[..|mvs| - 1]);
      InvKept(After(l, r, mvs[..|mvs| - 1]), l, r, mvs[|mvs| - 1]);
    }
  }

  // ---- theorems ----

  /** A packet that is as long as its header bytes say. */
  predicate WellFormed(p: Bytes) {
    LengthIs(p, |p|)
  }

  /** Padding adds the fewest zeros that make the length a multiple of 16. */
  lemma PadLeast(p: Bytes)
    ensures p <= Padded(p) && |Padded(p)| % 16 == 0 && |Padded(p)| < |p| + 16
    ensures forall i :: |p| <= i < |Padded(p)| ==> Padded(p)[i] == 0
  {
  }

  /** What is handed on is what the header bytes cover, when all of it is there; everything otherwise. */
  lemma TrimExact(p: Bytes, n: nat)
    ensures LengthIs(p, n) && n <= |p| ==> Trimmed(p) == p[..n]
    ensures LengthIs(p, n) && n > |p| ==> Trimmed(p) == p
    ensures !IsV4(p) && !IsV6(p) ==> Trimmed(p) == p
  {
    LengthRead(p, n);
  }

  /** Padding never changes what the header says, and trimming removes it exactly: for every IPv4 packet
      whose bytes 2 and 3 hold its length, and every IPv6 packet whose bytes 4 and 5 hold its payload's. */
  lemma TrimUndoesPad(p: Bytes)
    requires || (|p| >= 20 && p[0] / 16 == 4 && 256 * (p[2] as int) + p[3] as int == |p|)
             || (|p| >= 40 && p[0] / 16 == 6 && 40 + 256 * (p[4] as int) + p[5] as int == |p|)
    ensures WellFormed(p) && Trimmed(Padded(p)) == p
  {
    PadLeast(p);
    var q := Padded(p);
    assert q[..|p|] == p;
    assert forall i :: 0 <= i < |p| ==> q[i] == p[i];
    TrimExact(q, |p|);
  }

  /** Everything an end opened, the other end sealed under the mirrored session's key and the
      same counter; the packet handed on is that plaintext without its padding, byte for byte
      when its header gives its size; and nothing is opened twice. */
  lemma DeliveredWasSealed(l: nat, r: nat, mvs: seq<Move>, side: Side, n: nat)
    requires l != r && Possible(l, r, mvs)
    requires n < |EndOf(After(l, r, mvs), side).got|
    ensures var w := After(l, r, mvs); var x := EndOf(w, side); var y := EndOf(w, Other(side)); var g := x.got[n];
            && (exists i :: 0 <= i < |y.sealed| && Matches(g, y.sealed[i])
                  && (WellFormed(y.sealed[i].plain) ==> g.ip == Some(y.sealed[i].plain)))
            && (forall m :: 0 <= m < |x.got| && m != n ==> (x.got[m].key, x.got[m].counter) != (g.key, g.counter))
  {
    RunInv(l, r, mvs);
    var w := After(l, r, mvs);
    var x := EndOf(w, side);
    var y := EndOf(w, Other(side));
    var g := x.got[n];
    assert Matched(g, y);
    var i :| 0 <= i < |y.sealed| && Matches(g, y.sealed[i]);
    if WellFormed(y.sealed[i].plain) { TrimUndoesPad(y.sealed[i].plain); }
  }

  /** IP packets handed on, in order. */
  function Delivered(got: seq<Got>): seq<Bytes> {
    if got == [] then [] else
    var n := |got| - 1;
    Delivered(got[..n]) + (if got[n].ip.Some? then [got[n].ip.value] else [])
  }

  /** When every packet offered at one end is as long as its header says, the packets delivered
      at the other end are, counted with multiplicity, among those offered: none is altered,
      invented or delivered more often than it was offered. */
  lemma DeliveredAmongOffered(l: nat, r: nat, mvs: seq<Move>, side: Side)
    requires l != r && Possible(l, r, mvs)
    requires forall p <- EndOf(After(l, r, mvs), Other(side)).offered :: WellFormed(p)
    ensures var w := After(l, r, mvs);
            multiset(Delivered(EndOf(w, side).got)) <= multiset(EndOf(w, Other(side)).offered)
  {
    RunInv(l, r, mvs);
    var w := After(l, r, mvs);
    if side == Left { Among(w.left, w.right); } else { Among(w.right, w.left); }
  }

  lemma Among(x: End, y: End)
    requires Conserved(y) && forall p <- y.offered :: WellFormed(p)
    requires forall i :: 0 <= i < |x.got| ==> Matched(x.got[i], y)
    requires Distinct(x.got)
    requires forall i :: 0 <= i < |y.sealed| ==> KeepaliveOk(y.sealed[i])
    ensures multiset(Delivered(x.got)) <= multiset(y.offered)
  {
    forall i | 0 <= i < |y.sealed| && !y.sealed[i].keepalive ensures WellFormed(y.sealed[i].plain) {
      PlainListed(y.sealed, i);
      assert y.sealed[i].plain in multiset(Plains(y.sealed));
      assert y.sealed[i].plain in multiset(y.offered);
    }
    var at := Positions(x.got, y);
    assert Picks(y.sealed, at) by { assert forall i :: 0 <= i < |at| ==> Source(x.got, y.sealed, at[i], Delivered(x.got)[i]); }
    ChosenAmong(y.sealed, at);
    assert Chosen(y.sealed, at) == Delivered(x.got);
  }

  lemma {:induction false} PlainListed(log: seq<Packet>, i: nat)
    requires i < |log| && !log[i].keepalive
    ensures log[i].plain in Plains(log)
  {
    if i < |log| - 1 { PlainListed(log[..|log| - 1], i); }
  }

  /** Place `i` of the log holds the packet `ip`, delivered by some message of `got`. */
  ghost predicate Source(got: seq<Got>, log: seq<Packet>, i: nat, ip: Bytes) {
    && i < |log| && !log[i].keepalive && log[i].plain == ip
    && exists k :: 0 <= k < |got| && Matches(got[k], log[i])
  }

  lemma SourceGrows(got: seq<Got>, log: seq<Packet>, i: nat, ip: Bytes)
    requires got != [] && Source(got[..|got| - 1], log, i, ip)
    ensures Source(got, log, i, ip)
  {
    var k :| 0 <= k < |got| - 1 && Matches(got[..|got| - 1][k], log[i]);
    assert Matches(got[k], log[i]);
  }

  predicate Distinct(got: seq<Got>) {
    forall a, b :: 0 <= a < b < |got| ==> (got[a].key, got[a].counter) != (got[b].key, got[b].counter)
  }

  /** The place of the last message is not that of an earlier one. */
  lemma SourceNew(got: seq<Got>, log: seq<Packet>, i: nat, ip: Bytes, j: nat)
    requires Distinct(got)
    requires got != [] && j < |log| && Matches(got[|got| - 1], log[j]) && Source(got[..|got| - 1], log, i, ip)
    ensures i != j
  {
    var k :| 0 <= k < |got| - 1 && Matches(got[..|got| - 1][k], log[i]);
    assert (got[k].key, got[k].counter) != (got[|got| - 1].key, got[|got| - 1].counter);
  }

  /** The last message, when it delivers a packet, delivers one the other end sealed. */
  lemma LastSource(got: seq<Got>, y: End) returns (j: nat)
    requires got != [] && got[|got| - 1].ip.Some? && Matched(got[|got| - 1], y)
    requires forall j :: 0 <= j < |y.sealed| ==> KeepaliveOk(y.sealed[j]) && (!y.sealed[j].keepalive ==> WellFormed(y.sealed[j].plain))
    ensures Source(got, y.sealed, j, got[|got| - 1].ip.value) && Matches(got[|got| - 1], y.sealed[j])
  {
    var g := got[|got| - 1];
    j :| j < |y.sealed| && Matches(g, y.sealed[j]);
    if !y.sealed[j].keepalive { TrimUndoesPad(y.sealed[j].plain); }
  }

  ghost predicate Places(got: seq<Got>, log: seq<Packet>, ips: seq<Bytes>, at: seq<nat>) {
    && |at| == |ips|
    && (forall i :: 0 <= i < |at| ==> Source(got, log, at[i], ips[i]))
    && (forall i, j :: 0 <= i < j < |at| ==> at[i] != at[j])
  }

  /** For each delivered packet, in order, the place of the packet sealed at the other end. */
  lemma {:induction false} Positions(got: seq<Got>, y: End) returns (at: seq<nat>)
    requires forall i :: 0 <= i < |got| ==> Matched(got[i], y)
    requires Distinct(got)
    requires forall j :: 0 <= j < |y.sealed| ==> KeepaliveOk(y.sealed[j]) && (!y.sealed[j].keepalive ==> WellFormed(y.sealed[j].plain))
    ensures Places(got, y.sealed, Delivered(got), at)
  {
    if got == [] { return []; }
    var n := |got| - 1;
    var ips := Delivered(got[..n]);
    at := Positions(got[..n], y);
    forall i | 0 <= i < |at| ensures Source(got, y.sealed, at[i], ips[i]) { SourceGrows(got, y.sealed, at[i], ips[i]); }
    if got[n].ip.Some? {
      assert Matched(got[n], y);
      var j := LastSource(got, y);
      forall i | 0 <= i < |at| ensures at[i] != j { SourceNew(got, y.sealed, at[i], ips[i], j); }
      at := at + [j];
      assert Places(got, y.sealed, ips + [got[n].ip.value], at);
    }
  }

  /** Pairwise different places of packets in a log. */
  predicate Picks(log: seq<Packet>, at: seq<nat>) {
    && (forall i :: 0 <= i < |at| ==> at[i] < |log| && !log[at[i]].keepalive)
    && (forall i, j :: 0 <= i < j < |at| ==> at[i] != at[j])
  }

  /** Plaintexts at pairwise different places of the log are, as a bag, within its plaintexts. */
  lemma {:induction false} ChosenAmong(log: seq<Packet>, at: seq<nat>)
    requires Picks(log, at)
    ensures multiset(Chosen(log, at)) <= multiset(Plains(log))
    decreases |log|
  {
    if at != [] {
      assert at[0] < |log|;
      var n := |log| - 1;
      PlainsLast(log);
      if k :| 0 <= k < |at| && at[k] == n {
        PicksWithout(log, at, k);
        ChosenAmong(log[..n], at[..k] + at[k + 1..]);
        ChosenWithout(log, at, k);
        assert !log[at[k]].keepalive;
        BagBoth(multiset(Chosen(log[..n], at[..k] + at[k + 1..])), multiset(Plains(log[..n])), multiset{log[n].plain});
      } else {
        PicksEarlier(log, at);
        ChosenAmong(log[..n], at);
        BagBoth(multiset(Chosen(log, at)), multiset(Plains(log[..n])), multiset{});
      }
    }
  }

  lemma PicksEarlier(log: seq<Packet>, at: seq<nat>)
    requires Picks(log, at) && log != [] && forall k :: 0 <= k < |at| ==> at[k] != |log| - 1
    ensures Picks(log[..|log| - 1], at) && Chosen(log[..|log| - 1], at) == Chosen(log, at)
  {
  }

  lemma BagBoth(a: multiset<Bytes>, b: multiset<Bytes>, c: multiset<Bytes>)
    requires a <= b
    ensures a + c <= b + c && a <= b + c
  {
  }

  lemma PicksWithout(log: seq<Packet>, at: seq<nat>, k: nat)
    requires Picks(log, at) && log != [] && k < |at| && at[k] == |log| - 1
    ensures Picks(log[..|log| - 1], at[..k] + at[k + 1..])
  {
    var rest := at[..k] + at[k + 1..];
    forall i | 0 <= i < |rest| ensures rest[i] < |log| - 1 && !log[..|log| - 1][rest[i]].keepalive {
      assert rest[i] == at[if i < k then i else i + 1];
    }
    forall i, j | 0 <= i < j < |rest| ensures rest[i] != rest[j] {
      assert rest[i] == at[if i < k then i else i + 1] && rest[j] == at[if j < k then j else j + 1];
    }
  }

  lemma PlainsLast(log: seq<Packet>)
    requires log != []
    ensures var n := |log| - 1;
            multiset(Plains(log)) == multiset(Plains(log[..n])) + (if log[n].keepalive then multiset{} else multiset{log[n].plain})
  {
  }

  /** Taking one place out takes its plaintext out of the bag. */
  lemma ChosenWithout(log: seq<Packet>, at: seq<nat>, k: nat)
    requires Picks(log, at) && log != [] && k < |at| && at[k] == |log| - 1
    requires Picks(log[..|log| - 1], at[..k] + at[k + 1..])
    ensures multiset(Chosen(log, at)) ==
            multiset(Chosen(log[..|log| - 1], at[..k] + at[k + 1..])) + multiset{log[|log| - 1].plain}
  {
    var c := Chosen(log, at);
    var rest := at[..k] + at[k + 1..];
    var d := Chosen(log[..|log| - 1], rest);
    assert |d| == |c| - 1;
    forall i | 0 <= i < |d| ensures d[i] == (c[..k] + c[k + 1..])[i] {
      assert rest[i] == at[if i < k then i else i + 1];
    }
    assert d == c[..k] + c[k + 1..];
    BagWithout(c, k);
  }

  lemma BagWithout(c: seq<Bytes>, k: nat)
    requires k < |c|
    ensures multiset(c) == multiset(c[..k] + c[k + 1..]) + multiset{c[k]}
  {
    assert c == c[..k] + [c[k]] + c[k + 1..];
  }

  function Chosen(log: seq<Packet>, at: seq<nat>): seq<Bytes>
    requires forall i :: 0 <= i < |at| ==> at[i] < |log|
  {
    seq(|at|, i requires 0 <= i < |at| => log[at[i]].plain)
  }
}
