/** Whole runs of the peer table: every handler under its lock is one step. The history keeps each
    tunnel's own life, the pings sent, and the evidence seen for each path. */
module PeerRuns {
  import opened Common
  import opened Noise
  import opened TunnelSpec
  import opened PeerTable
  import opened PeerIndex
  import TunnelRuns
  import Filter
  import FilterSets
  import IpBytes

  datatype Event =
    | AllPeers(nodes: seq<NodeInfo>)
    | Changed(n: NodeInfo)
    | Removed(key: Key)
    | Patched(pc: Patch)
    | Rekeyed(local: nat)
    | MapArrived(update: FilterSets.MapMessage, rules: seq<Filter.Rule>)
    | Arrived(path: Path, m: Wire, now: Time, d: Draw)
    | Driven(key: Key, ev: TunnelRuns.Event)
    | PingSent(key: Key, addr: Addr, tx: TxId, now: Time)
    | PongArrived(sender: Disco, tx: TxId, now: Time)
    | CalledMe(sender: Disco, more: seq<Addr>)
    | PathChecked(key: Key, now: Time)

  function Next(t: Table, ev: Event): Table {
    match ev
    case AllPeers(nodes) => SetPeers(t, nodes)
    case Changed(n) => ChangePeer(t, n)
    case Removed(key) => RemovePeer(t, key)
    case Patched(pc) => PatchPeer(t, pc)
    case Rekeyed(local) => SetNodeKey(t, local)
    case MapArrived(m, rules) => if FilterSets.Changes(m) then t.(filter := Some(rules)) else t
    case Arrived(path, m, now, d) => OnPacket(t, path, m, now, d).t
    case Driven(key, e) => Drive(t, key, e)
    case PingSent(key, addr, tx, now) => SendPing(t, key, addr, tx, now)
    case PongArrived(sender, tx, now) => OnPong(t, sender, tx, now)
    case CalledMe(sender, more) => CallMe(t, sender, more)
    case PathChecked(key, now) => ExpireBest(t, key, now)
  }

  // ---- history ----

  datatype Proof = ByWireGuard | ByPong(tx: TxId, sender: Disco)

  /** Peer `key` was heard over `addr` at `at`. */
  datatype Evidence = Evidence(key: Key, addr: Addr, at: Time, proof: Proof)

  datatype SentPing = SentPing(key: Key, ping: Ping)

  datatype World = World(
    t: Table, lives: map<Key, TunnelRuns.End>, sent: map<TxId, SentPing>, evidence: seq<Evidence>, sets: FilterSets.RuleSets)

  function Start(local: nat): World {
    World(Empty(local), map[], map[], [], map[])
  }

  function Seen(t: Table, ev: Event): seq<Evidence> {
    match ev
    case Arrived(path, m, now, d) =>
      var from := OnPacket(t, path, m, now, d).from;
      if path.Udp? && from.Some? then [Evidence(from.value, path.addr, now, ByWireGuard)] else []
    case PongArrived(sender, tx, now) =>
      (match PingAnswered(t, sender, tx)
       case Some((key, ping)) => [Evidence(key, ping.addr, now, ByPong(tx, sender))]
       case None => [])
    case _ => []
  }

  /** The tunnel event a step causes, and the peer it happens to. */
  function Moves(t: Table, ev: Event): Option<(Key, TunnelRuns.Event)> {
    match ev
    case Driven(key, e) => if key in t.peers then Some((key, e)) else None
    case Arrived(path, m, now, d) => ArrivalMoves(t, m, now, d)
    case _ => None
  }

  function ArrivalMoves(t: Table, m: Wire, now: Time, d: Draw): Option<(Key, TunnelRuns.Event)> {
    match m
    case Initiation(_, _, _, _, _) =>
      var r := ConsumeInitiation(t.local, m);
      if r.Ok? && r.value.peer in t.peers then Some((r.value.peer, TunnelRuns.GotInitiation(m, now, d))) else None
    case Response(_, receiver, _, _, _) =>
      if receiver in t.byIndex && t.byIndex[receiver] in t.peers then Some((t.byIndex[receiver], TunnelRuns.GotResponse(m, now))) else None
    case Transport(receiver, _, _) =>
      if receiver in t.byIndex && t.byIndex[receiver] in t.peers then Some((t.byIndex[receiver], TunnelRuns.GotTransport(m, now))) else None
    case Junk(_) => None
  }

  /** The tunnel of `k` is a new one: with a new peer, a new node key, or a list that names it twice. */
  predicate Renewed(t: Table, ev: Event, k: Key) {
    ev.Rekeyed? || k !in t.peers || (ev.AllPeers? && Mentions(ev.nodes, k) != 1)
  }

  /** Lives of the tunnels: they go on, or start with a new tunnel. */
  function Lives(w: World, ev: Event): map<Key, TunnelRuns.End> {
    var t' := Next(w.t, ev);
    var moves := Moves(w.t, ev);
    map k | k in t'.peers ::
      if Renewed(w.t, ev, k) || k !in w.lives then TunnelRuns.Begin(t'.local, k) else
      if moves.Some? && moves.value.0 == k then TunnelRuns.Advance(w.lives[k], moves.value.1) else w.lives[k]
  }

  /** Fresh draws are fresh, and a filter is compiled from the sets in some order of their names. */
  ghost predicate Enabled(w: World, ev: Event) {
    match ev
    case MapArrived(m, rules) => FilterSets.Changes(m) ==> CompiledFrom(rules, FilterSets.Update(w.sets, m))
    case Arrived(path, m, now, d) => (forall k <- w.t.peers :: FreshIndex(w.t, k, d)) && (forall k <- w.lives :: d.ephemeral !in w.lives[k].drawn)
    case Driven(key, e) => TunnelRuns.Draws(e) ==> FreshIndex(w.t, key, e.d) && (key in w.lives ==> e.d.ephemeral !in w.lives[key].drawn)
    case PingSent(key, addr, tx, now) => tx !in w.sent
    case _ => true
  }

  ghost predicate CompiledFrom(rules: seq<Filter.Rule>, sets: FilterSets.RuleSets) {
    exists order :: (forall name :: name in order <==> name in sets) && rules == Filter.Compile(FilterSets.Flatten(sets, order))
  }

  function Step(w: World, ev: Event): World {
    World(Next(w.t, ev), Lives(w, ev), if ev.PingSent? then w.sent[ev.tx := SentPing(ev.key, Ping(ev.addr, ev.now))] else w.sent,
          w.evidence + Seen(w.t, ev), if ev.MapArrived? then FilterSets.Update(w.sets, ev.update) else w.sets)
  }

  ghost predicate Valid(local: nat, evs: seq<Event>)
    decreases |evs|
  {
    evs == [] || (Valid(local, evs[..|evs| - 1]) && Enabled(Run(local, evs[..|evs| - 1]), evs[|evs| - 1]))
  }

  function Run(local: nat, evs: seq<Event>): World
    decreases |evs|
  {
    if evs == [] then Start(local) else Step(Run(local, evs[..|evs| - 1]), evs[|evs| - 1])
  }

  // ---- indexes ----

  /** Every step keeps the receiver index right, and all but a full list keep the disco index right. */
  lemma IndexesKept(w: World, ev: Event)
    requires Inv(w.t) && Enabled(w, ev)
    ensures Inv(Next(w.t, ev)) && (!ev.AllPeers? ==> Kept(w.t, Next(w.t, ev)))
  {
    match ev
    case AllPeers(nodes) => SetPeersExact(w.t, nodes);
    case Changed(n) => ChangeKeeps(w.t, n);
    case Removed(key) => RemoveKeeps(w.t, key);
    case Patched(pc) => PatchKeeps(w.t, pc);
    case Rekeyed(local) => RekeyKeeps(w.t, local);
    case MapArrived(m, rules) => FilterKeeps(w.t, rules);
    case Arrived(path, m, now, d) => PacketKeeps(w.t, path, m, now, d);
    case Driven(key, e) => DriveKeeps(w.t, key, e);
    case _ => PathsKeep(w.t, ev);
  }

  lemma FilterKeeps(t: Table, rules: seq<Filter.Rule>)
    requires Inv(t)
    ensures Kept(t, t.(filter := Some(rules)))
  {
    OwnersKeep(t, t.(filter := Some(rules)));
  }

  lemma PathsKeep(t: Table, ev: Event)
    requires Inv(t) && (ev.PingSent? || ev.PongArrived? || ev.CalledMe? || ev.PathChecked?)
    ensures Kept(t, Next(t, ev))
  {
    var key := match ev
      case PongArrived(sender, _, _) => if sender in t.byDisco then t.byDisco[sender] else Pub(0)
      case CalledMe(sender, _) => if sender in t.byDisco then t.byDisco[sender] else Pub(0)
      case PingSent(key, _, _, _) => key
      case PathChecked(key, _) => key;
    if key in t.peers && Next(t, ev) != t { WithPeerKeeps(t, key, Next(t, ev).peers[key]); }
  }

  // ---- lives ----

  /** Every peer's tunnel is where its life has led it. */
  ghost predicate Living(w: World) {
    w.lives.Keys == w.t.peers.Keys && forall k <- w.t.peers :: LifeOk(w, k)
  }

  ghost predicate LifeOk(w: World, k: Key)
    requires k in w.t.peers && k in w.lives
  {
    var x := w.lives[k];
    x.t == w.t.peers[k].tunn && TunnelRuns.KeysInv(x) && TunnelRuns.LogInv(x) && TunnelRuns.OpenInv(x)
  }

  /** The tunnel of `k` after an arrival: moved by one tunnel event if the arrival was its, else kept. */
  predicate Moved(t: Table, t': Table, moves: Option<(Key, TunnelRuns.Event)>, k: Key) {
    && t'.peers.Keys == t.peers.Keys && t'.local == t.local
    && (k in t.peers ==>
          t'.peers[k].tunn == if moves.Some? && moves.value.0 == k then TunnelRuns.Step(t.peers[k].tunn, moves.value.1).0 else t.peers[k].tunn)
  }

  lemma ArrivalTunnels(t: Table, path: Path, m: Wire, now: Time, d: Draw, k: Key)
    requires TunnelsOwn(t)
    ensures Moved(t, OnPacket(t, path, m, now, d).t, ArrivalMoves(t, m, now, d), k)
  {
    match m
    case Initiation(_, _, _, _, _) => AcceptTunnels(t, path, m, now, d, k);
    case Response(_, _, _, _, _) => ResponseTunnels(t, path, m, now, d, k);
    case Transport(_, _, _) => TransportTunnels(t, path, m, now, d, k);
    case Junk(_) =>
  }

  lemma AcceptTunnels(t: Table, path: Path, m: Wire, now: Time, d: Draw, k: Key)
    requires TunnelsOwn(t) && m.Initiation?
    ensures Moved(t, OnInitiation(t, path, m, now, d).t, ArrivalMoves(t, m, now, d), k)
  {
    var r := ConsumeInitiation(t.local, m);
    if r.Ok? && r.value.peer in t.peers {
      AcceptedTunnels(t, path, r.value, now, d, k);
      TakeIsAccept(t.peers[r.value.peer].tunn, m, now, d);
    }
  }

  lemma TakeIsAccept(tunn: Tunn, m: Wire, now: Time, d: Draw)
    requires ConsumeInitiation(tunn.local, m).Ok?
    ensures TunnelRuns.Step(tunn, TunnelRuns.GotInitiation(m, now, d)).0 == AcceptInitiation(tunn, ConsumeInitiation(tunn.local, m).value, now, d).0
  {
  }

  lemma AcceptedTunnels(t: Table, path: Path, ci: Consumed, now: Time, d: Draw, k: Key)
    requires ci.peer in t.peers
    ensures var t' := Accepted(t, path, ci, now, d).t;
            && t'.peers.Keys == t.peers.Keys && t'.local == t.local
            && (k in t.peers ==> t'.peers[k].tunn == if k == ci.peer then AcceptInitiation(t.peers[k].tunn, ci, now, d).0 else t.peers[k].tunn)
  {
  }

  lemma ResponseTunnels(t: Table, path: Path, m: Wire, now: Time, d: Draw, k: Key)
    requires m.Response?
    ensures Moved(t, ResponseFor(t, ByIndex(t, m.receiver), path, m, now).t, ArrivalMoves(t, m, now, d), k)
  {
  }

  lemma TransportTunnels(t: Table, path: Path, m: Wire, now: Time, d: Draw, k: Key)
    requires m.Transport?
    ensures Moved(t, TransportFor(t, ByIndex(t, m.receiver), path, m, now).t, ArrivalMoves(t, m, now, d), k)
  {
  }

  lemma StepTunnels(t: Table, ev: Event, k: Key)
    requires Inv(t) && k in Next(t, ev).peers
    ensures var tunn' := Next(t, ev).peers[k].tunn;
            if Renewed(t, ev, k) then tunn' == New(Next(t, ev).local, k)
            else tunn' == if Moves(t, ev).Some? && Moves(t, ev).value.0 == k then TunnelRuns.Step(t.peers[k].tunn, Moves(t, ev).value.1).0
                          else t.peers[k].tunn
  {
    if ev.AllPeers? { SetPeersExact(t, ev.nodes); assert CameFrom(t, ev.nodes, k, Next(t, ev).peers[k]); }
    else if ev.Arrived? { ArrivalTunnels(t, ev.path, ev.m, ev.now, ev.d, k); }
    else if ev.Driven? { }
    else { QuietTunnels(t, ev, k); }
  }

  lemma QuietTunnels(t: Table, ev: Event, k: Key)
    requires !ev.AllPeers? && !ev.Arrived? && !ev.Driven? && k in Next(t, ev).peers
    ensures var tunn' := Next(t, ev).peers[k].tunn;
            tunn' == if ev.Rekeyed? || k !in t.peers then New(Next(t, ev).local, k) else t.peers[k].tunn
  {
  }

  lemma BeginOk(local: nat, k: Key)
    ensures var x := TunnelRuns.Begin(local, k); TunnelRuns.KeysInv(x) && TunnelRuns.LogInv(x) && TunnelRuns.OpenInv(x)
  {
    TunnelRuns.RunKeeps(local, k, []);
  }

  lemma LivesKept(w: World, ev: Event)
    requires Inv(w.t) && Living(w) && Enabled(w, ev)
    ensures Living(Step(w, ev))
  {
    var w' := Step(w, ev);
    forall k <- w'.t.peers ensures LifeOk(w', k) { LifeKept(w, ev, k); }
  }

  lemma MoveEnabled(w: World, ev: Event)
    requires Living(w) && Enabled(w, ev) && Moves(w.t, ev).Some?
    ensures var (k, e) := Moves(w.t, ev).value; k in w.lives && TunnelRuns.Enabled(w.lives[k], e)
  {
  }

  lemma LifeKept(w: World, ev: Event, k: Key)
    requires Inv(w.t) && Living(w) && Enabled(w, ev) && k in Next(w.t, ev).peers
    ensures LifeOk(Step(w, ev), k)
  {
    StepTunnels(w.t, ev, k);
    assert k in w.t.peers ==> LifeOk(w, k);
    if Renewed(w.t, ev, k) || k !in w.lives {
      BeginOk(Next(w.t, ev).local, k);
    } else if Moves(w.t, ev).Some? && Moves(w.t, ev).value.0 == k {
      MoveEnabled(w, ev);
      LifeGoesOn(w.lives[k], Moves(w.t, ev).value.1);
    }
  }

  lemma LifeGoesOn(x: TunnelRuns.End, ev: TunnelRuns.Event)
    requires TunnelRuns.KeysInv(x) && TunnelRuns.LogInv(x) && TunnelRuns.OpenInv(x) && TunnelRuns.Enabled(x, ev)
    ensures var x' := TunnelRuns.Advance(x, ev); TunnelRuns.KeysInv(x') && TunnelRuns.LogInv(x') && TunnelRuns.OpenInv(x')
  {
    TunnelRuns.KeysKept(x, ev);
    TunnelRuns.LogKept(x, ev);
    TunnelRuns.OpenKept(x, ev);
  }

  // ---- trust in paths ----

  /** Trust was granted by evidence seen TRUST_UDP_ADDR before it ends. */
  ghost predicate Grounded(evidence: seq<Evidence>, k: Key, b: Best) {
    exists i :: 0 <= i < |evidence| && evidence[i].key == k && evidence[i].addr == b.addr && evidence[i].at + TRUST_UDP_ADDR == b.trustUntil
  }

  ghost predicate TrustInv(w: World) {
    forall k <- w.t.peers :: w.t.peers[k].best.Some? ==> Grounded(w.evidence, k, w.t.peers[k].best.value)
  }

  predicate Answers(e: Evidence, tx: TxId) {
    e.proof.ByPong? && e.proof.tx == tx
  }

  ghost predicate PingOk(w: World, k: Key, x: TxId) {
    k in w.t.peers && x in w.t.peers[k].pings ==>
      x in w.sent && w.sent[x] == SentPing(k, w.t.peers[k].pings[x]) && forall e <- w.evidence :: !Answers(e, x)
  }

  predicate AnswerOk(sent: map<TxId, SentPing>, e: Evidence) {
    e.proof.ByPong? ==> e.proof.tx in sent && sent[e.proof.tx].key == e.key && sent[e.proof.tx].ping.addr == e.addr
  }

  /** Outstanding pings were sent as recorded and are unanswered; answers are to pings sent to
      that peer at that address, one answer to each. */
  ghost predicate PingInv(w: World) {
    && (forall k, x :: PingOk(w, k, x))
    && (forall e <- w.evidence :: AnswerOk(w.sent, e))
    && (forall i, j :: 0 <= i < j < |w.evidence| && w.evidence[i].proof.ByPong? ==> !Answers(w.evidence[j], w.evidence[i].proof.tx))
  }

  lemma GroundedMore(evidence: seq<Evidence>, more: seq<Evidence>, k: Key, b: Best)
    ensures Grounded(evidence, k, b) ==> Grounded(evidence + more, k, b)
    ensures more != [] && more[0].key == k && more[0].addr == b.addr && more[0].at + TRUST_UDP_ADDR == b.trustUntil ==> Grounded(evidence + more, k, b)
  {
    if i :| 0 <= i < |evidence| && evidence[i].key == k && evidence[i].addr == b.addr && evidence[i].at + TRUST_UDP_ADDR == b.trustUntil {
      assert (evidence + more)[i] == evidence[i];
    }
    if more != [] { assert (evidence + more)[|evidence|] == more[0]; }
  }

  /** A path after a step: gone, as before, or just vouched for. */
  predicate PathFrom(t: Table, ev: Event, k: Key) {
    k in Next(t, ev).peers && Next(t, ev).peers[k].best.Some? ==>
      var b := Next(t, ev).peers[k].best.value;
      || (k in t.peers && t.peers[k].best == Some(b))
      || (Seen(t, ev) != [] && Seen(t, ev)[0].key == k && Seen(t, ev)[0].addr == b.addr && Seen(t, ev)[0].at + TRUST_UDP_ADDR == b.trustUntil)
  }

  lemma ArrivalPath(t: Table, ev: Event, k: Key)
    requires ev.Arrived?
    ensures PathFrom(t, ev, k)
  {
    match ev.m
    case Initiation(_, _, _, _, _) => InitiationPath(t, ev, k);
    case Response(_, _, _, _, _) => ResponsePath(t, ev, k);
    case Transport(_, _, _) => TransportPath(t, ev, k);
    case Junk(_) =>
  }

  lemma InitiationPath(t: Table, ev: Event, k: Key)
    requires ev.Arrived? && ev.m.Initiation?
    ensures PathFrom(t, ev, k)
  {
  }

  lemma ResponsePath(t: Table, ev: Event, k: Key)
    requires ev.Arrived? && ev.m.Response?
    ensures PathFrom(t, ev, k)
  {
  }

  lemma TransportPath(t: Table, ev: Event, k: Key)
    requires ev.Arrived? && ev.m.Transport?
    ensures PathFrom(t, ev, k)
  {
  }

  lemma StepPath(t: Table, ev: Event, k: Key)
    requires Inv(t)
    ensures PathFrom(t, ev, k)
  {
    if k in Next(t, ev).peers {
      if ev.AllPeers? { SetPeersExact(t, ev.nodes); assert CameFrom(t, ev.nodes, k, Next(t, ev).peers[k]); }
      else if ev.Arrived? { ArrivalPath(t, ev, k); }
      else { QuietPath(t, ev, k); }
    }
  }

  lemma QuietPath(t: Table, ev: Event, k: Key)
    requires !ev.AllPeers? && !ev.Arrived?
    ensures PathFrom(t, ev, k)
  {
  }

  lemma TrustKept(w: World, ev: Event)
    requires Inv(w.t) && TrustInv(w) && Enabled(w, ev)
    ensures TrustInv(Step(w, ev))
  {
    var w' := Step(w, ev);
    forall k <- w'.t.peers | w'.t.peers[k].best.Some? ensures Grounded(w'.evidence, k, w'.t.peers[k].best.value) {
      StepPath(w.t, ev, k);
      GroundedMore(w.evidence, Seen(w.t, ev), k, w'.t.peers[k].best.value);
    }
  }

  /** Pings after a step: those before, less an answered one, plus the one sent. */
  predicate PingsFrom(t: Table, ev: Event, k: Key, x: TxId) {
    k in Next(t, ev).peers && x in Next(t, ev).peers[k].pings ==>
      || (ev.PingSent? && ev.tx == x && ev.key == k && Next(t, ev).peers[k].pings[x] == Ping(ev.addr, ev.now))
      || (k in t.peers && x in t.peers[k].pings && Next(t, ev).peers[k].pings[x] == t.peers[k].pings[x]
          && !(ev.PongArrived? && ev.tx == x && Seen(t, ev) != [] && Seen(t, ev)[0].key == k))
  }

  lemma ArrivalPings(t: Table, ev: Event, k: Key, x: TxId)
    requires ev.Arrived?
    ensures PingsFrom(t, ev, k, x)
  {
    match ev.m
    case Initiation(_, _, _, _, _) => InitiationPings(t, ev, k, x);
    case Response(_, _, _, _, _) =>
    case Transport(_, _, _) =>
    case Junk(_) =>
  }

  lemma InitiationPings(t: Table, ev: Event, k: Key, x: TxId)
    requires ev.Arrived? && ev.m.Initiation?
    ensures PingsFrom(t, ev, k, x)
  {
  }

  lemma StepPings(t: Table, ev: Event, k: Key, x: TxId)
    requires Inv(t)
    ensures PingsFrom(t, ev, k, x)
  {
    if k in Next(t, ev).peers {
      if ev.AllPeers? { SetPeersExact(t, ev.nodes); assert CameFrom(t, ev.nodes, k, Next(t, ev).peers[k]); }
      else if ev.Arrived? { ArrivalPings(t, ev, k, x); }
      else { QuietPings(t, ev, k, x); }
    }
  }

  lemma QuietPings(t: Table, ev: Event, k: Key, x: TxId)
    requires !ev.AllPeers? && !ev.Arrived?
    ensures PingsFrom(t, ev, k, x)
  {
  }

  /** A new answer is the first to its ping. */
  lemma AnswerNew(w: World, ev: Event)
    requires PingInv(w) && Enabled(w, ev) && Seen(w.t, ev) != [] && ev.PongArrived?
    ensures AnswerOk(w.sent, Seen(w.t, ev)[0]) && forall e <- w.evidence :: !Answers(e, ev.tx)
    ensures forall k :: k in w.t.peers && ev.tx in w.t.peers[k].pings ==> k == Seen(w.t, ev)[0].key
  {
    var key := w.t.byDisco[ev.sender];
    assert PingOk(w, key, ev.tx);
    forall k | k in w.t.peers && ev.tx in w.t.peers[k].pings ensures k == key { assert PingOk(w, k, ev.tx); }
  }

  lemma PingStep(w: World, ev: Event, k: Key, x: TxId)
    requires Inv(w.t) && PingInv(w) && Enabled(w, ev)
    ensures PingOk(Step(w, ev), k, x)
  {
    StepPings(w.t, ev, k, x);
    assert PingOk(w, k, x);
    if ev.PongArrived? && Seen(w.t, ev) != [] { AnswerNew(w, ev); }
  }

  lemma PingsKept(w: World, ev: Event)
    requires Inv(w.t) && PingInv(w) && Enabled(w, ev)
    ensures PingInv(Step(w, ev))
  {
    var w' := Step(w, ev);
    forall k, x ensures PingOk(w', k, x) { PingStep(w, ev, k, x); }
    if ev.PongArrived? && Seen(w.t, ev) != [] {
      AnswerNew(w, ev);
      forall i | 0 <= i < |w.evidence| ensures !Answers(w'.evidence[i], ev.tx) {
        assert w'.evidence[i] == w.evidence[i] && !Answers(w.evidence[i], ev.tx);
      }
    }
  }

  // ---- every run ----

  ghost predicate Sound(w: World) {
    Inv(w.t) && Living(w) && TrustInv(w) && PingInv(w)
  }

  lemma {:induction false} RunSound(local: nat, evs: seq<Event>)
    requires Valid(local, evs)
    ensures Sound(Run(local, evs))
    decreases |evs|
  {
    if evs != [] {
      var n := |evs| - 1;
      RunSound(local, evs[..n]);
      var w := Run(local, evs[..n]);
      IndexesKept(w, evs[n]);
      LivesKept(w, evs[n]);
      TrustKept(w, evs[n]);
      PingsKept(w, evs[n]);
    }
  }

  /** The latest clock reading in a run. */
  function Latest(evs: seq<Event>): Time {
    if evs == [] then 0 else
    var n := |evs| - 1;
    var rest := Latest(evs[..n]);
    match evs[n]
    case Arrived(_, _, now, _) => Max(now, rest)
    case PongArrived(_, _, now) => Max(now, rest)
    case PingSent(_, _, _, now) => Max(now, rest)
    case PathChecked(_, now) => Max(now, rest)
    case Driven(_, e) => Max(e.now, rest)
    case _ => rest
  }

  lemma {:induction false} EvidencePast(local: nat, evs: seq<Event>)
    ensures forall e <- Run(local, evs).evidence :: e.at <= Latest(evs)
    decreases |evs|
  {
    if evs != [] { EvidencePast(local, evs[..|evs| - 1]); }
  }

  /** Evidence of the WireGuard kind really is a message the peer's tunnel authenticated. */
  lemma FromIsAuthentic(t: Table, path: Path, m: Wire, now: Time, d: Draw)
    requires Inv(t) && OnPacket(t, path, m, now, d).from.Some?
    ensures var k := OnPacket(t, path, m, now, d).from.value;
            && k in t.peers
            && match m
               case Initiation(_, _, _, _, _) => TunnelRuns.TakeInitiation(t.peers[k].tunn, m, now, d).1.Ok?
               case Response(_, _, _, _, _) => ConsumeResponse(t.peers[k].tunn, m, now).1.Ok?
               case Transport(_, _, _) => ConsumeTransport(t.peers[k].tunn, m, now).1.Ok?
               case Junk(_) => false
  {
    if m.Initiation? { InitiationFrom(t, path, m, now, d); }
  }

  lemma InitiationFrom(t: Table, path: Path, m: Wire, now: Time, d: Draw)
    requires Inv(t) && m.Initiation? && OnInitiation(t, path, m, now, d).from.Some?
    ensures var k := OnInitiation(t, path, m, now, d).from.value;
            k in t.peers && TunnelRuns.TakeInitiation(t.peers[k].tunn, m, now, d).1.Ok?
  {
  }

  /** The map messages of a run, in order. */
  function MapsOf(evs: seq<Event>): seq<FilterSets.MapMessage> {
    if evs == [] then [] else MapsOf(evs[..|evs| - 1]) + (if evs[|evs| - 1].MapArrived? then [evs[|evs| - 1].update] else [])
  }

  lemma FilterStep(t: Table, ev: Event)
    requires Inv(t) && !ev.MapArrived?
    ensures Next(t, ev).filter == t.filter
  {
    if ev.AllPeers? { SetPeersExact(t, ev.nodes); }
  }

  ghost predicate SomeChange(ms: seq<FilterSets.MapMessage>) {
    exists i :: 0 <= i < |ms| && FilterSets.HasFilter(ms[i])
  }

  lemma ChangeMore(ms: seq<FilterSets.MapMessage>, m: FilterSets.MapMessage)
    ensures SomeChange(ms + [m]) <==> SomeChange(ms) || FilterSets.Changes(m)
  {
    if i :| 0 <= i < |ms| && FilterSets.HasFilter(ms[i]) { assert FilterSets.HasFilter((ms + [m])[i]); }
    if FilterSets.HasFilter(m) { assert FilterSets.HasFilter((ms + [m])[|ms|]); }
  }

  /** The filter in force is one compiled from the rule sets all map messages have left, and there is
      none until one of them carries one. */
  lemma {:induction false} FilterInForce(local: nat, evs: seq<Event>)
    requires Valid(local, evs)
    ensures var w := Run(local, evs);
            && w.sets == FilterSets.SetsAfter(MapsOf(evs)) && (w.t.filter.Some? <==> SomeChange(MapsOf(evs)))
            && (w.t.filter.Some? ==> FilterSets.Reflects(w.t.filter.value, w.sets))
    decreases |evs|
  {
    if evs != [] {
      var n := |evs| - 1;
      FilterInForce(local, evs[..n]);
      RunSound(local, evs[..n]);
      if evs[n].MapArrived? {
        MapStep(Run(local, evs[..n]), evs[n].update, evs[n].rules, MapsOf(evs[..n]));
      } else {
        FilterStep(Run(local, evs[..n]).t, evs[n]);
        assert MapsOf(evs) == MapsOf(evs[..n]);
      }
    }
  }

  lemma MapStep(w: World, m: FilterSets.MapMessage, rules: seq<Filter.Rule>, ms: seq<FilterSets.MapMessage>)
    requires Enabled(w, MapArrived(m, rules)) && w.sets == FilterSets.SetsAfter(ms)
    ensures FilterSets.Update(w.sets, m) == FilterSets.SetsAfter(ms + [m])
    ensures SomeChange(ms + [m]) <==> SomeChange(ms) || FilterSets.Changes(m)
    ensures FilterSets.Changes(m) ==> FilterSets.Reflects(rules, FilterSets.Update(w.sets, m))
    ensures !FilterSets.Changes(m) ==> FilterSets.Update(w.sets, m) == w.sets
  {
    assert (ms + [m])[..|ms|] == ms;
    ChangeMore(ms, m);
    if FilterSets.Changes(m) {
      var sets := FilterSets.Update(w.sets, m);
      var order :| (forall name :: name in order <==> name in sets) && rules == Filter.Compile(FilterSets.Flatten(sets, order));
      FilterSets.CompileReflects(sets, order);
    }
  }

  /** What the map messages of a run let through: an established TCP segment, or a packet some rule
      said last permits, once any of them has carried a filter. */
  ghost predicate Permitted(ms: seq<FilterSets.MapMessage>, ip: Bytes) {
    SomeChange(ms) && exists t :: IpBytes.TupleIs(ip, t) && ((t.proto == 6 && t.tcpEstablished) || FilterSets.WordsPermit(ms, t))
  }

  lemma FilterIsWords(local: nat, evs: seq<Event>, ip: Bytes)
    requires Valid(local, evs)
    ensures var f := Run(local, evs).t.filter; (f.Some? && Filter.Allows(f.value, ip)) <==> Permitted(MapsOf(evs), ip)
  {
    FilterInForce(local, evs);
    if Filter.ParseTuple(ip).Some? {
      var t := Filter.ParseTuple(ip).value;
      IpBytes.TupleRead(ip, t);
      FilterSets.WordsArePermits(MapsOf(evs), t);
    }
    if Permitted(MapsOf(evs), ip) {
      var t :| IpBytes.TupleIs(ip, t) && ((t.proto == 6 && t.tcpEstablished) || FilterSets.WordsPermit(MapsOf(evs), t));
      IpBytes.TupleRead(ip, t);
    }
  }

  /** The disco index is right as long as the last full list agreed with itself. */
  ghost predicate LastListAgrees(evs: seq<Event>) {
    evs == [] || (if evs[|evs| - 1].AllPeers? then Agreeing(evs[|evs| - 1].nodes) else LastListAgrees(evs[..|evs| - 1]))
  }

  lemma {:induction false} DiscoStaysSound(local: nat, evs: seq<Event>)
    requires Valid(local, evs) && LastListAgrees(evs)
    ensures DiscoSound(Run(local, evs).t)
    decreases |evs|
  {
    if evs != [] {
      var n := |evs| - 1;
      var w := Run(local, evs[..n]);
      RunSound(local, evs[..n]);
      if evs[n].AllPeers? {
        SetPeersDiscoIff(w.t, evs[n].nodes);
      } else {
        DiscoStaysSound(local, evs[..n]);
        IndexesKept(w, evs[n]);
      }
    }
  }

  /** Event `n` is where the evidence comes from: a message of the peer's over this address, or a pong
      under a disco key that is the peer's own if the last full list agreed with itself. */
  ghost predicate HeardAt(local: nat, evs: seq<Event>, e: Evidence, n: nat) {
    && n < |evs|
    && var t := Run(local, evs[..n]).t;
       match e.proof
       case ByWireGuard =>
         && evs[n].Arrived? && evs[n].path == Udp(e.addr) && evs[n].now == e.at
         && OnPacket(t, evs[n].path, evs[n].m, evs[n].now, evs[n].d).from == Some(e.key)
       case ByPong(tx, sender) =>
         && evs[n] == PongArrived(sender, tx, e.at) && e.key in t.peers
         && (LastListAgrees(evs[..n]) ==> t.peers[e.key].disco == Some(sender))
  }

  lemma {:induction false} EvidenceSource(local: nat, evs: seq<Event>, i: nat) returns (n: nat)
    requires Valid(local, evs) && i < |Run(local, evs).evidence|
    ensures HeardAt(local, evs, Run(local, evs).evidence[i], n)
    decreases |evs|
  {
    var last := |evs| - 1;
    var w := Run(local, evs[..last]);
    if i < |w.evidence| {
      n := EvidenceSource(local, evs[..last], i);
      assert evs[..last][..n] == evs[..n] && evs[..last][n] == evs[n];
    } else {
      n := last;
      if LastListAgrees(evs[..last]) { DiscoStaysSound(local, evs[..last]); }
    }
  }

  /** In every reachable state a message sent over the direct path at `now` goes to an address the
      peer was heard on less than 6.5 s before: by an authenticated WireGuard message, or by its
      answer to a ping of ours to that address, which no other evidence rests on. The answer came under
      the peer's own disco key if the last full list before it agreed with itself. */
  lemma DirectIsFresh(local: nat, evs: seq<Event>, key: Key, now: Time) returns (i: nat)
    requires Valid(local, evs) && SendWg(Run(local, evs).t, key, now).Direct?
    ensures var w := Run(local, evs);
            && i < |w.evidence| && var e := w.evidence[i];
               && e.key == key && e.addr == SendWg(w.t, key, now).addr && now < e.at + TRUST_UDP_ADDR
               && (Latest(evs) <= now ==> e.at <= now)
               && (e.proof.ByPong? ==>
                     && e.proof.tx in w.sent && w.sent[e.proof.tx].key == key && w.sent[e.proof.tx].ping.addr == e.addr
                     && forall j :: 0 <= j < |w.evidence| && Answers(w.evidence[j], e.proof.tx) ==> j == i)
               && exists n :: HeardAt(local, evs, e, n)
  {
    RunSound(local, evs);
    EvidencePast(local, evs);
    i := DirectRestsOn(Run(local, evs), key, now);
    var n := EvidenceSource(local, evs, i);
  }

  lemma DirectRestsOn(w: World, key: Key, now: Time) returns (i: nat)
    requires TrustInv(w) && PingInv(w) && SendWg(w.t, key, now).Direct?
    ensures i < |w.evidence| && var e := w.evidence[i];
            && e.key == key && e.addr == SendWg(w.t, key, now).addr && now < e.at + TRUST_UDP_ADDR
            && (e.proof.ByPong? ==>
                  && e.proof.tx in w.sent && w.sent[e.proof.tx].key == key && w.sent[e.proof.tx].ping.addr == e.addr
                  && forall j :: 0 <= j < |w.evidence| && Answers(w.evidence[j], e.proof.tx) ==> j == i)
  {
    var b := w.t.peers[key].best.value;
    assert Grounded(w.evidence, key, b);
    i :| 0 <= i < |w.evidence| && w.evidence[i].key == key && w.evidence[i].addr == b.addr && w.evidence[i].at + TRUST_UDP_ADDR == b.trustUntil;
    assert AnswerOk(w.sent, w.evidence[i]);
  }

  /** In every reachable state a packet reaches the sink exactly when some present peer's unexpired
      session opens it with a fresh counter, its source is allowed for that peer, and the map messages
      so far permit it. It is then the first opening of that key and counter in the life of that
      tunnel. */
  lemma DeliveredExactly(local: nat, evs: seq<Event>, path: Path, m: Wire, now: Time, d: Draw, ip: Bytes)
    requires Valid(local, evs)
    ensures var t := Run(local, evs).t; var out := OnPacket(t, path, m, now, d);
            && (out.sink == Some(ip) <==> Permitted(MapsOf(evs), ip) && exists k :: Vouched(t, k, m, now, ip))
            && (out.sink == Some(ip) ==>
                  && out.from.Some? && Vouched(t, out.from.value, m, now, ip)
                  && FirstOpened(Run(local, evs), out.from.value, m))
  {
    RunSound(local, evs);
    FilterIsWords(local, evs, ip);
    var w := Run(local, evs);
    GateExact(w.t, path, m, now, d, ip);
    if k :| Vouched(w.t, k, m, now, ip) { assert Permitted(MapsOf(evs), ip) ==> Admits(w.t, k, m, now, ip); }
    if OnPacket(w.t, path, m, now, d).sink == Some(ip) { FirstOpening(w, OnPacket(w.t, path, m, now, d).from.value, m, now, ip); }
  }

  ghost predicate FirstOpened(w: World, k: Key, m: Wire) {
    && m.Transport? && k in w.t.peers && k in w.lives && SlotOf(w.t.peers[k].tunn, m.receiver) != Slot.Nowhere
    && forall g <- w.lives[k].got :: (g.key, g.counter) != (Addressed(w.t.peers[k].tunn, m.receiver).recvKey, m.counter)
  }

  lemma FirstOpening(w: World, k: Key, m: Wire, now: Time, ip: Bytes)
    requires Living(w) && Vouched(w.t, k, m, now, ip)
    ensures FirstOpened(w, k, m)
  {
    var x := w.lives[k];
    var s := Addressed(x.t, m.receiver);
    assert LifeOk(w, k) && TunnelRuns.SeenInv(x, s);
    forall g <- x.got ensures (g.key, g.counter) != (s.recvKey, m.counter) {
      var i :| 0 <= i < |x.got| && x.got[i] == g;
    }
  }
}
