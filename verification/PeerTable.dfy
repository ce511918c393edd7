/** The peer table of the packet mover: peers with their tunnels, the receiver-index and disco
    indexes kept beside them, and the handlers that run under its lock. */
module PeerTable {
  import opened Common
  import opened Noise
  import opened TunnelSpec
  import TunnelRuns
  import Filter
  import Replay

  type Key = Term
  type Disco = nat
  type Addr = nat
  type TxId = nat

  const TRUST_UDP_ADDR := 6_500
  const MAX_PINGS := 32
  const PING_KEPT := 10_000
  const MAX_ENDPOINTS := 16

  datatype Cidr = Cidr(net: Filter.IpAddr, bits: nat)

  datatype Path = Udp(addr: Addr) | Derp(region: int)

  datatype Best = Best(addr: Addr, trustUntil: Time, latency: nat)

  datatype Ping = Ping(addr: Addr, sentAt: Time)

  datatype Peer = Peer(
    disco: Option<Disco>, allowedIps: seq<Cidr>, endpoints: seq<Addr>, homeDerp: int, tunn: Tunn,
    best: Option<Best>, pings: map<TxId, Ping>)

  datatype Table = Table(local: nat, peers: map<Key, Peer>, byDisco: map<Disco, Key>, byIndex: map<nat, Key>, filter: Option<seq<Filter.Rule>>)

  function Empty(local: nat): Table {
    Table(local, map[], map[], map[], None)
  }

  // ---- configuration from control ----

  /** A node as control describes it; `key` is None when its text does not parse. */
  datatype NodeInfo = NodeInfo(key: Option<Key>, disco: Option<Disco>, cidrs: seq<Cidr>, endpoints: seq<Addr>, homeDerp: int)

  function NewPeer(local: nat, key: Key): Peer {
    Peer(None, [], [], 0, New(local, key), None, map[])
  }

  /** Routes of prefix length 0 are not installed. */
  function Installable(cidrs: seq<Cidr>): seq<Cidr> {
    if cidrs == [] then [] else (if cidrs[0].bits != 0 then [cidrs[0]] else []) + Installable(cidrs[1..])
  }

  function ApplyNode(p: Peer, n: NodeInfo): Peer {
    p.(disco := n.disco, best := if n.disco != p.disco then None else p.best,
       allowedIps := Installable(n.cidrs), endpoints := n.endpoints, homeDerp := n.homeDerp)
  }

  function PutDisco(byDisco: map<Disco, Key>, d: Option<Disco>, key: Key): map<Disco, Key> {
    if d.Some? then byDisco[d.value := key] else byDisco
  }

  function DropDisco(byDisco: map<Disco, Key>, d: Option<Disco>): map<Disco, Key> {
    if d.Some? then byDisco - {d.value} else byDisco
  }

  function PutIndices(byIndex: map<nat, Key>, indices: set<nat>, key: Key): map<nat, Key> {
    byIndex + map i | i in indices :: key
  }

  /** One node of a full peer list: `rest` holds the earlier peers not yet carried over. */
  function CarryOver(t: Table, rest: map<Key, Peer>, n: NodeInfo): (Table, map<Key, Peer>) {
    if n.key.None? then (t, rest) else
    var key := n.key.value;
    var p := ApplyNode(if key in rest then rest[key] else NewPeer(t.local, key), n);
    (t.(peers := t.peers[key := p], byDisco := PutDisco(t.byDisco, p.disco, key),
        byIndex := PutIndices(t.byIndex, LocalIndices(p.tunn), key)),
     rest - {key})
  }

  function CarryAll(t: Table, rest: map<Key, Peer>, nodes: seq<NodeInfo>): (Table, map<Key, Peer>) {
    if nodes == [] then (t, rest) else
    var n := |nodes| - 1;
    var (t1, rest1) := CarryAll(t, rest, nodes[..n]);
    CarryOver(t1, rest1, nodes[n])
  }

  function Bare(t: Table): Table {
    t.(peers := map[], byDisco := map[], byIndex := map[])
  }

  function SetPeers(t: Table, nodes: seq<NodeInfo>): Table {
    CarryAll(Bare(t), t.peers, nodes).0
  }

  function ChangePeer(t: Table, n: NodeInfo): Table {
    if n.key.None? then t else
    var key := n.key.value;
    var before := if key in t.peers then t.peers[key] else NewPeer(t.local, key);
    var p := ApplyNode(before, n);
    t.(peers := t.peers[key := p], byDisco := PutDisco(DropDisco(t.byDisco, before.disco), p.disco, key))
  }

  function RemovePeer(t: Table, key: Key): Table {
    if key !in t.peers then t else
    t.(peers := t.peers - {key}, byDisco := DropDisco(t.byDisco, t.peers[key].disco),
       byIndex := map i | i in t.byIndex && t.byIndex[i] != key :: t.byIndex[i])
  }

  /** A patch for a known node id; a disco key that does not parse is None. */
  datatype Patch = Patch(key: Key, homeDerp: int, endpoints: Option<seq<Addr>>, disco: Option<Disco>)

  function PatchPeer(t: Table, pc: Patch): Table {
    if pc.key !in t.peers then t else
    var p := t.peers[pc.key];
    var p1 := p.(homeDerp := if pc.homeDerp != 0 then pc.homeDerp else p.homeDerp,
                 endpoints := if pc.endpoints.Some? then pc.endpoints.value else p.endpoints,
                 disco := if pc.disco.Some? then pc.disco else p.disco);
    t.(peers := t.peers[pc.key := p1],
       byDisco := if pc.disco.Some? then DropDisco(t.byDisco, p.disco)[pc.disco.value := pc.key] else t.byDisco)
  }

  /** Every tunnel is rebuilt with the new static key. */
  function SetNodeKey(t: Table, local: nat): Table {
    t.(local := local, byIndex := map[],
       peers := map k | k in t.peers :: t.peers[k].(tunn := New(local, k), best := None))
  }

  // ---- tunnel traffic ----

  function Refresh(byIndex: map<nat, Key>, key: Key, indices: set<nat>): map<nat, Key> {
    PutIndices(map i | i in byIndex && (byIndex[i] != key || i in indices) :: byIndex[i], indices, key)
  }

  /** A peer's tunnel moved on, and its indices were refreshed. */
  function Retunnel(t: Table, key: Key, tunn: Tunn): Table
    requires key in t.peers
  {
    t.(peers := t.peers[key := t.peers[key].(tunn := tunn)], byIndex := Refresh(t.byIndex, key, LocalIndices(tunn)))
  }

  /** Roaming: an authenticated packet arrived over `path`. */
  function NotePath(best: Option<Best>, path: Path, now: Time): Option<Best> {
    if !path.Udp? then best else
    if best.Some? && best.value.addr == path.addr then Some(best.value.(trustUntil := now + TRUST_UDP_ADDR)) else
    if best.Some? && best.value.trustUntil > now then best else
    Some(Best(path.addr, now + TRUST_UDP_ADDR, 0))
  }

  function Noted(t: Table, key: Key, path: Path, now: Time): Table
    requires key in t.peers
  {
    t.(peers := t.peers[key := t.peers[key].(best := NotePath(t.peers[key].best, path, now))])
  }

  /** Where a WireGuard message to a peer goes; a reply goes back the way it was asked for. */
  datatype Route = Direct(addr: Addr) | Relay(region: int) | Guess(addr: Addr) | NoPath | Back(path: Path)

  function SendWg(t: Table, key: Key, now: Time): Route {
    if key !in t.peers then NoPath else
    var p := t.peers[key];
    if p.best.Some? && p.best.value.trustUntil > now then Direct(p.best.value.addr) else
    if p.homeDerp != 0 then Relay(p.homeDerp) else
    if p.endpoints != [] then Guess(p.endpoints[0]) else NoPath
  }

  /** A WireGuard message and where it is sent. */
  datatype Sent = Sent(m: Wire, to: Route)

  function Sends(ms: seq<Wire>, to: Route): seq<Sent> {
    seq(|ms|, i requires 0 <= i < |ms| => Sent(ms[i], to))
  }

  /** The outcome of a packet: the table, whether it was authenticated as coming from a peer over
      this path, the IP packet handed to the sink, if any, and what is sent. */
  datatype Outcome = Outcome(t: Table, from: Option<Key>, sink: Option<Bytes>, out: seq<Sent>)

  function Dropped(t: Table): Outcome {
    Outcome(t, None, None, [])
  }

  function OnInitiation(t: Table, path: Path, m: Wire, now: Time, d: Draw): Outcome {
    match ConsumeInitiation(t.local, m)
    case Err(_) => Dropped(t)
    case Ok(ci) => Accepted(t, path, ci, now, d)
  }

  function Accepted(t: Table, path: Path, ci: Consumed, now: Time, d: Draw): Outcome {
    if ci.peer !in t.peers then Dropped(t) else
    var (tunn, r) := AcceptInitiation(t.peers[ci.peer].tunn, ci, now, d);
    if r.Err? then Dropped(t) else
    Outcome(Noted(Retunnel(t, ci.peer, tunn), ci.peer, path, now), Some(ci.peer), None, [Sent(r.value, Back(path))])
  }

  /** An index whose peer is gone is dropped. */
  function Unmapped(t: Table, m: Wire): Table {
    if m.Response? || m.Transport? then t.(byIndex := t.byIndex - {m.receiver}) else t
  }

  /** The response handler once its peer is found. */
  function ResponseFor(t: Table, owner: Option<Key>, path: Path, m: Wire, now: Time): Outcome {
    if owner.None? then Dropped(t) else
    if owner.value !in t.peers then Dropped(Unmapped(t, m)) else
    var (tunn, r) := ConsumeResponse(t.peers[owner.value].tunn, m, now);
    if r.Err? then Dropped(t) else
    var t' := Noted(Retunnel(t, owner.value, tunn), owner.value, path, now);
    Outcome(t', Some(owner.value), None, Sends(r.value, SendWg(t', owner.value, now)))
  }

  predicate AllowedSource(p: Peer, ip: Bytes) {
    match IpSrc(ip)
    case Some(src) => exists i :: 0 <= i < |p.allowedIps| && Filter.CidrContains(p.allowedIps[i].net, p.allowedIps[i].bits, src)
    case None => false
  }

  function IpSrc(p: Bytes): Option<Filter.IpAddr> {
    if p == [] then None else
    if p[0] / 16 == 4 && |p| >= 20 then Some(Filter.V4(Filter.Number(p[12..16]))) else
    if p[0] / 16 == 6 && |p| >= 40 then Some(Filter.V6(Filter.Number(p[8..24]))) else None
  }

  function IpDst(p: Bytes): Option<Filter.IpAddr> {
    if p == [] then None else
    if p[0] / 16 == 4 && |p| >= 20 then Some(Filter.V4(Filter.Number(p[16..20]))) else
    if p[0] / 16 == 6 && |p| >= 40 then Some(Filter.V6(Filter.Number(p[24..40]))) else None
  }

  /** The transport handler once its peer is found. A failed check after decryption still leaves
      the tunnel's replay window moved on. */
  function TransportFor(t: Table, owner: Option<Key>, path: Path, m: Wire, now: Time): Outcome {
    if owner.None? then Dropped(t) else
    if owner.value !in t.peers then Dropped(Unmapped(t, m)) else
    var key := owner.value;
    var (tunn, r) := ConsumeTransport(t.peers[key].tunn, m, now);
    if r.Err? then Dropped(t) else
    var t1 := t.(peers := t.peers[key := t.peers[key].(tunn := tunn)]);
    if r.value.Some? && !AllowedSource(t.peers[key], r.value.value) then Dropped(t1) else
    var t2 := Noted(t1, key, path, now);
    if r.value.Some? && t.filter.Some? && Filter.Allows(t.filter.value, r.value.value) then Outcome(t2, Some(key), r.value, [])
    else Outcome(t2, Some(key), None, [])
  }

  function ByIndex(t: Table, index: nat): Option<Key> {
    if index in t.byIndex then Some(t.byIndex[index]) else None
  }

  function OnPacket(t: Table, path: Path, m: Wire, now: Time, d: Draw): Outcome {
    match m
    case Initiation(_, _, _, _, _) => OnInitiation(t, path, m, now, d)
    case Response(_, receiver, _, _, _) => ResponseFor(t, ByIndex(t, receiver), path, m, now)
    case Transport(receiver, _, _) => TransportFor(t, ByIndex(t, receiver), path, m, now)
    case Junk(_) => Dropped(t)
  }

  /** The owner moved the peer's tunnel: a packet to send, or the timer. */
  function Drive(t: Table, key: Key, ev: TunnelRuns.Event): Table {
    if key !in t.peers then t else Retunnel(t, key, TunnelRuns.Step(t.peers[key].tunn, ev).0)
  }

  // ---- paths ----

  function WithPeer(t: Table, key: Key, p: Peer): Table {
    t.(peers := t.peers[key := p])
  }

  function Recent(pings: map<TxId, Ping>, now: Time): map<TxId, Ping> {
    if |pings| <= MAX_PINGS then pings else map x | x in pings && Since(now, pings[x].sentAt) < PING_KEPT :: pings[x]
  }

  function SendPing(t: Table, key: Key, addr: Addr, tx: TxId, now: Time): Table {
    if key !in t.peers then t else
    var p := t.peers[key];
    WithPeer(t, key, p.(pings := Recent(p.pings, now)[tx := Ping(addr, now)]))
  }

  predicate Better(best: Option<Best>, addr: Addr, latency: nat, now: Time) {
    best.None? || best.value.trustUntil <= now || best.value.addr == addr || latency + 5 < best.value.latency
  }

  /** The ping a pong under disco key `sender` answers. */
  function PingAnswered(t: Table, sender: Disco, tx: TxId): Option<(Key, Ping)> {
    if sender !in t.byDisco then None else
    var key := t.byDisco[sender];
    if key !in t.peers || tx !in t.peers[key].pings then None else Some((key, t.peers[key].pings[tx]))
  }

  function OnPong(t: Table, sender: Disco, tx: TxId, now: Time): Table {
    match PingAnswered(t, sender, tx)
    case None => t
    case Some((key, ping)) =>
      var p := t.peers[key];
      var latency := Since(now, ping.sentAt);
      WithPeer(t, key, p.(pings := p.pings - {tx},
        best := if Better(p.best, ping.addr, latency, now) then Some(Best(ping.addr, now + TRUST_UDP_ADDR, latency)) else p.best))
  }

  /** Maintenance drops a path whose trust ran out. */
  function ExpireBest(t: Table, key: Key, now: Time): Table {
    if key !in t.peers then t else
    var p := t.peers[key];
    WithPeer(t, key, p.(best := if p.best.Some? && p.best.value.trustUntil <= now then None else p.best))
  }

  /** New endpoints from a call-me-maybe, up to a limit. */
  function Learnt(have: seq<Addr>, more: seq<Addr>): seq<Addr>
    decreases |more|
  {
    if more == [] then have else
    Learnt(if more[0] !in have && |have| < MAX_ENDPOINTS then have + [more[0]] else have, more[1..])
  }

  function CallMe(t: Table, sender: Disco, more: seq<Addr>): Table {
    if sender !in t.byDisco || t.byDisco[sender] !in t.peers then t else
    var p := t.peers[t.byDisco[sender]];
    WithPeer(t, t.byDisco[sender], p.(endpoints := Learnt(p.endpoints, more)))
  }
}
