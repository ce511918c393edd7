/** The packet mover as it runs: maps reassigned in place by handlers, proved against the table. */
module MagicSock {
  import opened Common
  import opened Noise
  import opened TunnelSpec
  import opened PeerTable
  import TunnelRuns
  import PeerIndex
  import Filter
  import IpBytes

  function ChangeAll(t: Table, nodes: seq<NodeInfo>): Table {
    if nodes == [] then t else ChangePeer(ChangeAll(t, nodes[..|nodes| - 1]), nodes[|nodes| - 1])
  }

  /** Removal and patches go by node id; an unknown id is skipped. */
  function RemoveAll(t: Table, ids: seq<int>, nodesById: map<int, Key>): Table {
    if ids == [] then t else
    var t1 := RemoveAll(t, ids[..|ids| - 1], nodesById);
    var id := ids[|ids| - 1];
    if id in nodesById then RemovePeer(t1, nodesById[id]) else t1
  }

  datatype PeerChange = PeerChange(nodeId: int, region: int, endpoints: Option<seq<Addr>>, disco: Option<Disco>)

  function PatchAll(t: Table, patches: seq<PeerChange>, nodesById: map<int, Key>): Table {
    if patches == [] then t else
    var t1 := PatchAll(t, patches[..|patches| - 1], nodesById);
    var pc := patches[|patches| - 1];
    if pc.nodeId in nodesById then PatchPeer(t1, Patch(nodesById[pc.nodeId], pc.region, pc.endpoints, pc.disco)) else t1
  }

  /** `c` of peer `k` covers the address. */
  predicate Covers(peers: map<Key, Peer>, k: Key, c: Cidr, dst: Filter.IpAddr) {
    k in peers && c in peers[k].allowedIps && Filter.InBlock(c.net, c.bits, dst)
  }

  ghost predicate Longest(peers: map<Key, Peer>, key: Key, dst: Filter.IpAddr) {
    exists c :: Covers(peers, key, c, dst) && forall k, c' :: Covers(peers, k, c', dst) ==> c'.bits <= c.bits
  }

  class MagicSock {
    var local: nat
    var peers: map<Key, Peer>
    var byDisco: map<Disco, Key>
    var byIndex: map<nat, Key>
    var filter: Option<seq<Filter.Rule>>

    function View(): Table
      reads this
    {
      Table(local, peers, byDisco, byIndex, filter)
    }

    constructor (nodeKey: nat)
      ensures View() == Empty(nodeKey)
    {
      local, peers, byDisco, byIndex, filter := nodeKey, map[], map[], map[], None;
    }

    method SetPeers(nodes: seq<NodeInfo>)
      modifies this
      ensures View() == PeerTable.SetPeers(old(View()), nodes)
    {
      var rest := peers;
      peers, byDisco, byIndex := map[], map[], map[];
      for i := 0 to |nodes|
        invariant (View(), rest) == CarryAll(Bare(old(View())), old(peers), nodes[..i])
      {
        assert nodes[..i + 1][..i] == nodes[..i];
        var n := nodes[i];
        if n.key.None? { continue; }
        var key := n.key.value;
        var peer := if key in rest then rest[key] else NewPeer(local, key);
        rest := rest - {key};
        peer := ApplyNode(peer, n);
        if peer.disco.Some? { byDisco := byDisco[peer.disco.value := key]; }
        byIndex := PutIndices(byIndex, LocalIndices(peer.tunn), key);
        peers := peers[key := peer];
      }
      assert nodes[..|nodes|] == nodes;
    }

    method PeersChanged(nodes: seq<NodeInfo>)
      modifies this
      ensures View() == ChangeAll(old(View()), nodes)
    {
      for i := 0 to |nodes|
        invariant View() == ChangeAll(old(View()), nodes[..i])
      {
        assert nodes[..i + 1][..i] == nodes[..i];
        var n := nodes[i];
        if n.key.None? { continue; }
        var key := n.key.value;
        var peer := if key in peers then peers[key] else NewPeer(local, key);
        if peer.disco.Some? { byDisco := byDisco - {peer.disco.value}; }
        peer := ApplyNode(peer, n);
        if peer.disco.Some? { byDisco := byDisco[peer.disco.value := key]; }
        peers := peers[key := peer];
      }
      assert nodes[..|nodes|] == nodes;
    }

    method PeersRemoved(ids: seq<int>, nodesById: map<int, Key>)
      modifies this
      ensures View() == RemoveAll(old(View()), ids, nodesById)
    {
      for i := 0 to |ids|
        invariant View() == RemoveAll(old(View()), ids[..i], nodesById)
      {
        assert ids[..i + 1][..i] == ids[..i];
        if ids[i] in nodesById && nodesById[ids[i]] in peers {
          var key := nodesById[ids[i]];
          var p := peers[key];
          peers := peers - {key};
          if p.disco.Some? { byDisco := byDisco - {p.disco.value}; }
          byIndex := map x | x in byIndex && byIndex[x] != key :: byIndex[x];
        }
      }
      assert ids[..|ids|] == ids;
    }

    method ApplyPatches(patches: seq<PeerChange>, nodesById: map<int, Key>)
      modifies this
      ensures View() == PatchAll(old(View()), patches, nodesById)
    {
      for i := 0 to |patches|
        invariant View() == PatchAll(old(View()), patches[..i], nodesById)
      {
        assert patches[..i + 1][..i] == patches[..i];
        var pc := patches[i];
        if pc.nodeId !in nodesById || nodesById[pc.nodeId] !in peers { continue; }
        var key := nodesById[pc.nodeId];
        var peer := peers[key];
        if pc.region != 0 { peer := peer.(homeDerp := pc.region); }
        if pc.endpoints.Some? { peer := peer.(endpoints := pc.endpoints.value); }
        if pc.disco.Some? {
          if peer.disco.Some? { byDisco := byDisco - {peer.disco.value}; }
          byDisco := byDisco[pc.disco.value := key];
          peer := peer.(disco := pc.disco);
        }
        peers := peers[key := peer];
      }
      assert patches[..|patches|] == patches;
    }

    method SetNodeKey(nodeKey: nat)
      modifies this
      ensures View() == PeerTable.SetNodeKey(old(View()), nodeKey)
    {
      local := nodeKey;
      byIndex := map[];
      var todo := peers.Keys;
      while todo != {}
        invariant todo <= old(peers).Keys && peers.Keys == old(peers).Keys
        invariant local == nodeKey && byIndex == map[] && byDisco == old(byDisco) && filter == old(filter)
        invariant forall k <- peers :: peers[k] == if k in todo then old(peers)[k] else old(peers)[k].(tunn := New(nodeKey, k), best := None)
        decreases todo
      {
        var k :| k in todo;
        peers := peers[k := peers[k].(tunn := New(nodeKey, k), best := None)];
        todo := todo - {k};
      }
    }

    method RefreshIndices(key: Key)
      modifies this`byIndex
      ensures byIndex == if key in peers then Refresh(old(byIndex), key, LocalIndices(peers[key].tunn)) else old(byIndex)
    {
      if key in peers {
        var current := LocalIndices(peers[key].tunn);
        byIndex := map i | i in byIndex && (byIndex[i] != key || i in current) :: byIndex[i];
        byIndex := PutIndices(byIndex, current, key);
      }
    }

    method NotePath(key: Key, path: Path, now: Time)
      modifies this`peers
      ensures View() == if key in old(peers) then Noted(old(View()), key, path, now) else old(View())
    {
      if path.Udp? && key in peers {
        var p := peers[key];
        if p.best.Some? && p.best.value.addr == path.addr {
          p := p.(best := Some(p.best.value.(trustUntil := now + TRUST_UDP_ADDR)));
        } else if p.best.Some? && p.best.value.trustUntil > now {
        } else {
          p := p.(best := Some(Best(path.addr, now + TRUST_UDP_ADDR, 0)));
        }
        peers := peers[key := p];
      } else if key in peers {
        assert peers == peers[key := peers[key]];
      }
    }

    /** The new table, the packet for the sink and the messages sent, each with where it goes. */
    method HandlePacket(path: Path, m: Wire, now: Time, d: Draw) returns (sink: Option<Bytes>, out: seq<Sent>)
      modifies this
      ensures var o := OnPacket(old(View()), path, m, now, d); View() == o.t && sink == o.sink && out == o.out
    {
      sink, out := None, [];
      match m
      case Initiation(_, _, _, _, _) => out := HandleInitiation(path, m, now, d);
      case Response(_, _, _, _, _) => out := HandleResponse(path, m, now);
      case Transport(_, _, _) => sink := HandleTransport(path, m, now);
      case Junk(_) =>
    }

    method HandleInitiation(path: Path, m: Wire, now: Time, d: Draw) returns (out: seq<Sent>)
      modifies this
      ensures var o := OnInitiation(old(View()), path, m, now, d); View() == o.t && out == o.out
    {
      var c := ConsumeInitiation(local, m);
      if c.Err? { return []; }
      out := AcceptFrom(path, c.value, now, d);
    }

    /** The answer goes back over the path the initiation came by. */
    method AcceptFrom(path: Path, ci: Consumed, now: Time, d: Draw) returns (out: seq<Sent>)
      modifies this
      ensures var o := Accepted(old(View()), path, ci, now, d); View() == o.t && out == o.out
    {
      if ci.peer !in peers { return []; }
      var (tunn, r) := AcceptInitiation(peers[ci.peer].tunn, ci, now, d);
      if r.Err? { return []; }
      peers := peers[ci.peer := peers[ci.peer].(tunn := tunn)];
      RefreshIndices(ci.peer);
      NotePath(ci.peer, path, now);
      out := [Sent(r.value, Back(path))];
    }

    /** What waited for the handshake goes out over the best path, the new one included. */
    method HandleResponse(path: Path, m: Wire, now: Time) returns (out: seq<Sent>)
      requires m.Response?
      modifies this
      ensures var o := ResponseFor(old(View()), ByIndex(old(View()), m.receiver), path, m, now); View() == o.t && out == o.out
    {
      if m.receiver !in byIndex { return []; }
      var key := byIndex[m.receiver];
      if key !in peers {
        byIndex := byIndex - {m.receiver};
        return [];
      }
      var (tunn, r) := ConsumeResponse(peers[key].tunn, m, now);
      if r.Err? { return []; }
      peers := peers[key := peers[key].(tunn := tunn)];
      RefreshIndices(key);
      NotePath(key, path, now);
      out := SendAll(key, r.value, now);
    }

    /** Sends messages to a peer, one after the other. */
    method SendAll(key: Key, ms: seq<Wire>, now: Time) returns (out: seq<Sent>)
      ensures out == Sends(ms, SendWg(View(), key, now))
    {
      out := [];
      for i := 0 to |ms|
        invariant out == Sends(ms[..i], SendWg(View(), key, now))
      {
        var to := ChoosePath(key, now);
        out := out + [Sent(ms[i], to)];
      }
      assert ms[..|ms|] == ms;
    }

    method ChoosePath(key: Key, now: Time) returns (to: Route)
      ensures to == SendWg(View(), key, now)
    {
      if key !in peers { return NoPath; }
      var p := peers[key];
      if p.best.Some? && p.best.value.trustUntil > now { return Direct(p.best.value.addr); }
      if p.homeDerp != 0 { return Relay(p.homeDerp); }
      if p.endpoints != [] { return Guess(p.endpoints[0]); }
      return NoPath;
    }

    method HandleTransport(path: Path, m: Wire, now: Time) returns (sink: Option<Bytes>)
      requires m.Transport?
      modifies this
      ensures View() == TransportFor(old(View()), ByIndex(old(View()), m.receiver), path, m, now).t
      ensures sink == TransportFor(old(View()), ByIndex(old(View()), m.receiver), path, m, now).sink
    {
      sink := None;
      if m.receiver !in byIndex { return; }
      var key := byIndex[m.receiver];
      if key !in peers { byIndex := byIndex - {m.receiver}; return; }
      var (tunn, r) := ConsumeTransport(peers[key].tunn, m, now);
      if r.Err? { return; }
      peers := peers[key := peers[key].(tunn := tunn)];
      if r.value.Some? {
        if !AllowedSource(peers[key], r.value.value) { return; }
        NotePath(key, path, now);
        if filter.Some? && Filter.Allows(filter.value, r.value.value) { sink := r.value; }
      } else {
        NotePath(key, path, now);
      }
    }

    method HandlePong(sender: Disco, tx: TxId, now: Time)
      modifies this`peers
      ensures View() == OnPong(old(View()), sender, tx, now)
    {
      if sender !in byDisco { return; }
      var key := byDisco[sender];
      if key !in peers || tx !in peers[key].pings { return; }
      var p := peers[key];
      var ping := p.pings[tx];
      var latency := Since(now, ping.sentAt);
      p := p.(pings := p.pings - {tx});
      if p.best.None? || p.best.value.trustUntil <= now || p.best.value.addr == ping.addr || latency + 5 < p.best.value.latency {
        p := p.(best := Some(Best(ping.addr, now + TRUST_UDP_ADDR, latency)));
      }
      peers := peers[key := p];
    }

    method Ping(key: Key, addr: Addr, tx: TxId, now: Time)
      modifies this`peers
      ensures View() == SendPing(old(View()), key, addr, tx, now)
    {
      if key !in peers { return; }
      var p := peers[key];
      if |p.pings| > 32 { p := p.(pings := map x | x in p.pings && Since(now, p.pings[x].sentAt) < PING_KEPT :: p.pings[x]); }
      peers := peers[key := p.(pings := p.pings[tx := PeerTable.Ping(addr, now)])];
    }

    /** Endpoints a peer tells us of are added in order, without repeats and up to a limit. */
    method CallMeMaybe(sender: Disco, more: seq<Addr>)
      modifies this`peers
      ensures View() == CallMe(old(View()), sender, more)
    {
      if sender !in byDisco || byDisco[sender] !in peers { return; }
      var key := byDisco[sender];
      var have := peers[key].endpoints;
      assert more[0..] == more;
      for i := 0 to |more|
        invariant Learnt(have, more[i..]) == Learnt(peers[key].endpoints, more)
      {
        assert more[i..][1..] == more[i + 1..];
        if more[i] !in have && |have| < MAX_ENDPOINTS { have := have + [more[i]]; }
      }
      peers := peers[key := peers[key].(endpoints := have)];
    }

    /** While there is traffic, a path whose trust has ended is dropped. */
    method CheckPath(key: Key, now: Time, active: bool)
      modifies this`peers
      ensures View() == if active then ExpireBest(old(View()), key, now) else old(View())
    {
      if active && key in peers {
        var p := peers[key];
        if p.best.Some? && p.best.value.trustUntil <= now { p := p.(best := None); }
        peers := peers[key := p];
      }
    }

    /** The longest prefix wins: a peer is found exactly when some allowed prefix covers the
        address, and then no covering prefix of any peer is longer than one of its own. */
    method Route(dst: Filter.IpAddr) returns (found: Option<Key>)
      ensures found.None? <==> forall k, c :: !Covers(peers, k, c, dst)
      ensures found.Some? ==> Longest(peers, found.value, dst)
    {
      var best: Option<(nat, Key)> := None;
      var todo := peers.Keys;
      while todo != {}
        invariant todo <= peers.Keys
        invariant best.None? ==> forall k, c :: k !in todo ==> !Covers(peers, k, c, dst)
        invariant best.Some? ==> exists c :: Covers(peers, best.value.1, c, dst) && c.bits == best.value.0
        invariant best.Some? ==> forall k, c :: k !in todo && Covers(peers, k, c, dst) ==> c.bits <= best.value.0
        decreases todo
      {
        var key :| key in todo;
        todo := todo - {key};
        best := RouteVia(key, dst, best);
      }
      found := if best.Some? then Some(best.value.1) else None;
    }

    /** One peer's prefixes, in order; only a strictly longer prefix replaces the best so far. */
    method RouteVia(key: Key, dst: Filter.IpAddr, before: Option<(nat, Key)>) returns (best: Option<(nat, Key)>)
      requires key in peers
      requires before.Some? ==> exists c :: Covers(peers, before.value.1, c, dst) && c.bits == before.value.0
      ensures before.Some? ==> best.Some? && best.value.0 >= before.value.0
      ensures best.Some? ==> exists c :: Covers(peers, best.value.1, c, dst) && c.bits == best.value.0
      ensures forall c :: Covers(peers, key, c, dst) ==> best.Some? && c.bits <= best.value.0
    {
      best := before;
      var cidrs := peers[key].allowedIps;
      for i := 0 to |cidrs|
        invariant before.Some? ==> best.Some? && best.value.0 >= before.value.0
        invariant best.Some? ==> exists c :: Covers(peers, best.value.1, c, dst) && c.bits == best.value.0
        invariant forall c :: c in cidrs[..i] && Filter.InBlock(c.net, c.bits, dst) ==> best.Some? && c.bits <= best.value.0
      {
        var c := cidrs[i];
        Filter.CidrIsInBlock(c.net, c.bits, dst);
        if Filter.CidrContains(c.net, c.bits, dst) && (best.None? || c.bits > best.value.0) {
          best := Some((c.bits, key));
          assert Covers(peers, key, c, dst);
        }
      }
      assert cidrs[..|cidrs|] == cidrs;
    }

    /** A packet from the local stack goes into the tunnel of the peer with the longest covering
        prefix, or nowhere when there is none. */
    method SendIp(pkt: Bytes, now: Time, d: Draw) returns (to: Option<Key>, out: seq<Sent>)
      modifies this
      ensures to.None? ==> View() == old(View()) && out == []
      ensures to.None? <==> forall dst, k, c :: IpBytes.DestIs(pkt, dst) ==> !Covers(old(peers), k, c, dst)
      ensures to.Some? ==> exists dst :: IpBytes.DestIs(pkt, dst) && Longest(old(peers), to.value, dst)
      ensures to.Some? ==> View() == Drive(old(View()), to.value, TunnelRuns.Send(pkt, now, d))
      ensures to.Some? ==> out == Sends(TunnelRuns.Step(old(peers)[to.value].tunn, TunnelRuns.Send(pkt, now, d)).1, SendWg(old(View()), to.value, now))
    {
      to, out := None, [];
      var dst := IpDst(pkt);
      if dst.None? {
        forall a ensures !IpBytes.DestIs(pkt, a) { IpBytes.DestRead(pkt, a); }
        return;
      }
      forall a ensures IpBytes.DestIs(pkt, a) <==> a == dst.value { IpBytes.DestRead(pkt, a); }
      to := Route(dst.value);
      if to.None? { return; }
      var (tunn, msgs) := Encapsulate(peers[to.value].tunn, pkt, now, d);
      peers := peers[to.value := peers[to.value].(tunn := tunn)];
      RefreshIndices(to.value);
      out := SendAll(to.value, msgs, now);
    }

    /** Each tunnel is ticked once, in whatever order the map yields its peers, and what it sends goes
        to its peer; the indexes stay right when the draws are fresh. */
    method Tick(now: Time, draw: map<Key, Draw>) returns (out: map<Key, seq<Sent>>)
      requires peers.Keys <= draw.Keys
      modifies this
      ensures Ticked(old(View()), View(), {}, now, draw) && TickSent(old(View()), out, {}, now, draw)
      ensures PeerIndex.Inv(old(View())) && FreshDraws(old(View()), old(peers).Keys, draw) ==> PeerIndex.Kept(old(View()), View())
    {
      var todo := peers.Keys;
      out := map[];
      ghost var sound := PeerIndex.Inv(View()) && FreshDraws(View(), todo, draw);
      while todo != {}
        invariant Ticked(old(View()), View(), todo, now, draw) && TickSent(old(View()), out, todo, now, draw)
        invariant sound ==> PeerIndex.Kept(old(View()), View()) && FreshDraws(View(), todo, draw)
        decreases todo
      {
        var key :| key in todo;
        if sound { TickedKeeps(old(View()), View(), key, todo, draw, now); }
        TickedMore(old(View()), View(), key, todo, now, draw);
        TickSentMore(old(View()), View(), out, key, todo, now, draw);
        todo := todo - {key};
        var sent := TickPeer(key, now, draw[key]);
        out := out[key := sent];
      }
    }

    method TickPeer(key: Key, now: Time, d: Draw) returns (out: seq<Sent>)
      requires key in peers
      modifies this`peers, this`byIndex
      ensures View() == Drive(old(View()), key, TunnelRuns.TickAt(now, d))
      ensures out == Sends(TunnelSpec.Tick(old(peers)[key].tunn, now, d).1, SendWg(old(View()), key, now))
    {
      var (tunn, msgs) := TunnelSpec.Tick(peers[key].tunn, now, d);
      peers := peers[key := peers[key].(tunn := tunn)];
      RefreshIndices(key);
      out := SendAll(key, msgs, now);
    }
  }

  /** What every peer but those in `todo` was sent. */
  ghost predicate TickSent(t: Table, out: map<Key, seq<Sent>>, todo: set<Key>, now: Time, draw: map<Key, Draw>) {
    && out.Keys == t.peers.Keys - todo && t.peers.Keys <= draw.Keys
    && forall k <- out :: out[k] == Sends(TunnelSpec.Tick(t.peers[k].tunn, now, draw[k]).1, SendWg(t, k, now))
  }

  /** Every peer but those in `todo` had its tunnel ticked; nothing else about it changed. */
  ghost predicate Ticked(t: Table, t': Table, todo: set<Key>, now: Time, draw: map<Key, Draw>) {
    && todo <= t'.peers.Keys == t.peers.Keys <= draw.Keys
    && t'.local == t.local && t'.byDisco == t.byDisco && t'.filter == t.filter
    && forall k <- t'.peers :: t'.peers[k] == if k in todo then t.peers[k] else t.peers[k].(tunn := TunnelSpec.Tick(t.peers[k].tunn, now, draw[k]).0)
  }

  lemma TickedMore(t: Table, t': Table, key: Key, todo: set<Key>, now: Time, draw: map<Key, Draw>)
    requires Ticked(t, t', todo, now, draw) && key in todo
    ensures Ticked(t, Drive(t', key, TunnelRuns.TickAt(now, draw[key])), todo - {key}, now, draw)
  {
  }

  /** The indices drawn for the peers still to come are different and live nowhere. */
  ghost predicate FreshDraws(t: Table, todo: set<Key>, draw: map<Key, Draw>) {
    && todo <= t.peers.Keys && todo <= draw.Keys
    && (forall k <- todo, p <- t.peers :: draw[k].index !in LocalIndices(t.peers[p].tunn))
    && (forall k <- todo, l <- todo :: k != l ==> draw[k].index != draw[l].index)
  }

  lemma TickSentMore(t: Table, t': Table, out: map<Key, seq<Sent>>, key: Key, todo: set<Key>, now: Time, draw: map<Key, Draw>)
    requires Ticked(t, t', todo, now, draw) && TickSent(t, out, todo, now, draw) && key in todo
    ensures TickSent(t, out[key := Sends(TunnelSpec.Tick(t'.peers[key].tunn, now, draw[key]).1, SendWg(t', key, now))], todo - {key}, now, draw)
  {
    assert t'.peers[key] == t.peers[key];
  }

  lemma TickedKeeps(before: Table, t: Table, key: Key, todo: set<Key>, draw: map<Key, Draw>, now: Time)
    requires PeerIndex.Kept(before, t) && FreshDraws(t, todo, draw) && key in todo
    ensures var t' := Drive(t, key, TunnelRuns.TickAt(now, draw[key])); PeerIndex.Kept(before, t') && FreshDraws(t', todo - {key}, draw)
  {
    var ev := TunnelRuns.TickAt(now, draw[key]);
    PeerIndex.DriveKeeps(t, key, ev);
    PeerIndex.IndicesFrom(t.peers[key].tunn, ev);
  }
}
