/** The indexes beside the peer table agree with a scan of the peers, and the gate in front of the
    IP sink is exact. */
module PeerIndex {
  import opened Common
  import opened Noise
  import opened TunnelSpec
  import opened PeerTable
  import TunnelRuns
  import Handshake
  import Filter
  import Replay
  import IpBytes

  // ---- the indexes ----

  /** The tunnel that would take a message for this index. */
  predicate Owns(t: Table, key: Key, index: nat) {
    key in t.peers && index in LocalIndices(t.peers[key].tunn)
  }

  predicate Maps(t: Table, key: Key, index: nat) {
    index in t.byIndex && t.byIndex[index] == key
  }

  ghost predicate IndexComplete(t: Table) {
    forall k, i :: Owns(t, k, i) ==> Maps(t, k, i)
  }

  predicate IndexPresent(t: Table) {
    forall i <- t.byIndex :: t.byIndex[i] in t.peers
  }

  predicate DiscoSound(t: Table) {
    forall d <- t.byDisco :: t.byDisco[d] in t.peers && t.peers[t.byDisco[d]].disco == Some(d)
  }

  predicate TunnelsOwn(t: Table) {
    forall k <- t.peers :: t.peers[k].tunn.local == t.local && t.peers[k].tunn.peer == k
  }

  /** The receiver index names every live index, and only present peers. */
  ghost predicate Inv(t: Table) {
    IndexComplete(t) && IndexPresent(t) && TunnelsOwn(t)
  }

  /** Both indexes stay right: the receiver index, and the disco index if it was. */
  ghost predicate Kept(t: Table, t': Table) {
    Inv(t') && (DiscoSound(t) ==> DiscoSound(t'))
  }

  /** A freshly drawn index is not live at another peer. */
  predicate FreshIndex(t: Table, key: Key, d: Draw) {
    forall k <- t.peers :: k != key ==> d.index !in LocalIndices(t.peers[k].tunn)
  }

  lemma RetunnelKeeps(t: Table, key: Key, tunn: Tunn)
    requires Inv(t) && key in t.peers && tunn.local == t.local && tunn.peer == key
    requires forall k <- t.peers :: k != key ==> LocalIndices(tunn) !! LocalIndices(t.peers[k].tunn)
    ensures Kept(t, Retunnel(t, key, tunn))
  {
    var t' := Retunnel(t, key, tunn);
    forall k, i | Owns(t', k, i) ensures Maps(t', k, i) {
      if k != key { assert Owns(t, k, i) && Maps(t, k, i) && i !in LocalIndices(tunn); }
    }
  }

  /** Tunnel operations only bring in the index they drew. */
  lemma IndicesFrom(t: Tunn, ev: TunnelRuns.Event)
    ensures var t' := TunnelRuns.Step(t, ev).0;
            && t'.local == t.local && t'.peer == t.peer
            && LocalIndices(t') <= LocalIndices(t) + (if TunnelRuns.Draws(ev) then {ev.d.index} else {})
  {
    match ev
    case Send(plain, now, d) => IndicesSend(t, plain, now, d);
    case Ensure(now, d) =>
    case TickAt(now, d) => IndicesTick(t, now, d);
    case GotInitiation(m, now, d) => IndicesTake(t, m, now, d);
    case GotResponse(m, now) => IndicesResponse(t, m, now);
    case GotTransport(m, now) =>
  }

  lemma IndicesSend(t: Tunn, plain: Bytes, now: Time, d: Draw)
    ensures var t' := Encapsulate(t, plain, now, d).0; t'.local == t.local && t'.peer == t.peer && LocalIndices(t') <= LocalIndices(t) + {d.index}
  {
  }

  lemma IndicesTake(t: Tunn, m: Wire, now: Time, d: Draw)
    ensures var t' := TunnelRuns.TakeInitiation(t, m, now, d).0; t'.local == t.local && t'.peer == t.peer && LocalIndices(t') <= LocalIndices(t) + {d.index}
  {
  }

  lemma IndicesTick(t: Tunn, now: Time, d: Draw)
    ensures var t' := Tick(t, now, d).0; t'.local == t.local && t'.peer == t.peer && LocalIndices(t') <= LocalIndices(t) + {d.index}
  {
    TunnelRuns.QuietInitiate(t.(current := Live(t.current, now), previous := Live(t.previous, now)), now, d);
  }

  lemma IndicesResponse(t: Tunn, m: Wire, now: Time)
    ensures var t' := ConsumeResponse(t, m, now).0; t'.local == t.local && t'.peer == t.peer && LocalIndices(t') <= LocalIndices(t)
  {
    if ConsumeResponse(t, m, now).1.Ok? {
      TunnelRuns.ResponseForm(t, m, now);
      Handshake.SealAllKeeps(TunnelRuns.Installed(t, m, now), t.queued);
    }
  }

  /** Live indices of different peers are different. */
  lemma LiveApart(t: Table, a: Key, b: Key)
    requires IndexComplete(t) && a in t.peers && b in t.peers && a != b
    ensures LocalIndices(t.peers[a].tunn) !! LocalIndices(t.peers[b].tunn)
  {
    forall i | i in LocalIndices(t.peers[a].tunn) && i in LocalIndices(t.peers[b].tunn) ensures false {
      assert Owns(t, a, i) && Owns(t, b, i);
    }
  }

  lemma TunnelStepKeeps(t: Table, key: Key, ev: TunnelRuns.Event)
    requires Inv(t) && key in t.peers && (TunnelRuns.Draws(ev) ==> FreshIndex(t, key, ev.d))
    ensures Kept(t, Retunnel(t, key, TunnelRuns.Step(t.peers[key].tunn, ev).0))
  {
    IndicesFrom(t.peers[key].tunn, ev);
    var tunn := TunnelRuns.Step(t.peers[key].tunn, ev).0;
    forall k <- t.peers | k != key ensures LocalIndices(tunn) !! LocalIndices(t.peers[k].tunn) { LiveApart(t, key, k); }
    RetunnelKeeps(t, key, tunn);
  }

  // ---- every handler keeps the indexes right ----

  lemma DriveKeeps(t: Table, key: Key, ev: TunnelRuns.Event)
    requires Inv(t) && (key in t.peers && TunnelRuns.Draws(ev) ==> FreshIndex(t, key, ev.d))
    ensures Kept(t, Drive(t, key, ev))
  {
    if key in t.peers { TunnelStepKeeps(t, key, ev); }
  }

  /** A peer whose tunnel and disco key stay the same. */
  lemma WithPeerKeeps(t: Table, key: Key, p: Peer)
    requires Inv(t) && key in t.peers
    requires p.tunn == t.peers[key].tunn && p.disco == t.peers[key].disco
    ensures Kept(t, WithPeer(t, key, p))
  {
    var t' := WithPeer(t, key, p);
    forall k, i | Owns(t', k, i) ensures Maps(t', k, i) {
      assert Owns(t, k, i) && Maps(t, k, i);
    }
  }

  /** The index map is untouched and no tunnel gained an index. */
  lemma OwnersKeep(t: Table, t': Table)
    requires IndexComplete(t) && t'.byIndex == t.byIndex && (forall k, i :: Owns(t', k, i) ==> Owns(t, k, i))
    ensures IndexComplete(t')
  {
    forall k, i | Owns(t', k, i) ensures Maps(t', k, i) { assert Owns(t, k, i) && Maps(t, k, i); }
  }

  lemma ChangeOwns(t: Table, n: NodeInfo, k: Key, i: nat)
    requires Owns(ChangePeer(t, n), k, i)
    ensures Owns(t, k, i)
  {
  }

  lemma ChangeDisco(t: Table, n: NodeInfo)
    requires IndexPresent(t) && TunnelsOwn(t)
    ensures var t' := ChangePeer(t, n); (DiscoSound(t) ==> DiscoSound(t')) && IndexPresent(t') && TunnelsOwn(t')
  {
  }

  lemma ChangeKeeps(t: Table, n: NodeInfo)
    requires Inv(t)
    ensures Kept(t, ChangePeer(t, n))
  {
    forall k, i | Owns(ChangePeer(t, n), k, i) ensures Owns(t, k, i) { ChangeOwns(t, n, k, i); }
    OwnersKeep(t, ChangePeer(t, n));
    ChangeDisco(t, n);
  }

  lemma RemoveDisco(t: Table, key: Key)
    requires IndexPresent(t) && TunnelsOwn(t)
    ensures var t' := RemovePeer(t, key); (DiscoSound(t) ==> DiscoSound(t')) && IndexPresent(t') && TunnelsOwn(t')
  {
  }

  lemma RemoveKeeps(t: Table, key: Key)
    requires Inv(t)
    ensures Kept(t, RemovePeer(t, key))
  {
    RemoveDisco(t, key);
    var t' := RemovePeer(t, key);
    forall k, i | Owns(t', k, i) ensures Maps(t', k, i) {
      assert Owns(t, k, i) && Maps(t, k, i);
    }
  }

  lemma PatchKeeps(t: Table, pc: Patch)
    requires Inv(t)
    ensures Kept(t, PatchPeer(t, pc))
  {
    var t' := PatchPeer(t, pc);
    forall k, i | Owns(t', k, i) ensures Maps(t', k, i) {
      assert Owns(t, k, i) && Maps(t, k, i);
    }
  }

  lemma RekeyKeeps(t: Table, local: nat)
    requires Inv(t)
    ensures Kept(t, SetNodeKey(t, local))
  {
  }

  // ---- full lists ----

  /** How often a list names a key. */
  function Mentions(nodes: seq<NodeInfo>, k: Key): nat {
    if nodes == [] then 0 else Mentions(nodes[..|nodes| - 1], k) + (if nodes[|nodes| - 1].key == Some(k) then 1 else 0)
  }

  /** A known peer named once keeps its tunnel and pings, and its direct path unless its disco key changed; any
      other is new. */
  predicate CameFrom(t: Table, nodes: seq<NodeInfo>, k: Key, p: Peer) {
    if k in t.peers && Mentions(nodes, k) == 1 then
      p.tunn == t.peers[k].tunn && p.pings == t.peers[k].pings
      && p.best == if LastDisco(nodes, k) == Some(t.peers[k].disco) then t.peers[k].best else None
    else p.tunn == New(t.local, k) && p.pings == map[] && p.best.None?
  }

  /** The list is carried over: the new table holds exactly the peers it names. */
  ghost predicate Carried(t: Table, nodes: seq<NodeInfo>, t': Table, rest: map<Key, Peer>) {
    && t'.local == t.local && t'.filter == t.filter
    && (forall k :: k in t'.peers <==> Mentions(nodes, k) > 0)
    && (forall k :: k in rest <==> k in t.peers && k !in t'.peers)
    && (forall k <- rest :: rest[k] == t.peers[k])
    && (forall k <- t'.peers :: CameFrom(t, nodes, k, t'.peers[k]))
  }

  lemma {:induction false} CarryAllExact(t: Table, nodes: seq<NodeInfo>)
    ensures var (t', rest) := CarryAll(Bare(t), t.peers, nodes); Carried(t, nodes, t', rest)
    decreases |nodes|
  {
    if nodes != [] {
      CarryAllExact(t, nodes[..|nodes| - 1]);
      var (t1, rest) := CarryAll(Bare(t), t.peers, nodes[..|nodes| - 1]);
      CarryOne(t, nodes, t1, rest);
    }
  }

  lemma CarryOne(t: Table, nodes: seq<NodeInfo>, t1: Table, rest: map<Key, Peer>)
    requires nodes != [] && Carried(t, nodes[..|nodes| - 1], t1, rest)
    ensures var (t', rest') := CarryOver(t1, rest, nodes[|nodes| - 1]); Carried(t, nodes, t', rest')
  {
    var n := nodes[|nodes| - 1];
    var (t', rest') := CarryOver(t1, rest, n);
    forall k <- t'.peers ensures CameFrom(t, nodes, k, t'.peers[k]) {
      if n.key != Some(k) { assert CameFrom(t, nodes[..|nodes| - 1], k, t1.peers[k]); }
    }
  }

  /** Putting in a peer in place of any before: nobody else holds its live indices. */
  lemma PutKeeps(t: Table, key: Key, p: Peer)
    requires Inv(t) && p.tunn.local == t.local && p.tunn.peer == key
    requires forall k <- t.peers :: k != key ==> LocalIndices(p.tunn) !! LocalIndices(t.peers[k].tunn)
    ensures Inv(t.(peers := t.peers[key := p], byDisco := PutDisco(t.byDisco, p.disco, key),
                   byIndex := PutIndices(t.byIndex, LocalIndices(p.tunn), key)))
  {
    var t' := t.(peers := t.peers[key := p], byDisco := PutDisco(t.byDisco, p.disco, key),
                 byIndex := PutIndices(t.byIndex, LocalIndices(p.tunn), key));
    forall k, i | Owns(t', k, i) ensures Maps(t', k, i) {
      if k != key { assert Owns(t, k, i) && Maps(t, k, i); }
    }
  }

  lemma {:induction false} CarryAllKeeps(t: Table, nodes: seq<NodeInfo>)
    requires Inv(t)
    ensures Inv(CarryAll(Bare(t), t.peers, nodes).0)
    decreases |nodes|
  {
    if nodes != [] {
      var before := nodes[..|nodes| - 1];
      CarryAllKeeps(t, before);
      CarryAllExact(t, before);
      var (t1, rest) := CarryAll(Bare(t), t.peers, before);
      CarryKeeps(t, before, t1, rest, nodes[|nodes| - 1]);
    }
  }

  /** A repeat puts in a new tunnel, which has no indices; what it leaves behind is stale. */
  lemma CarryKeeps(t: Table, before: seq<NodeInfo>, t1: Table, rest: map<Key, Peer>, n: NodeInfo)
    requires Inv(t) && Inv(t1) && Carried(t, before, t1, rest)
    ensures Inv(CarryOver(t1, rest, n).0)
  {
    if n.key.Some? {
      var key := n.key.value;
      var p := ApplyNode(if key in rest then rest[key] else NewPeer(t1.local, key), n);
      forall k <- t1.peers | k != key ensures LocalIndices(p.tunn) !! LocalIndices(t1.peers[k].tunn) {
        assert CameFrom(t, before, k, t1.peers[k]);
        if key in rest && k in t.peers { LiveApart(t, key, k); }
      }
      PutKeeps(t1, key, p);
    }
  }

  /** Any list leaves exactly the peers it names, and a sound receiver index; a known peer named
      once keeps its tunnel and its pings. */
  lemma SetPeersExact(t: Table, nodes: seq<NodeInfo>)
    requires Inv(t)
    ensures var t' := SetPeers(t, nodes);
            && Inv(t') && t'.local == t.local && t'.filter == t.filter
            && (forall k :: k in t'.peers <==> Mentions(nodes, k) > 0) && (forall k <- t'.peers :: CameFrom(t, nodes, k, t'.peers[k]))
  {
    CarryAllKeeps(t, nodes);
    CarryAllExact(t, nodes);
  }

  /** For any list, a known peer it names keeps its tunnel if and only if it is named once or the
      tunnel was a new one anyway; and so with its pings. */
  lemma TunnelKeptIff(t: Table, nodes: seq<NodeInfo>, k: Key)
    requires k in t.peers && Mentions(nodes, k) > 0
    ensures k in SetPeers(t, nodes).peers
    ensures SetPeers(t, nodes).peers[k].tunn == t.peers[k].tunn <==> Mentions(nodes, k) == 1 || t.peers[k].tunn == New(t.local, k)
    ensures SetPeers(t, nodes).peers[k].pings == t.peers[k].pings <==> Mentions(nodes, k) == 1 || t.peers[k].pings == map[]
  {
    CarryAllExact(t, nodes);
    assert CameFrom(t, nodes, k, SetPeers(t, nodes).peers[k]);
  }

  lemma MentionsMore(nodes: seq<NodeInfo>, n: NodeInfo, k: Key)
    ensures Mentions(nodes + [n], k) == Mentions(nodes, k) + if n.key == Some(k) then 1 else 0
  {
    assert (nodes + [n])[..|nodes|] == nodes;
  }

  /** A list that names one node twice drops a tunnel in use: its session is gone. */
  lemma RepeatedKeyReplaces(t: Table, n: NodeInfo, k: Key)
    requires n.key == Some(k) && k in t.peers && t.peers[k].tunn.current.Some?
    ensures k in SetPeers(t, [n, n]).peers && SetPeers(t, [n, n]).peers[k].tunn == New(t.local, k) != t.peers[k].tunn
  {
    CarryAllExact(t, [n, n]);
    MentionsMore([], n, k);
    MentionsMore([n], n, k);
    assert [] + [n] == [n] && [n] + [n] == [n, n] && Mentions([n, n], k) == 2;
    assert CameFrom(t, [n, n], k, SetPeers(t, [n, n]).peers[k]);
  }

  // ---- a list that names a key twice ----

  /** The peer the last node with this disco key belongs to. */
  function LastNamed(nodes: seq<NodeInfo>, d: Disco): Option<Key> {
    if nodes == [] then None else
    var n := nodes[|nodes| - 1];
    if n.key.Some? && n.disco == Some(d) then n.key else LastNamed(nodes[..|nodes| - 1], d)
  }

  /** The disco key, if any, in the last node of this peer. */
  function LastDisco(nodes: seq<NodeInfo>, k: Key): Option<Option<Disco>> {
    if nodes == [] then None else
    var n := nodes[|nodes| - 1];
    if n.key == Some(k) then Some(n.disco) else LastDisco(nodes[..|nodes| - 1], k)
  }

  lemma {:induction false} DiscoAfterList(t: Table, nodes: seq<NodeInfo>, d: Disco, k: Key)
    ensures var t' := SetPeers(t, nodes);
            && (if d in t'.byDisco then Some(t'.byDisco[d]) else None) == LastNamed(nodes, d)
            && (if k in t'.peers then Some(t'.peers[k].disco) else None) == LastDisco(nodes, k)
    decreases |nodes|
  {
    if nodes != [] { DiscoAfterList(t, nodes[..|nodes| - 1], d, k); }
  }

  /** Every disco key's last node belongs to a peer whose own last node has that disco key. */
  ghost predicate Agreeing(nodes: seq<NodeInfo>) {
    forall d: Disco :: LastNamed(nodes, d).Some? ==> LastDisco(nodes, LastNamed(nodes, d).value) == Some(Some(d))
  }

  /** For any list, repeated keys or not, the disco index names only peers with that disco key if
      and only if the list agrees with itself in this way. */
  lemma SetPeersDiscoIff(t: Table, nodes: seq<NodeInfo>)
    ensures DiscoSound(SetPeers(t, nodes)) <==> Agreeing(nodes)
  {
    var t' := SetPeers(t, nodes);
    if Agreeing(nodes) {
      forall d: Disco | d in t'.byDisco ensures t'.byDisco[d] in t'.peers && t'.peers[t'.byDisco[d]].disco == Some(d) {
        DiscoAfterList(t, nodes, d, t'.byDisco[d]);
        assert LastNamed(nodes, d) == Some(t'.byDisco[d]);
      }
    }
    if DiscoSound(t') {
      forall d: Disco | LastNamed(nodes, d).Some? ensures LastDisco(nodes, LastNamed(nodes, d).value) == Some(Some(d)) {
        DiscoAfterList(t, nodes, d, LastNamed(nodes, d).value);
      }
    }
  }

  /** A list that does not: one key twice, with different disco keys. */
  lemma RepeatedKeyBreaks(t: Table, k: Key)
    ensures var n := NodeInfo(Some(k), Some(1), [], [], 0); !DiscoSound(SetPeers(t, [n, n.(disco := Some(2))]))
  {
    var n := NodeInfo(Some(k), Some(1), [], [], 0);
    var nodes := [n, n.(disco := Some(2))];
    SetPeersDiscoIff(t, nodes);
    assert nodes[..1] == [n] && LastNamed([n], 1) == Some(k);
    assert LastNamed(nodes, 1) == Some(k) && LastDisco(nodes, k) == Some(Some(2));
  }

  lemma OpenedKeeps(t: Table, key: Key, m: Wire, now: Time)
    requires Inv(t) && key in t.peers
    ensures Kept(t, WithPeer(t, key, t.peers[key].(tunn := ConsumeTransport(t.peers[key].tunn, m, now).0)))
  {
    var tunn := ConsumeTransport(t.peers[key].tunn, m, now).0;
    IndicesFrom(t.peers[key].tunn, TunnelRuns.GotTransport(m, now));
    var t' := WithPeer(t, key, t.peers[key].(tunn := tunn));
    forall k, i | Owns(t', k, i) ensures Owns(t, k, i) { }
    OwnersKeep(t, t');
  }

  lemma TransportKeeps(t: Table, owner: Option<Key>, path: Path, m: Wire, now: Time)
    requires Inv(t) && (owner.Some? ==> owner.value in t.peers)
    ensures Kept(t, TransportFor(t, owner, path, m, now).t)
  {
    if owner.Some? {
      var key := owner.value;
      OpenedKeeps(t, key, m, now);
      NotedKeeps(WithPeer(t, key, t.peers[key].(tunn := ConsumeTransport(t.peers[key].tunn, m, now).0)), key, path, now);
    }
  }

  lemma NotedKeeps(t: Table, key: Key, path: Path, now: Time)
    requires Inv(t) && key in t.peers
    ensures Kept(t, Noted(t, key, path, now))
  {
    WithPeerKeeps(t, key, t.peers[key].(best := NotePath(t.peers[key].best, path, now)));
  }

  lemma AcceptKeeps(t: Table, ci: Consumed, now: Time, d: Draw)
    requires Inv(t) && ci.peer in t.peers && FreshIndex(t, ci.peer, d)
    ensures Kept(t, Retunnel(t, ci.peer, AcceptInitiation(t.peers[ci.peer].tunn, ci, now, d).0))
  {
    var tunn := AcceptInitiation(t.peers[ci.peer].tunn, ci, now, d).0;
    assert LocalIndices(tunn) <= LocalIndices(t.peers[ci.peer].tunn) + {d.index};
    forall k <- t.peers | k != ci.peer ensures LocalIndices(tunn) !! LocalIndices(t.peers[k].tunn) { LiveApart(t, ci.peer, k); }
    RetunnelKeeps(t, ci.peer, tunn);
  }

  lemma InitiationKeeps(t: Table, path: Path, m: Wire, now: Time, d: Draw)
    requires Inv(t) && (forall k <- t.peers :: FreshIndex(t, k, d))
    ensures Kept(t, OnInitiation(t, path, m, now, d).t)
  {
    var r := ConsumeInitiation(t.local, m);
    if r.Ok? && r.value.peer in t.peers {
      AcceptKeeps(t, r.value, now, d);
      NotedKeeps(Retunnel(t, r.value.peer, AcceptInitiation(t.peers[r.value.peer].tunn, r.value, now, d).0), r.value.peer, path, now);
    }
  }

  lemma ResponseKeeps(t: Table, owner: Option<Key>, path: Path, m: Wire, now: Time)
    requires Inv(t) && (owner.Some? ==> owner.value in t.peers)
    ensures Kept(t, ResponseFor(t, owner, path, m, now).t)
  {
    if owner.Some? {
      TunnelStepKeeps(t, owner.value, TunnelRuns.GotResponse(m, now));
      NotedKeeps(Retunnel(t, owner.value, ConsumeResponse(t.peers[owner.value].tunn, m, now).0), owner.value, path, now);
    }
  }

  lemma PacketKeeps(t: Table, path: Path, m: Wire, now: Time, d: Draw)
    requires Inv(t) && (forall k <- t.peers :: FreshIndex(t, k, d))
    ensures Kept(t, OnPacket(t, path, m, now, d).t)
  {
    match m
    case Initiation(_, _, _, _, _) => InitiationKeeps(t, path, m, now, d);
    case Response(_, receiver, _, _, _) => ResponseKeeps(t, ByIndex(t, receiver), path, m, now);
    case Transport(receiver, _, _) => TransportKeeps(t, ByIndex(t, receiver), path, m, now);
    case Junk(_) =>
  }

  // ---- the map against a scan ----

  /** The index map finds the owner of every live index; a stale entry leads to a peer that
      refuses the message, exactly as if no peer had been found. */
  lemma DispatchIsScan(t: Table, path: Path, m: Wire, now: Time, d: Draw, key: Key)
    requires Inv(t) && (m.Response? || m.Transport?)
    ensures Owns(t, key, m.receiver) && m.Response? ==> OnPacket(t, path, m, now, d) == ResponseFor(t, Some(key), path, m, now)
    ensures Owns(t, key, m.receiver) && m.Transport? ==> OnPacket(t, path, m, now, d) == TransportFor(t, Some(key), path, m, now)
    ensures (forall k <- t.peers :: !Owns(t, k, m.receiver)) ==> OnPacket(t, path, m, now, d) == Dropped(t)
  {
    if Owns(t, key, m.receiver) {
      assert Maps(t, key, m.receiver);
    } else if m.receiver in t.byIndex && !Owns(t, t.byIndex[m.receiver], m.receiver) {
      StaleRefused(t, t.byIndex[m.receiver], path, m, now);
    }
  }

  lemma StaleRefused(t: Table, key: Key, path: Path, m: Wire, now: Time)
    requires key in t.peers && (m.Response? || m.Transport?) && !Owns(t, key, m.receiver)
    ensures ResponseFor(t, Some(key), path, m, now) == Dropped(t)
    ensures TransportFor(t, Some(key), path, m, now) == Dropped(t)
  {
  }

  // ---- the gate ----

  /** What must hold of a message for its packet to reach the IP sink, with no mention of indexes. */
  ghost predicate Admits(t: Table, key: Key, m: Wire, now: Time, ip: Bytes) {
    Vouched(t, key, m, now, ip) && t.filter.Some? && Filter.Allows(t.filter.value, ip)
  }

  /** A present peer's session opens the message, and may send from this source. */
  ghost predicate Vouched(t: Table, key: Key, m: Wire, now: Time, ip: Bytes) {
    && m.Transport? && key in t.peers
    && SlotOf(t.peers[key].tunn, m.receiver) != Slot.Nowhere
    && Authentic(Addressed(t.peers[key].tunn, m.receiver), m, now, ip)
    && MaySend(t.peers[key], ip)
  }

  /** The source address in the packet's header lies in the block of one of the peer's prefixes. */
  ghost predicate MaySend(p: Peer, ip: Bytes) {
    exists src, c :: IpBytes.SourceIs(ip, src) && c in p.allowedIps && Filter.InBlock(c.net, c.bits, src)
  }

  lemma MaySendIff(p: Peer, ip: Bytes)
    ensures AllowedSource(p, ip) <==> MaySend(p, ip)
  {
    if AllowedSource(p, ip) {
      var src := IpSrc(ip).value;
      IpBytes.SourceRead(ip, src);
      var i :| 0 <= i < |p.allowedIps| && Filter.CidrContains(p.allowedIps[i].net, p.allowedIps[i].bits, src);
      var c := p.allowedIps[i];
      Filter.CidrIsInBlock(c.net, c.bits, src);
      assert c in p.allowedIps;
    }
    if MaySend(p, ip) {
      var src, c :| IpBytes.SourceIs(ip, src) && c in p.allowedIps && Filter.InBlock(c.net, c.bits, src);
      IpBytes.SourceRead(ip, src);
      Filter.CidrIsInBlock(c.net, c.bits, src);
    }
  }

  /** An unexpired session opens the message to this packet, under a counter not yet accepted. */
  ghost predicate Authentic(s: Session, m: Wire, now: Time, ip: Bytes)
    requires m.Transport?
  {
    && !Expired(s, now) && Replay.Fresh(s.replay, m.counter)
    && (exists plain: Bytes :: plain != [] && m.body == Sealed(s.recvKey, m.counter, Raw(plain), EMPTY) && ip == Trimmed(plain))
  }

  lemma GateExact(t: Table, path: Path, m: Wire, now: Time, d: Draw, ip: Bytes)
    requires Inv(t)
    ensures OnPacket(t, path, m, now, d).sink == Some(ip) <==> exists k :: Admits(t, k, m, now, ip)
    ensures OnPacket(t, path, m, now, d).sink == Some(ip) ==> OnPacket(t, path, m, now, d).from.Some? && Admits(t, OnPacket(t, path, m, now, d).from.value, m, now, ip)
  {
    if k :| Admits(t, k, m, now, ip) {
      DispatchIsScan(t, path, m, now, d, k);
      GateOpens(t, k, path, m, now, ip);
    }
    if OnPacket(t, path, m, now, d).sink == Some(ip) { GateHolds(t, path, m, now, d, ip); }
  }

  lemma GateOpens(t: Table, key: Key, path: Path, m: Wire, now: Time, ip: Bytes)
    requires Admits(t, key, m, now, ip)
    ensures TransportFor(t, Some(key), path, m, now).sink == Some(ip)
  {
    var s := Addressed(t.peers[key].tunn, m.receiver);
    var plain: Bytes :| plain != [] && m.body == Sealed(s.recvKey, m.counter, Raw(plain), EMPTY) && ip == Trimmed(plain);
    assert OpenBytes(s.recvKey, m.counter, m.body) == Some(plain);
    MaySendIff(t.peers[key], ip);
  }

  lemma GateHolds(t: Table, path: Path, m: Wire, now: Time, d: Draw, ip: Bytes)
    requires OnPacket(t, path, m, now, d).sink == Some(ip)
    ensures var from := OnPacket(t, path, m, now, d).from; from.Some? && Admits(t, from.value, m, now, ip)
  {
    var key := t.byIndex[m.receiver];
    var tunn := t.peers[key].tunn;
    TunnelRuns.OpensFresh(tunn, m, now);
    var plain := TunnelRuns.Opens(tunn, TunnelRuns.GotTransport(m, now))[0].padded;
    assert plain != [] && ip == Trimmed(plain);
    MaySendIff(t.peers[key], ip);
  }
}
