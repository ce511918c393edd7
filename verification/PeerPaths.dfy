/** Where messages to a peer go, and what control's last word, an answered ping or an authenticated packet
    makes of it: every field of a peer said from the events, in both directions. */
module PeerPaths {
  import opened Common
  import opened Noise
  import opened TunnelSpec
  import opened PeerTable
  import opened PeerIndex
  import opened PeerRuns
  import TunnelRuns
  import Handshake
  import Filter
  import IpBytes

  // ---- the choice of a route ----

  /** The peer's direct address is trusted at `now`. */
  predicate Trusted(p: Peer, now: Time) {
    p.best.Some? && now < p.best.value.trustUntil
  }

  /** Exactly when each route is taken: the trusted address first, then the home relay, then the first
      endpoint. So nothing goes to an address nobody vouched for while a home relay is known. */
  lemma RouteExact(t: Table, key: Key, now: Time, a: Addr, r: int)
    ensures var to := SendWg(t, key, now);
            && (to == Direct(a) <==> key in t.peers && Trusted(t.peers[key], now) && t.peers[key].best.value.addr == a)
            && (to == Relay(r) <==> key in t.peers && !Trusted(t.peers[key], now) && t.peers[key].homeDerp == r && r != 0)
            && (to == Guess(a) <==> key in t.peers && !Trusted(t.peers[key], now) && t.peers[key].homeDerp == 0
                                    && |t.peers[key].endpoints| > 0 && t.peers[key].endpoints[0] == a)
            && (to == NoPath <==> key !in t.peers || (!Trusted(t.peers[key], now) && t.peers[key].homeDerp == 0 && |t.peers[key].endpoints| == 0))
            && !to.Back?
  {
  }

  // ---- what control said last ----

  /** The part of a node's description that decides what it may send and where it is relayed. */
  datatype Word = Word(disco: Option<Disco>, cidrs: seq<Cidr>, homeDerp: int)

  function WordOf(n: NodeInfo): Word {
    Word(n.disco, n.cidrs, n.homeDerp)
  }

  /** The last node of a list that names `k`. */
  function LastNode(nodes: seq<NodeInfo>, k: Key): Option<NodeInfo> {
    if nodes == [] then None else
    if nodes[|nodes| - 1].key == Some(k) then Some(nodes[|nodes| - 1]) else LastNode(nodes[..|nodes| - 1], k)
  }

  function Spoken(before: Option<Word>, ev: Event, k: Key): Option<Word> {
    match ev
    case AllPeers(nodes) => (match LastNode(nodes, k) case Some(n) => Some(WordOf(n)) case None => None)
    case Changed(n) => if n.key == Some(k) then Some(WordOf(n)) else before
    case Removed(key) => if key == k then None else before
    case Patched(pc) =>
      if pc.key != k || before.None? then before else
      Some(Word(if pc.disco.Some? then pc.disco else before.value.disco, before.value.cidrs,
                if pc.homeDerp != 0 then pc.homeDerp else before.value.homeDerp))
    case _ => before
  }

  /** What control has said of `k` last, if it is still a peer. */
  function LastWord(evs: seq<Event>, k: Key): Option<Word> {
    if evs == [] then None else Spoken(LastWord(evs[..|evs| - 1], k), evs[|evs| - 1], k)
  }

  /** A peer is as the word says: it may send from the prefixes listed, except those of length 0. */
  predicate Configured(p: Peer, w: Word) {
    p.disco == w.disco && p.homeDerp == w.homeDerp && Lists(p.allowedIps, w.cidrs)
  }

  ghost predicate SameAs(t: Table, k: Key, w: Option<Word>) {
    (k in t.peers <==> w.Some?) && (k in t.peers ==> Configured(t.peers[k], w.value))
  }

  predicate Lists(allowed: seq<Cidr>, cidrs: seq<Cidr>) {
    && (forall i :: 0 <= i < |allowed| ==> allowed[i] in cidrs && allowed[i].bits != 0)
    && (forall i :: 0 <= i < |cidrs| && cidrs[i].bits != 0 ==> cidrs[i] in allowed)
  }

  lemma {:induction false} InstallableLists(cidrs: seq<Cidr>)
    ensures Lists(Installable(cidrs), cidrs)
  {
    if cidrs != [] {
      InstallableLists(cidrs[1..]);
      forall i | 0 <= i < |cidrs| && cidrs[i].bits != 0 ensures cidrs[i] in Installable(cidrs) {
        if i > 0 { assert cidrs[1..][i - 1] in Installable(cidrs[1..]); }
      }
    }
  }

  lemma Applied(p: Peer, n: NodeInfo)
    ensures Configured(ApplyNode(p, n), WordOf(n)) && ApplyNode(p, n).endpoints == n.endpoints
    ensures ApplyNode(p, n).best == (if n.disco == p.disco then p.best else None)
  {
    InstallableLists(n.cidrs);
  }

  /** After a full list each peer it names is as its last node says, endpoints included. */
  ghost predicate ListedAs(t: Table, n: Option<NodeInfo>, k: Key) {
    (k in t.peers <==> n.Some?) && (k in t.peers ==> Configured(t.peers[k], WordOf(n.value)) && t.peers[k].endpoints == n.value.endpoints)
  }

  lemma {:induction false} ListConfigures(t: Table, nodes: seq<NodeInfo>, k: Key)
    ensures ListedAs(SetPeers(t, nodes), LastNode(nodes, k), k)
    decreases |nodes|
  {
    if nodes != [] {
      var n := |nodes| - 1;
      ListConfigures(t, nodes[..n], k);
      var (t1, rest) := CarryAll(Bare(t), t.peers, nodes[..n]);
      if nodes[n].key == Some(k) {
        Applied(if k in rest then rest[k] else NewPeer(t1.local, k), nodes[n]);
      }
    }
  }

  /** What control configured of a peer is not touched by anything else. */
  predicate SameConfig(t: Table, t': Table, k: Key) {
    (k in t.peers <==> k in t'.peers) &&
    (k in t.peers ==> t'.peers[k].disco == t.peers[k].disco && t'.peers[k].homeDerp == t.peers[k].homeDerp && t'.peers[k].allowedIps == t.peers[k].allowedIps)
  }

  lemma ArrivalConfig(t: Table, path: Path, m: Wire, now: Time, d: Draw, k: Key)
    ensures SameConfig(t, OnPacket(t, path, m, now, d).t, k)
  {
    match m
    case Initiation(_, _, _, _, _) =>
      if ConsumeInitiation(t.local, m).Ok? { AcceptedConfig(t, path, ConsumeInitiation(t.local, m).value, now, d, k); }
    case Response(_, receiver, _, _, _) => ResponseConfig(t, ByIndex(t, receiver), path, m, now, k);
    case Transport(receiver, _, _) => TransportConfig(t, ByIndex(t, receiver), path, m, now, k);
    case Junk(_) =>
  }

  lemma AcceptedConfig(t: Table, path: Path, ci: Consumed, now: Time, d: Draw, k: Key)
    ensures SameConfig(t, Accepted(t, path, ci, now, d).t, k)
  {
  }

  lemma ResponseConfig(t: Table, owner: Option<Key>, path: Path, m: Wire, now: Time, k: Key)
    ensures SameConfig(t, ResponseFor(t, owner, path, m, now).t, k)
  {
  }

  lemma TransportConfig(t: Table, owner: Option<Key>, path: Path, m: Wire, now: Time, k: Key)
    ensures SameConfig(t, TransportFor(t, owner, path, m, now).t, k)
  {
    if owner.Some? && owner.value in t.peers {
      var key := owner.value;
      TransportTable(t, key, path, m, now);
      MovedConfig(t, key, ConsumeTransport(t.peers[key].tunn, m, now).0, path, now, k);
    }
  }

  lemma MovedConfig(t: Table, key: Key, tunn: Tunn, path: Path, now: Time, k: Key)
    requires key in t.peers
    ensures var t1 := WithPeer(t, key, t.peers[key].(tunn := tunn)); SameConfig(t, t1, k) && SameConfig(t, Noted(t1, key, path, now), k)
  {
  }

  lemma TransportTable(t: Table, key: Key, path: Path, m: Wire, now: Time)
    requires key in t.peers
    ensures var t1 := WithPeer(t, key, t.peers[key].(tunn := ConsumeTransport(t.peers[key].tunn, m, now).0));
            TransportFor(t, Some(key), path, m, now).t in {t, t1, Noted(t1, key, path, now)}
  {
  }

  lemma OtherConfig(t: Table, ev: Event, k: Key)
    requires !ev.AllPeers? && !ev.Changed? && !ev.Removed? && !ev.Patched?
    ensures SameConfig(t, Next(t, ev), k)
  {
    if ev.Arrived? { ArrivalConfig(t, ev.path, ev.m, ev.now, ev.d, k); }
  }

  lemma SpokenStep(t: Table, w: Option<Word>, ev: Event, k: Key)
    requires SameAs(t, k, w)
    ensures SameAs(Next(t, ev), k, Spoken(w, ev, k))
  {
    match ev
    case AllPeers(nodes) => ListConfigures(t, nodes, k);
    case Changed(n) => Applied(if k in t.peers then t.peers[k] else NewPeer(t.local, k), n);
    case Removed(key) =>
    case Patched(pc) =>
    case _ => OtherConfig(t, ev, k);
  }

  /** In every run the peers are exactly those control last said are there, each with the disco key, the
      home relay and the prefixes it was last given; prefixes of length 0 are left out and no others. */
  lemma {:induction false} ConfigIsLastWord(local: nat, evs: seq<Event>, k: Key)
    ensures SameAs(Run(local, evs).t, k, LastWord(evs, k))
    decreases |evs|
  {
    if evs != [] {
      ConfigIsLastWord(local, evs[..|evs| - 1], k);
      SpokenStep(Run(local, evs[..|evs| - 1]).t, LastWord(evs[..|evs| - 1], k), evs[|evs| - 1], k);
    }
  }

  /** In every run a message to a peer is relayed exactly when no direct address is trusted and control
      last gave the peer a home relay, and then to that one. */
  lemma RelayedIff(local: nat, evs: seq<Event>, k: Key, now: Time, r: int)
    ensures var t := Run(local, evs).t;
            SendWg(t, k, now) == Relay(r) <==>
            LastWord(evs, k).Some? && LastWord(evs, k).value.homeDerp == r && r != 0 && !SendWg(t, k, now).Direct?
  {
    ConfigIsLastWord(local, evs, k);
    var t := Run(local, evs).t;
    RouteExact(t, k, now, if k in t.peers && t.peers[k].best.Some? then t.peers[k].best.value.addr else 0, r);
  }

  /** What is delivered comes from a peer control still lists, under a source address in a prefix it last listed
      for that peer, one of length 0 excepted. */
  lemma DeliveredAsTold(local: nat, evs: seq<Event>, path: Path, m: Wire, now: Time, d: Draw, ip: Bytes)
    requires Valid(local, evs) && OnPacket(Run(local, evs).t, path, m, now, d).sink == Some(ip)
    ensures exists k, src, c :: LastWord(evs, k).Some? && IpBytes.SourceIs(ip, src)
              && c in LastWord(evs, k).value.cidrs && c.bits != 0 && Filter.InBlock(c.net, c.bits, src)
  {
    DeliveredExactly(local, evs, path, m, now, d, ip);
    var t := Run(local, evs).t;
    var k := OnPacket(t, path, m, now, d).from.value;
    ConfigIsLastWord(local, evs, k);
    assert MaySend(t.peers[k], ip);
    var src, c :| IpBytes.SourceIs(ip, src) && c in t.peers[k].allowedIps && Filter.InBlock(c.net, c.bits, src);
    assert c in LastWord(evs, k).value.cidrs && c.bits != 0;
  }

  // ---- single steps ----

  /** A changed node: its peer is as the node says, keeps tunnel and pings, and keeps its direct path unless
      its disco key changed; no other peer is touched. A new peer starts with nothing. */
  lemma ChangeExact(t: Table, n: NodeInfo, k: Key)
    requires n.key == Some(k)
    ensures var t' := ChangePeer(t, n);
            && t'.peers.Keys == t.peers.Keys + {k} && (forall j <- t.peers :: j != k ==> t'.peers[j] == t.peers[j])
            && t'.local == t.local && t'.byIndex == t.byIndex && t'.filter == t.filter
            && (n.disco.Some? ==> n.disco.value in t'.byDisco && t'.byDisco[n.disco.value] == k)
            && (k in t.peers && t.peers[k].disco.Some? && t.peers[k].disco != n.disco ==> t.peers[k].disco.value !in t'.byDisco)
            && (forall d :: n.disco != Some(d) && (k in t.peers ==> t.peers[k].disco != Some(d)) ==>
                  (d in t'.byDisco <==> d in t.byDisco) && (d in t.byDisco ==> t'.byDisco[d] == t.byDisco[d]))
            && var p := t'.peers[k];
            && Configured(p, WordOf(n)) && p.endpoints == n.endpoints
            && (if k in t.peers then
                  p.tunn == t.peers[k].tunn && p.pings == t.peers[k].pings && p.best == (if n.disco == t.peers[k].disco then t.peers[k].best else None)
                else p.tunn == New(t.local, k) && p.pings == map[] && p.best.None?)
  {
    Applied(if k in t.peers then t.peers[k] else NewPeer(t.local, k), n);
  }

  /** Removing a peer removes it, its disco key and every index that led to it, and nothing else. */
  lemma RemoveExact(t: Table, k: Key)
    requires k in t.peers
    ensures var t' := RemovePeer(t, k);
            && t'.peers.Keys == t.peers.Keys - {k} && (forall j <- t'.peers :: t'.peers[j] == t.peers[j])
            && (forall i :: i in t'.byIndex <==> i in t.byIndex && t.byIndex[i] != k) && (forall i <- t'.byIndex :: t'.byIndex[i] == t.byIndex[i])
            && (forall d :: d in t'.byDisco <==> d in t.byDisco && t.peers[k].disco != Some(d)) && (forall d <- t'.byDisco :: t'.byDisco[d] == t.byDisco[d])
  {
  }

  /** A patch changes just what it carries. */
  lemma PatchExact(t: Table, pc: Patch)
    requires pc.key in t.peers
    ensures var t' := PatchPeer(t, pc); var p, q := t.peers[pc.key], t'.peers[pc.key];
            && t'.peers.Keys == t.peers.Keys && (forall j <- t.peers :: j != pc.key ==> t'.peers[j] == t.peers[j])
            && q.homeDerp == (if pc.homeDerp == 0 then p.homeDerp else pc.homeDerp)
            && q.endpoints == (if pc.endpoints.None? then p.endpoints else pc.endpoints.value)
            && q.disco == (if pc.disco.None? then p.disco else pc.disco)
            && q.allowedIps == p.allowedIps && q.tunn == p.tunn && q.best == p.best && q.pings == p.pings
            && t'.byIndex == t.byIndex && (pc.disco.None? ==> t'.byDisco == t.byDisco)
            && (pc.disco.Some? ==> pc.disco.value in t'.byDisco && t'.byDisco[pc.disco.value] == pc.key)
            && (pc.disco.Some? && p.disco.Some? && p.disco != pc.disco ==> p.disco.value !in t'.byDisco)
            && (forall d :: pc.disco != Some(d) && p.disco != Some(d) ==> (d in t'.byDisco <==> d in t.byDisco) && (d in t.byDisco ==> t'.byDisco[d] == t.byDisco[d]))
  {
  }

  /** A new node key leaves every peer's configuration and pings, and takes its sessions and its path. */
  lemma RekeyExact(t: Table, local: nat, k: Key)
    ensures var t' := SetNodeKey(t, local);
            && t'.peers.Keys == t.peers.Keys && t'.local == local && t'.byIndex == map[] && t'.byDisco == t.byDisco && t'.filter == t.filter
            && (k in t.peers ==> t'.peers[k] == t.peers[k].(tunn := New(local, k), best := None))
  {
  }

  /** After a tunnel moved, exactly its live indices lead to it, and no other peer lost one it did not take. */
  lemma RefreshExact(t: Table, key: Key, tunn: Tunn, i: nat)
    requires key in t.peers
    ensures var t' := Retunnel(t, key, tunn);
            && (Maps(t', key, i) <==> i in LocalIndices(tunn))
            && (forall k :: k != key ==> (Maps(t', k, i) <==> Maps(t, k, i) && i !in LocalIndices(tunn)))
  {
  }

  /** An index that leads to nobody is forgotten when a message comes for it, and the message with it. */
  lemma StrayIndex(t: Table, path: Path, m: Wire, now: Time, d: Draw)
    requires (m.Response? || m.Transport?) && m.receiver in t.byIndex && t.byIndex[m.receiver] !in t.peers
    ensures OnPacket(t, path, m, now, d) == Outcome(t.(byIndex := t.byIndex - {m.receiver}), None, None, [])
  {
  }

  // ---- paths ----

  /** An authenticated packet over UDP leaves the peer with a direct path. It is the packet's own address, for 6.5 s
      more, unless another one is trusted now: that one stays as it was. A relayed packet changes nothing. */
  lemma HeardExact(t: Table, key: Key, path: Path, now: Time)
    requires key in t.peers
    ensures var p := t.peers[key]; var t' := Noted(t, key, path, now); var b := t'.peers[key].best;
            && t' == t.(peers := t.peers[key := p.(best := b)])
            && (path.Derp? ==> b == p.best)
            && (path.Udp? ==> SendWg(t', key, now).Direct?)
            && (path.Udp? && Trusted(p, now) && p.best.value.addr != path.addr ==> b == p.best)
            && (path.Udp? && !(Trusted(p, now) && p.best.value.addr != path.addr) ==>
                  && b.Some? && b.value.addr == path.addr && b.value.trustUntil == now + 6500
                  && b.value.latency == if p.best.Some? && p.best.value.addr == path.addr then p.best.value.latency else 0)
  {
  }

  /** An answered ping leaves the peer with a direct path. It is the pinged address, for 6.5 s, unless another one
      is trusted now and the answer was not more than 5 ms quicker than its: that one stays as it was. The
      ping is answered, the others are not. A pong that answers no ping changes nothing. */
  lemma PongExact(t: Table, sender: Disco, tx: TxId, now: Time)
    ensures if sender !in t.byDisco || t.byDisco[sender] !in t.peers || tx !in t.peers[t.byDisco[sender]].pings then
              OnPong(t, sender, tx, now) == t
            else
            var key := t.byDisco[sender]; var p := t.peers[key]; var ping := p.pings[tx];
            var t' := OnPong(t, sender, tx, now); var q := t'.peers[key]; var b := q.best;
            var took := if now > ping.sentAt then now - ping.sentAt else 0;
            && t' == t.(peers := t.peers[key := p.(best := b, pings := q.pings)])
            && (forall x :: x in q.pings <==> x in p.pings && x != tx) && (forall x <- q.pings :: q.pings[x] == p.pings[x])
            && SendWg(t', key, now).Direct?
            && (if Trusted(p, now) && p.best.value.addr != ping.addr && p.best.value.latency <= took + 5 then b == p.best
                else b == Some(Best(ping.addr, now + 6500, took)))
  {
  }

  /** A path ends with its trust and not before. */
  lemma CheckExact(t: Table, key: Key, now: Time)
    requires key in t.peers
    ensures ExpireBest(t, key, now) == t.(peers := t.peers[key := t.peers[key].(best := if Trusted(t.peers[key], now) then t.peers[key].best else None)])
  {
  }

  /** A ping sent is waiting for its answer. An earlier one still waits exactly if there were at most 32, or it
      is less than 10 s old. */
  lemma PingExact(t: Table, key: Key, addr: Addr, tx: TxId, now: Time, x: TxId)
    requires key in t.peers
    ensures var p, q := t.peers[key], SendPing(t, key, addr, tx, now).peers[key];
            && SendPing(t, key, addr, tx, now) == t.(peers := t.peers[key := p.(pings := q.pings)])
            && tx in q.pings && q.pings[tx] == Ping(addr, now)
            && (x != tx ==> (x in q.pings <==> x in p.pings && (|p.pings| <= 32 || now < p.pings[x].sentAt + 10_000)))
            && (x != tx && x in q.pings ==> q.pings[x] == p.pings[x])
  {
  }

  // ---- endpoints a peer tells us of ----

  lemma {:induction false} LearntMore(have: seq<Addr>, more: seq<Addr>)
    ensures have <= Learnt(have, more) && |Learnt(have, more)| <= Max(|have|, 16)
    ensures forall a <- Learnt(have, more) :: a in have || a in more
    ensures forall a <- more :: a in Learnt(have, more) || |Learnt(have, more)| >= 16
    decreases |more|
  {
    if more != [] {
      var next := if more[0] !in have && |have| < MAX_ENDPOINTS then have + [more[0]] else have;
      LearntMore(next, more[1..]);
      assert forall a <- next :: a in Learnt(have, more);
      forall a <- more ensures a in Learnt(have, more) || |Learnt(have, more)| >= 16 {
        if a != more[0] { assert a in more[1..]; }
      }
    }
  }

  predicate NoRepeat(s: seq<Addr>) {
    forall i, j :: 0 <= i < j < |s| ==> s[i] != s[j]
  }

  lemma {:induction false} LearntOnce(have: seq<Addr>, more: seq<Addr>)
    requires NoRepeat(have)
    ensures NoRepeat(Learnt(have, more))
    decreases |more|
  {
    if more != [] { LearntOnce(if more[0] !in have && |have| < MAX_ENDPOINTS then have + [more[0]] else have, more[1..]); }
  }

  /** Told in two messages or in one, the same is learnt. */
  lemma {:induction false} LearntJoin(have: seq<Addr>, a: seq<Addr>, b: seq<Addr>)
    ensures Learnt(have, a + b) == Learnt(Learnt(have, a), b)
    decreases |a|
  {
    if a == [] {
      assert a + b == b;
    } else {
      assert (a + b)[1..] == a[1..] + b;
      LearntJoin(if a[0] !in have && |have| < MAX_ENDPOINTS then have + [a[0]] else have, a[1..], b);
    }
  }

  /** What a call-me-maybe adds: the endpoints known stay in front, only announced ones come behind, and one
      that is announced is missing only if there are 16 already. */
  lemma CallMeExact(t: Table, sender: Disco, more: seq<Addr>)
    requires sender in t.byDisco && t.byDisco[sender] in t.peers
    ensures var key := t.byDisco[sender]; var p, q := t.peers[key], CallMe(t, sender, more).peers[key];
            && CallMe(t, sender, more) == t.(peers := t.peers[key := p.(endpoints := q.endpoints)])
            && p.endpoints <= q.endpoints && |q.endpoints| <= Max(|p.endpoints|, 16)
            && (forall a :: a in q.endpoints ==> a in p.endpoints || a in more)
            && (forall a :: a in more ==> a in q.endpoints || |q.endpoints| >= 16)
            && (NoRepeat(p.endpoints) ==> NoRepeat(q.endpoints))
  {
    var p := t.peers[t.byDisco[sender]];
    LearntMore(p.endpoints, more);
    if NoRepeat(p.endpoints) { LearntOnce(p.endpoints, more); }
  }

  // ---- what a packet sets off ----

  /** Sealed packets, in the order of their counters, on the route the peer has now. */
  predicate Flushed(o: Outcome, now: Time) {
    o.from.Some? && forall i :: 0 <= i < |o.out| ==> o.out[i].m.Transport? && o.out[i].m.counter == i && o.out[i].to == SendWg(o.t, o.from.value, now)
  }

  /** An accepted initiation is answered over the path it came by; what a response lets go leaves over the
      peer's route then; and a message that authenticated no peer sends nothing. */
  lemma AnswersGoBack(t: Table, path: Path, m: Wire, now: Time, d: Draw)
    ensures var o := OnPacket(t, path, m, now, d);
            && (o.from.None? ==> o.out == [] && o.sink.None?)
            && (o.from.Some? && m.Initiation? ==> |o.out| == 1 && o.out[0].m.Response? && o.out[0].to == Back(path))
            && (o.from.Some? && m.Response? ==> Flushed(o, now))
            && (m.Transport? ==> o.out == [])
  {
    if m.Initiation? && ConsumeInitiation(t.local, m).Ok? { AcceptedGoesBack(t, path, ConsumeInitiation(t.local, m).value, now, d); }
    if m.Response? { FlushGoesOut(t, ByIndex(t, m.receiver), path, m, now); }
  }

  lemma AcceptedGoesBack(t: Table, path: Path, ci: Consumed, now: Time, d: Draw)
    ensures var o := Accepted(t, path, ci, now, d);
            if o.from.None? then o.out == [] && o.sink.None? else |o.out| == 1 && o.out[0].m.Response? && o.out[0].to == Back(path)
  {
  }

  lemma FlushGoesOut(t: Table, owner: Option<Key>, path: Path, m: Wire, now: Time)
    requires m.Response?
    ensures var o := ResponseFor(t, owner, path, m, now);
            && o.sink.None? && (o.from.None? ==> o.out == [])
            && (o.from.Some? ==> Flushed(o, now))
  {
    if owner.Some? && owner.value in t.peers {
      var tunn := t.peers[owner.value].tunn;
      if ConsumeResponse(tunn, m, now).1.Ok? {
        TunnelRuns.ResponseForm(tunn, m, now);
        Handshake.SealAllKeeps(TunnelRuns.Installed(tunn, m, now), tunn.queued);
      }
    }
  }
}
