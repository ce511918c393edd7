/** The packet filter: address sets, compiled rules, and what they let through. */
module Filter {
  import opened Common

  const PROTO_ICMP := 1
  const PROTO_TCP := 6
  const PROTO_UDP := 17
  const PROTO_ICMPV6 := 58

  function Pow2(n: nat): (p: nat)
    ensures p >= 1
  {
    if n == 0 then 1 else 2 * Pow2(n - 1)
  }

  const V4_BITS := 32
  const V6_BITS := 128

  datatype IpAddr = V4(value: nat) | V6(value: nat)

  function Width(ip: IpAddr): nat {
    if ip.V4? then V4_BITS else V6_BITS
  }

  /** `x & mask` for the mask of the top `bits` of `width` bits: the low bits cleared. */
  function Masked(x: nat, width: nat, bits: nat): int
    requires bits <= width
  {
    x / Pow2(width - bits) * Pow2(width - bits)
  }

  predicate CidrContains(net: IpAddr, bits: nat, ip: IpAddr) {
    && net.V4? == ip.V4?
    && var w := Width(net);
       var b := Min(bits, w);
       Masked(net.value, w, b) == Masked(ip.value, w, b)
  }

  /** The address is of the same family and in the aligned block of 2^(32 - bits), or 2^(128 - bits),
      addresses around `net`. */
  predicate InBlock(net: IpAddr, bits: nat, ip: IpAddr) {
    && (net.V4? <==> ip.V4?)
    && var size := Pow2(if net.V4? then 32 - Min(bits, 32) else 128 - Min(bits, 128));
       net.value - net.value % size <= ip.value < net.value - net.value % size + size
  }

  lemma CidrIsInBlock(net: IpAddr, bits: nat, ip: IpAddr)
    ensures CidrContains(net, bits, ip) <==> InBlock(net, bits, ip)
  {
    if net.V4? == ip.V4? {
      CidrIsBlock(net, bits, ip);
      var size := Pow2(Width(net) - Min(bits, Width(net)));
      Aligned(net.value, size);
    }
  }

  lemma Aligned(x: nat, size: nat)
    requires size >= 1
    ensures x / size * size == x - x % size
  {
  }

  lemma {:induction false} Pow2Splits(a: nat, b: nat)
    ensures Pow2(a + b) == Pow2(a) * Pow2(b)
    decreases a
  {
    if a > 0 { Pow2Splits(a - 1, b); }
  }

  /** The sizes of a few blocks, in numbers. */
  lemma Pow2Values()
    ensures Pow2(0) == 1 && Pow2(8) == 256 && Pow2(16) == 0x1_0000 && Pow2(32) == 0x1_0000_0000
  {
    assert Pow2(4) == 16;
    Pow2Splits(4, 4);
    Pow2Splits(8, 8);
    Pow2Splits(16, 16);
  }

  /** A prefix holds exactly the aligned block of addresses around its network address. */
  lemma CidrIsBlock(net: IpAddr, bits: nat, ip: IpAddr)
    requires net.V4? == ip.V4?
    ensures var size := Pow2(Width(net) - Min(bits, Width(net)));
            CidrContains(net, bits, ip) <==> ip.value / size == net.value / size
    ensures var size := Pow2(Width(net) - Min(bits, Width(net)));
            var base := net.value / size * size;
            CidrContains(net, bits, ip) <==> base <= ip.value < base + size
  {
    var size := Pow2(Width(net) - Min(bits, Width(net)));
    Block(net.value, ip.value, size);
  }

  lemma Block(x: nat, y: nat, size: nat)
    requires size >= 1
    ensures x / size * size == y / size * size <==> y / size == x / size
    ensures y / size == x / size <==> x / size * size <= y < x / size * size + size
  {
    var a, b := x / size, y / size;
    assert y == b * size + y % size;
    if a < b { Apart(a, b, size); }
    if b < a { Apart(b, a, size); }
  }

  lemma Apart(a: int, b: int, size: nat)
    requires a < b && size >= 1
    ensures a * size + size <= b * size
    decreases b - a
  {
    assert b * size == (b - 1) * size + size;
    if a < b - 1 { Apart(a, b - 1, size); }
  }

  datatype IpSet = Any | Cidr(net: IpAddr, bits: nat) | Range(low: IpAddr, high: IpAddr)

  predicate Contains(s: IpSet, ip: IpAddr) {
    match s
    case Any => true
    case Cidr(net, bits) => CidrContains(net, bits, ip)
    case Range(a, b) => a.V4? == b.V4? == ip.V4? && a.value <= ip.value <= b.value
  }

  // ---- rules ----

  /** A destination of a rule as sent by control; `set` is None when its text does not parse. */
  datatype DstPorts = DstPorts(ips: Option<IpSet>, first: nat, last: nat)

  /** A rule as sent by control; entries whose text does not parse are None. */
  datatype FilterRule = FilterRule(srcIps: seq<Option<IpSet>>, dstPorts: seq<DstPorts>, ipProto: seq<int>)

  datatype Dst = Dst(ips: IpSet, first: nat, last: nat)

  datatype Rule = Rule(srcs: seq<IpSet>, dsts: seq<Dst>, protos: seq<int>)

  datatype Tuple = Tuple(proto: nat, src: IpAddr, dst: IpAddr, dstPort: nat, tcpEstablished: bool)

  function Sets(xs: seq<Option<IpSet>>): seq<IpSet> {
    if xs == [] then [] else (if xs[0].Some? then [xs[0].value] else []) + Sets(xs[1..])
  }

  function Dsts(xs: seq<DstPorts>): seq<Dst> {
    if xs == [] then [] else (if xs[0].ips.Some? then [Dst(xs[0].ips.value, xs[0].first, xs[0].last)] else []) + Dsts(xs[1..])
  }

  function Protos(xs: seq<int>): seq<int> {
    if xs == [] then [] else (if 0 <= xs[0] < 256 then [xs[0]] else []) + Protos(xs[1..])
  }

  function CompileRule(r: FilterRule): Rule {
    Rule(Sets(r.srcIps), Dsts(r.dstPorts), Protos(r.ipProto))
  }

  function Compile(rules: seq<FilterRule>): seq<Rule> {
    seq(|rules|, i requires 0 <= i < |rules| => CompileRule(rules[i]))
  }

  predicate ProtoAllowed(r: Rule, proto: nat) {
    if r.protos == [] then proto in {PROTO_TCP, PROTO_UDP, PROTO_ICMP, PROTO_ICMPV6} else proto in r.protos
  }

  predicate DstHit(d: Dst, t: Tuple) {
    Contains(d.ips, t.dst) && (t.proto in {PROTO_TCP, PROTO_UDP} ==> d.first <= t.dstPort <= d.last)
  }

  predicate RuleHit(r: Rule, t: Tuple) {
    && ProtoAllowed(r, t.proto)
    && AnyContains(r.srcs, t.src) && AnyDstHit(r.dsts, t)
  }

  predicate AnyContains(sets: seq<IpSet>, ip: IpAddr) {
    exists i :: 0 <= i < |sets| && Contains(sets[i], ip)
  }

  predicate AnyDstHit(dsts: seq<Dst>, t: Tuple) {
    exists i :: 0 <= i < |dsts| && DstHit(dsts[i], t)
  }

  /** Walks the rules until one hits. */
  predicate AllowsTuple(rules: seq<Rule>, t: Tuple) {
    (t.proto == PROTO_TCP && t.tcpEstablished) || AnyHit(rules, t)
  }

  predicate AnyHit(rules: seq<Rule>, t: Tuple) {
    rules != [] && (RuleHit(rules[0], t) || AnyHit(rules[1..], t))
  }

  function ParseTuple(p: Bytes): Option<Tuple> {
    if p == [] then None else
    if p[0] / 16 == 4 then
      if |p| < 20 then None else
      var ihl := 4 * (p[0] % 16);
      if ihl < 20 || |p| < ihl then None else
      if Be16(p[6], p[7]) % 0x2000 != 0 then None else
      L4(p[9], V4(Number(p[12..16])), V4(Number(p[16..20])), p[ihl..])
    else if p[0] / 16 == 6 then
      if |p| < 40 then None else
      L4(p[6], V6(Number(p[8..24])), V6(Number(p[24..40])), p[40..])
    else None
  }

  /** A big-endian number. */
  function Number(b: Bytes): nat {
    if b == [] then 0 else 256 * Number(b[..|b| - 1]) + b[|b| - 1] as int
  }

  function L4(proto: byte, src: IpAddr, dst: IpAddr, l4: Bytes): Option<Tuple> {
    var p := proto as int;
    if p == PROTO_TCP then
      if |l4| < 14 then None else Some(Tuple(p, src, dst, Be16(l4[2], l4[3]), l4[13] / 2 % 2 == 0))
    else if p == PROTO_UDP then
      if |l4| < 8 then None else Some(Tuple(p, src, dst, Be16(l4[2], l4[3]), false))
    else Some(Tuple(p, src, dst, 0, false))
  }

  predicate Allows(rules: seq<Rule>, p: Bytes) {
    match ParseTuple(p)
    case Some(t) => AllowsTuple(rules, t)
    case None => false
  }

  // ---- what the rules mean ----

  /** The addresses a set names: all, those of a block, or those between two bounds, inclusive. */
  predicate InSet(s: IpSet, ip: IpAddr) {
    match s
    case Any => true
    case Cidr(net, bits) => InBlock(net, bits, ip)
    case Range(a, b) => (a.V4? <==> ip.V4?) && (b.V4? <==> ip.V4?) && a.value <= ip.value && ip.value <= b.value
  }

  lemma ContainsIsInSet(s: IpSet, ip: IpAddr)
    ensures Contains(s, ip) <==> InSet(s, ip)
  {
    if s.Cidr? { CidrIsInBlock(s.net, s.bits, ip); }
  }

  /** What a rule of control says, in its own numbers: a protocol it is for, a source among its sources,
      and a destination of its own, with the port between its bounds for TCP (6) and UDP (17). */
  predicate Permits(r: FilterRule, t: Tuple) {
    && ProtoPermitted(r, t.proto)
    && SrcPermitted(r.srcIps, t.src) && SomeDstPermitted(r.dstPorts, t)
  }

  predicate SrcPermitted(xs: seq<Option<IpSet>>, ip: IpAddr) {
    exists i :: 0 <= i < |xs| && xs[i].Some? && InSet(xs[i].value, ip)
  }

  predicate SomeDstPermitted(xs: seq<DstPorts>, t: Tuple) {
    exists i :: 0 <= i < |xs| && DstPermitted(xs[i], t)
  }

  predicate DstPermitted(d: DstPorts, t: Tuple) {
    && d.ips.Some? && InSet(d.ips.value, t.dst)
    && (t.proto == 6 ==> d.first <= t.dstPort && t.dstPort <= d.last)
    && (t.proto == 17 ==> d.first <= t.dstPort && t.dstPort <= d.last)
  }

  predicate InRange(p: int) {
    0 <= p < 256
  }

  predicate SomeInRange(xs: seq<int>) {
    exists p <- xs :: InRange(p)
  }

  /** Protocol numbers that are no byte are dropped; with none left, TCP, UDP, ICMP and ICMPv6. */
  predicate ProtoPermitted(r: FilterRule, proto: nat) {
    if SomeInRange(r.ipProto) then proto in r.ipProto && proto < 256
    else proto == 6 || proto == 17 || proto == 1 || proto == 58
  }

  lemma {:induction false} SetsListed(xs: seq<Option<IpSet>>, ip: IpAddr)
    ensures AnyContains(Sets(xs), ip) <==> SrcPermitted(xs, ip)
  {
    if xs != [] {
      SetsListed(xs[1..], ip);
      if xs[0].Some? { ContainsIsInSet(xs[0].value, ip); }
      var head := if xs[0].Some? then [xs[0].value] else [];
      if i :| 0 <= i < |Sets(xs)| && Contains(Sets(xs)[i], ip) {
        if i >= |head| {
          assert Contains(Sets(xs[1..])[i - |head|], ip);
          var k :| 0 <= k < |xs[1..]| && xs[1..][k].Some? && InSet(xs[1..][k].value, ip);
          assert xs[k + 1].Some? && InSet(xs[k + 1].value, ip);
        } else {
          assert InSet(xs[0].value, ip);
        }
      }
      if i :| 0 <= i < |xs| && xs[i].Some? && InSet(xs[i].value, ip) {
        if i == 0 { assert Contains(Sets(xs)[0], ip); }
        else {
          assert xs[1..][i - 1] == xs[i];
          var j :| 0 <= j < |Sets(xs[1..])| && Contains(Sets(xs[1..])[j], ip);
          assert Sets(xs)[|head| + j] == Sets(xs[1..])[j];
        }
      }
    }
  }

  lemma DstMeans(d: DstPorts, t: Tuple)
    requires d.ips.Some?
    ensures DstHit(Dst(d.ips.value, d.first, d.last), t) <==> DstPermitted(d, t)
  {
    ContainsIsInSet(d.ips.value, t.dst);
  }

  lemma {:induction false} DstsListed(xs: seq<DstPorts>, t: Tuple)
    ensures AnyDstHit(Dsts(xs), t) <==> SomeDstPermitted(xs, t)
  {
    if xs != [] {
      DstsListed(xs[1..], t);
      if xs[0].ips.Some? { DstMeans(xs[0], t); }
      var head := if xs[0].ips.Some? then [Dst(xs[0].ips.value, xs[0].first, xs[0].last)] else [];
      if i :| 0 <= i < |Dsts(xs)| && DstHit(Dsts(xs)[i], t) {
        if i >= |head| {
          assert DstHit(Dsts(xs[1..])[i - |head|], t);
          var k :| 0 <= k < |xs[1..]| && DstPermitted(xs[1..][k], t);
          assert DstPermitted(xs[k + 1], t);
        } else {
          assert DstPermitted(xs[0], t);
        }
      }
      if i :| 0 <= i < |xs| && DstPermitted(xs[i], t) {
        if i == 0 { assert DstHit(Dsts(xs)[0], t); }
        else {
          assert DstPermitted(xs[1..][i - 1], t);
          var j :| 0 <= j < |Dsts(xs[1..])| && DstHit(Dsts(xs[1..])[j], t);
          assert Dsts(xs)[|head| + j] == Dsts(xs[1..])[j];
        }
      }
    }
  }

  lemma {:induction false} ProtosListed(xs: seq<int>)
    ensures forall p :: p in Protos(xs) <==> p in xs && InRange(p)
  {
    if xs != [] { ProtosListed(xs[1..]); }
  }

  lemma ProtosMean(r: FilterRule, proto: nat)
    ensures ProtoAllowed(CompileRule(r), proto) <==> ProtoPermitted(r, proto)
  {
    ProtosListed(r.ipProto);
    var ps := Protos(r.ipProto);
    if ps != [] { assert ps[0] in ps && InRange(ps[0]); }
  }

  /** Compiling a rule keeps its meaning. */
  lemma CompiledMeans(r: FilterRule, t: Tuple)
    ensures RuleHit(CompileRule(r), t) <==> Permits(r, t)
  {
    ProtosMean(r, t.proto);
    SetsListed(r.srcIps, t.src);
    DstsListed(r.dstPorts, t);
  }

  lemma {:induction false} AnyHitExists(rules: seq<Rule>, t: Tuple)
    ensures AnyHit(rules, t) <==> exists i :: 0 <= i < |rules| && RuleHit(rules[i], t)
  {
    if rules != [] {
      AnyHitExists(rules[1..], t);
      if i :| 0 <= i < |rules| && RuleHit(rules[i], t) { if i > 0 { assert rules[1..][i - 1] == rules[i]; } }
    }
  }

  /** The compiled filter passes exactly established TCP segments and what some rule permits. */
  lemma FilterExact(rules: seq<FilterRule>, t: Tuple)
    ensures AllowsTuple(Compile(rules), t) <==>
            (t.proto == 6 && t.tcpEstablished) || exists i :: 0 <= i < |rules| && Permits(rules[i], t)
  {
    AnyHitExists(Compile(rules), t);
    forall i | 0 <= i < |rules| ensures RuleHit(Compile(rules)[i], t) <==> Permits(rules[i], t) {
      CompiledMeans(rules[i], t);
    }
    if i :| 0 <= i < |rules| && Permits(rules[i], t) { assert RuleHit(Compile(rules)[i], t); }
  }

  /** A rule meant for the protocols it lists, and for the default set only when it lists none. */
  predicate ProtoIntended(r: FilterRule, proto: nat) {
    if r.ipProto == [] then proto == 6 || proto == 17 || proto == 1 || proto == 58 else proto in r.ipProto
  }

  /** The compiled rule admits exactly the protocols (numbered by a byte) it lists if and only if
      it lists none or lists at least one that fits a byte: a rule whose every protocol number is
      out of range opens the default protocols instead of none. */
  lemma ProtoFaithfulIff(r: FilterRule)
    ensures (forall proto: nat | proto < 256 :: ProtoAllowed(CompileRule(r), proto) <==> ProtoIntended(r, proto)) <==>
            (r.ipProto == [] || SomeInRange(r.ipProto))
  {
    forall proto: nat ensures ProtoAllowed(CompileRule(r), proto) <==> ProtoPermitted(r, proto) { ProtosMean(r, proto); }
    if r.ipProto != [] && !SomeInRange(r.ipProto) {
      assert ProtoAllowed(CompileRule(r), PROTO_TCP);
      assert InRange(PROTO_TCP);
      assert !ProtoIntended(r, PROTO_TCP);
    }
  }

  /** A concrete rule of that kind: restricted to protocol 300, it admits TCP. */
  lemma OutOfRangeProtoOpensTcp()
    ensures var r := FilterRule([Some(Any)], [DstPorts(Some(Any), 0, 65535)], [300]);
            RuleHit(CompileRule(r), Tuple(PROTO_TCP, V4(1), V4(2), 22, false)) && !ProtoIntended(r, PROTO_TCP)
  {
    var r := FilterRule([Some(Any)], [DstPorts(Some(Any), 0, 65535)], [300]);
    var t := Tuple(PROTO_TCP, V4(1), V4(2), 22, false);
    assert Protos(r.ipProto) == [];
    assert CompileRule(r).srcs[0] == Any && DstHit(CompileRule(r).dsts[0], t);
  }
}
