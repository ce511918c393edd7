/** IP packets by their header bytes: where version, lengths, addresses, ports and flags are, said
    without the readers, and that every reader reads just those bytes. */
module IpBytes {
  import opened Common
  import Filter
  import TunnelSpec
  import PeerTable

  /** An IPv4 header at least. */
  predicate IsV4(p: Bytes) {
    |p| >= 20 && 0x40 <= p[0] && p[0] <= 0x4f
  }

  /** An IPv6 header at least. */
  predicate IsV6(p: Bytes) {
    |p| >= 40 && 0x60 <= p[0] && p[0] <= 0x6f
  }

  /** Four bytes, most significant first. */
  function Quad(p: Bytes, at: nat): nat
    requires at + 4 <= |p|
  {
    p[at] as int * 0x100_0000 + p[at + 1] as int * 0x1_0000 + p[at + 2] as int * 0x100 + p[at + 3] as int
  }

  function Sixteen(p: Bytes, at: nat): nat
    requires at + 16 <= |p|
  {
    ((Quad(p, at) * 0x1_0000_0000 + Quad(p, at + 4)) * 0x1_0000_0000 + Quad(p, at + 8)) * 0x1_0000_0000 + Quad(p, at + 12)
  }

  /** The packet's length by its header: bytes 2 and 3 of IPv4; of IPv6 bytes 4 and 5, and the header. */
  predicate LengthIs(p: Bytes, n: int) {
    || (IsV4(p) && n == 256 * (p[2] as int) + p[3] as int)
    || (IsV6(p) && n == 40 + 256 * (p[4] as int) + p[5] as int)
  }

  predicate SourceIs(p: Bytes, ip: Filter.IpAddr) {
    || (IsV4(p) && ip == Filter.V4(Quad(p, 12)))
    || (IsV6(p) && ip == Filter.V6(Sixteen(p, 8)))
  }

  predicate DestIs(p: Bytes, ip: Filter.IpAddr) {
    || (IsV4(p) && ip == Filter.V4(Quad(p, 16)))
    || (IsV6(p) && ip == Filter.V6(Sixteen(p, 24)))
  }

  /** The transport header begins at `at` and is of this protocol; not a later fragment. */
  predicate TransportAt(p: Bytes, at: int, proto: int) {
    || (IsV4(p) && at == 4 * (p[0] as int - 0x40) && 20 <= at <= |p| && p[6] % 32 == 0 && p[7] == 0 && proto == p[9] as int)
    || (IsV6(p) && at == 40 && proto == p[6] as int)
  }

  /** The parts of a packet the filter looks at. A TCP segment is part of an established flow when its
      SYN bit, the second lowest of its flags, is clear. */
  predicate TupleAt(p: Bytes, at: int, t: Filter.Tuple) {
    && TransportAt(p, at, t.proto) && SourceIs(p, t.src) && DestIs(p, t.dst)
    && (if t.proto == 6 then
          |p| >= at + 14 && t.dstPort == 256 * (p[at + 2] as int) + p[at + 3] as int && (t.tcpEstablished <==> p[at + 13] % 4 < 2)
        else if t.proto == 17 then
          |p| >= at + 8 && t.dstPort == 256 * (p[at + 2] as int) + p[at + 3] as int && !t.tcpEstablished
        else t.dstPort == 0 && !t.tcpEstablished)
  }

  ghost predicate TupleIs(p: Bytes, t: Filter.Tuple) {
    exists at :: TupleAt(p, at, t)
  }

  // ---- the readers ----

  lemma NumberFour(b: Bytes)
    requires |b| == 4
    ensures Filter.Number(b) == Quad(b, 0)
  {
    assert b[..3][..2] == b[..2] && b[..2][..1] == b[..1] && b[..1][..0] == [];
    assert Filter.Number(b[..1]) == b[0] as int;
    assert Filter.Number(b[..2]) == b[0] as int * 0x100 + b[1] as int;
    assert Filter.Number(b[..3]) == b[0] as int * 0x1_0000 + b[1] as int * 0x100 + b[2] as int;
  }

  lemma NumberMore(b: Bytes, n: nat)
    requires n + 4 == |b|
    ensures Filter.Number(b) == Filter.Number(b[..n]) * 0x1_0000_0000 + Quad(b, n)
  {
    var x := Filter.Number(b[..n]);
    assert b[..n + 3][..n + 2] == b[..n + 2] && b[..n + 2][..n + 1] == b[..n + 1] && b[..n + 1][..n] == b[..n];
    assert Filter.Number(b[..n + 1]) == x * 0x100 + b[n] as int;
    assert Filter.Number(b[..n + 2]) == x * 0x1_0000 + b[n] as int * 0x100 + b[n + 1] as int;
    assert Filter.Number(b[..n + 3]) == x * 0x100_0000 + b[n] as int * 0x1_0000 + b[n + 1] as int * 0x100 + b[n + 2] as int;
  }

  lemma NumberSixteen(b: Bytes)
    requires |b| == 16
    ensures Filter.Number(b) == Sixteen(b, 0)
  {
    NumberMore(b, 12);
    NumberMore(b[..12], 8);
    NumberMore(b[..12][..8], 4);
    assert b[..12][..8][..4] == b[..4];
    NumberFour(b[..4]);
  }

  lemma NumberAt4(p: Bytes, at: nat)
    requires at + 4 <= |p|
    ensures Filter.Number(p[at..at + 4]) == Quad(p, at)
  {
    NumberFour(p[at..at + 4]);
  }

  lemma NumberAt16(p: Bytes, at: nat)
    requires at + 16 <= |p|
    ensures Filter.Number(p[at..at + 16]) == Sixteen(p, at)
  {
    NumberSixteen(p[at..at + 16]);
  }

  lemma LengthRead(p: Bytes, n: nat)
    ensures TunnelSpec.IpPacketLen(p) == Some(n) <==> LengthIs(p, n)
  {
  }

  lemma SourceRead(p: Bytes, ip: Filter.IpAddr)
    ensures PeerTable.IpSrc(p) == Some(ip) <==> SourceIs(p, ip)
  {
    if IsV4(p) { NumberAt4(p, 12); }
    if IsV6(p) { NumberAt16(p, 8); }
  }

  lemma DestRead(p: Bytes, ip: Filter.IpAddr)
    ensures PeerTable.IpDst(p) == Some(ip) <==> DestIs(p, ip)
  {
    if IsV4(p) { NumberAt4(p, 16); }
    if IsV6(p) { NumberAt16(p, 24); }
  }

  /** The filter's reader finds a tuple exactly where the bytes hold it, and nothing otherwise. */
  lemma TupleRead(p: Bytes, t: Filter.Tuple)
    ensures Filter.ParseTuple(p) == Some(t) <==> TupleIs(p, t)
  {
    if IsV4(p) {
      TupleRead4(p, t);
    } else if IsV6(p) {
      TupleRead6(p, t);
    }
  }

  lemma TupleRead4(p: Bytes, t: Filter.Tuple)
    requires IsV4(p)
    ensures Filter.ParseTuple(p) == Some(t) <==> TupleIs(p, t)
  {
    NumberAt4(p, 12);
    NumberAt4(p, 16);
    var at := 4 * (p[0] as int - 0x40);
    assert 4 * (p[0] % 16) == at;
    FragmentZero(p[6], p[7]);
    if 20 <= at <= |p| { Layer4(p, at, p[9], Filter.V4(Quad(p, 12)), Filter.V4(Quad(p, 16)), t); }
    if TupleIs(p, t) { var x :| TupleAt(p, x, t); assert x == at; }
    assert TupleIs(p, t) <==> TupleAt(p, at, t);
  }

  lemma FragmentZero(high: byte, low: byte)
    ensures Be16(high, low) % 0x2000 == 0 <==> high % 32 == 0 && low == 0
  {
    assert Be16(high, low) == 0x2000 * (high / 32) + 256 * (high % 32) + low as int;
  }

  lemma TupleRead6(p: Bytes, t: Filter.Tuple)
    requires IsV6(p)
    ensures Filter.ParseTuple(p) == Some(t) <==> TupleIs(p, t)
  {
    NumberAt16(p, 8);
    NumberAt16(p, 24);
    Layer4(p, 40, p[6], Filter.V6(Sixteen(p, 8)), Filter.V6(Sixteen(p, 24)), t);
    if TupleIs(p, t) { var x :| TupleAt(p, x, t); assert x == 40; }
    assert TupleIs(p, t) <==> TupleAt(p, 40, t);
  }

  lemma Layer4(p: Bytes, at: nat, proto: byte, src: Filter.IpAddr, dst: Filter.IpAddr, t: Filter.Tuple)
    requires at <= |p|
    ensures Filter.L4(proto, src, dst, p[at..]) == Some(t) <==>
            t.proto == proto as int && t.src == src && t.dst == dst
            && (if t.proto == 6 then
                  |p| >= at + 14 && t.dstPort == 256 * (p[at + 2] as int) + p[at + 3] as int && (t.tcpEstablished <==> p[at + 13] % 4 < 2)
                else if t.proto == 17 then
                  |p| >= at + 8 && t.dstPort == 256 * (p[at + 2] as int) + p[at + 3] as int && !t.tcpEstablished
                else t.dstPort == 0 && !t.tcpEstablished)
  {
    if |p| >= at + 14 { assert p[at..][13] == p[at + 13]; }
  }

  // ---- extension headers ----

  /** An IPv6 packet whose next header is an extension, here hop-by-hop options (0), is not refused by the
      reader, as its comment says, but read as one of protocol 0 with port 0. */
  lemma ExtensionHeaderRead(p: Bytes)
    requires IsV6(p) && p[6] == 0
    ensures Filter.ParseTuple(p) == Some(Filter.Tuple(0, Filter.V6(Sixteen(p, 8)), Filter.V6(Sixteen(p, 24)), 0, false))
  {
    TupleRead6(p, Filter.Tuple(0, Filter.V6(Sixteen(p, 8)), Filter.V6(Sixteen(p, 24)), 0, false));
    assert TupleAt(p, 40, Filter.Tuple(0, Filter.V6(Sixteen(p, 8)), Filter.V6(Sixteen(p, 24)), 0, false));
  }

  /** An IPv6 packet is refused if and only if it is too short for its TCP or UDP header. */
  lemma V6RefusedIff(p: Bytes)
    requires IsV6(p)
    ensures Filter.ParseTuple(p).None? <==> (p[6] == 6 && |p| < 54) || (p[6] == 17 && |p| < 48)
  {
  }
}
