/** The encrypted record stream of the control connection: a writer that cuts its input into
    records and a reader that hands them out in pieces. Sealing is any AEAD that opens what it sealed. */
module NoiseStream {
  import opened Common
  import opened Framing
  import opened Transport

  const MSG_ERROR: byte := 3
  const MSG_RECORD: byte := 4
  const HEADER_LEN := 3
  const TAG_LEN := 16
  const MAX_MESSAGE := 4096
  const MAX_CIPHERTEXT := MAX_MESSAGE - HEADER_LEN
  const MAX_PLAINTEXT := MAX_CIPHERTEXT - TAG_LEN

  datatype Aead = Aead(seal: (nat, nat, Bytes) -> Bytes, unseal: (nat, nat, Bytes) -> Option<Bytes>)

  ghost predicate Lawful(a: Aead) {
    forall k, n, p :: |a.seal(k, n, p)| == |p| + TAG_LEN && a.unseal(k, n, a.seal(k, n, p)) == Some(p)
  }

  // ---- nonces ----

  /** The `k` lowest bytes, least significant first. */
  function Digits(x: nat, k: nat): (d: Bytes)
    ensures |d| == k
  {
    if k == 0 then [] else [Low8(x)] + Digits(x / 256, k - 1)
  }

  function Value(d: Bytes): nat {
    if d == [] then 0 else d[0] as int + 256 * Value(d[1..])
  }

  function Backwards(d: Bytes): (r: Bytes)
    ensures |r| == |d| && forall i :: 0 <= i < |d| ==> r[i] == d[|d| - 1 - i]
  {
    seq(|d|, i requires 0 <= i < |d| => d[|d| - 1 - i])
  }

  /** `u64::swap_bytes`. */
  function SwapBytes(counter: nat): nat {
    Value(Backwards(Digits(counter, 8)))
  }

  function Pow256(k: nat): (p: nat)
    ensures p > 0
  {
    if k == 0 then 1 else 256 * Pow256(k - 1)
  }

  lemma {:induction false} DigitsOfValue(d: Bytes)
    ensures Digits(Value(d), |d|) == d
  {
    if d != [] {
      DigitsOfValue(d[1..]);
      assert Value(d) / 256 == Value(d[1..]) && Value(d) % 256 == d[0] as int;
      assert d == [d[0]] + d[1..];
    }
  }

  lemma {:induction false} ValueOfDigits(x: nat, k: nat)
    requires x < Pow256(k)
    ensures Value(Digits(x, k)) == x
  {
    if k > 0 {
      ValueOfDigits(x / 256, k - 1);
      assert Digits(x, k)[1..] == Digits(x / 256, k - 1);
    }
  }

  lemma U64()
    ensures Pow256(8) == 0x1_0000_0000_0000_0000
  {
    assert Pow256(4) == 0x1_0000_0000;
  }

  /** Different counters of 64 bits have different nonces. */
  lemma NoncesDiffer(m: nat, n: nat)
    requires m < 0x1_0000_0000_0000_0000 && n < 0x1_0000_0000_0000_0000
    ensures SwapBytes(m) == SwapBytes(n) ==> m == n
    ensures SwapBytes(SwapBytes(n)) == n
  {
    U64();
    var dm, dn := Digits(m, 8), Digits(n, 8);
    DigitsOfValue(Backwards(dm));
    DigitsOfValue(Backwards(dn));
    assert Backwards(Backwards(dm)) == dm && Backwards(Backwards(dn)) == dn;
    ValueOfDigits(m, 8);
    ValueOfDigits(n, 8);
  }

  lemma {:induction false} DigitAt(x: nat, k: nat, i: nat)
    requires i < k
    ensures Digits(x, k)[i] as int == x / Pow256(i) % 256
  {
    if i > 0 {
      DigitAt(x / 256, k - 1, i - 1);
      DivTwice(x, Pow256(i - 1));
    }
  }

  lemma DivTwice(x: nat, b: nat)
    requires b > 0
    ensures x / 256 / b == x / (256 * b)
  {
    var q, r := x / (256 * b), x % (256 * b);
    assert x == 256 * (q * b + r / 256) + r % 256;
    assert x / 256 == q * b + r / 256;
    assert r / 256 < b;
    Quotient(x / 256, b, q, r / 256);
  }

  lemma Quotient(x: nat, b: nat, q: nat, r: nat)
    requires x == q * b + r && r < b
    ensures x / b == q
  {
    var d := x / b - q;
    assert d * b == r - x % b;
    assert (d >= 1 ==> d * b >= b) && (d <= -1 ==> d * b <= -(b as int));
  }

  /** The eight bytes of a nonce, least significant first, are those of its counter, most significant first. */
  lemma NonceBytes(n: nat, i: nat)
    requires n < 0x1_0000_0000_0000_0000 && i < 8
    ensures SwapBytes(n) / Pow256(i) % 256 == n / Pow256(7 - i) % 256
  {
    var d := Digits(n, 8);
    DigitsOfValue(Backwards(d));
    DigitAt(SwapBytes(n), 8, i);
    DigitAt(n, 8, 7 - i);
  }

  // ---- records ----

  function Record(a: Aead, key: nat, n: nat, chunk: Bytes): Bytes {
    var ct := a.seal(key, SwapBytes(n), chunk);
    [MSG_RECORD, Low8(|ct| / 256), Low8(|ct|)] + ct
  }

  function RecordList(a: Aead, key: nat, n: nat, chunks: seq<Bytes>): seq<Bytes> {
    seq(|chunks|, i requires 0 <= i < |chunks| => Record(a, key, n + i, chunks[i]))
  }

  /** Consecutive records on the wire. */
  function Records(a: Aead, key: nat, n: nat, chunks: seq<Bytes>): Bytes {
    Flat(RecordList(a, key, n, chunks))
  }

  function Flat(chunks: seq<Bytes>): Bytes {
    if chunks == [] then [] else chunks[0] + Flat(chunks[1..])
  }

  /** The pieces `chunks(MAX_PLAINTEXT)` cuts a buffer into. */
  function Chunks(data: Bytes): seq<Bytes> {
    if data == [] then [] else
    var n := Min(|data|, MAX_PLAINTEXT);
    [data[..n]] + Chunks(data[n..])
  }

  /** They are the buffer again, none is empty and none too long. */
  lemma {:induction false} ChunksWhole(data: Bytes)
    ensures Flat(Chunks(data)) == data && Fitting(Chunks(data))
    decreases |data|
  {
    if data != [] {
      var n := Min(|data|, MAX_PLAINTEXT);
      ChunksWhole(data[n..]);
      assert Chunks(data)[1..] == Chunks(data[n..]);
      assert data == data[..n] + data[n..];
    }
  }

  /** All pieces but the last are of 4077 bytes. */
  lemma {:induction false} ChunksFull(data: Bytes, i: nat)
    requires i + 1 < |Chunks(data)|
    ensures |Chunks(data)[i]| == 4077
    decreases |data|
  {
    if i > 0 { ChunksFull(data[Min(|data|, MAX_PLAINTEXT)..], i - 1); }
  }

  predicate Fitting(chunks: seq<Bytes>) {
    forall c <- chunks :: 0 < |c| <= MAX_PLAINTEXT
  }

  /** Records of a written buffer fit the maximum message, and their header states their length. */
  lemma RecordFits(a: Aead, key: nat, n: nat, chunk: Bytes)
    requires Lawful(a) && |chunk| <= MAX_PLAINTEXT
    ensures |Record(a, key, n, chunk)| == HEADER_LEN + |chunk| + TAG_LEN <= MAX_MESSAGE
    ensures var r := Record(a, key, n, chunk); Be16(r[1], r[2]) == |r| - HEADER_LEN
  {
  }

  function TakeRecord(a: Aead, key: nat, n: nat, b: Bytes): Taken<Bytes> {
    if |b| < HEADER_LEN then NeedMore else
    var len := Be16(b[1], b[2]);
    if b[0] != MSG_RECORD then Bad else
    if !(TAG_LEN <= len <= MAX_CIPHERTEXT) then Bad else
    if |b| < HEADER_LEN + len then NeedMore else
    match a.unseal(key, SwapBytes(n), b[HEADER_LEN..HEADER_LEN + len])
    case Some(p) => Got(p, HEADER_LEN + len)
    case None => Bad
  }

  /** What the bytes of a record mean: 4, two of length between 16 and 4093, and that many that open. Anything
      else that is all there is an error. */
  lemma RecordBytes(a: Aead, key: nat, n: nat, b: Bytes, p: Bytes, used: nat)
    ensures TakeRecord(a, key, n, b) == Got(p, used) <==>
            && |b| >= 3 && b[0] == 4 && used == 3 + 256 * (b[1] as int) + b[2] as int && 3 + 16 <= used <= 3 + 4093 && used <= |b|
            && a.unseal(key, SwapBytes(n), b[3..used]) == Some(p)
    ensures TakeRecord(a, key, n, b).Bad? <==>
            && |b| >= 3
            && var used := 3 + 256 * (b[1] as int) + b[2] as int;
               b[0] != 4 || !(3 + 16 <= used <= 3 + 4093) || (used <= |b| && a.unseal(key, SwapBytes(n), b[3..used]).None?)
  {
  }

  lemma RecordTakenBack(a: Aead, key: nat, n: nat, chunk: Bytes, more: Bytes)
    requires Lawful(a) && |chunk| <= MAX_PLAINTEXT
    ensures TakeRecord(a, key, n, Record(a, key, n, chunk) + more) == Got(chunk, |Record(a, key, n, chunk)|)
  {
    RecordFits(a, key, n, chunk);
    var r := Record(a, key, n, chunk);
    var ct := a.seal(key, SwapBytes(n), chunk);
    assert (r + more)[HEADER_LEN..HEADER_LEN + |ct|] == ct;
  }

  /** Part of a record is not mistaken for one. */
  lemma RecordCut(a: Aead, key: nat, n: nat, chunk: Bytes, part: Bytes)
    requires Lawful(a) && |chunk| <= MAX_PLAINTEXT && part < Record(a, key, n, chunk)
    ensures TakeRecord(a, key, n, part) == NeedMore
  {
    RecordFits(a, key, n, chunk);
  }

  // ---- the reader ----

  /** `plain` is what is left of the record in hand, `raw` the stream behind it. */
  datatype Reader = Reader(n: nat, plain: Bytes, raw: Bytes)

  /** The record in hand, if it is not used up. */
  function Loaded(a: Aead, key: nat, r: Reader): Option<Reader> {
    if r.plain != [] then Some(r) else
    match TakeRecord(a, key, r.n, r.raw)
    case Got(p, used) => Some(Reader(r.n + 1, p, if used <= |r.raw| then r.raw[used..] else []))
    case _ => None
  }

  function ReadStep(a: Aead, key: nat, r: Reader, max: nat): Option<(Reader, Bytes)> {
    match Loaded(a, key, r)
    case None => None
    case Some(l) =>
      var n := Min(|l.plain|, max);
      Some((l.(plain := l.plain[n..]), l.plain[..n]))
  }

  /** How much a record read asks for: the header, and what it announces if that is wanted. */
  function Wanted(raw: Bytes): (n: nat)
    ensures n >= HEADER_LEN
  {
    if |raw| < HEADER_LEN then HEADER_LEN else
    var len := Be16(raw[1], raw[2]);
    if raw[0] != MSG_ERROR && (raw[0] != MSG_RECORD || !(TAG_LEN <= len <= MAX_CIPHERTEXT)) then HEADER_LEN else HEADER_LEN + len
  }

  /** One read when the transport delivers no more than `limit` bytes before it times out or ends. A
      read that fails hands out nothing, and what it was delivered is gone. */
  function Attempt(a: Aead, key: nat, r: Reader, max: nat, limit: nat): (Reader, Option<Bytes>) {
    if r.plain != [] then
      var n := Min(|r.plain|, max);
      (r.(plain := r.plain[n..]), Some(r.plain[..n]))
    else
      var k := Min(Min(limit, Wanted(r.raw)), |r.raw|);
      match TakeRecord(a, key, r.n, r.raw[..k])
      case Got(p, _) =>
        var n := Min(|p|, max);
        (Reader(r.n + 1, p[n..], r.raw[k..]), Some(p[..n]))
      case _ => (Reader(r.n, [], r.raw[k..]), None)
  }

  /** What a read that fails takes of a stream that is all there: an error message (3) or a record that does not
      open as a whole, of anything else the three header bytes. */
  lemma FailedReadTakes(a: Aead, key: nat, r: Reader, max: nat, limit: nat)
    requires r.plain == [] && |r.raw| >= 3 && limit >= |r.raw|
    ensures var b := r.raw; var used := 3 + 256 * (b[1] as int) + b[2] as int; var (r', x) := Attempt(a, key, r, max, limit);
            && (b[0] == 3 && used <= |b| ==> x.None? && r' == Reader(r.n, [], b[used..]))
            && (b[0] == 4 && 3 + 16 <= used <= 3 + 4093 && used <= |b| && a.unseal(key, SwapBytes(r.n), b[3..used]).None? ==>
                  x.None? && r' == Reader(r.n, [], b[used..]))
            && (b[0] != 3 && !(b[0] == 4 && 3 + 16 <= used <= 3 + 4093) ==> x.None? && r' == Reader(r.n, [], b[3..]))
  {
    var k := Min(Min(limit, Wanted(r.raw)), |r.raw|);
    if k == HEADER_LEN + Be16(r.raw[1], r.raw[2]) { assert r.raw[..k][HEADER_LEN..k] == r.raw[HEADER_LEN..k]; }
  }

  /** A read that succeeds is the step of a reader whose transport never fails. */
  lemma AttemptIsStep(a: Aead, key: nat, r: Reader, max: nat, limit: nat)
    requires Attempt(a, key, r, max, limit).1.Some?
    ensures var (r', b) := Attempt(a, key, r, max, limit); ReadStep(a, key, r, max) == Some((r', b.value))
  {
    if r.plain == [] { TakenFromFront(a, key, r.n, r.raw, Min(Min(limit, Wanted(r.raw)), |r.raw|)); }
  }

  /** A record found in the bytes asked for is the one the stream begins with, and is all of them. */
  lemma TakenFromFront(a: Aead, key: nat, n: nat, raw: Bytes, k: nat)
    requires k <= |raw| && k <= Wanted(raw) && TakeRecord(a, key, n, raw[..k]).Got?
    ensures TakeRecord(a, key, n, raw) == TakeRecord(a, key, n, raw[..k]) && TakeRecord(a, key, n, raw).used == k
  {
    var len := Be16(raw[1], raw[2]);
    assert raw[..k][HEADER_LEN..HEADER_LEN + len] == raw[HEADER_LEN..HEADER_LEN + len];
  }

  /** Everything a reader can still hand out. */
  function Decoded(a: Aead, key: nat, n: nat, raw: Bytes): Bytes
    decreases |raw|
  {
    match TakeRecord(a, key, n, raw)
    case Got(p, used) => if 0 < used <= |raw| then p + Decoded(a, key, n + 1, raw[used..]) else p
    case _ => []
  }

  function Remaining(a: Aead, key: nat, r: Reader): Bytes {
    r.plain + Decoded(a, key, r.n, r.raw)
  }

  /** A read takes the next bytes off the front of the plaintext, and loses none. */
  lemma ReadTakesFront(a: Aead, key: nat, r: Reader, max: nat)
    requires ReadStep(a, key, r, max).Some?
    ensures var (r', b) := ReadStep(a, key, r, max).value; b + Remaining(a, key, r') == Remaining(a, key, r)
  {
    var l := Loaded(a, key, r).value;
    LoadKeeps(a, key, r);
    CutFront(l.plain, Min(|l.plain|, max), Decoded(a, key, l.n, l.raw));
  }

  /** A record with nothing in it is still to come, before any that does not open. */
  ghost predicate EmptyAhead(a: Aead, key: nat, n: nat, raw: Bytes)
    decreases |raw|
  {
    match TakeRecord(a, key, n, raw)
    case Got(p, used) => p == [] || (0 < used <= |raw| && EmptyAhead(a, key, n + 1, raw[used..]))
    case _ => false
  }

  /** A read of something that hands out nothing has met such a record. */
  lemma ReadAhead(a: Aead, key: nat, r: Reader, max: nat)
    requires ReadStep(a, key, r, max).Some? && max > 0
    ensures var (r', b) := ReadStep(a, key, r, max).value;
            && (b == [] ==> EmptyAhead(a, key, r.n, r.raw))
            && (EmptyAhead(a, key, r'.n, r'.raw) ==> EmptyAhead(a, key, r.n, r.raw))
  {
  }

  lemma NothingRemains(a: Aead, key: nat, r: Reader, max: nat)
    requires ReadStep(a, key, r, max).None?
    ensures Remaining(a, key, r) == []
  {
  }

  lemma LoadKeeps(a: Aead, key: nat, r: Reader)
    requires Loaded(a, key, r).Some?
    ensures Remaining(a, key, Loaded(a, key, r).value) == Remaining(a, key, r)
  {
    if r.plain == [] { assert [] + Decoded(a, key, r.n, r.raw) == Decoded(a, key, r.n, r.raw); }
  }

  lemma CutFront(p: Bytes, n: nat, d: Bytes)
    requires n <= |p|
    ensures p[..n] + (p[n..] + d) == p + d
  {
    assert p == p[..n] + p[n..];
  }

  // ---- whole writes ----

  function WireOf(a: Aead, key: nat, n: nat, writes: seq<Bytes>): Bytes
    decreases |writes|
  {
    if writes == [] then [] else
    Records(a, key, n, Chunks(writes[0])) + WireOf(a, key, n + |Chunks(writes[0])|, writes[1..])
  }

  function AllChunks(writes: seq<Bytes>): seq<Bytes> {
    if writes == [] then [] else Chunks(writes[0]) + AllChunks(writes[1..])
  }

  lemma {:induction false} FlatJoin(a: seq<Bytes>, b: seq<Bytes>)
    ensures Flat(a + b) == Flat(a) + Flat(b)
  {
    if a == [] {
      assert a + b == b;
    } else {
      FlatJoin(a[1..], b);
      assert (a + b)[1..] == a[1..] + b;
      Associate(a[0], Flat(a[1..]), Flat(b));
    }
  }

  lemma RecordsJoin(a: Aead, key: nat, n: nat, x: seq<Bytes>, y: seq<Bytes>)
    ensures Records(a, key, n, x + y) == Records(a, key, n, x) + Records(a, key, n + |x|, y)
  {
    assert RecordList(a, key, n, x + y) == RecordList(a, key, n, x) + RecordList(a, key, n + |x|, y);
    FlatJoin(RecordList(a, key, n, x), RecordList(a, key, n + |x|, y));
  }

  lemma RecordsFront(a: Aead, key: nat, n: nat, x: seq<Bytes>)
    requires x != []
    ensures Records(a, key, n, x) == Record(a, key, n, x[0]) + Records(a, key, n + 1, x[1..])
  {
    assert RecordList(a, key, n, x)[1..] == RecordList(a, key, n + 1, x[1..]);
  }

  lemma {:induction false} WritesWhole(writes: seq<Bytes>)
    ensures Fitting(AllChunks(writes)) && Flat(AllChunks(writes)) == Flat(writes)
  {
    if writes != [] {
      WritesWhole(writes[1..]);
      ChunksWhole(writes[0]);
      FlatJoin(Chunks(writes[0]), AllChunks(writes[1..]));
    }
  }

  lemma {:induction false} WireIsRecords(a: Aead, key: nat, n: nat, writes: seq<Bytes>)
    ensures WireOf(a, key, n, writes) == Records(a, key, n, AllChunks(writes))
    decreases |writes|
  {
    if writes != [] {
      WireIsRecords(a, key, n + |Chunks(writes[0])|, writes[1..]);
      RecordsJoin(a, key, n, Chunks(writes[0]), AllChunks(writes[1..]));
    }
  }

  // ---- the connection ----

  lemma Join3(x: Bytes, y: Bytes, z: Bytes)
    ensures x + (y + z) == (x + y) + z
  {
  }

  lemma DropTwice(raw: Bytes, m: nat, n: nat)
    requires m + n <= |raw|
    ensures raw[m..][n..] == raw[m + n..]
  {
  }

  /** A header of a record and exactly the ciphertext it announces. */
  predicate IsRecord(b: Bytes) {
    && |b| >= HEADER_LEN && b[0] == MSG_RECORD && |b| == HEADER_LEN + Be16(b[1], b[2])
    && TAG_LEN <= |b| - HEADER_LEN <= MAX_CIPHERTEXT
  }

  /** Among the bytes asked for, a record is taken exactly from a whole one that opens. */
  lemma RecordByCases(a: Aead, key: nat, n: nat, raw: Bytes, k: nat)
    requires k <= |raw| && k <= Wanted(raw)
    ensures var t := TakeRecord(a, key, n, raw[..k]);
            if IsRecord(raw[..k]) then
              match a.unseal(key, SwapBytes(n), raw[HEADER_LEN..k])
              case Some(p) => t == Got(p, k) && TakeRecord(a, key, n, raw) == t
              case None => !t.Got? && !TakeRecord(a, key, n, raw).Got?
            else !t.Got? && (k == Min(Wanted(raw), |raw|) ==> !TakeRecord(a, key, n, raw).Got?)
  {
    if k >= HEADER_LEN {
      var len := Be16(raw[1], raw[2]);
      if k == HEADER_LEN + len { assert raw[..k][HEADER_LEN..HEADER_LEN + len] == raw[HEADER_LEN..k]; }
    }
  }

  /** Bytes were fetched, and whatever was taken is gone. */
  ghost predicate Fetched(pending: Bytes, unread: Bytes, script: seq<nat>, n: nat, pending': Bytes, unread': Bytes, script': seq<nat>, r: Option<Bytes>) {
    var raw := pending + unread;
    var (t, s) := Fetch(|pending|, |unread|, script, n);
    && t <= |raw| && pending' + unread' == raw[t..] && script' == s && |pending'| == |pending| - Min(|pending|, n)
    && r == if t == n then Some(raw[..n]) else None
  }

  lemma FetchedWithin(pending: Bytes, unread: Bytes, script: seq<nat>, n: nat)
    requires n <= |pending|
    ensures Fetched(pending, unread, script, n, pending[n..], unread, script, Some(pending[..n]))
  {
    assert pending[n..] + unread == (pending + unread)[n..] && (pending + unread)[..n] == pending[..n];
  }

  lemma FetchedBeyond(pending: Bytes, unread: Bytes, script: seq<nat>, n: nat)
    requires |pending| < n
    ensures var (t, s) := Gather(|unread|, script, n - |pending|);
            t <= |unread| && t <= n - |pending| &&
            Fetched(pending, unread, script, n, [], unread[t..], s, if t == n - |pending| then Some(pending + unread[..t]) else None)
  {
    GatherFits(|unread|, script, n - |pending|);
    var t := Gather(|unread|, script, n - |pending|).0;
    assert [] + unread[t..] == (pending + unread)[|pending| + t..];
    if t == n - |pending| { assert (pending + unread)[..n] == pending + unread[..t]; }
  }

  /** What one `read_raw_exact` of `n` bytes takes, of `pending` left over and `have` still to come. */
  function Fetch(pending: nat, have: nat, script: seq<nat>, n: nat): (nat, seq<nat>) {
    if n <= pending then (n, script) else
    var (t, s) := Gather(have, script, n - pending);
    (pending + t, s)
  }

  /** What a record read is delivered: the header, then as much of the rest as the header asks for. */
  function LimitOf(pending: Bytes, unread: Bytes, script: seq<nat>): nat {
    var raw := pending + unread;
    var (h, s) := Fetch(|pending|, |unread|, script, HEADER_LEN);
    if h < HEADER_LEN || |raw| < HEADER_LEN then h else
    var left := |pending| - Min(|pending|, HEADER_LEN);
    HEADER_LEN + Fetch(left, |raw| - HEADER_LEN - left, s, Wanted(raw) - HEADER_LEN).0
  }

  lemma LimitFits(pending: Bytes, unread: Bytes, script: seq<nat>)
    ensures LimitOf(pending, unread, script) <= |pending + unread| && LimitOf(pending, unread, script) <= Wanted(pending + unread)
  {
    var raw := pending + unread;
    FetchFits(|pending|, |unread|, script, HEADER_LEN);
    var (h, s) := Fetch(|pending|, |unread|, script, HEADER_LEN);
    if h >= HEADER_LEN {
      var left := |pending| - Min(|pending|, HEADER_LEN);
      FetchFits(left, |raw| - HEADER_LEN - left, s, Wanted(raw) - HEADER_LEN);
    }
  }

  lemma FetchFits(pending: nat, have: nat, script: seq<nat>, n: nat)
    ensures var t := Fetch(pending, have, script, n).0; t <= n && t <= pending + have
  {
    if n > pending { GatherFits(have, script, n - pending); }
  }

  lemma HeaderFetched(pending: Bytes, unread: Bytes, script: seq<nat>, pending': Bytes, unread': Bytes, script': seq<nat>, r: Option<Bytes>)
    requires Fetched(pending, unread, script, HEADER_LEN, pending', unread', script', r)
    ensures var raw := pending + unread; var limit := LimitOf(pending, unread, script);
            if r.None? then limit < HEADER_LEN && limit <= |raw| && pending' + unread' == raw[limit..]
            else && |raw| >= HEADER_LEN && r.value == raw[..HEADER_LEN] && pending' + unread' == raw[HEADER_LEN..]
                 && limit == HEADER_LEN + Fetch(|pending'|, |unread'|, script', Wanted(raw) - HEADER_LEN).0
  {
    FetchFits(|pending|, |unread|, script, HEADER_LEN);
    if r.Some? { assert |pending' + unread'| == |pending + unread| - HEADER_LEN; }
  }

  /** The rest of the record, as far as it is delivered, and what is left behind it. */
  lemma RestFetched(raw: Bytes, limit: nat, pending: Bytes, unread: Bytes, script: seq<nat>, len: nat)
    requires |raw| >= HEADER_LEN && pending + unread == raw[HEADER_LEN..] && limit == HEADER_LEN + Fetch(|pending|, |unread|, script, len).0
    ensures HEADER_LEN <= limit <= |raw| && limit <= HEADER_LEN + len
    ensures (pending + unread)[limit - HEADER_LEN..] == raw[limit..]
    ensures limit == HEADER_LEN + len ==> (pending + unread)[..len] == raw[HEADER_LEN..limit]
  {
    FetchFits(|pending|, |unread|, script, len);
    assert |pending + unread| == |raw| - HEADER_LEN;
    DropTwice(raw, HEADER_LEN, limit - HEADER_LEN);
  }

  /** From `before` to `r`, `got` was read. */
  ghost predicate ReadOn(a: Aead, key: nat, before: Reader, got: Bytes, r: Reader) {
    && Remaining(a, key, before) == got + Remaining(a, key, r)
    && (EmptyAhead(a, key, r.n, r.raw) ==> EmptyAhead(a, key, before.n, before.raw))
  }

  lemma ReadOnStart(a: Aead, key: nat, r: Reader)
    ensures ReadOn(a, key, r, [], r)
  {
    assert [] + Remaining(a, key, r) == Remaining(a, key, r);
  }

  lemma ReadOnMore(a: Aead, key: nat, before: Reader, got: Bytes, r: Reader, max: nat)
    requires ReadOn(a, key, before, got, r) && ReadStep(a, key, r, max).Some? && max > 0
    ensures var (r', b) := ReadStep(a, key, r, max).value;
            ReadOn(a, key, before, got + b, r') && (b == [] ==> EmptyAhead(a, key, before.n, before.raw))
  {
    var (r', b) := ReadStep(a, key, r, max).value;
    ReadTakesFront(a, key, r, max);
    ReadAhead(a, key, r, max);
    Join3(got, b, Remaining(a, key, r'));
  }

  lemma ReadOnEnds(a: Aead, key: nat, before: Reader, got: Bytes, r: Reader, max: nat)
    requires ReadOn(a, key, before, got, r) && ReadStep(a, key, r, max).None?
    ensures |Remaining(a, key, before)| == |got|
  {
    NothingRemains(a, key, r, max);
  }

  class NoiseConn {
    const inner: Conn
    const aead: Aead
    const txKey: nat
    const rxKey: nat
    var txN: nat
    var rxN: nat
    var rawPending: Bytes
    var plainPending: Bytes
    var plainPos: nat

    constructor (c: Conn, a: Aead, tx: nat, rx: nat, leftover: Bytes)
      ensures inner == c && aead == a && txKey == tx && rxKey == rx && txN == 0 && rawPending == leftover
      ensures Valid() && View() == Reader(0, [], leftover + c.unread)
    {
      inner, aead, txKey, rxKey := c, a, tx, rx;
      txN, rxN, rawPending, plainPending, plainPos := 0, 0, leftover, [], 0;
    }

    ghost predicate Valid()
      reads this
    {
      plainPos <= |plainPending|
    }

    ghost function View(): Reader
      requires Valid()
      reads this, inner
    {
      Reader(rxN, plainPending[plainPos..], rawPending + inner.unread)
    }

    /** The next `n` bytes, leftover first. What a failed read has taken is gone. */
    method ReadRawExact(n: nat) returns (r: Option<Bytes>)
      modifies this`rawPending, inner`unread, inner`script, inner`failed
      ensures Fetched(old(rawPending), old(inner.unread), old(inner.script), n, rawPending, inner.unread, inner.script, r)
      ensures r.None? ==> inner.failed || rawPending + inner.unread == []
    {
      var buf: Bytes := [];
      if rawPending != [] {
        var k := Min(|rawPending|, n);
        buf := rawPending[..k];
        rawPending := rawPending[k..];
      }
      if |buf| < n {
        assert buf == old(rawPending) && rawPending == [];
        FetchedBeyond(buf, inner.unread, inner.script, n);
        var more := inner.ReceiveExact(n - |buf|);
        if more.None? { return None; }
        buf := buf + more.value;
      } else {
        FetchedWithin(old(rawPending), inner.unread, inner.script, n);
      }
      return Some(buf);
    }

    /** How much the transport delivers to the next record. */
    ghost function Limit(): nat
      reads this, inner
    {
      LimitOf(rawPending, inner.unread, inner.script)
    }

    /** Takes what the transport delivers of the next record: its ciphertext, if there is all of it. */
    method FetchRecord() returns (ct: Option<Bytes>)
      modifies this`rawPending, inner`unread, inner`script, inner`failed
      ensures var raw := old(rawPending + inner.unread); var limit := old(Limit());
              && limit <= |raw| && rawPending + inner.unread == raw[limit..]
              && ct == (if IsRecord(raw[..limit]) then Some(raw[HEADER_LEN..limit]) else None)
      ensures ct.None? ==> inner.failed || old(Limit()) == Min(Wanted(old(rawPending + inner.unread)), |old(rawPending + inner.unread)|)
    {
      ghost var raw := rawPending + inner.unread;
      ghost var limit := Limit();
      ghost var pending, unread, script := rawPending, inner.unread, inner.script;
      LimitFits(pending, unread, script);
      var hdr := ReadRawExact(HEADER_LEN);
      HeaderFetched(pending, unread, script, rawPending, inner.unread, inner.script, hdr);
      if hdr.None? { return None; }
      var len := Be16(hdr.value[1], hdr.value[2]);
      if hdr.value[0] == MSG_ERROR {
        var _ := FetchRest(raw, limit, len);
        return None;
      }
      if hdr.value[0] != MSG_RECORD { return None; }
      if !(TAG_LEN <= len <= MAX_CIPHERTEXT) { return None; }
      ct := FetchRest(raw, limit, len);
    }

    method FetchRest(ghost raw: Bytes, ghost limit: nat, len: nat) returns (ct: Option<Bytes>)
      requires |raw| >= HEADER_LEN && rawPending + inner.unread == raw[HEADER_LEN..]
      requires limit == HEADER_LEN + Fetch(|rawPending|, |inner.unread|, inner.script, len).0
      modifies this`rawPending, inner`unread, inner`script, inner`failed
      ensures limit <= |raw| && rawPending + inner.unread == raw[limit..]
      ensures ct == (if limit == HEADER_LEN + len then Some(raw[HEADER_LEN..limit]) else None)
      ensures ct.None? ==> inner.failed || limit == Min(HEADER_LEN + len, |raw|)
    {
      RestFetched(raw, limit, rawPending, inner.unread, inner.script, len);
      ct := ReadRawExact(len);
    }

    /** Loads the next record, or fails with plaintext and counter left alone; what was delivered is
        gone either way. */
    method ReadRecord() returns (ok: bool)
      requires Valid()
      modifies this, inner`unread, inner`script, inner`failed
      ensures Valid() && txN == old(txN) && old(Limit()) <= |old(View()).raw|
      ensures var raw := old(View()).raw; var t := TakeRecord(aead, rxKey, old(rxN), raw[..old(Limit())]);
              && ok == t.Got?
              && View() == if ok then Reader(old(rxN) + 1, t.frame, raw[old(Limit())..]) else old(View()).(raw := raw[old(Limit())..])
      ensures !ok ==> inner.failed || !TakeRecord(aead, rxKey, old(rxN), old(View()).raw).Got?
    {
      ghost var raw := View().raw;
      ghost var limit := Limit();
      LimitFits(rawPending, inner.unread, inner.script);
      var ct := FetchRecord();
      RecordByCases(aead, rxKey, rxN, raw, limit);
      if ct.None? { return false; }
      var pt := aead.unseal(rxKey, SwapBytes(rxN), ct.value);
      if pt.None? { return false; }
      rxN := rxN + 1;
      plainPending, plainPos := pt.value, 0;
      return true;
    }

    /** A read is an attempt with what the transport delivers. */
    method Read(max: nat) returns (r: Option<Bytes>)
      requires Valid()
      modifies this, inner`unread, inner`script, inner`failed
      ensures Valid() && txN == old(txN)
      ensures (View(), r) == Attempt(aead, rxKey, old(View()), max, old(Limit()))
      ensures r.Some? ==> r.value + Remaining(aead, rxKey, View()) == Remaining(aead, rxKey, old(View()))
      ensures r.None? ==> inner.failed || ReadStep(aead, rxKey, old(View()), max).None?
    {
      ghost var before := View();
      ghost var limit := Limit();
      LimitFits(rawPending, inner.unread, inner.script);
      if plainPos >= |plainPending| {
        var ok := ReadRecord();
        if !ok { return None; }
      }
      r := HandOut(max);
      assert (View(), r) == Attempt(aead, rxKey, before, max, limit);
      AttemptIsStep(aead, rxKey, before, max, limit);
      ReadTakesFront(aead, rxKey, before, max);
    }

    /** The front of the record in hand. */
    method HandOut(max: nat) returns (r: Option<Bytes>)
      requires Valid()
      modifies this`plainPos
      ensures Valid()
      ensures var was := old(View()); var n := Min(|was.plain|, max); View() == was.(plain := was.plain[n..]) && r == Some(was.plain[..n])
    {
      var n := Min(|plainPending| - plainPos, max);
      ghost var held := View().plain;
      r := Some(plainPending[plainPos..plainPos + n]);
      plainPos := plainPos + n;
      assert r.value == held[..n] && View().plain == held[n..];
    }

    /** `read_exact` on the plaintext; an empty record counts as the end. */
    method ReadExact(n: nat) returns (r: Option<Bytes>)
      requires Valid()
      modifies this, inner`unread, inner`script, inner`failed
      ensures Valid()
      ensures r.Some? ==> |r.value| == n && Remaining(aead, rxKey, old(View())) == r.value + Remaining(aead, rxKey, View())
      ensures r.None? ==> inner.failed || |Remaining(aead, rxKey, old(View()))| < n || EmptyAhead(aead, rxKey, old(View()).n, old(View()).raw)
      ensures EmptyAhead(aead, rxKey, View().n, View().raw) && r.Some? ==> EmptyAhead(aead, rxKey, old(View()).n, old(View()).raw)
    {
      var got: Bytes := [];
      ghost var before := View();
      ReadOnStart(aead, rxKey, before);
      while |got| < n
        invariant Valid() && |got| <= n && ReadOn(aead, rxKey, before, got, View())
        decreases n - |got|
      {
        var b := ReadMore(before, got, n - |got|);
        if b.None? || b.value == [] { return None; }
        got := got + b.value;
      }
      return Some(got);
    }

    method ReadMore(ghost before: Reader, ghost got: Bytes, max: nat) returns (b: Option<Bytes>)
      requires Valid() && max > 0 && ReadOn(aead, rxKey, before, got, View())
      modifies this, inner`unread, inner`script, inner`failed
      ensures Valid()
      ensures b.Some? ==> |b.value| <= max && ReadOn(aead, rxKey, before, got + b.value, View())
      ensures b.Some? && b.value == [] ==> EmptyAhead(aead, rxKey, before.n, before.raw)
      ensures b.None? ==> inner.failed || |Remaining(aead, rxKey, before)| == |got|
    {
      ghost var was := View();
      ghost var limit := Limit();
      b := Read(max);
      if b.Some? {
        AttemptIsStep(aead, rxKey, was, max, limit);
        ReadOnMore(aead, rxKey, before, got, was, max);
      } else if !inner.failed {
        ReadOnEnds(aead, rxKey, before, got, was, max);
      }
    }

    method SealRecord(chunk: Bytes) returns (record: Bytes)
      modifies this`txN
      ensures record == Record(aead, txKey, old(txN), chunk) && txN == old(txN) + 1
    {
      var ct := aead.seal(txKey, SwapBytes(txN), chunk);
      txN := txN + 1;
      record := [MSG_RECORD, Low8(|ct| / 256), Low8(|ct|)] + ct;
    }

    /** A write puts the records of its chunks on the wire and counts them. */
    method Write(buf: Bytes)
      modifies this`txN, inner`written
      ensures inner.written == old(inner.written) + WireOf(aead, txKey, old(txN), [buf])
      ensures txN == old(txN) + |Chunks(buf)|
    {
      var out: Bytes := [];
      var at := 0;
      WriteBegins(aead, txKey, txN, buf);
      while at < |buf|
        invariant Writing(aead, txKey, old(txN), txN, buf, at, out)
        invariant inner.written == old(inner.written)
      {
        var n := Min(|buf| - at, MAX_PLAINTEXT);
        WriteGoesOn(aead, txKey, old(txN), txN, buf, at, out);
        var record := SealRecord(buf[at..at + n]);
        out := out + record;
        at := at + n;
      }
      WriteEnds(aead, txKey, old(txN), txN, buf, out);
      inner.Send(out);
    }
  }

  /** After `at` bytes, `out` and the records still to come are those of the whole buffer. */
  ghost predicate Writing(a: Aead, key: nat, first: nat, n: nat, buf: Bytes, at: int, out: Bytes) {
    && 0 <= at <= |buf| && n + |Chunks(buf[at..])| == first + |Chunks(buf)|
    && out + Records(a, key, n, Chunks(buf[at..])) == Records(a, key, first, Chunks(buf))
  }

  lemma WriteBegins(a: Aead, key: nat, n: nat, buf: Bytes)
    ensures Writing(a, key, n, n, buf, 0, [])
  {
    assert buf[0..] == buf;
    assert [] + Records(a, key, n, Chunks(buf)) == Records(a, key, n, Chunks(buf));
  }

  lemma WriteGoesOn(a: Aead, key: nat, first: nat, n: nat, buf: Bytes, at: int, out: Bytes)
    requires Writing(a, key, first, n, buf, at, out) && at < |buf|
    ensures var k := Min(|buf| - at, MAX_PLAINTEXT); Writing(a, key, first, n + 1, buf, at + k, out + Record(a, key, n, buf[at..at + k]))
  {
    var k := Min(|buf| - at, MAX_PLAINTEXT);
    FirstChunk(buf, at);
    RecordsFront(a, key, n, Chunks(buf[at..]));
    Join3(out, Record(a, key, n, buf[at..at + k]), Records(a, key, n + 1, Chunks(buf[at + k..])));
  }

  lemma FirstChunk(buf: Bytes, at: nat)
    requires at < |buf|
    ensures var k := Min(|buf| - at, MAX_PLAINTEXT); Chunks(buf[at..]) == [buf[at..at + k]] + Chunks(buf[at + k..])
  {
    var k := Min(|buf| - at, MAX_PLAINTEXT);
    assert buf[at..][..k] == buf[at..at + k] && buf[at..][k..] == buf[at + k..];
  }

  lemma WriteEnds(a: Aead, key: nat, first: nat, n: nat, buf: Bytes, out: Bytes)
    requires Writing(a, key, first, n, buf, |buf|, out)
    ensures out == WireOf(a, key, first, [buf]) && n == first + |Chunks(buf)|
  {
    assert Records(a, key, n, Chunks(buf[|buf|..])) == [];
    assert WireOf(a, key, first, [buf]) == Records(a, key, first, Chunks(buf)) + [];
  }
}
