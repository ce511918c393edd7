/** Reads of the record stream, over and over, with a transport that may time out anywhere: what is
    handed out, and when the reader is still where the writer's records begin. */
module RecordRuns {
  import opened Common
  import opened Framing
  import opened Transport
  import opened NoiseStream

  /** A read of at most `max` bytes, with the transport delivering at most `limit` to it. */
  datatype Try = Try(max: nat, limit: nat)

  /** All reads, failed ones included: the last reader and the bytes handed out. */
  function Tried(a: Aead, key: nat, r: Reader, tries: seq<Try>): (Reader, Bytes)
    decreases |tries|
  {
    if tries == [] then (r, []) else
    var t := tries[|tries| - 1];
    var (r1, b) := Tried(a, key, r, tries[..|tries| - 1]);
    var (r2, x) := Attempt(a, key, r1, t.max, t.limit);
    (r2, b + if x.Some? then x.value else [])
  }

  /** The read fails with part of the stream taken. */
  predicate Loses(a: Aead, key: nat, r: Reader, t: Try) {
    var (r', x) := Attempt(a, key, r, t.max, t.limit);
    x.None? && |r'.raw| < |r.raw|
  }

  /** Every failed read had taken nothing: the transport stopped before the first byte of a record. */
  predicate NoLoss(a: Aead, key: nat, r: Reader, tries: seq<Try>)
    decreases |tries|
  {
    tries == [] ||
    (NoLoss(a, key, r, tries[..|tries| - 1]) && !Loses(a, key, Tried(a, key, r, tries[..|tries| - 1]).0, tries[|tries| - 1]))
  }

  // ---- where the reader stands ----

  /** Where the n-th record begins. */
  function Offset(a: Aead, key: nat, chunks: seq<Bytes>, n: nat): nat
    requires n <= |chunks|
  {
    |Records(a, key, 0, chunks[..n])|
  }

  /** The reader is about to read the record its counter is for. */
  predicate Placed(a: Aead, key: nat, chunks: seq<Bytes>, arrived: Bytes, r: Reader) {
    r.n <= |chunks| && |r.raw| <= |arrived| && |arrived| - |r.raw| == Offset(a, key, chunks, r.n)
  }

  /** The bytes handed out and in hand are exactly the first `r.n` pieces written; the reader is placed,
      or past its place with nothing in hand. */
  ghost predicate ReadSoFar(a: Aead, key: nat, chunks: seq<Bytes>, arrived: Bytes, r: Reader, b: Bytes) {
    && r.n <= |chunks| && |r.raw| <= |arrived| && r.raw == arrived[|arrived| - |r.raw|..]
    && b + r.plain == Flat(chunks[..r.n]) && Offset(a, key, chunks, r.n) <= |arrived| - |r.raw|
    && (!Placed(a, key, chunks, arrived, r) ==> r.plain == [])
  }

  /** What an AEAD promises about one stream: no stretch of it opens under the n-th nonce but the n-th
      record's own ciphertext. */
  ghost predicate NoStray(a: Aead, key: nat, chunks: seq<Bytes>) {
    forall n: nat, i: nat, j: nat :: n <= |chunks| && Opens(a, key, n, Records(a, key, 0, chunks), i, j) ==>
      n < |chunks| && i == Offset(a, key, chunks, n) + HEADER_LEN
  }

  /** The stretch from `i` to `j` opens under the n-th nonce. */
  predicate Opens(a: Aead, key: nat, n: nat, wire: Bytes, i: nat, j: nat) {
    i <= j <= |wire| && a.unseal(key, SwapBytes(n), wire[i..j]).Some?
  }

  lemma OffsetNext(a: Aead, key: nat, chunks: seq<Bytes>, n: nat)
    requires n < |chunks|
    ensures Offset(a, key, chunks, n + 1) == Offset(a, key, chunks, n) + |Record(a, key, n, chunks[n])|
  {
    assert chunks[..n + 1] == chunks[..n] + [chunks[n]];
    RecordsJoin(a, key, 0, chunks[..n], [chunks[n]]);
    RecordsFront(a, key, n, [chunks[n]]);
    var one := [chunks[n]];
    assert one[1..] == [] && Records(a, key, n + 1, one[1..]) == [];
  }

  /** A placed reader has the records from its counter on before it, as far as they have arrived. */
  lemma PlacedFront(a: Aead, key: nat, chunks: seq<Bytes>, arrived: Bytes, r: Reader)
    requires Placed(a, key, chunks, arrived, r) && arrived <= Records(a, key, 0, chunks) && r.raw == arrived[|arrived| - |r.raw|..]
    ensures r.raw <= Records(a, key, r.n, chunks[r.n..])
  {
    var n := r.n;
    var wire := Records(a, key, 0, chunks);
    assert chunks == chunks[..n] + chunks[n..];
    RecordsJoin(a, key, 0, chunks[..n], chunks[n..]);
    var at := Offset(a, key, chunks, n);
    assert wire[at..] == Records(a, key, n, chunks[n..]);
    assert r.raw == arrived[at..] && arrived[at..] <= wire[at..];
  }

  // ---- one read ----

  lemma FrontRecord(a: Aead, key: nat, n: nat, raw: Bytes, rest: seq<Bytes>)
    requires Lawful(a) && Fitting(rest) && rest != [] && raw <= Records(a, key, n, rest)
    ensures var first := Record(a, key, n, rest[0]);
            if |raw| < |first| then raw < first else raw[..|first|] == first && raw[|first|..] <= Records(a, key, n + 1, rest[1..])
  {
    RecordsFront(a, key, n, rest);
    var first, more := Record(a, key, n, rest[0]), Records(a, key, n + 1, rest[1..]);
    if |raw| < |first| { assert raw == (first + more)[..|raw|] == first[..|raw|]; }
    else {
      assert raw[..|first|] == (first + more)[..|first|];
      assert raw[|first|..] == (first + more)[|first|..|raw|] == more[..|raw| - |first|];
    }
  }

  /** What a placed reader asks for is its record. */
  lemma WantsRecord(a: Aead, key: nat, n: nat, raw: Bytes, chunk: Bytes)
    requires Lawful(a) && 0 < |chunk| <= MAX_PLAINTEXT
    requires var first := Record(a, key, n, chunk); (|raw| >= |first| && raw[..|first|] == first) || raw < first
    ensures var first := Record(a, key, n, chunk); HEADER_LEN <= |first| && (|raw| >= HEADER_LEN ==> Wanted(raw) == |first|)
  {
    RecordFits(a, key, n, chunk);
    var first := Record(a, key, n, chunk);
    if |raw| >= HEADER_LEN { assert raw[0] == first[0] && raw[1] == first[1] && raw[2] == first[2]; }
  }

  /** A placed reader with nothing in hand: it gets its record when all of it is delivered, and otherwise
      fails with what was delivered gone. */
  lemma PlacedAttempt(a: Aead, key: nat, chunks: seq<Bytes>, arrived: Bytes, r: Reader, t: Try)
    requires Lawful(a) && Fitting(chunks) && arrived <= Records(a, key, 0, chunks)
    requires Placed(a, key, chunks, arrived, r) && r.raw == arrived[|arrived| - |r.raw|..] && r.plain == []
    ensures if r.n < |chunks| then TakesOrFails(a, key, r, chunks[r.n], t)
            else Attempt(a, key, r, t.max, t.limit) == (r, None) && r.raw == []
  {
    PlacedFront(a, key, chunks, arrived, r);
    if r.n == |chunks| {
      assert chunks[r.n..] == [] && r.raw == [] && r.raw[..0] == [];
      NothingTaken(a, key, r, t);
    } else {
      var chunk := chunks[r.n];
      assert chunks[r.n..][0] == chunk;
      FrontRecord(a, key, r.n, r.raw, chunks[r.n..]);
      WantsRecord(a, key, r.n, r.raw, chunk);
      PlacedTakes(a, key, r, chunk, t);
    }
  }

  /** The record is handed out if all of it was delivered; otherwise what was delivered is gone. */
  predicate TakesOrFails(a: Aead, key: nat, r: Reader, chunk: Bytes, t: Try) {
    var (r', x) := Attempt(a, key, r, t.max, t.limit);
    var size := |Record(a, key, r.n, chunk)|;
    if t.limit >= size && |r.raw| >= size then
      x.Some? && r'.n == r.n + 1 && x.value + r'.plain == chunk && r'.raw == r.raw[size..]
    else x.None? && r'.n == r.n && r'.plain == [] && r'.raw == r.raw[Min(t.limit, |r.raw|)..] && Min(t.limit, |r.raw|) < size
  }

  lemma PlacedTakes(a: Aead, key: nat, r: Reader, chunk: Bytes, t: Try)
    requires Lawful(a) && 0 < |chunk| <= MAX_PLAINTEXT && r.plain == []
    requires var first := Record(a, key, r.n, chunk);
             && ((|r.raw| >= |first| && r.raw[..|first|] == first) || r.raw < first)
             && HEADER_LEN <= |first| && (|r.raw| >= HEADER_LEN ==> Wanted(r.raw) == |first|)
    ensures TakesOrFails(a, key, r, chunk, t)
  {
    var first := Record(a, key, r.n, chunk);
    var k := Min(Min(t.limit, Wanted(r.raw)), |r.raw|);
    if t.limit >= |first| && |r.raw| >= |first| {
      assert r.raw[..k] == first + [];
      RecordTakenBack(a, key, r.n, chunk, []);
      var n := Min(|chunk|, t.max);
      assert chunk[..n] + chunk[n..] == chunk;
    } else {
      assert k == Min(t.limit, |r.raw|) < |first|;
      assert r.raw[..k] == first[..k] && r.raw[..k] < first;
      RecordCut(a, key, r.n, chunk, r.raw[..k]);
    }
  }

  lemma Stretch(wire: Bytes, arrived: Bytes, at: nat, k: nat, i: nat, j: nat)
    requires arrived <= wire && at <= |arrived| && k <= |arrived| - at && i <= j <= k
    ensures arrived[at..][..k][i..j] == wire[at + i..at + j]
  {
  }

  /** A record that opens begins where the reader's counter says. */
  lemma OpensOwn(a: Aead, key: nat, chunks: seq<Bytes>, arrived: Bytes, n: nat, at: nat, k: nat)
    requires NoStray(a, key, chunks) && arrived <= Records(a, key, 0, chunks) && n <= |chunks| && at <= |arrived| && k <= |arrived| - at
    ensures TakeRecord(a, key, n, arrived[at..][..k]).Got? ==> at == Offset(a, key, chunks, n)
  {
    var b := arrived[at..][..k];
    if TakeRecord(a, key, n, b).Got? {
      var len := Be16(b[1], b[2]);
      Stretch(Records(a, key, 0, chunks), arrived, at, k, HEADER_LEN, HEADER_LEN + len);
      assert Opens(a, key, n, Records(a, key, 0, chunks), at + HEADER_LEN, at + HEADER_LEN + len);
    }
  }

  /** Past its place a reader opens nothing, so it stays past it. */
  lemma LostAttempt(a: Aead, key: nat, chunks: seq<Bytes>, arrived: Bytes, r: Reader, b: Bytes, t: Try)
    requires NoStray(a, key, chunks) && arrived <= Records(a, key, 0, chunks)
    requires ReadSoFar(a, key, chunks, arrived, r, b) && !Placed(a, key, chunks, arrived, r)
    ensures var (r', x) := Attempt(a, key, r, t.max, t.limit);
            x.None? && r'.n == r.n && r'.plain == [] && |r'.raw| <= |r.raw| && r'.raw == r.raw[|r.raw| - |r'.raw|..]
  {
    var k := Min(Min(t.limit, Wanted(r.raw)), |r.raw|);
    OpensOwn(a, key, chunks, arrived, r.n, |arrived| - |r.raw|, k);
    NothingTaken(a, key, r, t);
  }

  lemma NothingTaken(a: Aead, key: nat, r: Reader, t: Try)
    requires r.plain == [] && !TakeRecord(a, key, r.n, r.raw[..Min(Min(t.limit, Wanted(r.raw)), |r.raw|)]).Got?
    ensures Attempt(a, key, r, t.max, t.limit) == (Reader(r.n, [], r.raw[Min(Min(t.limit, Wanted(r.raw)), |r.raw|)..]), None)
  {
  }

  // ---- all reads ----

  lemma FlatNext(chunks: seq<Bytes>, n: nat)
    requires n < |chunks|
    ensures Flat(chunks[..n + 1]) == Flat(chunks[..n]) + chunks[n]
  {
    assert chunks[..n + 1] == chunks[..n] + [chunks[n]];
    FlatJoin(chunks[..n], [chunks[n]]);
    assert Flat([chunks[n]]) == chunks[n];
  }

  /** One more read keeps the account, and keeps the reader placed unless it loses something. */
  lemma TryKeeps(a: Aead, key: nat, chunks: seq<Bytes>, arrived: Bytes, r: Reader, b: Bytes, t: Try)
    requires Lawful(a) && Fitting(chunks) && arrived <= Records(a, key, 0, chunks)
    requires ReadSoFar(a, key, chunks, arrived, r, b) && (Placed(a, key, chunks, arrived, r) || NoStray(a, key, chunks))
    ensures var (r', x) := Attempt(a, key, r, t.max, t.limit);
            && ReadSoFar(a, key, chunks, arrived, r', b + if x.Some? then x.value else [])
            && (Placed(a, key, chunks, arrived, r') <==> Placed(a, key, chunks, arrived, r) && !Loses(a, key, r, t))
  {
    var (r', x) := Attempt(a, key, r, t.max, t.limit);
    if !Placed(a, key, chunks, arrived, r) {
      LostAttempt(a, key, chunks, arrived, r, b, t);
      assert b + [] == b;
    } else if r.plain != [] {
      var n := Min(|r.plain|, t.max);
      assert r.plain == r.plain[..n] + r.plain[n..];
      Join3(b, r.plain[..n], r.plain[n..]);
    } else {
      PlacedTry(a, key, chunks, arrived, r, b, t);
    }
  }

  lemma PlacedTry(a: Aead, key: nat, chunks: seq<Bytes>, arrived: Bytes, r: Reader, b: Bytes, t: Try)
    requires Lawful(a) && Fitting(chunks) && arrived <= Records(a, key, 0, chunks)
    requires ReadSoFar(a, key, chunks, arrived, r, b) && Placed(a, key, chunks, arrived, r) && r.plain == []
    ensures var (r', x) := Attempt(a, key, r, t.max, t.limit);
            && ReadSoFar(a, key, chunks, arrived, r', b + if x.Some? then x.value else [])
            && (Placed(a, key, chunks, arrived, r') <==> !Loses(a, key, r, t))
  {
    var (r', x) := Attempt(a, key, r, t.max, t.limit);
    PlacedAttempt(a, key, chunks, arrived, r, t);
    PlacedAfter(a, key, chunks, arrived, r, b, t.limit, r', x);
  }

  /** What `PlacedAttempt` says of the outcome is all that matters of it. */
  lemma PlacedAfter(a: Aead, key: nat, chunks: seq<Bytes>, arrived: Bytes, r: Reader, b: Bytes, limit: nat, r': Reader, x: Option<Bytes>)
    requires ReadSoFar(a, key, chunks, arrived, r, b) && Placed(a, key, chunks, arrived, r) && r.plain == []
    requires x.Some? ==>
               && r.n < |chunks| && |Record(a, key, r.n, chunks[r.n])| <= |r.raw|
               && r'.n == r.n + 1 && x.value + r'.plain == chunks[r.n] && r'.raw == r.raw[|Record(a, key, r.n, chunks[r.n])|..]
    requires x.None? ==> r' == Reader(r.n, [], r.raw[Min(limit, |r.raw|)..])
    ensures ReadSoFar(a, key, chunks, arrived, r', b + if x.Some? then x.value else [])
    ensures Placed(a, key, chunks, arrived, r') <==> !(x.None? && |r'.raw| < |r.raw|)
  {
    if x.Some? { MovedOn(a, key, chunks, arrived, r, b, r', x.value); }
    else { Missed(a, key, chunks, arrived, r, b, Min(limit, |r.raw|)); }
  }

  lemma MovedOn(a: Aead, key: nat, chunks: seq<Bytes>, arrived: Bytes, r: Reader, b: Bytes, r': Reader, out: Bytes)
    requires ReadSoFar(a, key, chunks, arrived, r, b) && Placed(a, key, chunks, arrived, r) && r.plain == [] && r.n < |chunks|
    requires |Record(a, key, r.n, chunks[r.n])| <= |r.raw|
    requires r'.n == r.n + 1 && out + r'.plain == chunks[r.n] && r'.raw == r.raw[|Record(a, key, r.n, chunks[r.n])|..]
    ensures ReadSoFar(a, key, chunks, arrived, r', b + out) && Placed(a, key, chunks, arrived, r')
  {
    OffsetNext(a, key, chunks, r.n);
    FlatNext(chunks, r.n);
    Join3(b, out, r'.plain);
    assert b + [] == b;
  }

  lemma Missed(a: Aead, key: nat, chunks: seq<Bytes>, arrived: Bytes, r: Reader, b: Bytes, k: nat)
    requires ReadSoFar(a, key, chunks, arrived, r, b) && Placed(a, key, chunks, arrived, r) && r.plain == [] && k <= |r.raw|
    ensures var r' := Reader(r.n, [], r.raw[k..]);
            ReadSoFar(a, key, chunks, arrived, r', b + []) && (Placed(a, key, chunks, arrived, r') <==> k == 0)
  {
    assert b + [] == b;
  }

  lemma {:induction false} TriesKeep(a: Aead, key: nat, chunks: seq<Bytes>, arrived: Bytes, tries: seq<Try>)
    requires Lawful(a) && Fitting(chunks) && arrived <= Records(a, key, 0, chunks)
    requires NoLoss(a, key, Reader(0, [], arrived), tries) || NoStray(a, key, chunks)
    ensures var (r, b) := Tried(a, key, Reader(0, [], arrived), tries);
            ReadSoFar(a, key, chunks, arrived, r, b) && (Placed(a, key, chunks, arrived, r) <==> NoLoss(a, key, Reader(0, [], arrived), tries))
    decreases |tries|
  {
    var start := Reader(0, [], arrived);
    if tries == [] {
      assert chunks[..0] == [] && arrived[0..] == arrived;
    } else {
      var n := |tries| - 1;
      TriesKeep(a, key, chunks, arrived, tries[..n]);
      var (r1, b) := Tried(a, key, start, tries[..n]);
      TryKeeps(a, key, chunks, arrived, r1, b, tries[n]);
    }
  }

  // ---- theorems ----

  lemma {:induction false} FlatPrefix(chunks: seq<Bytes>, n: nat)
    requires n <= |chunks|
    ensures Flat(chunks) == Flat(chunks[..n]) + Flat(chunks[n..])
  {
    assert chunks == chunks[..n] + chunks[n..];
    FlatJoin(chunks[..n], chunks[n..]);
  }

  /** Whatever is written on one end, in whatever pieces, however much of it arrives, and whatever reads
      are made on the other end, failed ones included: the bytes read are a prefix of the bytes
      written, and with those in hand exactly what the reader's counter of records holds. */
  lemma ReadIsPrefixOfWritten(a: Aead, key: nat, writes: seq<Bytes>, arrived: Bytes, tries: seq<Try>)
    requires Lawful(a) && arrived <= WireOf(a, key, 0, writes)
    requires NoLoss(a, key, Reader(0, [], arrived), tries) || NoStray(a, key, AllChunks(writes))
    ensures var (r, b) := Tried(a, key, Reader(0, [], arrived), tries);
            r.n <= |AllChunks(writes)| && b + r.plain == Flat(AllChunks(writes)[..r.n]) && b + r.plain <= Flat(writes)
  {
    WireIsRecords(a, key, 0, writes);
    WritesWhole(writes);
    TriesKeep(a, key, AllChunks(writes), arrived, tries);
    FlatPrefix(AllChunks(writes), Tried(a, key, Reader(0, [], arrived), tries).0.n);
  }

  /** The two ends are still in step, the next record before the reader being the one its counter is for,
      if and only if every read that failed had taken nothing. */
  lemma InStepIff(a: Aead, key: nat, writes: seq<Bytes>, arrived: Bytes, tries: seq<Try>)
    requires Lawful(a) && NoStray(a, key, AllChunks(writes)) && arrived <= WireOf(a, key, 0, writes)
    ensures var (r, b) := Tried(a, key, Reader(0, [], arrived), tries);
            Placed(a, key, AllChunks(writes), arrived, r) <==> NoLoss(a, key, Reader(0, [], arrived), tries)
  {
    WireIsRecords(a, key, 0, writes);
    WritesWhole(writes);
    TriesKeep(a, key, AllChunks(writes), arrived, tries);
  }

  /** In step, a read succeeds whenever a whole record is delivered to it. */
  lemma ReadsOn(a: Aead, key: nat, writes: seq<Bytes>, arrived: Bytes, tries: seq<Try>, t: Try)
    requires Lawful(a) && arrived <= WireOf(a, key, 0, writes) && NoLoss(a, key, Reader(0, [], arrived), tries)
    ensures var r := Tried(a, key, Reader(0, [], arrived), tries).0; var chunks := AllChunks(writes);
            r.plain != [] || (r.n < |chunks| && Min(t.limit, |r.raw|) >= |Record(a, key, r.n, chunks[r.n])|) ==>
              Attempt(a, key, r, t.max, t.limit).1.Some?
  {
    WireIsRecords(a, key, 0, writes);
    WritesWhole(writes);
    TriesKeep(a, key, AllChunks(writes), arrived, tries);
    var r := Tried(a, key, Reader(0, [], arrived), tries).0;
    if r.plain == [] { PlacedAttempt(a, key, AllChunks(writes), arrived, r, t); }
  }

  /** Once a failed read has taken something, no read ever hands out anything again, however much more
      arrives; the reader's counter stands still while the writer's goes on. */
  lemma {:induction false} LostForever(a: Aead, key: nat, writes: seq<Bytes>, arrived: Bytes, tries: seq<Try>, n: nat)
    requires Lawful(a) && NoStray(a, key, AllChunks(writes)) && arrived <= WireOf(a, key, 0, writes)
    requires n <= |tries| && !NoLoss(a, key, Reader(0, [], arrived), tries[..n])
    ensures var before := Tried(a, key, Reader(0, [], arrived), tries[..n]); var (r, b) := Tried(a, key, Reader(0, [], arrived), tries);
            r.n == before.0.n && b == before.1 && !NoLoss(a, key, Reader(0, [], arrived), tries)
    decreases |tries|
  {
    if n == |tries| {
      assert tries[..n] == tries;
    } else {
      var m := |tries| - 1;
      assert tries[..m][..n] == tries[..n];
      LostForever(a, key, writes, arrived, tries[..m], n);
      WireIsRecords(a, key, 0, writes);
      WritesWhole(writes);
      TriesKeep(a, key, AllChunks(writes), arrived, tries[..m]);
      LostMore(a, key, AllChunks(writes), arrived, Reader(0, [], arrived), tries);
    }
  }

  lemma LostMore(a: Aead, key: nat, chunks: seq<Bytes>, arrived: Bytes, start: Reader, tries: seq<Try>)
    requires NoStray(a, key, chunks) && arrived <= Records(a, key, 0, chunks) && tries != []
    requires var (r, b) := Tried(a, key, start, tries[..|tries| - 1]); ReadSoFar(a, key, chunks, arrived, r, b) && !Placed(a, key, chunks, arrived, r)
    ensures var before := Tried(a, key, start, tries[..|tries| - 1]); var (r, b) := Tried(a, key, start, tries);
            r.n == before.0.n && b == before.1
  {
    var (r1, b1) := Tried(a, key, start, tries[..|tries| - 1]);
    LostAttempt(a, key, chunks, arrived, r1, b1, tries[|tries| - 1]);
    assert b1 + [] == b1;
  }

  /** A run of the connection: the header of a record arrives, the transport times out, the rest
      arrives. Both reads fail, though the whole record has come and would have been read at once. */
  method TimeoutLosesStream(a: Aead, key: nat, p: Bytes) returns (first: Option<Bytes>, second: Option<Bytes>)
    requires Lawful(a) && 0 < |p| <= MAX_PLAINTEXT && a.seal(key, SwapBytes(0), p)[0] != MSG_RECORD
    ensures first.None? && second.None? && ReadStep(a, key, Reader(0, [], Record(a, key, 0, p)), 1).Some?
  {
    var wire := Record(a, key, 0, p);
    var size := |wire|;
    RecordFits(a, key, 0, p);
    var conn := new Conn(wire, [HEADER_LEN, 0, size, size]);
    var noise := new NoiseConn(conn, a, 0, key, []);
    TimesOutInside(wire, size);
    FirstFails(a, key, p);
    assert [] + wire == wire;
    first := noise.Read(1);
    SecondFails(a, key, p, noise.Limit());
    second := noise.Read(1);
  }

  lemma FirstFails(a: Aead, key: nat, p: Bytes)
    requires Lawful(a) && 0 < |p| <= MAX_PLAINTEXT
    ensures var wire := Record(a, key, 0, p);
            && Attempt(a, key, Reader(0, [], wire), 1, HEADER_LEN) == (Reader(0, [], wire[HEADER_LEN..]), None)
            && ReadStep(a, key, Reader(0, [], wire), 1).Some?
  {
    var wire := Record(a, key, 0, p);
    RecordFits(a, key, 0, p);
    RecordTakenBack(a, key, 0, p, []);
    assert wire + [] == wire;
    RecordCut(a, key, 0, p, wire[..HEADER_LEN]);
    assert Min(Min(HEADER_LEN, Wanted(wire)), |wire|) == HEADER_LEN;
  }

  lemma SecondFails(a: Aead, key: nat, p: Bytes, limit: nat)
    requires Lawful(a) && 0 < |p| <= MAX_PLAINTEXT && a.seal(key, SwapBytes(0), p)[0] != MSG_RECORD
    ensures Attempt(a, key, Reader(0, [], Record(a, key, 0, p)[HEADER_LEN..]), 1, limit).1.None?
  {
    var raw := Record(a, key, 0, p)[HEADER_LEN..];
    assert raw == a.seal(key, SwapBytes(0), p);
  }

  /** After the header the transport times out. */
  lemma TimesOutInside(wire: Bytes, size: nat)
    requires |wire| == size > HEADER_LEN && size == HEADER_LEN + Be16(wire[1], wire[2]) && TAG_LEN <= size - HEADER_LEN <= MAX_CIPHERTEXT && wire[0] == MSG_RECORD
    ensures LimitOf([], wire, [HEADER_LEN, 0, size, size]) == HEADER_LEN
  {
    var script := [HEADER_LEN, 0, size, size];
    assert Gather(size, script, HEADER_LEN) == (HEADER_LEN, script[1..]) by { assert Gather(size - HEADER_LEN, script[1..], 0) == (0, script[1..]); }
    assert Gather(size - HEADER_LEN, script[1..], size - HEADER_LEN).0 == 0;
    assert [] + wire == wire;
  }
}
