/** Incremental decoders of length-prefixed frames. A decoder looks at the bytes buffered so far;
    for every way the transport splits a stream the frames come out the same. */
module Framing {
  import opened Common

  /** One look at a buffer: not enough yet, a frame and the bytes it took, or an error. */
  datatype Taken<+F> = NeedMore | Got(frame: F, used: nat) | Bad

  type Decoder<!F> = Bytes -> Taken<F>

  /** More bytes never change a decision already made, and a frame uses up some of the buffer. */
  ghost predicate Incremental<F(!new)>(dec: Decoder<F>) {
    && (forall b :: dec(b).Got? ==> 0 < dec(b).used <= |b|)
    && (forall b, more :: !dec(b).NeedMore? ==> dec(b + more) == dec(b))
  }

  /** What is left after taking all the frames out of a buffer. */
  datatype Drained<+F> = Drained(frames: seq<F>, rest: Bytes, bad: bool)

  ghost function Drain<F(!new)>(dec: Decoder<F>, b: Bytes): Drained<F>
    requires Incremental(dec)
    decreases |b|
  {
    match dec(b)
    case NeedMore => Drained([], b, false)
    case Bad => Drained([], b, true)
    case Got(f, n) =>
      var d := Drain(dec, b[n..]);
      Drained([f] + d.frames, d.rest, d.bad)
  }

  /** Reads arrive one by one; after each the buffer is drained. After an error nothing is read. */
  ghost function Feed<F(!new)>(dec: Decoder<F>, s: Drained<F>, parts: seq<Bytes>): Drained<F>
    requires Incremental(dec)
    decreases |parts|
  {
    if parts == [] then s else Fed(dec, Feed(dec, s, parts[..|parts| - 1]), parts[|parts| - 1])
  }

  ghost function Fed<F(!new)>(dec: Decoder<F>, s: Drained<F>, read: Bytes): Drained<F>
    requires Incremental(dec)
  {
    if s.bad then s.(rest := s.rest + read) else
    var d := Drain(dec, s.rest + read);
    Drained(s.frames + d.frames, d.rest, d.bad)
  }

  function Concat(parts: seq<Bytes>): Bytes {
    if parts == [] then [] else Concat(parts[..|parts| - 1]) + parts[|parts| - 1]
  }

  lemma Associate<T>(a: seq<T>, b: seq<T>, c: seq<T>)
    ensures (a + b) + c == a + (b + c)
  {
  }

  /** Draining early and going on with more bytes is draining everything at once. */
  lemma {:induction false} DrainMore<F(!new)>(dec: Decoder<F>, b: Bytes, more: Bytes)
    requires Incremental(dec)
    ensures Drain(dec, b + more) == Fed(dec, Drain(dec, b), more)
    decreases |b|
  {
    match dec(b)
    case NeedMore =>
      assert [] + Drain(dec, b + more).frames == Drain(dec, b + more).frames;
    case Bad =>
    case Got(f, n) =>
      DrainMore(dec, b[n..], more);
      assert (b + more)[n..] == b[n..] + more;
      var d := Drain(dec, b[n..]);
      var e := Drain(dec, d.rest + more);
      Associate([f], d.frames, e.frames);
  }

  /** However the stream is split into reads, the frames, their order, the suffix kept and the
      point of failure are those of the whole stream. */
  lemma {:induction false} SplitsIrrelevant<F(!new)>(dec: Decoder<F>, parts: seq<Bytes>)
    requires Incremental(dec)
    ensures Feed(dec, Drain(dec, []), parts) == Drain(dec, Concat(parts))
    decreases |parts|
  {
    if parts != [] {
      var n := |parts| - 1;
      SplitsIrrelevant(dec, parts[..n]);
      DrainMore(dec, Concat(parts[..n]), parts[n]);
    }
  }

  /** The bytes read as this frame, whatever follows them. */
  ghost predicate ReadsAs<F(!new)>(dec: Decoder<F>, bytes: Bytes, f: F) {
    forall more :: dec(bytes + more) == Got(f, |bytes|)
  }

  ghost predicate Inverts<F(!new)>(dec: Decoder<F>, enc: F -> Bytes, f: F) {
    ReadsAs(dec, enc(f), f)
  }

  function Encodings<F>(enc: F -> Bytes, frames: seq<F>): seq<Bytes> {
    seq(|frames|, i requires 0 <= i < |frames| => enc(frames[i]))
  }

  function Before<F>(frames: seq<F>, d: Drained<F>): Drained<F> {
    d.(frames := frames + d.frames)
  }

  lemma {:induction false} ConcatFront(parts: seq<Bytes>)
    requires parts != []
    ensures Concat(parts) == parts[0] + Concat(parts[1..])
    decreases |parts|
  {
    if |parts| == 1 {
      assert parts[..0] == [] && parts[1..] == [];
    } else {
      var n := |parts| - 1;
      ConcatFront(parts[..n]);
      assert parts[..n][1..] == parts[1..][..n - 1];
      Associate(parts[0], Concat(parts[1..][..n - 1]), parts[n]);
    }
  }

  /** Encoded frames followed by anything come out exactly, in order and whatever the splits, in front
      of what comes out of the rest; an incomplete rest is kept as it is. */
  lemma FramesComeOut<F(!new)>(dec: Decoder<F>, encs: seq<Bytes>, frames: seq<F>, tail: Bytes, parts: seq<Bytes>)
    requires Incremental(dec) && |encs| == |frames| && (forall i :: 0 <= i < |frames| ==> ReadsAs(dec, encs[i], frames[i]))
    requires Concat(parts) == Concat(encs) + tail
    ensures Feed(dec, Drain(dec, []), parts) == Before(frames, Drain(dec, tail))
    ensures dec(tail).NeedMore? ==> Feed(dec, Drain(dec, []), parts) == Drained(frames, tail, false)
  {
    SplitsIrrelevant(dec, parts);
    DrainEncoded(dec, encs, frames, tail);
    assert frames + [] == frames;
  }

  lemma {:induction false} DrainEncoded<F(!new)>(dec: Decoder<F>, encs: seq<Bytes>, frames: seq<F>, tail: Bytes)
    requires Incremental(dec) && |encs| == |frames| && (forall i :: 0 <= i < |frames| ==> ReadsAs(dec, encs[i], frames[i]))
    ensures Drain(dec, Concat(encs) + tail) == Before(frames, Drain(dec, tail))
    decreases |frames|
  {
    if frames == [] {
      assert Concat(encs) + tail == tail;
    } else {
      DrainEncoded(dec, encs[1..], frames[1..], tail);
      ConcatFront(encs);
      DrainOne(dec, encs[0], frames[0], Concat(encs[1..]) + tail);
      Associate(encs[0], Concat(encs[1..]), tail);
      Associate([frames[0]], frames[1..], Drain(dec, tail).frames);
      assert [frames[0]] + frames[1..] == frames;
    }
  }

  lemma DrainOne<F(!new)>(dec: Decoder<F>, bytes: Bytes, f: F, rest: Bytes)
    requires Incremental(dec) && ReadsAs(dec, bytes, f)
    ensures Drain(dec, bytes + rest) == Before([f], Drain(dec, rest))
  {
    assert dec(bytes + rest) == Got(f, |bytes|);
    assert (bytes + rest)[|bytes|..] == rest;
  }

  // ---- numbers on the wire ----

  function Low8(n: nat): byte {
    n % 256
  }

  /** Four bytes, most significant first; wider numbers are truncated. */
  function Be32(n: nat): (b: Bytes)
    ensures |b| == 4
  {
    [Low8(n / 0x100_0000), Low8(n / 0x1_0000), Low8(n / 0x100), Low8(n)]
  }

  function FromBe32(b: Bytes): nat
    requires |b| == 4
  {
    b[0] as int * 0x100_0000 + b[1] as int * 0x1_0000 + b[2] as int * 0x100 + b[3] as int
  }

  lemma Be32Truncates(n: nat)
    ensures FromBe32(Be32(n)) == n % 0x1_0000_0000
  {
    assert n / 0x100 == n / 0x1_0000 * 0x100 + n / 0x100 % 0x100;
    assert n / 0x1_0000 == n / 0x100_0000 * 0x100 + n / 0x1_0000 % 0x100;
    assert n / 0x100_0000 == n / 0x1_0000_0000 * 0x100 + n / 0x100_0000 % 0x100;
  }

  function Reversed4(b: Bytes): (r: Bytes)
    requires |b| == 4
    ensures |r| == 4
  {
    [b[3], b[2], b[1], b[0]]
  }

  // ---- HTTP/2 frames ----

  const MAX_FRAME_SIZE := 16_384

  datatype Frame = Frame(typ: byte, flags: byte, sid: nat, payload: Bytes)

  /** The header `push_frame` writes: the three length bytes truncate the length to 24 bits. */
  function H2Header(f: Frame): (b: Bytes)
    ensures |b| == 9
  {
    var n := |f.payload|;
    [Low8(n / 0x1_0000), Low8(n / 0x100), Low8(n), f.typ, f.flags] + Be32(f.sid)
  }

  function PushFrame(f: Frame): Bytes {
    H2Header(f) + f.payload
  }

  function H2Length(b: Bytes): nat
    requires |b| >= 9
  {
    b[0] as int * 0x1_0000 + b[1] as int * 0x100 + b[2] as int
  }

  function TakeH2(b: Bytes): Taken<Frame> {
    if |b| < 9 then NeedMore else
    var len := H2Length(b);
    if len > MAX_FRAME_SIZE then Bad else
    if |b| < 9 + len then NeedMore else
    Got(Frame(b[3], b[4], FromBe32(b[5..9]) % 0x8000_0000, b[9..9 + len]), 9 + len)
  }

  lemma H2Incremental()
    ensures Incremental(TakeH2)
  {
    forall b, more | !TakeH2(b).NeedMore? ensures TakeH2(b + more) == TakeH2(b) {
      if TakeH2(b).Got? {
        assert (b + more)[5..9] == b[5..9];
        assert (b + more)[9..9 + H2Length(b)] == b[9..9 + H2Length(b)];
      }
    }
  }

  /** What the bytes of a frame mean (section 4.1 of RFC 9113): three of length, type, flags, four of stream id
      without its top bit, payload; and a length above 16384 is an error as soon as the header is there. */
  lemma H2Bytes(b: Bytes, f: Frame, used: nat)
    ensures TakeH2(b) == Got(f, used) <==>
            && |b| >= 9 && used == 9 + 65_536 * (b[0] as int) + 256 * (b[1] as int) + b[2] as int
            && used <= 9 + 16_384 && used <= |b|
            && f.typ == b[3] && f.flags == b[4] && f.payload == b[9..used]
            && f.sid == b[5] as int % 128 * 0x100_0000 + b[6] as int * 0x1_0000 + b[7] as int * 0x100 + b[8] as int
    ensures TakeH2(b).Bad? <==> |b| >= 9 && 65_536 * (b[0] as int) + 256 * (b[1] as int) + b[2] as int > 16_384
  {
    if |b| >= 9 { TopBit(b[5..9]); }
  }

  /** Without the top bit. */
  lemma TopBit(b: Bytes)
    requires |b| == 4
    ensures FromBe32(b) % 0x8000_0000 == b[0] as int % 128 * 0x100_0000 + b[1] as int * 0x1_0000 + b[2] as int * 0x100 + b[3] as int
  {
    var high, low := b[0] as int / 128, b[0] as int % 128 * 0x100_0000 + b[1] as int * 0x1_0000 + b[2] as int * 0x100 + b[3] as int;
    assert FromBe32(b) == high * 0x8000_0000 + low && 0 <= low < 0x8000_0000;
  }

  lemma H2LengthWritten(f: Frame, more: Bytes)
    ensures H2Length(PushFrame(f) + more) == |f.payload| % 0x100_0000
  {
    var n := |f.payload|;
    assert n / 0x100 == n / 0x1_0000 * 0x100 + n / 0x100 % 0x100;
    assert n / 0x1_0000 == n / 0x100_0000 * 0x100 + n / 0x1_0000 % 0x100;
  }

  /** A pushed frame parts back as itself exactly when its payload is within the advertised
      maximum and its stream id fits 31 bits. */
  lemma H2RoundTrip(f: Frame)
    requires f.sid < 0x1_0000_0000
    ensures Inverts(TakeH2, PushFrame, f) <==> |f.payload| <= MAX_FRAME_SIZE && f.sid < 0x8000_0000
  {
    forall more: Bytes ensures TakeH2(PushFrame(f) + more) == Got(f, |PushFrame(f)|) <==> |f.payload| <= MAX_FRAME_SIZE && f.sid < 0x8000_0000 {
      H2TakeBack(f, more);
    }
    if Inverts(TakeH2, PushFrame, f) { assert TakeH2(PushFrame(f) + []) == Got(f, |PushFrame(f)|); }
  }

  lemma H2TakeBack(f: Frame, more: Bytes)
    requires f.sid < 0x1_0000_0000
    ensures TakeH2(PushFrame(f) + more) == Got(f, |PushFrame(f)|) <==> |f.payload| <= MAX_FRAME_SIZE && f.sid < 0x8000_0000
  {
    H2LengthWritten(f, more);
    Be32Truncates(f.sid);
    var b := PushFrame(f) + more;
    assert b[5..9] == Be32(f.sid);
    if |f.payload| <= MAX_FRAME_SIZE { assert b[9..9 + |f.payload|] == f.payload; }
  }

  /** HTTP/2 frames within the limits, pushed one after the other, come out of the decoder exactly and in
      order for every split of the stream, and what follows them is decoded as if it stood alone. */
  lemma H2FramesComeOut(frames: seq<Frame>, tail: Bytes, parts: seq<Bytes>)
    requires forall f <- frames :: |f.payload| <= MAX_FRAME_SIZE && f.sid < 0x8000_0000
    requires Concat(parts) == Concat(Encodings(PushFrame, frames)) + tail
    ensures Incremental(TakeH2) && Feed(TakeH2, Drained([], [], false), parts) == Before(frames, Drain(TakeH2, tail))
    ensures TakeH2(tail).NeedMore? ==> Feed(TakeH2, Drained([], [], false), parts) == Drained(frames, tail, false)
  {
    H2Incremental();
    forall i | 0 <= i < |frames| ensures ReadsAs(TakeH2, Encodings(PushFrame, frames)[i], frames[i]) {
      H2RoundTrip(frames[i]);
      assert Inverts(TakeH2, PushFrame, frames[i]);
    }
    FramesComeOut(TakeH2, Encodings(PushFrame, frames), frames, tail, parts);
  }

  /** The length in the header is the payload's exactly below 2^24 bytes. */
  lemma H2LengthFaithfulIff(f: Frame)
    ensures H2Length(PushFrame(f)) == |f.payload| <==> |f.payload| < 0x100_0000
  {
    H2LengthWritten(f, []);
    assert PushFrame(f) + [] == PushFrame(f);
  }

  // ---- DERP frames ----

  const DERP_LIMIT := 65_536 + 32 + 64

  datatype DerpFrame = DerpFrame(typ: byte, payload: Bytes)

  function WriteDerp(f: DerpFrame): Bytes {
    [f.typ] + Be32(|f.payload|) + f.payload
  }

  function TakeDerp(b: Bytes): Taken<DerpFrame> {
    if |b| < 5 then NeedMore else
    var len := FromBe32(b[1..5]);
    if len > DERP_LIMIT then Bad else
    if |b| < 5 + len then NeedMore else Got(DerpFrame(b[0], b[5..5 + len]), 5 + len)
  }

  lemma DerpIncremental()
    ensures Incremental(TakeDerp)
  {
    forall b, more | !TakeDerp(b).NeedMore? ensures TakeDerp(b + more) == TakeDerp(b) {
      assert (b + more)[1..5] == b[1..5];
      if TakeDerp(b).Got? { assert (b + more)[5..5 + FromBe32(b[1..5])] == b[5..5 + FromBe32(b[1..5])]; }
    }
  }

  /** What the bytes of a frame mean: type, four of length, payload; a length above 65632 is an error. */
  lemma DerpBytes(b: Bytes, f: DerpFrame, used: nat)
    ensures TakeDerp(b) == Got(f, used) <==>
            && |b| >= 5 && used == 5 + b[1] as int * 0x100_0000 + b[2] as int * 0x1_0000 + b[3] as int * 0x100 + b[4] as int
            && used <= 5 + 65_632 && used <= |b| && f.typ == b[0] && f.payload == b[5..used]
    ensures TakeDerp(b).Bad? <==> |b| >= 5 && b[1] as int * 0x100_0000 + b[2] as int * 0x1_0000 + b[3] as int * 0x100 + b[4] as int > 65_632
  {
    if |b| >= 5 { assert b[1..5][0] == b[1] && b[1..5][1] == b[2] && b[1..5][2] == b[3] && b[1..5][3] == b[4]; }
  }

  lemma DerpRoundTrip(f: DerpFrame)
    ensures Inverts(TakeDerp, WriteDerp, f) <==> |f.payload| <= DERP_LIMIT
  {
    forall more: Bytes ensures TakeDerp(WriteDerp(f) + more) == Got(f, |WriteDerp(f)|) <==> |f.payload| <= DERP_LIMIT {
      DerpTakeBack(f, more);
    }
    if Inverts(TakeDerp, WriteDerp, f) { assert TakeDerp(WriteDerp(f) + []) == Got(f, |WriteDerp(f)|); }
  }

  lemma DerpTakeBack(f: DerpFrame, more: Bytes)
    ensures TakeDerp(WriteDerp(f) + more) == Got(f, |WriteDerp(f)|) <==> |f.payload| <= DERP_LIMIT
  {
    Be32Truncates(|f.payload|);
    var b := WriteDerp(f) + more;
    assert b[1..5] == Be32(|f.payload|);
    if |f.payload| <= DERP_LIMIT { assert b[5..5 + |f.payload|] == f.payload; }
  }

  /** And DERP frames. */
  lemma DerpFramesComeOut(frames: seq<DerpFrame>, tail: Bytes, parts: seq<Bytes>)
    requires forall f <- frames :: |f.payload| <= DERP_LIMIT
    requires Concat(parts) == Concat(Encodings(WriteDerp, frames)) + tail
    ensures Incremental(TakeDerp) && Feed(TakeDerp, Drained([], [], false), parts) == Before(frames, Drain(TakeDerp, tail))
    ensures TakeDerp(tail).NeedMore? ==> Feed(TakeDerp, Drained([], [], false), parts) == Drained(frames, tail, false)
  {
    DerpIncremental();
    forall i | 0 <= i < |frames| ensures ReadsAs(TakeDerp, Encodings(WriteDerp, frames)[i], frames[i]) {
      DerpRoundTrip(frames[i]);
      assert Inverts(TakeDerp, WriteDerp, frames[i]);
    }
    FramesComeOut(TakeDerp, Encodings(WriteDerp, frames), frames, tail, parts);
  }

  // ---- map messages ----

  const MAP_LIMIT := 0x80_0000

  /** What the control server sends: the length, least significant byte first, and the message. */
  function MapMessage(json: Bytes): Bytes {
    Reversed4(Be32(|json|)) + json
  }

  function TakeMap<M>(decode: Bytes -> Option<M>, b: Bytes): Taken<M> {
    if |b| < 4 then NeedMore else
    var len := FromBe32(Reversed4(b[..4]));
    if len > MAP_LIMIT then Bad else
    if |b| < 4 + len then NeedMore else
    match decode(b[4..4 + len])
    case Some(m) => Got(m, 4 + len)
    case None => Bad
  }

  lemma MapIncremental<M(!new)>(decode: Bytes -> Option<M>)
    ensures Incremental(MapDecoder(decode))
  {
    forall b, more | !TakeMap(decode, b).NeedMore? ensures TakeMap(decode, b + more) == TakeMap(decode, b) {
      assert (b + more)[..4] == b[..4];
      var len := FromBe32(Reversed4(b[..4]));
      if len <= MAP_LIMIT { assert (b + more)[4..4 + len] == b[4..4 + len]; }
    }
  }

  /** What the bytes of a message mean: four of length, least significant first, and the text; more than 8 MiB
      is an error, and so is a text that does not decode. */
  lemma MapBytes<M>(decode: Bytes -> Option<M>, b: Bytes, m: M, used: nat)
    ensures TakeMap(decode, b) == Got(m, used) <==>
            && |b| >= 4 && used == 4 + b[0] as int + b[1] as int * 0x100 + b[2] as int * 0x1_0000 + b[3] as int * 0x100_0000
            && used <= 4 + 8 * 1024 * 1024 && used <= |b| && decode(b[4..used]) == Some(m)
    ensures TakeMap(decode, b).Bad? <==>
            && |b| >= 4
            && var used := 4 + b[0] as int + b[1] as int * 0x100 + b[2] as int * 0x1_0000 + b[3] as int * 0x100_0000;
               used > 4 + 8 * 1024 * 1024 || (used <= |b| && decode(b[4..used]).None?)
  {
    if |b| >= 4 { assert b[..4][0] == b[0] && b[..4][1] == b[1] && b[..4][2] == b[2] && b[..4][3] == b[3]; }
  }

  /** A message within the limit that decodes is taken whole; nothing longer ever is. */
  lemma MapRoundTrip<M>(decode: Bytes -> Option<M>, json: Bytes, more: Bytes)
    requires |json| < 0x1_0000_0000
    ensures TakeMap(decode, MapMessage(json) + more) ==
              if |json| <= MAP_LIMIT && decode(json).Some? then Got(decode(json).value, 4 + |json|) else Bad
  {
    Be32Truncates(|json|);
    var b := MapMessage(json) + more;
    assert Reversed4(b[..4]) == Be32(|json|);
    assert b[4..4 + |json|] == json;
  }

  function MapDecoder<M>(decode: Bytes -> Option<M>): Decoder<M> {
    (b: Bytes) => TakeMap(decode, b)
  }

  /** And map messages: JSON texts within the limit that decode come out as what they decode to. */
  lemma MapMessagesComeOut<M(!new)>(decode: Bytes -> Option<M>, jsons: seq<Bytes>, messages: seq<M>, tail: Bytes, parts: seq<Bytes>)
    requires |messages| == |jsons| && forall i :: 0 <= i < |jsons| ==> |jsons[i]| <= MAP_LIMIT && decode(jsons[i]) == Some(messages[i])
    requires Concat(parts) == Concat(Encodings(MapMessage, jsons)) + tail
    ensures Incremental(MapDecoder(decode)) && Feed(MapDecoder(decode), Drained([], [], false), parts) == Before(messages, Drain(MapDecoder(decode), tail))
    ensures TakeMap(decode, tail).NeedMore? ==> Feed(MapDecoder(decode), Drained([], [], false), parts) == Drained(messages, tail, false)
  {
    MapIncremental(decode);
    var dec := MapDecoder(decode);
    forall i | 0 <= i < |jsons| ensures ReadsAs(dec, Encodings(MapMessage, jsons)[i], messages[i]) {
      forall more: Bytes ensures dec(MapMessage(jsons[i]) + more) == Got(messages[i], |MapMessage(jsons[i])|) {
        MapRoundTrip(decode, jsons[i], more);
      }
    }
    FramesComeOut(dec, Encodings(MapMessage, jsons), messages, tail, parts);
  }
}
