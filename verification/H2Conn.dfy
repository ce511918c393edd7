/** The HTTP/2 client as it runs. `history` is the run of the flow-control model it has made; `log`
    the frames it has written. */
module H2Conn {
  import opened Common
  import opened Framing
  import opened Transport
  import opened H2
  import opened H2Responses

  function Encoded(frames: seq<Frame>): Bytes {
    if frames == [] then [] else Encoded(frames[..|frames| - 1]) + PushFrame(frames[|frames| - 1])
  }

  const PREFACE: Bytes := [80, 82, 73, 32, 42, 32, 72, 84, 84, 80, 47, 50, 46, 48, 13, 10, 13, 10, 83, 77, 13, 10, 13, 10]

  /** Our settings, and the update that raises the connection's window to OUR_WINDOW. */
  function Opening(): seq<Frame> {
    [Frame(SETTINGS, 0, 0, Setting(2, 0) + Setting(3, 8) + Setting(4, OUR_WINDOW) + Setting(5, MAX_FRAME_SIZE) + Setting(1, 4096)),
     Update(0, OUR_WINDOW - DEFAULT_WINDOW)]
  }

  lemma EncodedOne(f: Frame)
    ensures Encoded([f]) == PushFrame(f)
  {
    assert [f][..0] == [] && Encoded([]) + PushFrame(f) == PushFrame(f);
  }

  function HeadersFrame(id: nat, block: Bytes, last: bool): Frame {
    Frame(HEADERS, if last then END_HEADERS + END_STREAM else END_HEADERS, id, block)
  }

  /** DATA on one stream, in order. */
  function DataOf(log: seq<Frame>, id: nat): seq<Frame> {
    if log == [] then [] else
    var f := log[|log| - 1];
    DataOf(log[..|log| - 1], id) + (if f.typ == DATA && f.sid == id then [f] else [])
  }

  function Payloads(frames: seq<Frame>): Bytes {
    if frames == [] then [] else Payloads(frames[..|frames| - 1]) + frames[|frames| - 1].payload
  }

  lemma {:induction false} DataNone(log: seq<Frame>, more: seq<Frame>, id: nat)
    requires forall g <- more :: g.typ != DATA
    ensures DataOf(log + more, id) == DataOf(log, id)
    decreases |more|
  {
    if more == [] {
      assert log + more == log;
    } else {
      DataNone(log, more[..|more| - 1], id);
      assert (log + more)[..|log + more| - 1] == log + more[..|more| - 1];
    }
  }

  lemma DataMore(log: seq<Frame>, f: Frame, id: nat)
    ensures DataOf(log + [f], id) == DataOf(log, id) + (if f.typ == DATA && f.sid == id then [f] else [])
  {
    assert (log + [f])[..|log|] == log;
  }

  /** More was written and more happened, with `sent` the new DATA on the stream. */
  ghost predicate Grown(log: seq<Frame>, log': seq<Frame>, history: seq<Event>, history': seq<Event>, id: nat, sent: seq<Frame>) {
    log <= log' && history <= history' && DataOf(log', id) == DataOf(log, id) + sent
  }

  /** The DATA frames carry this much of a body: their payloads are it, and END_STREAM is on the last
      one and only once the body is complete. */
  ghost predicate Carries(data: seq<Frame>, body: Bytes, offset: nat) {
    && offset <= |body| && Payloads(data) == body[..offset]
    && forall i :: 0 <= i < |data| ==> (data[i].flags == END_STREAM <==> offset == |body| && i == |data| - 1)
  }

  lemma CarriesMore(data: seq<Frame>, body: Bytes, offset: nat, f: Frame)
    requires Carries(data, body, offset) && offset + |f.payload| <= |body| && 0 < |f.payload|
    requires f.payload == body[offset..offset + |f.payload|] && (f.flags == END_STREAM <==> offset + |f.payload| == |body|)
    ensures Carries(data + [f], body, offset + |f.payload|)
  {
    assert (data + [f])[..|data|] == data;
    assert body[..offset] + f.payload == body[..offset + |f.payload|];
  }

  /** What a read of a response body gives. */
  datatype BodyRead = Part(bytes: Bytes) | EndOfBody | BodyFailed

  /** The run went on with frames and reads: what a stream heard only grew. */
  ghost predicate HeardOn(history: seq<Event>, history': seq<Event>, id: nat, handed: Bytes) {
    && history <= history' && Heard(history, id) <= Heard(history', id)
    && Handed(history', id) == Handed(history, id) + handed
  }

  lemma HeardFrame(history: seq<Event>, past: seq<Event>, f: Frame, hpack: bool, id: nat, handed: Bytes)
    requires HeardOn(history, past, id, handed)
    ensures HeardOn(history, past + [Incoming(f, hpack)], id, handed)
  {
    FrameOne(past, f, hpack, id);
  }

  lemma HeardTaken(history: seq<Event>, past: seq<Event>, id: nat)
    requires HeardOn(history, past, id, []) && id in Run(past).h.streams
    ensures HeardOn(history, past + [TakeBody(id)], id, Run(past).h.streams[id].body)
  {
    TakenOne(past, id);
    assert Handed(history, id) + [] == Handed(history, id);
  }

  lemma HeardChain(a: seq<Event>, b: seq<Event>, c: seq<Event>, id: nat, first: Bytes, second: Bytes)
    requires HeardOn(a, b, id, first) && HeardOn(b, c, id, second)
    ensures HeardOn(a, c, id, first + second)
  {
    assert Handed(a, id) + first + second == Handed(a, id) + (first + second);
  }

  lemma ForgetNext(history: seq<Event>, id: nat)
    requires Legal(history)
    ensures var next := history + [Forget(id)]; Legal(next) && Run(next).h == Run(history).h.(streams := Run(history).h.streams - {id})
  {
    RunNext(history, Forget(id));
  }

  lemma ChunkNext(history: seq<Event>, id: nat, payload: Bytes, rest: nat)
    requires Legal(history) && 0 < |payload| == SendSize(Run(history).h, id, rest)
    ensures var next := history + [Chunk(id, payload, rest)]; Legal(next) && Run(next).h == Sent(Run(history).h, id, |payload|)
  {
    RunNext(history, Chunk(id, payload, rest));
  }

  class H2Conn {
    const conn: Conn
    var inbuf: Bytes
    var streams: map<nat, Stream>
    var connSendWindow: int
    var connRecvConsumed: nat
    var peerMaxFrame: nat
    var peerInitialWindow: nat
    var goaway: bool
    var nextStreamId: nat
    ghost var log: seq<Frame>
    ghost var history: seq<Event>

    ghost function View(): H2
      reads this
    {
      H2(streams, connSendWindow, connRecvConsumed, peerMaxFrame, peerInitialWindow, goaway, nextStreamId)
    }

    /** The state is the one the model's run has led to. */
    ghost predicate Valid()
      reads this
    {
      Legal(history) && Run(history).h == View()
    }

    ghost function Stream(): Bytes
      reads this, conn
    {
      inbuf + conn.unread
    }

    /** The preface and settings are on the wire; bytes read too early are kept. */
    constructor (c: Conn, prefix: Bytes)
      modifies c`written
      ensures Valid() && View() == INITIAL && conn == c && inbuf == prefix && log == Opening() && history == []
      ensures c.written == old(c.written) + (PREFACE + Encoded(Opening()))
    {
      conn, inbuf := c, prefix;
      streams, connSendWindow, connRecvConsumed := map[], DEFAULT_WINDOW, 0;
      peerMaxFrame, peerInitialWindow, goaway, nextStreamId := 16_384, DEFAULT_WINDOW, false, 1;
      log, history := Opening(), [];
      new;
      conn.Send(PREFACE + Encoded(Opening()));
    }

    method Push(frames: seq<Frame>)
      modifies this`log, conn`written
      ensures log == old(log) + frames && conn.written == old(conn.written) + Encoded(frames)
    {
      var out: Bytes := [];
      for i := 0 to |frames|
        invariant out == Encoded(frames[..i]) && conn.written == old(conn.written) && log == old(log)
      {
        assert frames[..i + 1][..i] == frames[..i];
        out := out + PushFrame(frames[i]);
      }
      assert frames[..|frames|] == frames;
      conn.Send(out);
      log := log + frames;
    }

    method TakeFrame() returns (r: Taken<Frame>)
      modifies this`inbuf
      ensures r == TakeH2(old(inbuf))
      ensures inbuf == if r.Got? then old(inbuf)[r.used..] else old(inbuf)
    {
      if |inbuf| < 9 { return NeedMore; }
      var len := inbuf[0] as int * 0x1_0000 + inbuf[1] as int * 0x100 + inbuf[2] as int;
      if len > MAX_FRAME_SIZE { return Bad; }
      if |inbuf| < 9 + len { return NeedMore; }
      r := Got(Frame(inbuf[3], inbuf[4], FromBe32(inbuf[5..9]) % 0x8000_0000, inbuf[9..9 + len]), 9 + len);
      inbuf := inbuf[9 + len..];
    }

    method MaybeWindowUpdate(sid: nat)
      modifies this, conn`written
      ensures history == old(history) && inbuf == old(inbuf)
      ensures var (h1, out1) := ConnUpdate(old(View())); var (h2, out2) := StreamUpdate(h1, sid);
              View() == h2 && log == old(log) + (out1 + out2) && conn.written == old(conn.written) + Encoded(out1 + out2)
    {
      var out: seq<Frame> := [];
      if connRecvConsumed >= THRESHOLD {
        out := out + [Update(0, connRecvConsumed)];
        connRecvConsumed := 0;
      }
      if sid in streams && streams[sid].recvConsumed >= THRESHOLD && !streams[sid].endStream {
        out := out + [Update(sid, streams[sid].recvConsumed)];
        streams := streams[sid := streams[sid].(recvConsumed := 0)];
      }
      Push(out);
    }

    method HandleData(f: Frame) returns (ok: bool)
      modifies this, conn`written
      ensures history == old(history) && inbuf == old(inbuf)
      ensures var r := OnData(old(View()), f); View() == r.h && ok == r.ok && log == old(log) + r.out && conn.written == old(conn.written) + Encoded(r.out)
    {
      assert log + [] == log && conn.written + Encoded([]) == conn.written;
      var data := StripPadding(f.payload, Flag(f.flags, PADDED));
      if data.None? { return false; }
      Consume(f, data.value);
      MaybeWindowUpdate(f.sid);
      return true;
    }

    /** The whole payload is counted, padding included, on the connection even for unknown streams. */
    method Consume(f: Frame, data: Bytes)
      modifies this`streams, this`connRecvConsumed
      ensures View() == Consumed(old(View()), f, data)
    {
      var len := |f.payload|;
      if f.sid in streams {
        var s := streams[f.sid];
        s := s.(body := s.body + data);
        if Flag(f.flags, END_STREAM) { s := s.(endStream := true); }
        streams := streams[f.sid := s.(recvConsumed := s.recvConsumed + len)];
      }
      connRecvConsumed := connRecvConsumed + len;
    }

    method HandleSettings(payload: Bytes)
      modifies this`streams, this`peerInitialWindow, this`peerMaxFrame
      ensures View() == Settings(old(View()), payload, |payload| / 6)
    {
      for i := 0 to |payload| / 6
        invariant View() == Settings(old(View()), payload, i)
      {
        var chunk := payload[6 * i..6 * i + 6];
        assert payload[6 * (i + 1) - 6..6 * (i + 1)] == chunk;
        var id := Be16(chunk[0], chunk[1]);
        var val := FromBe32(chunk[2..6]);
        if id == MAX_FRAME {
          peerMaxFrame := Clamp(val, 16_384, 0x100_0000);
        } else if id == INITIAL_WINDOW_SIZE {
          var delta := val - peerInitialWindow;
          peerInitialWindow := val;
          streams := Resized(streams, delta);
        }
      }
    }

    method AddHeaderBlock(sid: nat, block: Bytes, ends: bool, done: bool) returns (ok: bool, ghost hpack: bool)
      modifies this`streams
      ensures var r := AddHeaders(old(View()), sid, block, ends, done, hpack); View() == r.h && ok == r.ok
    {
      if sid !in streams { streams := streams[sid := NewStream(0)]; }
      var s := streams[sid];
      s := s.(headerBlock := s.headerBlock + block);
      if ends { s := s.(endStream := true); }
      hpack := true;
      ok := true;
      if done {
        var whole := s.headerBlock;
        s := s.(headerBlock := []);
        var decodes: bool := *;
        hpack := decodes;
        if |whole| > MAX_HEADER_BLOCK || !decodes { ok := false; } else { s := s.(headersDone := true); }
      }
      streams := streams[sid := s];
    }

    /** One frame is handled as in the model, whatever the header decoder makes of it. */
    method HandleFrame(f: Frame) returns (ok: bool, ghost hpack: bool)
      modifies this, conn`written
      ensures history == old(history) && inbuf == old(inbuf)
      ensures var r := Handle(old(View()), f, hpack); View() == r.h && ok == r.ok && log == old(log) + r.out && conn.written == old(conn.written) + Encoded(r.out)
    {
      ok, hpack := true, true;
      assert log + [] == log && conn.written + Encoded([]) == conn.written;
      if f.typ == DATA {
        ok := HandleData(f);
      } else if f.typ == HEADERS {
        var block := StripPadding(f.payload, Flag(f.flags, PADDED));
        if block.None? || (Flag(f.flags, WITH_PRIORITY) && |block.value| < 5) { return false, true; }
        ok, hpack := AddHeaderBlock(f.sid, if Flag(f.flags, WITH_PRIORITY) then block.value[5..] else block.value,
                                    Flag(f.flags, END_STREAM), Flag(f.flags, END_HEADERS));
      } else if f.typ == CONTINUATION {
        ok, hpack := AddHeaderBlock(f.sid, f.payload, false, Flag(f.flags, END_HEADERS));
      } else {
        ok := HandleOther(f);
      }
    }

    method HandleOther(f: Frame) returns (ok: bool)
      requires f.typ != DATA && f.typ != HEADERS && f.typ != CONTINUATION
      modifies this, conn`written
      ensures history == old(history) && inbuf == old(inbuf)
      ensures var r := Handle(old(View()), f, true); View() == r.h && ok == r.ok && log == old(log) + r.out && conn.written == old(conn.written) + Encoded(r.out)
    {
      ok := true;
      assert log + [] == log && conn.written + Encoded([]) == conn.written;
      if f.typ == RST_STREAM {
        if f.sid in streams { streams := streams[f.sid := streams[f.sid].(reset := Some(Code(f.payload, 0)))]; }
      } else if f.typ == SETTINGS {
        if !Flag(f.flags, ACK) {
          HandleSettings(f.payload);
          Push([Frame(SETTINGS, ACK, 0, [])]);
        }
      } else if f.typ == PUSH_PROMISE {
        return false;
      } else if f.typ == PING {
        if !Flag(f.flags, ACK) { Push([Frame(PING, ACK, 0, f.payload)]); }
      } else if f.typ == GOAWAY {
        goaway := true;
      } else if f.typ == WINDOW_UPDATE && |f.payload| >= 4 {
        var inc := FromBe32(f.payload[..4]) % 0x8000_0000;
        if f.sid == 0 {
          connSendWindow := connSendWindow + inc;
        } else if f.sid in streams {
          streams := streams[f.sid := streams[f.sid].(sendWindow := streams[f.sid].sendWindow + inc)];
        }
      }
    }

    /** Reads and handles one frame: the first of the stream, whatever the reads. On failure at most
        that frame was handled. DATA is never written. */
    method ProcessOne() returns (ok: bool, ghost hpack: bool)
      requires Valid()
      modifies this, conn
      ensures Valid()
      ensures ok ==> history == old(history) + [Incoming(First(old(Stream())), hpack)]
      ensures ok ==> TakeH2(old(Stream())).Got? && Stream() == old(Stream())[TakeH2(old(Stream())).used..]
      ensures !ok ==> history == old(history) || history == old(history) + [Incoming(First(old(Stream())), hpack)]
      ensures exists more: seq<Frame> :: log == old(log) + more && (forall g <- more :: g.typ != DATA) && conn.written == old(conn.written) + Encoded(more)
    {
      hpack := true;
      assert log + [] == log && conn.written + Encoded([]) == conn.written;
      ghost var stream := Stream();
      while true
        invariant Stream() == stream && Valid() && history == old(history) && log == old(log) && conn.written == old(conn.written)
        decreases |conn.script|
      {
        if TakeH2(inbuf) != NeedMore { FirstStands(inbuf, conn.unread); }
        var taken := TakeFrame();
        if taken.Bad? { return false, true; }
        if taken.Got? {
          assert Stream() == stream[taken.used..];
          ok, hpack := HandleNext(taken.frame);
          return;
        }
        if * { return false, true; }
        var read := conn.Receive(2048);
        if !read.Data? { return false, true; }
        inbuf := inbuf + read.bytes;
      }
    }

    method HandleNext(f: Frame) returns (ok: bool, ghost hpack: bool)
      requires Valid() && |f.payload| <= MAX_FRAME_SIZE
      modifies this, conn`written
      ensures Valid() && inbuf == old(inbuf) && history == old(history) + [Incoming(f, hpack)]
      ensures exists more: seq<Frame> :: log == old(log) + more && (forall g <- more :: g.typ != DATA) && conn.written == old(conn.written) + Encoded(more)
    {
      ghost var before := View();
      ok, hpack := HandleFrame(f);
      RepliesQuiet(before, f, hpack);
      RunNext(history, Incoming(f, hpack));
      history := history + [Incoming(f, hpack)];
      assert log == old(log) + Handle(before, f, hpack).out;
    }

    /** Waits for credit by handling one frame; a stream the peer has reset is given up. */
    method Await(id: nat) returns (ok: bool)
      requires Valid()
      modifies this, conn
      ensures Valid() && (ok ==> |Stream()| < |old(Stream())|) && old(log) <= log && old(history) <= history
      ensures forall x :: DataOf(log, x) == DataOf(old(log), x)
    {
      ghost var before := log;
      ghost var stream := Stream();
      ghost var hpack;
      ok, hpack := ProcessOne();
      ghost var more: seq<Frame> :| log == before + more && forall g <- more :: g.typ != DATA;
      forall x ensures DataOf(log, x) == DataOf(before, x) { DataNone(before, more, x); }
      assert ok ==> TakeH2(stream).used > 0 by { H2Incremental(); }
      if ok && id in streams && streams[id].reset.Some? { ok := false; }
    }

    /** One DATA frame; its bytes come off both windows. */
    method SendChunk(id: nat, payload: Bytes, rest: nat) returns (f: Frame)
      requires Valid() && 0 < |payload| == SendSize(View(), id, rest)
      modifies this, conn`written
      ensures Valid() && inbuf == old(inbuf) && history == old(history) + [Chunk(id, payload, rest)]
      ensures f == DataFrame(Chunk(id, payload, rest)) && log == old(log) + [f] && conn.written == old(conn.written) + PushFrame(f)
      ensures DataOf(log, id) == DataOf(old(log), id) + [f]
    {
      f := Frame(DATA, if |payload| == rest then END_STREAM else 0, id, payload);
      EncodedOne(f);
      DataMore(log, f, id);
      Push([f]);
      ChunkNext(history, id, payload, rest);
      Spend(id, |payload|);
      history := history + [Chunk(id, payload, rest)];
    }

    method Spend(id: nat, n: nat)
      modifies this`connSendWindow, this`streams
      ensures View() == Sent(old(View()), id, n)
    {
      connSendWindow := connSendWindow - n;
      if id in streams { streams := streams[id := streams[id].(sendWindow := streams[id].sendWindow - n)]; }
    }

    /** The next stream id, a stream with the peer's initial window, and its HEADERS on the wire. */
    method OpenStream(headers: Bytes, last: bool) returns (id: nat)
      requires Valid()
      modifies this, conn`written
      ensures Valid() && id == old(nextStreamId) && inbuf == old(inbuf)
      ensures View() == Requested(old(View())) && history == old(history) + [Event.Request]
      ensures log == old(log) + [HeadersFrame(id, headers, last)] && conn.written == old(conn.written) + PushFrame(HeadersFrame(id, headers, last))
    {
      id := nextStreamId;
      RunNext(history, Event.Request);
      history := history + [Event.Request];
      nextStreamId := nextStreamId + 2;
      streams := streams[id := NewStream(peerInitialWindow)];
      var f := HeadersFrame(id, headers, last);
      EncodedOne(f);
      Push([f]);
    }

    /** After GOAWAY nothing happens. Otherwise a new stream is opened with its HEADERS, ending it when
        there is no body, and the body is sent whole. */
    method Request(headers: Bytes, body: Bytes) returns (ok: bool, id: nat, ghost sent: seq<Frame>)
      requires Valid()
      modifies this, conn
      ensures Valid() && id == old(nextStreamId)
      ensures old(goaway) ==> !ok && View() == old(View()) && log == old(log) && history == old(history)
      ensures !old(goaway) ==> old(log) + [HeadersFrame(id, headers, body == [])] <= log && old(history) + [Event.Request] <= history
      ensures !old(goaway) && body == [] ==> ok && View() == Requested(old(View()))
      ensures ok ==> DataOf(log, id) == DataOf(old(log), id) + sent && Carries(sent, body, |body|)
    {
      if goaway { return false, nextStreamId, []; }
      DataMore(log, HeadersFrame(nextStreamId, headers, body == []), nextStreamId);
      id := OpenStream(headers, body == []);
      sent := [];
      if body == [] { return true, id, []; }
      ok, sent := SendBody(id, body);
    }

    /** The next bytes of a response's body, waiting for frames while there are none. They are the next of what the
        stream's DATA has brought; at the end of the body all of it has been handed out. */
    method ReadBody(id: nat) returns (r: BodyRead)
      requires Valid()
      modifies this, conn
      ensures Valid() && HeardOn(old(history), history, id, if r.Part? then r.bytes else [])
      ensures r.Part? ==> r.bytes != [] && id in streams && streams[id].body == []
      ensures r.Part? ==> |Stream()| < |old(Stream())| || (Stream() == old(Stream()) && id in old(streams) && old(streams)[id].body != [])
      ensures r.EndOfBody? ==>
                && Present(history, id) && Handed(history, id) == Body(Heard(history, id))
                && Ended(Heard(history, id)) && ResetBy(Heard(history, id)).None?
      ensures id !in old(streams) ==> r.BodyFailed?
      ensures id in old(streams) && old(streams)[id].body != [] ==> r == Part(old(streams)[id].body)
      ensures id in old(streams) && old(streams)[id].body == [] && old(streams)[id].reset.Some? ==> r.BodyFailed?
      ensures id in old(streams) && old(streams)[id].body == [] && old(streams)[id].reset.None? && old(streams)[id].endStream ==> r.EndOfBody?
    {
      assert HeardOn(history, history, id, []);
      while true
        invariant Valid() && HeardOn(old(history), history, id, [])
        invariant streams == old(streams) ||
                  (id in old(streams) && old(streams)[id].body == [] && old(streams)[id].reset.None? && !old(streams)[id].endStream)
        invariant |Stream()| < |old(Stream())| || (Stream() == old(Stream()) && streams == old(streams))
        decreases |Stream()|
      {
        if id !in streams { return BodyFailed; }
        ResponseIsFrames(history, id);
        if streams[id].body != [] {
          r := TakeOut(id);
          return;
        }
        if streams[id].reset.Some? { return BodyFailed; }
        if streams[id].endStream { return EndOfBody; }
        if goaway { return BodyFailed; }
        if * { return BodyFailed; }
        var ok := AwaitMore(id);
        if !ok { return BodyFailed; }
      }
    }

    method AwaitMore(id: nat) returns (ok: bool)
      requires Valid()
      modifies this, conn
      ensures Valid() && (ok ==> |Stream()| < |old(Stream())|)
      ensures forall before :: HeardOn(before, old(history), id, []) ==> HeardOn(before, history, id, [])
    {
      ghost var stream, past := Stream(), history;
      ghost var hpack;
      ok, hpack := ProcessOne();
      forall before | HeardOn(before, past, id, []) ensures HeardOn(before, history, id, []) {
        HeardFrame(before, past, First(stream), hpack, id, []);
      }
      assert ok ==> TakeH2(stream).used > 0 by { H2Incremental(); }
    }

    method TakeOut(id: nat) returns (r: BodyRead)
      requires Valid() && id in streams && streams[id].body != []
      modifies this`streams, this`history
      ensures Valid() && history == old(history) + [TakeBody(id)] && id in streams && streams[id].body == []
      ensures r == Part(old(streams)[id].body)
      ensures forall before :: HeardOn(before, old(history), id, []) ==> HeardOn(before, history, id, r.bytes)
    {
      r := Part(streams[id].body);
      RunNext(history, TakeBody(id));
      forall before | HeardOn(before, history, id, []) ensures HeardOn(before, history + [TakeBody(id)], id, streams[id].body) {
        HeardTaken(before, history, id);
      }
      streams := streams[id := streams[id].(body := [])];
      history := history + [TakeBody(id)];
    }

    /** The whole body of a response: with what was handed out before, exactly the contents of the DATA frames the
        stream heard since it came into being, in order, and the peer has ended it. The stream is then
        forgotten. More than `max` bytes are an error. */
    method ReadFullBody(id: nat, max: nat) returns (r: Option<Bytes>)
      requires Valid()
      modifies this, conn
      ensures Valid()
      ensures r.Some? ==>
                && |r.value| <= max && id !in streams && |history| > 0 && history[|history| - 1] == Forget(id)
                && var heard := Heard(history[..|history| - 1], id);
                   Handed(old(history), id) + r.value == Body(heard) && Ended(heard) && ResetBy(heard).None?
    {
      var out := ReadAll(id, max);
      if out.None? { return None; }
      ghost var all := history;
      ForgetStream(id);
      assert history[..|history| - 1] == all;
      r := out;
    }

    /** All parts up to the end of the body. */
    method ReadAll(id: nat, max: nat) returns (r: Option<Bytes>)
      requires Valid()
      modifies this, conn
      ensures Valid()
      ensures r.Some? ==>
                && |r.value| <= max && HeardOn(old(history), history, id, r.value)
                && Handed(history, id) == Body(Heard(history, id)) && Ended(Heard(history, id)) && ResetBy(Heard(history, id)).None?
    {
      var out: Bytes := [];
      assert HeardOn(history, history, id, []);
      while true
        invariant Valid() && HeardOn(old(history), history, id, out) && |out| <= max
        decreases |Stream()|, if id in streams && streams[id].body != [] then 1 else 0
      {
        ghost var past := history;
        var part := ReadBody(id);
        HeardChain(old(history), past, history, id, out, if part.Part? then part.bytes else []);
        if part.BodyFailed? { return None; }
        if part.EndOfBody? { assert out + [] == out; return Some(out); }
        out := out + part.bytes;
        if |out| > max { return None; }
      }
    }

    method ForgetStream(id: nat)
      requires Valid()
      modifies this`streams, this`history
      ensures Valid() && streams == old(streams) - {id} && history == old(history) + [Forget(id)]
    {
      ForgetNext(history, id);
      history := history + [Forget(id)];
      streams := streams - {id};
    }

    /** The smaller of the two windows, if there is any. */
    function Allowed(id: nat): nat
      reads this
    {
      Max(Min(if id in streams then streams[id].sendWindow else 0, connSendWindow), 0)
    }

    /** As much of the rest of the body as the windows and the peer's maximum frame let through. */
    method SendNext(id: nat, body: Bytes, offset: nat) returns (f: Frame)
      requires Valid() && offset < |body| && Allowed(id) > 0
      modifies this, conn`written
      ensures Valid() && inbuf == old(inbuf) && Grown(old(log), log, old(history), history, id, [f])
      ensures 0 < |f.payload| <= |body| - offset && f.payload == body[offset..offset + |f.payload|]
      ensures f.flags == END_STREAM <==> offset + |f.payload| == |body|
    {
      RunMax(history);
      var n := Min(Min(|body| - offset, Allowed(id)), peerMaxFrame);
      f := SendChunk(id, body[offset..offset + n], |body| - offset);
    }

    /** Sends a request body. However frames from the peer interleave, the DATA written on the stream
        is the body in order with END_STREAM on its last frame only, or on failure a proper part of
        it; every frame is a chunk of the model, so within the credit of `DataWithinCredit`. */
    method SendBody(id: nat, body: Bytes) returns (ok: bool, ghost sent: seq<Frame>)
      requires Valid()
      modifies this, conn
      ensures Valid() && Grown(old(log), log, old(history), history, id, sent)
      ensures ok ==> Carries(sent, body, |body|)
      ensures !ok ==> exists offset :: 0 <= offset < |body| && Carries(sent, body, offset)
    {
      var offset := 0;
      sent := [];
      while offset < |body|
        invariant Valid() && 0 <= offset <= |body| && Carries(sent, body, offset)
        invariant Grown(old(log), log, old(history), history, id, sent)
        decreases |body| - offset, |Stream()|
      {
        var allowed := Allowed(id);
        if allowed == 0 {
          ok := Await(id);
          if !ok { return; }
          continue;
        }
        var f := SendNext(id, body, offset);
        CarriesMore(sent, body, offset, f);
        sent := sent + [f];
        offset := offset + |f.payload|;
      }
      ok := true;
    }
  }

  lemma FirstStands(buf: Bytes, rest: Bytes)
    requires TakeH2(buf) != NeedMore
    ensures TakeH2(buf + rest) == TakeH2(buf)
    ensures TakeH2(buf).Got? ==> (buf + rest)[TakeH2(buf).used..] == buf[TakeH2(buf).used..] + rest
  {
    H2Incremental();
    assert TakeH2(buf + rest) == TakeH2(buf);
    if TakeH2(buf).Got? { assert (buf + rest)[TakeH2(buf).used..] == buf[TakeH2(buf).used..] + rest; }
  }

  ghost function First(stream: Bytes): Frame {
    if TakeH2(stream).Got? then TakeH2(stream).frame else Frame(0, 0, 0, [])
  }
}
