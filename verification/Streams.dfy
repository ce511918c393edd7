/** The two clients that buffer a stream and take frames off its front: DERP and the map stream. */
module Streams {
  import opened Common
  import opened Framing
  import opened Transport

  datatype Outcome<+F> = Item(frame: F) | TimedOut | Closed | Malformed | Broken

  /** The outcome is decided by the stream alone: its first frame and then exactly its bytes are
      gone, a length over the limit, or too few bytes. A timeout or a broken transport takes nothing. */
  ghost predicate FirstOf<F(!new)>(dec: Decoder<F>, before: Bytes, after: Bytes, r: Outcome<F>)
    requires Incremental(dec)
  {
    match r
    case Item(f) => dec(before).Got? && dec(before).frame == f && after == before[dec(before).used..]
    case Malformed => dec(before).Bad? && after == before
    case Closed => dec(before).NeedMore? && after == before
    case TimedOut => after == before
    case Broken => after == before
  }

  /** A decision on the buffered part stands for the whole stream. */
  lemma Decide<F(!new)>(dec: Decoder<F>, buf: Bytes, rest: Bytes)
    requires Incremental(dec) && !dec(buf).NeedMore?
    ensures dec(buf + rest) == dec(buf)
    ensures dec(buf).Got? ==> (buf + rest)[dec(buf).used..] == buf[dec(buf).used..] + rest
  {
    assert dec(buf + rest) == dec(buf);
    if dec(buf).Got? { assert (buf + rest)[dec(buf).used..] == buf[dec(buf).used..] + rest; }
  }

  class DerpClient {
    const conn: Conn
    var inbuf: Bytes

    constructor (c: Conn, leftover: Bytes)
      ensures conn == c && inbuf == leftover
    {
      conn, inbuf := c, leftover;
    }

    /** Everything not yet handed on: buffered, then still to come. */
    ghost function Stream(): Bytes
      reads this, conn
    {
      inbuf + conn.unread
    }

    method WriteFrame(typ: byte, payload: Bytes)
      modifies conn
      ensures conn.written == old(conn.written) + WriteDerp(DerpFrame(typ, payload)) && conn.unread == old(conn.unread)
    {
      conn.Send([typ] + Be32(|payload|) + payload);
    }

    method TakeFrame() returns (r: Taken<DerpFrame>)
      modifies this
      ensures r == TakeDerp(old(inbuf))
      ensures inbuf == if r.Got? then old(inbuf)[r.used..] else old(inbuf)
    {
      if |inbuf| < 5 { return NeedMore; }
      var t := inbuf[0];
      var len := FromBe32(inbuf[1..5]);
      if len > DERP_LIMIT { return Bad; }
      if |inbuf| < 5 + len { return NeedMore; }
      r := Got(DerpFrame(t, inbuf[5..5 + len]), 5 + len);
      inbuf := inbuf[5 + len..];
    }

    method Fill() returns (r: Read)
      modifies this, conn
      ensures Stream() == old(Stream())
      ensures if r.Data? then |conn.script| < |old(conn.script)| && exists more :: inbuf == old(inbuf) + more else inbuf == old(inbuf)
      ensures (r.Eof? ==> conn.unread == []) && (r.TimedOut? || r.Failed? ==> conn.failed)
    {
      r := conn.Receive(4096);
      if r.Data? { inbuf := inbuf + r.bytes; }
    }

    method ReadFrame() returns (r: Outcome<DerpFrame>)
      modifies this, conn
      ensures Incremental(TakeDerp) && FirstOf(TakeDerp, old(Stream()), Stream(), r)
      ensures r.TimedOut? || r.Broken? ==> TakeDerp(inbuf).NeedMore?
      ensures r.Broken? ==> conn.failed
    {
      DerpIncremental();
      while true
        invariant Stream() == old(Stream())
        decreases |conn.script|
      {
        if TakeDerp(inbuf) != NeedMore { Decide(TakeDerp, inbuf, conn.unread); }
        var taken := TakeFrame();
        if taken.Got? { return Item(taken.frame); }
        if taken.Bad? { return Malformed; }
        if * { return Outcome.TimedOut; }
        var read := Fill();
        if read.Eof? {
          assert Stream() == inbuf;
          return Closed;
        }
        if read.TimedOut? { return Outcome.TimedOut; }
        if read.Failed? { return Broken; }
      }
    }
  }

  class MapStream<M(!new)> {
    const body: Conn
    const decode: Bytes -> Option<M>
    var buf: Bytes
    var done: bool

    constructor (b: Conn, d: Bytes -> Option<M>)
      ensures body == b && decode == d && buf == [] && !done
    {
      body, decode, buf, done := b, d, [], false;
    }

    ghost predicate Valid()
      reads this, body
    {
      done ==> body.unread == []
    }

    ghost function Stream(): Bytes
      reads this, body
    {
      buf + body.unread
    }

    method TakeMessage() returns (r: Taken<M>)
      modifies this`buf
      ensures r == TakeMap(decode, old(buf))
      ensures buf == if r.Got? then old(buf)[r.used..] else old(buf)
    {
      if buf == [] { return NeedMore; }
      if |buf| < 4 { return NeedMore; }
      var len := FromBe32(Reversed4(buf[..4]));
      if len > MAP_LIMIT { return Bad; }
      if |buf| < 4 + len { return NeedMore; }
      var m := decode(buf[4..4 + len]);
      if m.None? { return Bad; }
      r := Got(m.value, 4 + len);
      buf := buf[4 + len..];
    }

    ghost function Decoding(): Decoder<M> {
      MapDecoder(decode)
    }

    /** The next message of the body; `Closed` only when what is left holds no whole message. */
    method Next() returns (r: Outcome<M>)
      requires Valid()
      modifies this, body
      ensures Valid()
      ensures Incremental(Decoding()) && FirstOf(Decoding(), old(Stream()), Stream(), r)
      ensures r.TimedOut? || r.Broken? ==> Decoding()(buf).NeedMore? && body.failed
    {
      MapIncremental(decode);
      while true
        invariant Valid() && Stream() == old(Stream())
        decreases !done, |body.script|
      {
        var taken := TakeFirst();
        if taken.Got? { return Item(taken.frame); }
        if taken.Bad? { return Malformed; }
        if done {
          assert Stream() == buf;
          return Closed;
        }
        var read := More();
        if read.TimedOut? { return Outcome.TimedOut; }
        if read.Failed? { return Broken; }
      }
    }

    /** `TakeMessage` seen from the stream. */
    method TakeFirst() returns (r: Taken<M>)
      requires Valid()
      modifies this`buf
      ensures Valid() && Incremental(Decoding())
      ensures if r.NeedMore? then buf == old(buf) && Decoding()(buf).NeedMore? else r == Decoding()(old(Stream()))
      ensures r.Got? ==> r.used <= |old(Stream())| && Stream() == old(Stream())[r.used..]
      ensures !r.Got? ==> Stream() == old(Stream())
    {
      MapIncremental(decode);
      if Decoding()(buf) != NeedMore { Decide(Decoding(), buf, body.unread); }
      r := TakeMessage();
    }

    method More() returns (read: Read)
      requires Valid() && !done
      modifies this, body
      ensures Valid() && Stream() == old(Stream())
      ensures read.Eof? ==> done
      ensures read.Data? ==> |body.script| < |old(body.script)|
      ensures !read.Data? ==> buf == old(buf)
      ensures !read.Eof? ==> !done
      ensures read.TimedOut? || read.Failed? ==> body.failed
    {
      read := body.ReceiveAny();
      if read.Data? { buf := buf + read.bytes; }
      if read.Eof? { done := true; }
    }
  }
}
