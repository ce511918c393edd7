/** Opening the control connection: the HTTP upgrade, the handshake response, the record stream and
    the early payload in front of HTTP/2. Every byte the server sends goes to exactly one of them. */
module Upgrade {
  import opened Common
  import opened Framing
  import opened Transport
  import opened NoiseStream

  const CRLF2: Bytes := [13, 10, 13, 10]
  const MAX_HEAD := 16_384
  const RESPONSE_LEN := 51
  const EARLY_MAGIC: Bytes := [0xff, 0xff, 0xff, 0x54, 0x53]
  const MAX_EARLY := 0x10_0000

  predicate EndsAt(b: Bytes, i: nat) {
    i + 4 <= |b| && b[i..i + 4] == CRLF2
  }

  /** `windows(4).position(..)`: the first place the head's end is found. */
  method FindHeadEnd(buf: Bytes) returns (end: Option<nat>)
    ensures end.Some? ==> EndsAt(buf, end.value) && forall j: nat :: j < end.value ==> !EndsAt(buf, j)
    ensures end.None? ==> forall j: nat :: !EndsAt(buf, j)
  {
    var i := 0;
    while i + 4 <= |buf|
      invariant forall j: nat :: j < i ==> !EndsAt(buf, j)
    {
      if buf[i..i + 4] == CRLF2 { return Some(i); }
      i := i + 1;
    }
    return None;
  }

  datatype Head = Head(text: Bytes, leftover: Bytes) | Ended | TooLarge | Broken

  /** The head ends at the first blank line of the whole stream, whatever the reads; what was read
      past it is kept, in front of what is still to come. */
  method ReadResponseHead(conn: Conn) returns (r: Head)
    modifies conn`unread, conn`script, conn`failed
    ensures match r
            case Head(text, leftover) =>
              && old(conn.unread) == text + CRLF2 + leftover + conn.unread
              && forall j: nat :: j < |text| ==> !EndsAt(old(conn.unread), j)
            case Ended => forall j: nat :: !EndsAt(old(conn.unread), j)
            case TooLarge => forall j: nat :: j + 4 <= MAX_HEAD ==> !EndsAt(old(conn.unread), j)
            case Broken => conn.failed
  {
    var buf: Bytes := [];
    while true
      invariant buf + conn.unread == old(conn.unread) && forall j: nat :: !EndsAt(buf, j)
      decreases |conn.script|
    {
      var read := conn.Receive(256);
      if read.TimedOut? || read.Failed? { return Broken; }
      if read.Eof? {
        assert buf == old(conn.unread);
        return Ended;
      }
      buf := buf + read.bytes;
      var end := FindHeadEnd(buf);
      if end.Some? {
        HeadSplits(buf, end.value, conn.unread);
        return Head(buf[..end.value], buf[end.value + 4..]);
      }
      if |buf| > MAX_HEAD {
        NoHeadIn(buf, conn.unread);
        assert buf + conn.unread == old(conn.unread);
        return TooLarge;
      }
    }
  }

  lemma NoHeadIn(buf: Bytes, more: Bytes)
    requires forall j: nat :: !EndsAt(buf, j)
    ensures forall j: nat :: j + 4 <= |buf| ==> !EndsAt(buf + more, j)
  {
    forall j: nat | j + 4 <= |buf| ensures !EndsAt(buf + more, j) {
      assert (buf + more)[j..j + 4] == buf[j..j + 4] && !EndsAt(buf, j);
    }
  }

  lemma HeadSplits(buf: Bytes, end: nat, more: Bytes)
    requires EndsAt(buf, end) && forall j: nat :: j < end ==> !EndsAt(buf, j)
    ensures buf + more == buf[..end] + CRLF2 + buf[end + 4..] + more
    ensures forall j: nat :: j < end ==> !EndsAt(buf + more, j)
  {
    assert buf == buf[..end] + buf[end..end + 4] + buf[end + 4..];
    forall j: nat | j < end ensures !EndsAt(buf + more, j) {
      assert (buf + more)[j..j + 4] == buf[j..j + 4] && !EndsAt(buf, j);
    }
  }

  datatype Keys = Keys(tx: nat, rx: nat)

  /** What the parsed head says: the status and whether the upgrade header matches. */
  datatype Parsed = Parsed(status: nat, upgrades: bool)

  /** The parts of the server's stream up to the records: the head, its end and the response. */
  ghost predicate Layout(stream: Bytes, head: Bytes, response: Bytes, records: Bytes) {
    && stream == head + CRLF2 + response + records && |response| == RESPONSE_LEN
    && forall j: nat :: j < |head| ==> !EndsAt(stream, j)
  }

  /** The server has agreed: a head within the limit that says so, and a response that is no error and finishes the
      handshake. */
  ghost predicate Agrees(stream: Bytes, head: Bytes, response: Bytes, records: Bytes, parse: Bytes -> Option<Parsed>, finish: Bytes -> Option<Keys>) {
    && Layout(stream, head, response, records) && |head| + 4 <= MAX_HEAD
    && parse(head) == Some(Parsed(101, true)) && response[0] != MSG_ERROR && finish(response).Some?
  }

  ghost predicate Upgrades(stream: Bytes, parse: Bytes -> Option<Parsed>, finish: Bytes -> Option<Keys>) {
    exists head, response, records :: Agrees(stream, head, response, records, parse, finish)
  }

  lemma NoUpgrade(stream: Bytes, parse: Bytes -> Option<Parsed>, finish: Bytes -> Option<Keys>)
    requires forall j: nat :: j + 4 <= MAX_HEAD ==> !EndsAt(stream, j)
    ensures !Upgrades(stream, parse, finish)
  {
    if Upgrades(stream, parse, finish) {
      var head, response, records :| Agrees(stream, head, response, records, parse, finish);
      assert stream[|head|..|head| + 4] == CRLF2;
      assert EndsAt(stream, |head|);
      assert false;
    }
  }

  /** The head found is the only one, so the answer depends on it and what follows it. */
  lemma HeadFound(stream: Bytes, head: Bytes, rest: Bytes, parse: Bytes -> Option<Parsed>, finish: Bytes -> Option<Keys>)
    requires stream == head + CRLF2 + rest && forall j: nat :: j < |head| ==> !EndsAt(stream, j)
    ensures Upgrades(stream, parse, finish) ==>
              && parse(head) == Some(Parsed(101, true))
              && |rest| >= RESPONSE_LEN && rest[0] != MSG_ERROR && finish(rest[..RESPONSE_LEN]).Some?
  {
    if Upgrades(stream, parse, finish) {
      var other, response, records :| Agrees(stream, other, response, records, parse, finish);
      assert stream[|head|..|head| + 4] == CRLF2 && stream[|other|..|other| + 4] == CRLF2;
      assert EndsAt(stream, |head|) && EndsAt(stream, |other|);
      assert |head| == |other|;
      assert head == stream[..|head|] == other;
      assert rest == stream[|head| + 4..] == response + records;
      assert rest[..RESPONSE_LEN] == response;
    }
  }

  /** The client's side of the upgrade; `parse` reads the head's text, `finish` is the handshake. */
  method Dial(conn: Conn, aead: Aead, parse: Bytes -> Option<Parsed>, finish: Bytes -> Option<Keys>)
      returns (noise: Option<NoiseConn>, ghost head: Bytes, ghost response: Bytes)
    modifies conn`unread, conn`script, conn`failed
    ensures noise.Some? ==>
      && fresh(noise.value) && noise.value.inner == conn && noise.value.aead == aead && noise.value.Valid() && noise.value.txN == 0
      && parse(head).Some? && parse(head).value == Parsed(101, true)
      && finish(response).Some? && Keys(noise.value.txKey, noise.value.rxKey) == finish(response).value
      && noise.value.View().n == 0 && noise.value.View().plain == []
      && Layout(old(conn.unread), head, response, noise.value.View().raw)
    ensures noise.None? ==> conn.failed || !Upgrades(old(conn.unread), parse, finish)
  {
    noise, head, response := None, [], [];
    ghost var stream := conn.unread;
    var h := ReadResponseHead(conn);
    if !h.Head? {
      if !conn.failed { NoUpgrade(stream, parse, finish); }
      return;
    }
    head := h.text;
    HeadFound(stream, head, h.leftover + conn.unread, parse, finish);
    var p := parse(h.text);
    if p.None? || p.value.status != 101 || !p.value.upgrades { return; }
    var resp, leftover := ReadResponse(conn, h.leftover);
    if resp.None? { return; }
    response := resp.value;
    HandOver(stream, head, h.leftover, conn.unread, response, leftover);
    var keys := finish(resp.value);
    if keys.None? { return; }
    var made := new NoiseConn(conn, aead, keys.value.tx, keys.value.rx, leftover);
    assert made.View().plain == [];
    noise := Some(made);
  }

  ghost predicate Handed(before: Bytes, response: Bytes, after: Bytes) {
    before == response + after && |response| == RESPONSE_LEN
  }

  lemma HandOver(stream: Bytes, head: Bytes, leftover: Bytes, unread: Bytes, response: Bytes, left: Bytes)
    requires exists was :: stream == head + CRLF2 + leftover + was && Handed(leftover + was, response, left + unread)
    requires forall j: nat :: j < |head| ==> !EndsAt(stream, j)
    ensures Layout(stream, head, response, left + unread)
  {
    var was :| stream == head + CRLF2 + leftover + was && Handed(leftover + was, response, left + unread);
    assert stream == head + CRLF2 + (leftover + was);
  }

  /** The 51 response bytes: first from what came with the head, then from the connection, the
      3-byte header before the rest so that a server error can be told apart. */
  method ReadResponse(conn: Conn, before: Bytes) returns (r: Option<Bytes>, leftover: Bytes)
    modifies conn`unread, conn`script, conn`failed
    ensures r.Some? ==> Handed(before + old(conn.unread), r.value, leftover + conn.unread) && r.value[0] != MSG_ERROR
    ensures r.None? ==> var all := before + old(conn.unread); conn.failed || |all| < RESPONSE_LEN || all[0] == MSG_ERROR
  {
    var n := Min(|before|, RESPONSE_LEN);
    var resp := before[..n];
    leftover := before[n..];
    assert resp + leftover == before;
    r := None;
    resp := Gather(conn, resp, leftover, HEADER_LEN);
    if |resp| < HEADER_LEN || resp[0] == MSG_ERROR { return; }
    resp := Gather(conn, resp, leftover, RESPONSE_LEN);
    if |resp| < RESPONSE_LEN { return; }
    r := Some(resp);
  }

  /** Reads on until `target` bytes are held; nothing is read while some of `before` is unused. */
  method Gather(conn: Conn, held: Bytes, ghost leftover: Bytes, target: nat) returns (got: Bytes)
    requires |held| < target ==> leftover == []
    modifies conn`unread, conn`script, conn`failed
    ensures held <= got && |got| <= Max(|held|, target)
    ensures got + leftover + conn.unread == held + leftover + old(conn.unread)
    ensures |got| < target ==> conn.failed || conn.unread == []
  {
    got := held;
    while |got| < target
      invariant held <= got && |got| <= Max(|held|, target)
      invariant |held| < target ==> leftover == []
      invariant got + leftover + conn.unread == held + leftover + old(conn.unread)
      decreases target - |got|
    {
      var read := conn.Receive(target - |got|);
      if !read.Data? { return; }
      got := got + read.bytes;
    }
  }

  // ---- the early payload ----

  /** The HTTP/2 stream behind an optional early payload; None when it cannot be told or is too long. */
  function AfterEarly(plain: Bytes): Option<Bytes> {
    if |plain| < 9 then None else
    if plain[..5] != EARLY_MAGIC then Some(plain) else
    var len := FromBe32(plain[5..9]);
    if len > MAX_EARLY || |plain| < 9 + len then None else Some(plain[9 + len..])
  }

  /** An early payload of up to 1 MiB behind its magic and its length is dropped, and only that; a stream that begins
      otherwise is left as it is. */
  lemma EarlyExact(payload: Bytes, rest: Bytes, plain: Bytes)
    ensures |payload| <= 0x10_0000 ==> AfterEarly([0xff, 0xff, 0xff, 0x54, 0x53] + Be32(|payload|) + payload + rest) == Some(rest)
    ensures |plain| >= 9 && plain[..5] != [0xff, 0xff, 0xff, 0x54, 0x53] ==> AfterEarly(plain) == Some(plain)
  {
    if |payload| <= 0x10_0000 {
      var all := [0xff, 0xff, 0xff, 0x54, 0x53] + Be32(|payload|) + payload + rest;
      Be32Truncates(|payload|);
      assert all[..5] == [0xff, 0xff, 0xff, 0x54, 0x53] && all[5..9] == Be32(|payload|) && all[9 + |payload|..] == rest;
    }
  }

  lemma EarlySplits(plain: Bytes, hdr: Bytes, payload: Bytes, rest: Bytes)
    requires plain == hdr + (payload + rest) && |hdr| == 9 && hdr[..5] == EARLY_MAGIC
    requires |payload| == FromBe32(hdr[5..9]) <= MAX_EARLY
    ensures AfterEarly(plain) == Some([] + rest)
  {
    assert plain[..5] == hdr[..5] && plain[5..9] == hdr[5..9];
    assert plain[9 + |payload|..] == rest;
    assert [] + rest == rest;
  }

  lemma EarlyShort(plain: Bytes, hdr: Bytes, rest: Bytes)
    requires plain == hdr + rest && |hdr| == 9 && hdr[..5] == EARLY_MAGIC
    ensures FromBe32(hdr[5..9]) > MAX_EARLY || |rest| < FromBe32(hdr[5..9]) ==> AfterEarly(plain).None?
  {
    assert plain[..5] == hdr[..5] && plain[5..9] == hdr[5..9];
  }

  lemma EarlyAbsent(plain: Bytes, hdr: Bytes, rest: Bytes)
    requires plain == hdr + rest && |hdr| == 9 && hdr[..5] != EARLY_MAGIC
    ensures AfterEarly(plain) == Some(hdr + rest)
  {
    assert plain[..5] == hdr[..5];
  }

  /** The prefix handed to HTTP/2 and the plaintext behind it are the stream after the early payload. */
  method SkipEarly(noise: NoiseConn) returns (prefix: Option<Bytes>)
    requires noise.Valid()
    modifies noise, noise.inner`unread, noise.inner`script, noise.inner`failed
    ensures noise.Valid()
    ensures prefix.Some? ==> AfterEarly(Remaining(noise.aead, noise.rxKey, old(noise.View())))
                             == Some(prefix.value + Remaining(noise.aead, noise.rxKey, noise.View()))
    ensures prefix.None? ==>
              || noise.inner.failed || AfterEarly(Remaining(noise.aead, noise.rxKey, old(noise.View()))).None?
              || EmptyAhead(noise.aead, noise.rxKey, old(noise.View()).n, old(noise.View()).raw)
  {
    ghost var plain := Remaining(noise.aead, noise.rxKey, noise.View());
    var hdr := noise.ReadExact(9);
    if hdr.None? { return None; }
    ghost var rest := Remaining(noise.aead, noise.rxKey, noise.View());
    if hdr.value[..5] == EARLY_MAGIC {
      var len := FromBe32(hdr.value[5..9]);
      EarlyShort(plain, hdr.value, rest);
      if len > MAX_EARLY { return None; }
      var payload := noise.ReadExact(len);
      if payload.None? { return None; }
      EarlySplits(plain, hdr.value, payload.value, Remaining(noise.aead, noise.rxKey, noise.View()));
      return Some([]);
    }
    EarlyAbsent(plain, hdr.value, rest);
    return Some(hdr.value);
  }

  /** A whole successful dial: the server's bytes are the head, its end, the response, and records
      whose plaintext, less the early payload, is exactly what HTTP/2 gets, in order. */
  method DialControl(conn: Conn, aead: Aead, parse: Bytes -> Option<Parsed>, finish: Bytes -> Option<Keys>)
      returns (noise: Option<NoiseConn>, prefix: Bytes, ghost head: Bytes, ghost response: Bytes, ghost records: Bytes)
    modifies conn`unread, conn`script, conn`failed
    ensures noise.Some? ==>
      && fresh(noise.value) && noise.value.inner == conn && noise.value.Valid() && finish(response).Some?
      && Layout(old(conn.unread), head, response, records)
      && AfterEarly(Decoded(aead, finish(response).value.rx, 0, records))
         == Some(prefix + Remaining(aead, finish(response).value.rx, noise.value.View()))
    ensures noise.None? ==>
      || conn.failed || !Upgrades(old(conn.unread), parse, finish)
      || (&& Layout(old(conn.unread), head, response, records) && finish(response).Some?
          && var rx := finish(response).value.rx; AfterEarly(Decoded(aead, rx, 0, records)).None? || EmptyAhead(aead, rx, 0, records))
  {
    prefix, records := [], [];
    noise, head, response := Dial(conn, aead, parse, finish);
    if noise.None? { return; }
    records := noise.value.View().raw;
    assert Remaining(aead, noise.value.rxKey, noise.value.View()) == Decoded(aead, noise.value.rxKey, 0, records);
    var p := SkipEarly(noise.value);
    if p.None? { noise := None; return; }
    prefix := p.value;
  }
}
