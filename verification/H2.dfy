/** The HTTP/2 client's flow control, in both directions (sections 5.2, 6.9.1 and 6.9.2 of RFC 9113).
    The books of every connection and stream are kept from the frames alone. */
module H2 {
  import opened Common
  import opened Framing

  const DATA: byte := 0
  const HEADERS: byte := 1
  const PRIORITY: byte := 2
  const RST_STREAM: byte := 3
  const SETTINGS: byte := 4
  const PUSH_PROMISE: byte := 5
  const PING: byte := 6
  const GOAWAY: byte := 7
  const WINDOW_UPDATE: byte := 8
  const CONTINUATION: byte := 9

  const END_STREAM: byte := 0x1
  const ACK: byte := 0x1
  const END_HEADERS: byte := 0x4
  const PADDED: byte := 0x8
  const WITH_PRIORITY: byte := 0x20

  const INITIAL_WINDOW_SIZE := 4
  const MAX_FRAME := 5

  const DEFAULT_WINDOW := 65_535
  const OUR_WINDOW := 262_144
  const THRESHOLD := OUR_WINDOW / 2
  const MAX_HEADER_BLOCK := 65_536

  datatype Stream = Stream(
    headerBlock: Bytes, headersDone: bool, body: Bytes, endStream: bool, reset: Option<nat>, sendWindow: int, recvConsumed: nat)

  datatype H2 = H2(
    streams: map<nat, Stream>, connWindow: int, connConsumed: nat, peerMaxFrame: nat, peerInitial: nat, goaway: bool, nextId: nat)

  function NewStream(window: int): Stream {
    Stream([], false, [], false, None, window, 0)
  }

  const INITIAL := H2(map[], DEFAULT_WINDOW, 0, 16_384, DEFAULT_WINDOW, false, 1)

  predicate Flag(flags: byte, bit: byte)
    requires bit > 0
  {
    flags as int / bit as int % 2 == 1
  }

  function StripPadding(payload: Bytes, padded: bool): Option<Bytes> {
    if !padded then Some(payload) else
    if payload == [] then None else
    var pad := payload[0] as int;
    if pad + 1 > |payload| then None else Some(payload[1..|payload| - pad])
  }

  function Update(sid: nat, inc: nat): Frame {
    Frame(WINDOW_UPDATE, 0, sid, Be32(inc))
  }

  /** The result of a frame: the state, what is sent in reply, and whether the frame was accepted. */
  datatype Handled = Handled(h: H2, out: seq<Frame>, ok: bool)

  function ConnUpdate(h: H2): (H2, seq<Frame>) {
    if h.connConsumed >= THRESHOLD then (h.(connConsumed := 0), [Update(0, h.connConsumed)]) else (h, [])
  }

  function StreamUpdate(h: H2, sid: nat): (H2, seq<Frame>) {
    if sid in h.streams && h.streams[sid].recvConsumed >= THRESHOLD && !h.streams[sid].endStream then
      (h.(streams := h.streams[sid := h.streams[sid].(recvConsumed := 0)]), [Update(sid, h.streams[sid].recvConsumed)])
    else (h, [])
  }

  function Consumed(h: H2, f: Frame, data: Bytes): H2 {
    var len := |f.payload|;
    h.(connConsumed := h.connConsumed + len,
       streams := if f.sid !in h.streams then h.streams else
                  var s := h.streams[f.sid];
                  h.streams[f.sid := s.(body := s.body + data, endStream := s.endStream || Flag(f.flags, END_STREAM), recvConsumed := s.recvConsumed + len)])
  }

  function OnData(h: H2, f: Frame): Handled {
    match StripPadding(f.payload, Flag(f.flags, PADDED))
    case None => Handled(h, [], false)
    case Some(data) =>
      var (h1, out1) := ConnUpdate(Consumed(h, f, data));
      var (h2, out2) := StreamUpdate(h1, f.sid);
      Handled(h2, out1 + out2, true)
  }

  /** Header bytes for a stream, which comes into being if need be; `hpack` says if the block decodes. */
  function AddHeaders(h: H2, sid: nat, block: Bytes, ends: bool, done: bool, hpack: bool): Handled {
    var s := if sid in h.streams then h.streams[sid] else NewStream(0);
    var s1 := s.(headerBlock := s.headerBlock + block, endStream := s.endStream || ends);
    if !done then Handled(h.(streams := h.streams[sid := s1]), [], true) else
    var s2 := s1.(headerBlock := []);
    if |s1.headerBlock| > MAX_HEADER_BLOCK || !hpack then Handled(h.(streams := h.streams[sid := s2]), [], false) else
    Handled(h.(streams := h.streams[sid := s2.(headersDone := true)]), [], true)
  }

  function OnHeaders(h: H2, f: Frame, hpack: bool): Handled {
    match StripPadding(f.payload, Flag(f.flags, PADDED))
    case None => Handled(h, [], false)
    case Some(block) =>
      if Flag(f.flags, WITH_PRIORITY) && |block| < 5 then Handled(h, [], false) else
      AddHeaders(h, f.sid, if Flag(f.flags, WITH_PRIORITY) then block[5..] else block,
                 Flag(f.flags, END_STREAM), Flag(f.flags, END_HEADERS), hpack)
  }

  function Clamp(x: nat, low: nat, high: nat): nat {
    if x < low then low else if x > high then high else x
  }

  function Resized(streams: map<nat, Stream>, delta: int): map<nat, Stream> {
    map id | id in streams :: streams[id].(sendWindow := streams[id].sendWindow + delta)
  }

  function OneSetting(h: H2, chunk: Bytes): H2
    requires |chunk| == 6
  {
    var id := Be16(chunk[0], chunk[1]);
    var val := FromBe32(chunk[2..6]);
    if id == MAX_FRAME then h.(peerMaxFrame := Clamp(val, 16_384, 0x100_0000)) else
    if id == INITIAL_WINDOW_SIZE then h.(peerInitial := val, streams := Resized(h.streams, val - h.peerInitial)) else h
  }

  /** The first `k` settings of a payload, in order; a short rest is ignored. */
  function Settings(h: H2, payload: Bytes, k: nat): H2
    requires 6 * k <= |payload|
  {
    if k == 0 then h else OneSetting(Settings(h, payload, k - 1), payload[6 * k - 6..6 * k])
  }

  function OnSettings(h: H2, f: Frame): Handled {
    if Flag(f.flags, ACK) then Handled(h, [], true) else
    Handled(Settings(h, f.payload, |f.payload| / 6), [Frame(SETTINGS, ACK, 0, [])], true)
  }

  function Code(payload: Bytes, at: nat): nat {
    if |payload| >= at + 4 then FromBe32(payload[at..at + 4]) else 0
  }

  function Increment(payload: Bytes): nat {
    if |payload| < 4 then 0 else FromBe32(payload[..4]) % 0x8000_0000
  }

  function OnWindowUpdate(h: H2, f: Frame): Handled {
    var inc := Increment(f.payload);
    if f.sid == 0 then Handled(h.(connWindow := h.connWindow + inc), [], true) else
    if f.sid in h.streams then
      Handled(h.(streams := h.streams[f.sid := h.streams[f.sid].(sendWindow := h.streams[f.sid].sendWindow + inc)]), [], true)
    else Handled(h, [], true)
  }

  function Handle(h: H2, f: Frame, hpack: bool): Handled {
    if f.typ == DATA then OnData(h, f) else
    if f.typ == HEADERS then OnHeaders(h, f, hpack) else
    if f.typ == CONTINUATION then AddHeaders(h, f.sid, f.payload, false, Flag(f.flags, END_HEADERS), hpack) else
    if f.typ == RST_STREAM then
      (if f.sid !in h.streams then Handled(h, [], true) else
       Handled(h.(streams := h.streams[f.sid := h.streams[f.sid].(reset := Some(Code(f.payload, 0)))]), [], true)) else
    if f.typ == SETTINGS then OnSettings(h, f) else
    if f.typ == PUSH_PROMISE then Handled(h, [], false) else
    if f.typ == PING then Handled(h, if Flag(f.flags, ACK) then [] else [Frame(PING, ACK, 0, f.payload)], true) else
    if f.typ == GOAWAY then Handled(h.(goaway := true), [], true) else
    if f.typ == WINDOW_UPDATE then OnWindowUpdate(h, f) else Handled(h, [], true)
  }

  // ---- sending ----

  function SendSize(h: H2, id: nat, rest: nat): int {
    var window := if id in h.streams then h.streams[id].sendWindow else 0;
    Min(Min(rest, Max(Min(window, h.connWindow), 0)), h.peerMaxFrame)
  }

  function Sent(h: H2, id: nat, n: nat): H2 {
    h.(connWindow := h.connWindow - n,
       streams := if id in h.streams then h.streams[id := h.streams[id].(sendWindow := h.streams[id].sendWindow - n)] else h.streams)
  }

  function Requested(h: H2): H2 {
    h.(nextId := h.nextId + 2, streams := h.streams[h.nextId := NewStream(h.peerInitial)])
  }

  /** The caller takes the body bytes that are there. */
  function BodyTaken(h: H2, id: nat): H2 {
    if id in h.streams then h.(streams := h.streams[id := h.streams[id].(body := [])]) else h
  }

  // ---- books ----

  /** Totals since the connection began, or since the stream last came into being: DATA bytes sent and
      received, increments got and given, and DATA bytes received in frames that were rejected. A
      stream that is forgotten loses its book; one that HEADERS bring back starts a new one. */
  datatype Book = Book(sent: nat, incs: nat, received: nat, granted: nat, lost: nat)

  const BLANK := Book(0, 0, 0, 0, 0)

  function BookOut(b: Book, f: Frame): Book {
    if f.typ == DATA then b.(sent := b.sent + |f.payload|) else
    if f.typ == WINDOW_UPDATE then b.(granted := b.granted + Increment(f.payload)) else b
  }

  function BookIn(b: Book, f: Frame): Book {
    if f.typ == DATA then b.(received := b.received + |f.payload|) else
    if f.typ == WINDOW_UPDATE then b.(incs := b.incs + Increment(f.payload)) else b
  }

  function BookRejected(b: Book, f: Frame): Book {
    if f.typ == DATA then b.(received := b.received + |f.payload|, lost := b.lost + |f.payload|) else b
  }

  datatype Event =
    | Request
    | Chunk(id: nat, payload: Bytes, rest: nat)
    | Incoming(f: Frame, hpack: bool)
    | TakeBody(id: nat)
    | Forget(id: nat)

  /** `requested` are the streams opened by requests; `twice` is the credit given on the connection
      for the counter of a stream 0. */
  datatype World = World(h: H2, conn: Book, books: map<nat, Book>, requested: set<nat>, twice: nat)

  /** At first our window update has raised the connection's credit to OUR_WINDOW. */
  const START := World(INITIAL, Book(0, 0, 0, OUR_WINDOW - DEFAULT_WINDOW, 0), map[], {}, 0)

  function DataFrame(ev: Event): Frame
    requires ev.Chunk?
  {
    Frame(DATA, if |ev.payload| == ev.rest then END_STREAM else 0, ev.id, ev.payload)
  }

  function OpenBooks(books: map<nat, Book>, streams: map<nat, Stream>): map<nat, Book> {
    map id | id in streams :: if id in books then books[id] else BLANK
  }

  predicate ForConn(f: Frame) {
    f.typ == DATA || f.sid == 0
  }

  /** The books of one stream after the frames of a step. */
  function StreamBook(b: Book, id: nat, f: Frame, out: seq<Frame>): Book {
    var b1 := if f.sid == id && !(f.typ == WINDOW_UPDATE && id == 0) then BookIn(b, f) else b;
    GivenTo(b1, id, out)
  }

  function GivenTo(b: Book, id: nat, out: seq<Frame>): Book {
    if out == [] then b else
    var f := out[|out| - 1];
    var b1 := GivenTo(b, id, out[..|out| - 1]);
    if f.sid == id then BookOut(b1, f) else b1
  }

  /** The counter of a connection or stream that is given back now, if it is. */
  function ConnDue(h: H2, len: nat): Option<nat> {
    if h.connConsumed + len >= THRESHOLD then Some(h.connConsumed + len) else None
  }

  function StreamDue(h: H2, f: Frame): Option<nat> {
    if f.sid !in h.streams then None else
    var s := h.streams[f.sid];
    if s.recvConsumed + |f.payload| >= THRESHOLD && !s.endStream && !Flag(f.flags, END_STREAM) then Some(s.recvConsumed + |f.payload|) else None
  }

  /** DATA whose bytes are given back once more, for a stream 0. */
  predicate DueOnZero(h: H2, f: Frame) {
    f.typ == DATA && f.sid == 0 && StreamDue(h, f).Some?
  }

  function Taken(w: World, f: Frame, r: Handled): World {
    var books := OpenBooks(w.books, r.h.streams);
    World(r.h, GivenTo(if ForConn(f) then BookIn(w.conn, f) else w.conn, 0, r.out),
          map id | id in books :: StreamBook(books[id], id, f, r.out),
          w.requested, w.twice + (if DueOnZero(w.h, f) then StreamDue(w.h, f).value else 0))
  }

  function Refused(w: World, f: Frame, h: H2): World {
    var books := OpenBooks(w.books, h.streams);
    w.(h := h, conn := BookRejected(w.conn, f), books := map id | id in books :: if f.sid == id then BookRejected(books[id], f) else books[id])
  }

  function Receive(w: World, f: Frame, hpack: bool): World {
    var r := Handle(w.h, f, hpack);
    if r.ok then Taken(w, f, r) else Refused(w, f, r.h)
  }

  function Step(w: World, ev: Event): World {
    match ev
    case Request => w.(h := Requested(w.h), books := w.books[w.h.nextId := BLANK], requested := w.requested + {w.h.nextId})
    case Chunk(id, payload, rest) =>
      w.(h := Sent(w.h, id, |payload|), conn := BookOut(w.conn, DataFrame(ev)),
         books := if id in w.books then w.books[id := BookOut(w.books[id], DataFrame(ev))] else w.books)
    case Incoming(f, hpack) => Receive(w, f, hpack)
    case TakeBody(id) => w.(h := BodyTaken(w.h, id))
    case Forget(id) => w.(h := w.h.(streams := w.h.streams - {id}), books := w.books - {id}, requested := w.requested - {id})
  }

  /** A chunk is what one round of `send_body` sends of `rest` remaining bytes; frames come from the decoder. */
  predicate Enabled(w: World, ev: Event) {
    match ev
    case Chunk(id, payload, rest) => 0 < |payload| == SendSize(w.h, id, rest)
    case Incoming(f, hpack) => |f.payload| <= MAX_FRAME_SIZE
    case _ => true
  }

  function Run(evs: seq<Event>): World {
    if evs == [] then START else Step(Run(evs[..|evs| - 1]), evs[|evs| - 1])
  }

  ghost predicate Legal(evs: seq<Event>) {
    evs == [] || (Legal(evs[..|evs| - 1]) && Enabled(Run(evs[..|evs| - 1]), evs[|evs| - 1]))
  }

  // ---- what every step keeps ----

  predicate SendInv(w: World) {
    && w.h.connWindow == DEFAULT_WINDOW + w.conn.incs - w.conn.sent && w.h.connWindow >= 0
    && w.books.Keys == w.h.streams.Keys && w.requested <= w.h.streams.Keys && w.h.nextId > 0
    && forall id <- w.requested :: Balanced(w, id)
  }

  /** The stream's window is the peer's current initial window, plus increments, less bytes sent. */
  predicate Balanced(w: World, id: nat) {
    && id != 0 && id in w.h.streams && id in w.books
    && w.h.streams[id].sendWindow == w.h.peerInitial + w.books[id].incs - w.books[id].sent
  }

  /** Both counters stay below the threshold, and what was received and not given back is what they
      count; on the connection less what was given for a stream 0 as well. */
  predicate RecvInv(w: World) {
    && w.h.connConsumed < THRESHOLD
    && w.h.connConsumed == w.conn.received - w.conn.lost - w.conn.granted + (OUR_WINDOW - DEFAULT_WINDOW) + w.twice
    && forall id <- w.h.streams :: Counted(w, id)
  }

  predicate Counted(w: World, id: nat)
    requires id in w.h.streams
  {
    && id in w.books && (id != 0 ==> w.h.streams[id].recvConsumed == w.books[id].received - w.books[id].lost - w.books[id].granted)
    && (!w.h.streams[id].endStream ==> w.h.streams[id].recvConsumed < THRESHOLD)
  }

  lemma Be32Increment(n: nat)
    requires n < 0x8000_0000
    ensures Increment(Be32(n)) == n
  {
    Be32Truncates(n);
    assert Be32(n)[..4] == Be32(n);
  }

  lemma ChunkKeeps(w: World, ev: Event)
    requires SendInv(w) && RecvInv(w) && ev.Chunk? && Enabled(w, ev)
    ensures SendInv(Step(w, ev)) && RecvInv(Step(w, ev))
  {
    var w' := Step(w, ev);
    forall id <- w'.requested ensures Balanced(w', id) { assert Balanced(w, id); }
    forall id <- w'.h.streams ensures Counted(w', id) { assert Counted(w, id); }
  }

  lemma RequestKeeps(w: World)
    requires SendInv(w) && RecvInv(w)
    ensures SendInv(Step(w, Request)) && RecvInv(Step(w, Request))
  {
    var w' := Step(w, Request);
    forall id <- w'.requested ensures Balanced(w', id) { assert id in w.requested ==> Balanced(w, id); }
    forall id <- w'.h.streams ensures Counted(w', id) { assert id in w.h.streams ==> Counted(w, id); }
  }

  lemma ForgetKeeps(w: World, id: nat)
    requires SendInv(w) && RecvInv(w)
    ensures SendInv(Step(w, Forget(id))) && RecvInv(Step(w, Forget(id)))
  {
    var w' := Step(w, Forget(id));
    forall x <- w'.requested ensures Balanced(w', x) { assert Balanced(w, x); }
    forall x <- w'.h.streams ensures Counted(w', x) { assert Counted(w, x); }
  }

  lemma TakeKeeps(w: World, id: nat)
    requires SendInv(w) && RecvInv(w)
    ensures SendInv(Step(w, TakeBody(id))) && RecvInv(Step(w, TakeBody(id)))
  {
    var w' := Step(w, TakeBody(id));
    forall x <- w'.requested ensures Balanced(w', x) { assert Balanced(w, x); }
    forall x <- w'.h.streams ensures Counted(w', x) { assert Counted(w, x); }
  }

  // ---- incoming frames, by what they change ----

  /** Our replies hold no DATA. */
  lemma RepliesQuiet(h: H2, f: Frame, hpack: bool)
    ensures forall g <- Handle(h, f, hpack).out :: g.typ != DATA
  {
  }

  lemma {:induction false} GivenSame(b: Book, id: nat, out: seq<Frame>)
    requires forall g <- out :: g.typ != DATA
    ensures var b' := GivenTo(b, id, out); b'.sent == b.sent && b'.incs == b.incs && b'.received == b.received && b'.lost == b.lost
    ensures (forall g <- out :: g.typ != WINDOW_UPDATE) ==> GivenTo(b, id, out) == b
  {
    if out != [] { GivenSame(b, id, out[..|out| - 1]); }
  }

  lemma {:induction false} SettingsBalanced(h: H2, payload: Bytes, k: nat)
    requires 6 * k <= |payload|
    ensures var h' := Settings(h, payload, k);
            && h'.streams.Keys == h.streams.Keys && h'.connWindow == h.connWindow && h'.connConsumed == h.connConsumed && h'.nextId == h.nextId
            && forall id <- h.streams :: h'.streams[id] == h.streams[id].(sendWindow := h.streams[id].sendWindow + (h'.peerInitial - h.peerInitial))
  {
    if k > 0 { SettingsBalanced(h, payload, k - 1); }
  }

  /** How an incoming frame moves the send windows. */
  predicate Shifted(h: H2, h': H2, f: Frame, ok: bool) {
    && h.streams.Keys <= h'.streams.Keys && h'.nextId == h.nextId
    && h'.connWindow == h.connWindow + (if ok && f.typ == WINDOW_UPDATE && f.sid == 0 then Increment(f.payload) else 0)
    && forall id <- h.streams :: h'.streams[id].sendWindow == h.streams[id].sendWindow + (h'.peerInitial - h.peerInitial)
         + (if ok && f.typ == WINDOW_UPDATE && f.sid == id && id != 0 then Increment(f.payload) else 0)
  }

  lemma HandleShifts(h: H2, f: Frame, hpack: bool)
    ensures var r := Handle(h, f, hpack); Shifted(h, r.h, f, r.ok)
  {
    if f.typ == SETTINGS { SettingsBalanced(h, f.payload, |f.payload| / 6); }
    else if f.typ == DATA { DataShifts(h, f); }
  }

  lemma DataShifts(h: H2, f: Frame)
    requires f.typ == DATA
    ensures Shifted(h, OnData(h, f).h, f, OnData(h, f).ok)
  {
  }

  lemma SendIncoming(w: World, f: Frame, hpack: bool)
    requires SendInv(w)
    ensures SendInv(Receive(w, f, hpack))
  {
    var r := Handle(w.h, f, hpack);
    var w' := Receive(w, f, hpack);
    HandleShifts(w.h, f, hpack);
    RepliesQuiet(w.h, f, hpack);
    if r.ok { GivenSame(if ForConn(f) then BookIn(w.conn, f) else w.conn, 0, r.out); }
    forall id <- w'.requested ensures Balanced(w', id) {
      assert Balanced(w, id);
      if r.ok { GivenSame(if f.sid == id && !(f.typ == WINDOW_UPDATE && id == 0) then BookIn(w.books[id], f) else w.books[id], id, r.out); }
    }
  }

  /** Other frames than DATA leave what is consumed alone and give nothing back; new streams have
      consumed nothing. */
  lemma OtherConsumes(h: H2, f: Frame, hpack: bool)
    requires f.typ != DATA
    ensures var r := Handle(h, f, hpack);
            && r.h.connConsumed == h.connConsumed && (forall g <- r.out :: g.typ != WINDOW_UPDATE && g.typ != DATA)
            && forall id <- r.h.streams :: if id in h.streams then
                 r.h.streams[id].recvConsumed == h.streams[id].recvConsumed && (h.streams[id].endStream ==> r.h.streams[id].endStream)
               else r.h.streams[id].recvConsumed == 0
  {
    if f.typ == SETTINGS { SettingsBalanced(h, f.payload, |f.payload| / 6); }
  }

  lemma RecvOther(w: World, f: Frame, hpack: bool)
    requires SendInv(w) && RecvInv(w) && f.typ != DATA
    ensures RecvInv(Receive(w, f, hpack))
  {
    var r := Handle(w.h, f, hpack);
    var w' := Receive(w, f, hpack);
    OtherConsumes(w.h, f, hpack);
    GivenSame(if ForConn(f) then BookIn(w.conn, f) else w.conn, 0, r.out);
    forall id <- w'.h.streams ensures Counted(w', id) {
      assert id in w.h.streams ==> Counted(w, id);
      var b := if id in w.books then w.books[id] else BLANK;
      GivenSame(if f.sid == id && !(f.typ == WINDOW_UPDATE && id == 0) then BookIn(b, f) else b, id, r.out);
    }
  }

  lemma GivenNone(b: Book, id: nat)
    ensures GivenTo(b, id, []) == b
  {
  }

  lemma GivenOne(b: Book, id: nat, f: Frame)
    ensures GivenTo(b, id, [f]) == if f.sid == id then BookOut(b, f) else b
  {
    assert [f][..0] == [];
  }

  lemma GivenTwo(b: Book, id: nat, f: Frame, g: Frame)
    ensures GivenTo(b, id, [f, g]) == GivenTo(GivenTo(b, id, [f]), id, [g])
  {
    assert [f, g][..1] == [f];
    assert [g][..0] == [];
  }

  /** What replies to DATA give back: all that was counted, or nothing. */
  lemma GivenByData(b: Book, id: nat, c: Option<nat>, sid: nat, s: Option<nat>)
    requires (c.Some? ==> c.value < 0x8000_0000) && (s.Some? ==> s.value < 0x8000_0000)
    ensures var out := (if c.Some? then [Update(0, c.value)] else []) + (if s.Some? then [Update(sid, s.value)] else []);
            GivenTo(b, id, out) == b.(granted := b.granted + (if id == 0 && c.Some? then c.value else 0) + (if id == sid && s.Some? then s.value else 0))
  {
    if c.Some? { Be32Increment(c.value); GivenOne(b, id, Update(0, c.value)); }
    if s.Some? { Be32Increment(s.value); GivenOne(b, id, Update(sid, s.value)); }
    if c.Some? && s.Some? {
      GivenTwo(b, id, Update(0, c.value), Update(sid, s.value));
      GivenOne(GivenTo(b, id, [Update(0, c.value)]), id, Update(sid, s.value));
      assert [Update(0, c.value)] + [Update(sid, s.value)] == [Update(0, c.value), Update(sid, s.value)];
    } else if c.Some? {
      assert [Update(0, c.value)] + [] == [Update(0, c.value)];
    } else if s.Some? {
      assert [] + [Update(sid, s.value)] == [Update(sid, s.value)];
    } else {
      GivenNone(b, id);
    }
  }

  lemma DataForm(h: H2, f: Frame)
    requires f.typ == DATA && OnData(h, f).ok
    ensures var r := OnData(h, f); var c := ConnDue(h, |f.payload|); var s := StreamDue(h, f);
            && r.out == (if c.Some? then [Update(0, c.value)] else []) + (if s.Some? then [Update(f.sid, s.value)] else [])
            && r.h.connConsumed == (if c.Some? then 0 else h.connConsumed + |f.payload|)
            && r.h.streams.Keys == h.streams.Keys
            && (forall id <- h.streams :: id != f.sid ==> r.h.streams[id] == h.streams[id])
            && (f.sid in h.streams ==>
                  && r.h.streams[f.sid].recvConsumed == (if s.Some? then 0 else h.streams[f.sid].recvConsumed + |f.payload|)
                  && r.h.streams[f.sid].endStream == (h.streams[f.sid].endStream || Flag(f.flags, END_STREAM)))
  {
  }

  lemma RecvData(w: World, f: Frame)
    requires SendInv(w) && RecvInv(w) && f.typ == DATA && |f.payload| <= MAX_FRAME_SIZE && OnData(w.h, f).ok
    ensures RecvInv(Taken(w, f, OnData(w.h, f)))
  {
    var w' := Taken(w, f, OnData(w.h, f));
    DataForm(w.h, f);
    assert f.sid in w.h.streams ==> Counted(w, f.sid);
    GivenByData(BookIn(w.conn, f), 0, ConnDue(w.h, |f.payload|), f.sid, StreamDue(w.h, f));
    forall id <- w'.h.streams ensures Counted(w', id) { CountedData(w, f, id); }
  }

  lemma RecvRefused(w: World, f: Frame)
    requires SendInv(w) && RecvInv(w) && f.typ == DATA && !OnData(w.h, f).ok
    ensures RecvInv(Refused(w, f, OnData(w.h, f).h))
  {
    var w' := Refused(w, f, OnData(w.h, f).h);
    forall id <- w'.h.streams ensures Counted(w', id) { assert Counted(w, id); }
  }

  /** The stream's book after DATA. */
  lemma BookData(w: World, f: Frame, id: nat)
    requires SendInv(w) && f.typ == DATA && OnData(w.h, f).ok && id in w.h.streams && id != 0
    requires ConnDue(w.h, |f.payload|).Some? ==> ConnDue(w.h, |f.payload|).value < 0x8000_0000
    requires StreamDue(w.h, f).Some? ==> StreamDue(w.h, f).value < 0x8000_0000
    ensures var b := StreamBook(w.books[id], id, f, OnData(w.h, f).out);
            && b.lost == w.books[id].lost
            && b.received == w.books[id].received + (if f.sid == id then |f.payload| else 0)
            && b.granted == w.books[id].granted + (if f.sid == id && StreamDue(w.h, f).Some? then StreamDue(w.h, f).value else 0)
  {
    DataForm(w.h, f);
    GivenByData(if f.sid == id then BookIn(w.books[id], f) else w.books[id], id, ConnDue(w.h, |f.payload|), f.sid, StreamDue(w.h, f));
  }

  /** The stream's counter after DATA. */
  lemma CounterData(h: H2, f: Frame, id: nat)
    requires f.typ == DATA && OnData(h, f).ok && id in h.streams
    ensures var h' := OnData(h, f).h; var due := f.sid == id && StreamDue(h, f).Some?;
            && h'.streams.Keys == h.streams.Keys
            && h'.streams[id].endStream == (h.streams[id].endStream || (f.sid == id && Flag(f.flags, END_STREAM)))
            && h'.streams[id].recvConsumed == if due then 0 else h.streams[id].recvConsumed + (if f.sid == id then |f.payload| else 0)
  {
    DataForm(h, f);
  }

  lemma CountedData(w: World, f: Frame, id: nat)
    requires SendInv(w) && RecvInv(w) && f.typ == DATA && |f.payload| <= MAX_FRAME_SIZE && OnData(w.h, f).ok && id in w.h.streams
    ensures var w' := Taken(w, f, OnData(w.h, f)); id in w'.h.streams && Counted(w', id)
  {
    assert Counted(w, id) && (f.sid in w.h.streams ==> Counted(w, f.sid));
    CounterData(w.h, f, id);
    if id != 0 { BookData(w, f, id); }
  }

  lemma StepKeeps(w: World, ev: Event)
    requires SendInv(w) && RecvInv(w) && Enabled(w, ev)
    ensures SendInv(Step(w, ev)) && RecvInv(Step(w, ev))
  {
    match ev
    case Request => RequestKeeps(w);
    case Chunk(id, payload, rest) => ChunkKeeps(w, ev);
    case TakeBody(id) => TakeKeeps(w, id);
    case Forget(id) => ForgetKeeps(w, id);
    case Incoming(f, hpack) =>
      SendIncoming(w, f, hpack);
      if f.typ != DATA { RecvOther(w, f, hpack); }
      else if OnData(w.h, f).ok { RecvData(w, f); }
      else { RecvRefused(w, f); }
  }

  // ---- every run ----

  lemma {:induction false} RunKeeps(evs: seq<Event>)
    requires Legal(evs)
    ensures SendInv(Run(evs)) && RecvInv(Run(evs))
    decreases |evs|
  {
    if evs != [] {
      var n := |evs| - 1;
      RunKeeps(evs[..n]);
      StepKeeps(Run(evs[..n]), evs[n]);
    }
  }

  /** However window updates and settings interleave with sending, no chunk of DATA is larger than
      the connection's credit or its stream's, which is the peer's current initial window plus
      increments less bytes sent, or than the peer's maximum frame. */
  lemma DataWithinCredit(evs: seq<Event>, ev: Event)
    requires Legal(evs) && ev.Chunk? && Enabled(Run(evs), ev) && ev.id in Run(evs).requested
    ensures var w := Run(evs); var n := |ev.payload|;
            && n <= DEFAULT_WINDOW + w.conn.incs - w.conn.sent
            && ev.id in w.books && n <= w.h.peerInitial + w.books[ev.id].incs - w.books[ev.id].sent
            && n <= w.h.peerMaxFrame
  {
    RunKeeps(evs);
    assert Balanced(Run(evs), ev.id);
  }

  /** In every reachable state the windows are the books, even when a stream's is negative. */
  lemma WindowsAreBooks(evs: seq<Event>, id: nat)
    requires Legal(evs)
    ensures var w := Run(evs);
            && w.conn.sent <= DEFAULT_WINDOW + w.conn.incs && w.h.connWindow == DEFAULT_WINDOW + w.conn.incs - w.conn.sent
            && (id in w.requested ==> id in w.h.streams && id in w.books && w.h.streams[id].sendWindow == w.h.peerInitial + w.books[id].incs - w.books[id].sent)
  {
    RunKeeps(evs);
    assert id in Run(evs).requested ==> Balanced(Run(evs), id);
  }

  /** In every reachable state the peer holds more than half of OUR_WINDOW of credit on the connection,
      and more than half and at most all of it on each other stream than 0 that has not ended, not
      counting DATA that was rejected. */
  lemma CreditNeverStalls(evs: seq<Event>, id: nat)
    requires Legal(evs)
    ensures var w := Run(evs);
            && OUR_WINDOW / 2 < DEFAULT_WINDOW + w.conn.granted - (w.conn.received - w.conn.lost)
            && (id in w.h.streams && id != 0 && !w.h.streams[id].endStream ==>
                  id in w.books && OUR_WINDOW / 2 < OUR_WINDOW + w.books[id].granted - (w.books[id].received - w.books[id].lost) <= OUR_WINDOW)
  {
    RunKeeps(evs);
    assert id in Run(evs).h.streams ==> Counted(Run(evs), id);
  }

  /** Event `i` was DATA on stream 0 that brought its own counter to the threshold. */
  predicate ZeroDueAt(evs: seq<Event>, i: nat) {
    && i < |evs| && evs[i].Incoming? && DueOnZero(Run(evs[..i]).h, evs[i].f)
    && Handle(Run(evs[..i]).h, evs[i].f, evs[i].hpack).ok
  }

  lemma {:induction false} TwiceIff(evs: seq<Event>)
    requires Legal(evs)
    ensures Run(evs).twice == 0 || Run(evs).twice >= THRESHOLD
    ensures Run(evs).twice == 0 <==> forall i :: !ZeroDueAt(evs, i)
    decreases |evs|
  {
    if evs != [] {
      var n := |evs| - 1;
      TwiceIff(evs[..n]);
      forall i: nat | i < n ensures ZeroDueAt(evs, i) <==> ZeroDueAt(evs[..n], i) { assert evs[..n][..i] == evs[..i]; }
      if ZeroDueAt(evs, n) { assert Run(evs).twice > 0; }
    }
  }

  /** Credit on the connection never exceeds OUR_WINDOW if and only if no DATA on stream 0 was ever
      accepted whose stream counter then reached the threshold. */
  lemma CreditBoundedIff(evs: seq<Event>)
    requires Legal(evs)
    ensures var w := Run(evs);
            DEFAULT_WINDOW + w.conn.granted - (w.conn.received - w.conn.lost) <= OUR_WINDOW <==> forall i :: !ZeroDueAt(evs, i)
  {
    RunKeeps(evs);
    TwiceIff(evs);
  }

  /** Every increment we send is legal (section 6.9 of RFC 9113), and DATA, padding included and for
      unknown streams too, is counted on the connection: the counter and what is given back for it grow
      by the whole payload. */
  lemma UpdatesLegal(evs: seq<Event>, f: Frame, hpack: bool)
    requires Legal(evs) && |f.payload| <= MAX_FRAME_SIZE
    ensures forall g <- Handle(Run(evs).h, f, hpack).out :: g.typ == WINDOW_UPDATE ==> 1 <= FromBe32(g.payload[..4]) < 0x8000_0000
    ensures f.typ == DATA ==> Step(Run(evs), Incoming(f, hpack)).conn.received == Run(evs).conn.received + |f.payload|
    ensures var h := Run(evs).h; var r := Handle(h, f, hpack);
            f.typ == DATA && r.ok ==>
              r.h.connConsumed + GivenTo(BLANK, 0, r.out).granted ==
                h.connConsumed + |f.payload| + (if DueOnZero(h, f) then StreamDue(h, f).value else 0)
  {
    RunKeeps(evs);
    var w := Run(evs);
    if f.typ != DATA {
      OtherConsumes(w.h, f, hpack);
    } else if OnData(w.h, f).ok {
      DataForm(w.h, f);
      RepliesQuiet(w.h, f, hpack);
      GivenSame(BookIn(w.conn, f), 0, OnData(w.h, f).out);
      DataUpdates(w, f);
      CounterGivesBack(w, f);
    }
  }

  /** What the connection's counter gains is the whole payload, once what it gave back is added. */
  lemma CounterGivesBack(w: World, f: Frame)
    requires RecvInv(w) && f.typ == DATA && |f.payload| <= MAX_FRAME_SIZE && OnData(w.h, f).ok
    ensures var r := OnData(w.h, f);
            r.h.connConsumed + GivenTo(BLANK, 0, r.out).granted ==
              w.h.connConsumed + |f.payload| + (if DueOnZero(w.h, f) then StreamDue(w.h, f).value else 0)
  {
    DataForm(w.h, f);
    assert f.sid in w.h.streams ==> Counted(w, f.sid);
    GivenByData(BLANK, 0, ConnDue(w.h, |f.payload|), f.sid, StreamDue(w.h, f));
  }

  lemma DataUpdates(w: World, f: Frame)
    requires RecvInv(w) && f.typ == DATA && |f.payload| <= MAX_FRAME_SIZE && OnData(w.h, f).ok
    ensures forall g <- OnData(w.h, f).out :: |g.payload| == 4 && 1 <= FromBe32(g.payload[..4]) < 0x8000_0000
  {
    DataForm(w.h, f);
    var c, s := ConnDue(w.h, |f.payload|), StreamDue(w.h, f);
    assert f.sid in w.h.streams ==> Counted(w, f.sid);
    if c.Some? { UpdateHolds(0, c.value); }
    if s.Some? { UpdateHolds(f.sid, s.value); }
  }

  lemma UpdateHolds(sid: nat, n: nat)
    requires n < 0x8000_0000
    ensures FromBe32(Update(sid, n).payload[..4]) == n
  {
    Be32Truncates(n);
    assert Be32(n)[..4] == Be32(n);
  }

  // ---- the length field ----

  predicate MaxFrameOk(h: H2) {
    16_384 <= h.peerMaxFrame <= 0x100_0000
  }

  lemma {:induction false} SettingsMax(h: H2, payload: Bytes, k: nat)
    requires 6 * k <= |payload| && MaxFrameOk(h)
    ensures MaxFrameOk(Settings(h, payload, k))
  {
    if k > 0 { SettingsMax(h, payload, k - 1); }
  }

  lemma {:induction false} RunMax(evs: seq<Event>)
    ensures MaxFrameOk(Run(evs).h)
    decreases |evs|
  {
    if evs != [] {
      RunMax(evs[..|evs| - 1]);
      var w := Run(evs[..|evs| - 1]);
      var ev := evs[|evs| - 1];
      if ev.Incoming? { HandleMax(w.h, ev.f, ev.hpack); }
    }
  }

  lemma HandleMax(h: H2, f: Frame, hpack: bool)
    requires MaxFrameOk(h)
    ensures MaxFrameOk(Handle(h, f, hpack).h)
  {
    if f.typ == SETTINGS { SettingsMax(h, f.payload, |f.payload| / 6); }
  }

  /** The clamp admits a maximum of 2^24, one more than the three length bytes hold: a DATA frame is
      written with its true length exactly when it is not of that size. */
  lemma ChunkLengthFaithfulIff(evs: seq<Event>, ev: Event)
    requires Legal(evs) && ev.Chunk? && Enabled(Run(evs), ev)
    ensures H2Length(PushFrame(DataFrame(ev))) == |ev.payload| <==> |ev.payload| != 0x100_0000
    ensures Run(evs).h.peerMaxFrame < 0x100_0000 ==> |ev.payload| != 0x100_0000
  {
    RunMax(evs);
    H2LengthFaithfulIff(DataFrame(ev));
  }

  const LARGE := 0x100_0000

  function Setting(id: nat, val: nat): Bytes {
    [Low8(id / 256), Low8(id)] + Be32(val)
  }

  /** A peer that allows frames of 2^24 bytes and gives credit for one. */
  function Generous(): seq<Event> {
    [Incoming(Frame(SETTINGS, 0, 0, Setting(MAX_FRAME, LARGE) + Setting(INITIAL_WINDOW_SIZE, LARGE)), true),
     Request, Incoming(Update(0, LARGE), true)]
  }

  lemma TwoSettings(h: H2, p: Bytes, q: Bytes)
    requires |p| == 6 && |q| == 6
    ensures Settings(h, p + q, 2) == OneSetting(OneSetting(h, p), q)
  {
    assert (p + q)[0..6] == p && (p + q)[6..12] == q;
    assert Settings(h, p + q, 1) == OneSetting(Settings(h, p + q, 0), p);
  }

  lemma SettingRead(id: nat, val: nat)
    requires id < 256 && FromBe32(Be32(val)) == val
    ensures |Setting(id, val)| == 6 && Be16(Setting(id, val)[0], Setting(id, val)[1]) == id && FromBe32(Setting(id, val)[2..6]) == val
  {
    var v := Be32(val);
    var s := [Low8(id / 256), Low8(id)] + v;
    assert s[2..6] == v;
  }

  lemma SettingFields(h: H2, chunk: Bytes)
    requires |chunk| == 6
    ensures var h' := OneSetting(h, chunk); var id := Be16(chunk[0], chunk[1]); var val := FromBe32(chunk[2..6]);
            && h'.connWindow == h.connWindow && h'.nextId == h.nextId
            && h'.peerMaxFrame == (if id == MAX_FRAME then Clamp(val, 16_384, LARGE) else h.peerMaxFrame)
            && h'.peerInitial == (if id == INITIAL_WINDOW_SIZE then val else h.peerInitial)
  {
  }

  lemma LargeSettings(h: H2, payload: Bytes)
    requires payload == Setting(MAX_FRAME, LARGE) + Setting(INITIAL_WINDOW_SIZE, LARGE)
    ensures var h' := Settings(h, payload, 2);
            h'.peerMaxFrame == LARGE && h'.peerInitial == LARGE && h'.connWindow == h.connWindow && h'.nextId == h.nextId
  {
    var p, q := Setting(MAX_FRAME, LARGE), Setting(INITIAL_WINDOW_SIZE, LARGE);
    Be32Truncates(LARGE);
    SettingRead(MAX_FRAME, LARGE);
    SettingRead(INITIAL_WINDOW_SIZE, LARGE);
    TwoSettings(h, p, q);
    SettingFields(h, p);
    SettingFields(OneSetting(h, p), q);
  }

  lemma SettingsTaken(w: World, f: Frame)
    requires f.typ == SETTINGS && !Flag(f.flags, ACK)
    ensures Receive(w, f, true).h == Settings(w.h, f.payload, |f.payload| / 6)
  {
  }

  lemma UpdateTaken(w: World, n: nat)
    requires n < 0x8000_0000
    ensures Receive(w, Update(0, n), true).h == w.h.(connWindow := w.h.connWindow + n)
  {
    Be32Increment(n);
  }

  /** After the settings, the request and the update. */
  lemma GenerousRuns()
    ensures Legal(Generous())
    ensures var h := Run(Generous()).h;
            h.peerMaxFrame == LARGE && h.connWindow == DEFAULT_WINDOW + LARGE && 1 in h.streams && h.streams[1].sendWindow == LARGE
  {
    var a, b, c := Generous()[0], Generous()[1], Generous()[2];
    assert [] + [a] == [a] && [a] + [b] == [a, b] && [a, b] + [c] == Generous();
    RunNext([], a);
    assert !Flag(0, ACK) && |a.f.payload| / 6 == 2;
    SettingsTaken(START, a.f);
    LargeSettings(INITIAL, a.f.payload);
    RunNext([a], b);
    RunNext([a, b], c);
    UpdateTaken(Run([a, b]), LARGE);
  }

  /** The code then sends one DATA frame of 2^24 bytes, whose header says it is empty. */
  lemma LargeChunkLosesLength()
    ensures var ev := Chunk(1, Zeros(LARGE), LARGE);
            Legal(Generous()) && Enabled(Run(Generous()), ev) && H2Length(PushFrame(DataFrame(ev))) == 0
  {
    GenerousRuns();
    var ev := Chunk(1, Zeros(LARGE), LARGE);
    H2LengthWritten(DataFrame(ev), []);
    assert PushFrame(DataFrame(ev)) + [] == PushFrame(DataFrame(ev));
  }

  // ---- why stream 0 matters ----

  /** A peer that opens stream 0 with HEADERS and then sends full DATA frames on it. */
  function OnZero(k: nat): seq<Event> {
    if k == 0 then [Incoming(Frame(HEADERS, 0, 0, []), true)] else OnZero(k - 1) + [Incoming(Frame(DATA, 0, 0, Zeros(MAX_FRAME_SIZE)), true)]
  }

  lemma ZeroOpens()
    ensures Legal(OnZero(0)) && Run(OnZero(0)).conn == START.conn && Run(OnZero(0)).h.connConsumed == 0
    ensures var streams := Run(OnZero(0)).h.streams; 0 in streams && !streams[0].endStream && streams[0].recvConsumed == 0
  {
    var f := Frame(HEADERS, 0, 0, []);
    assert OnZero(0)[..0] == [] && Run(OnZero(0)) == Receive(START, f, true);
    assert !Flag(0, PADDED) && !Flag(0, WITH_PRIORITY) && !Flag(0, END_HEADERS) && !Flag(0, END_STREAM);
    assert Handle(INITIAL, f, true) == OnHeaders(INITIAL, f, true) == AddHeaders(INITIAL, 0, [], false, false, true);
  }

  /** Every so many bytes counted, on the connection and on stream 0 alike. */
  predicate BothCount(w: World, n: nat) {
    w.h.connConsumed == n && 0 in w.h.streams && !w.h.streams[0].endStream && w.h.streams[0].recvConsumed == n
  }

  /** Nothing has been given back so far, and both counters hold all of `n` frames. */
  ghost predicate ZeroHeld(evs: seq<Event>, n: nat) {
    && Legal(evs) && BothCount(Run(evs), n * MAX_FRAME_SIZE)
    && Run(evs).conn.received == n * MAX_FRAME_SIZE && Run(evs).conn.granted == OUR_WINDOW - DEFAULT_WINDOW
  }

  lemma ZeroMore(evs: seq<Event>, n: nat)
    requires ZeroHeld(evs, n) && n < 7
    ensures ZeroHeld(evs + [Incoming(Frame(DATA, 0, 0, Zeros(MAX_FRAME_SIZE)), true)], n + 1)
  {
    ZeroNext(evs, n * MAX_FRAME_SIZE);
  }

  lemma {:induction false} ZeroCounts(k: nat)
    requires k < 8
    ensures ZeroHeld(OnZero(k), k)
  {
    if k == 0 {
      ZeroOpens();
    } else {
      ZeroCounts(k - 1);
      ZeroMore(OnZero(k - 1), k - 1);
    }
  }

  lemma ZeroNext(evs: seq<Event>, n: nat)
    requires Legal(evs) && BothCount(Run(evs), n) && n < THRESHOLD
    ensures var next := evs + [Incoming(Frame(DATA, 0, 0, Zeros(MAX_FRAME_SIZE)), true)]; var m := n + MAX_FRAME_SIZE;
            && Legal(next) && Run(next).conn.received == Run(evs).conn.received + MAX_FRAME_SIZE
            && (m < THRESHOLD ==> BothCount(Run(next), m) && Run(next).conn.granted == Run(evs).conn.granted)
            && (m >= THRESHOLD ==> Run(next).conn.granted == Run(evs).conn.granted + 2 * m)
  {
    var f := Frame(DATA, 0, 0, Zeros(MAX_FRAME_SIZE));
    RunNext(evs, Incoming(f, true));
    ZeroData(Run(evs), f, n);
  }

  lemma RunNext(evs: seq<Event>, ev: Event)
    requires Legal(evs) && Enabled(Run(evs), ev)
    ensures Legal(evs + [ev]) && Run(evs + [ev]) == Step(Run(evs), ev)
  {
    assert (evs + [ev])[..|evs|] == evs;
  }

  lemma GrantsTwice(b: Book, n: nat)
    requires n < 0x8000_0000
    ensures GivenTo(b, 0, [Update(0, n)] + [Update(0, n)]) == b.(granted := b.granted + 2 * n)
  {
    Be32Increment(n);
    assert [Update(0, n)] + [Update(0, n)] == [Update(0, n), Update(0, n)];
    GivenTwo(b, 0, Update(0, n), Update(0, n));
    GivenOne(b, 0, Update(0, n));
    GivenOne(GivenTo(b, 0, [Update(0, n)]), 0, Update(0, n));
  }

  lemma ZeroData(w: World, f: Frame, n: nat)
    requires BothCount(w, n) && f == Frame(DATA, 0, 0, f.payload) && n + |f.payload| < 0x8000_0000
    ensures var w' := Receive(w, f, true); var m := n + |f.payload|;
            && w'.conn.received == w.conn.received + |f.payload|
            && (m < THRESHOLD ==> BothCount(w', m) && w'.conn.granted == w.conn.granted)
            && (m >= THRESHOLD ==> w'.conn.granted == w.conn.granted + 2 * m)
  {
    assert !Flag(0, PADDED) && !Flag(0, END_STREAM);
    DataForm(w.h, f);
    GrantsTwice(BookIn(w.conn, f), n + |f.payload|);
    GivenNone(BookIn(w.conn, f), 0);
  }

  /** The code takes HEADERS on stream 0, and the eighth full DATA frame on it is given credit for
      twice: the peer ends up with more than OUR_WINDOW. */
  lemma StreamZeroOverflows()
    ensures Legal(OnZero(8)) && DEFAULT_WINDOW + Run(OnZero(8)).conn.granted - Run(OnZero(8)).conn.received > OUR_WINDOW
  {
    ZeroCounts(7);
    ZeroNext(OnZero(7), 7 * MAX_FRAME_SIZE);
  }
}
