/** What the peer's HTTP/2 frames mean, by their bytes: for every stream its response, that is body, end, header
    bytes and reset, from the frames alone that came for it since it came into being; and the settings. */
module H2Responses {
  import opened Common
  import opened Framing
  import opened H2

  // ---- a frame's own bytes ----

  predicate HasPadding(f: Frame) {
    f.flags as int / 8 % 2 == 1
  }

  predicate PaddingFits(f: Frame) {
    HasPadding(f) ==> |f.payload| >= 1 && 1 + f.payload[0] as int <= |f.payload|
  }

  /** A padded frame's content is its payload without the first byte and without the last bytes, of which the
      first byte is the number. */
  function Content(f: Frame): Bytes
    requires PaddingFits(f)
  {
    if HasPadding(f) then f.payload[1..|f.payload| - f.payload[0] as int] else f.payload
  }

  lemma StripIsContent(f: Frame)
    ensures StripPadding(f.payload, Flag(f.flags, PADDED)) == if PaddingFits(f) then Some(Content(f)) else None
  {
  }

  ghost predicate Pads(payload: Bytes, data: Bytes, n: byte, pad: Bytes) {
    |pad| == n as int && payload == [n] + data + pad
  }

  /** Stripping is the inverse of padding: it yields `data` exactly from a length byte, `data` and that many
      bytes, whatever they are; and nothing from any other payload. */
  lemma PaddingIff(payload: Bytes, data: Bytes)
    ensures StripPadding(payload, true) == Some(data) <==> exists n, pad :: Pads(payload, data, n, pad)
  {
    if StripPadding(payload, true) == Some(data) {
      var n := payload[0];
      var pad := payload[|payload| - n as int..];
      assert payload == [n] + data + pad;
      assert Pads(payload, data, n, pad);
    }
    if exists n, pad :: Pads(payload, data, n, pad) {
      var n, pad :| Pads(payload, data, n, pad);
      assert payload[0] == n && payload[1..|payload| - n as int] == data;
    }
  }

  /** A header frame's part of the header block; five bytes of priority come before it if the flag says so. */
  function Block(f: Frame): Bytes
    requires Reaches(f)
  {
    if f.typ != 1 then f.payload else if f.flags as int / 32 % 2 == 1 then Content(f)[5..] else Content(f)
  }

  /** The frame is one that has something for its stream. */
  predicate Reaches(f: Frame) {
    || (f.typ == 0 && PaddingFits(f))
    || (f.typ == 1 && PaddingFits(f) && (f.flags as int / 32 % 2 == 1 ==> |Content(f)| >= 5))
    || f.typ == 9 || f.typ == 3
  }

  // ---- what a stream was told ----

  /** A frame that reached its stream, and what the decoder made of the header block if it ended one. */
  datatype Item = Item(f: Frame, hpack: bool)

  type Log = s: seq<Item> | forall i :: 0 <= i < |s| ==> Reaches(s[i].f) witness []

  function Body(log: Log): Bytes {
    if log == [] then [] else
    var n := |log| - 1;
    Body(log[..n]) + (if log[n].f.typ == 0 then Content(log[n].f) else [])
  }

  predicate IsHeader(f: Frame) {
    f.typ == 1 || f.typ == 9
  }

  predicate EndsBlock(f: Frame) {
    IsHeader(f) && f.flags as int / 4 % 2 == 1
  }

  /** Header bytes since the last block ended. */
  function Fragment(log: Log): Bytes {
    if log == [] then [] else
    var n := |log| - 1;
    if !IsHeader(log[n].f) then Fragment(log[..n]) else
    if EndsBlock(log[n].f) then [] else Fragment(log[..n]) + Block(log[n].f)
  }

  /** A block has ended that was not above 64 KiB and decoded. */
  predicate Decoded(log: Log) {
    log != [] &&
    (var n := |log| - 1;
     Decoded(log[..n]) || (EndsBlock(log[n].f) && |Fragment(log[..n]) + Block(log[n].f)| <= 65_536 && log[n].hpack))
  }

  predicate Ended(log: Log) {
    exists i :: 0 <= i < |log| && (log[i].f.typ == 0 || log[i].f.typ == 1) && log[i].f.flags as int % 2 == 1
  }

  /** The code of the last reset. */
  function ResetBy(log: Log): Option<nat> {
    if log == [] then None else
    var n := |log| - 1;
    if log[n].f.typ != 3 then ResetBy(log[..n]) else
    var p := log[n].f.payload;
    Some(if |p| >= 4 then p[0] as int * 0x100_0000 + p[1] as int * 0x1_0000 + p[2] as int * 0x100 + p[3] as int else 0)
  }

  /** The stream holds just that, of the body what was not handed out yet. */
  predicate Told(s: Stream, log: Log, handed: Bytes) {
    && handed + s.body == Body(log) && (s.endStream <==> Ended(log)) && s.reset == ResetBy(log)
    && s.headerBlock == Fragment(log) && (s.headersDone <==> Decoded(log))
  }

  // ---- from the events of a run ----

  function Requests(evs: seq<Event>): nat {
    if evs == [] then 0 else Requests(evs[..|evs| - 1]) + (if evs[|evs| - 1].Request? then 1 else 0)
  }

  /** The stream is there: requested, or brought into being by a header frame, and not forgotten since.
      `next` is the id of the next request. */
  predicate PresentNext(before: bool, next: nat, ev: Event, id: nat) {
    match ev
    case Request => id == next || before
    case Forget(x) => x != id && before
    case Incoming(f, _) => before || (f.sid == id && IsHeader(f) && Reaches(f))
    case _ => before
  }

  function HeardNext(before: Log, present: bool, next: nat, ev: Event, id: nat): Log {
    match ev
    case Request => if id == next then [] else before
    case Forget(x) => if x == id then [] else before
    case Incoming(f, hpack) => if f.sid == id && Reaches(f) && PresentNext(present, next, ev, id) then before + [Item(f, hpack)] else before
    case _ => before
  }

  function HandedNext(before: Bytes, h: H2, next: nat, ev: Event, id: nat): Bytes {
    match ev
    case Request => if id == next then [] else before
    case Forget(x) => if x == id then [] else before
    case TakeBody(x) => if x == id && id in h.streams then before + h.streams[id].body else before
    case _ => before
  }

  predicate Present(evs: seq<Event>, id: nat) {
    evs != [] && (var past := evs[..|evs| - 1]; PresentNext(Present(past, id), 1 + 2 * Requests(past), evs[|evs| - 1], id))
  }

  /** Frames that reached the stream since it came into being. */
  function Heard(evs: seq<Event>, id: nat): Log {
    if evs == [] then [] else
    var past := evs[..|evs| - 1];
    HeardNext(Heard(past, id), Present(past, id), 1 + 2 * Requests(past), evs[|evs| - 1], id)
  }

  /** Body bytes handed to the caller since the stream came into being. */
  function Handed(evs: seq<Event>, id: nat): Bytes {
    if evs == [] then [] else
    var past := evs[..|evs| - 1];
    HandedNext(Handed(past, id), Run(past).h, 1 + 2 * Requests(past), evs[|evs| - 1], id)
  }

  lemma HeardLast(evs: seq<Event>, past: seq<Event>, ev: Event, id: nat)
    requires evs != [] && past == evs[..|evs| - 1] && ev == evs[|evs| - 1]
    ensures Heard(evs, id) == HeardNext(Heard(past, id), Present(past, id), 1 + 2 * Requests(past), ev, id)
  {
  }

  lemma HeardMore(past: seq<Event>, ev: Event, id: nat)
    ensures Heard(past + [ev], id) == HeardNext(Heard(past, id), Present(past, id), 1 + 2 * Requests(past), ev, id)
  {
    HeardLast(past + [ev], past, ev, id);
  }

  lemma HandedMore(past: seq<Event>, ev: Event, id: nat)
    ensures Handed(past + [ev], id) == HandedNext(Handed(past, id), Run(past).h, 1 + 2 * Requests(past), ev, id)
  {
    var evs := past + [ev];
    assert evs[..|evs| - 1] == past && evs[|evs| - 1] == ev;
  }

  lemma TakenOne(past: seq<Event>, id: nat)
    requires id in Run(past).h.streams
    ensures Heard(past + [TakeBody(id)], id) == Heard(past, id)
    ensures Handed(past + [TakeBody(id)], id) == Handed(past, id) + Run(past).h.streams[id].body
  {
    HeardMore(past, TakeBody(id), id);
    HandedMore(past, TakeBody(id), id);
  }

  lemma FrameOne(past: seq<Event>, f: Frame, hpack: bool, id: nat)
    ensures Heard(past, id) <= Heard(past + [Incoming(f, hpack)], id)
    ensures Handed(past + [Incoming(f, hpack)], id) == Handed(past, id)
  {
    HeardMore(past, Incoming(f, hpack), id);
    HandedMore(past, Incoming(f, hpack), id);
  }

  // ---- steps ----

  predicate SameResponse(h: H2, h': H2, id: nat) {
    (id in h.streams <==> id in h'.streams) &&
    (id in h.streams ==>
       && h'.streams[id].body == h.streams[id].body && h'.streams[id].endStream == h.streams[id].endStream
       && h'.streams[id].reset == h.streams[id].reset && h'.streams[id].headerBlock == h.streams[id].headerBlock
       && h'.streams[id].headersDone == h.streams[id].headersDone)
  }

  lemma ItemMore(log: Log, f: Frame, hpack: bool)
    requires Reaches(f)
    ensures var more := log + [Item(f, hpack)];
            && Body(more) == Body(log) + (if f.typ == 0 then Content(f) else [])
            && Fragment(more) == (if !IsHeader(f) then Fragment(log) else if EndsBlock(f) then [] else Fragment(log) + Block(f))
            && (Decoded(more) <==> Decoded(log) || (EndsBlock(f) && |Fragment(log) + Block(f)| <= 65_536 && hpack))
            && (Ended(more) <==> Ended(log) || ((f.typ == 0 || f.typ == 1) && f.flags as int % 2 == 1))
            && (f.typ != 3 ==> ResetBy(more) == ResetBy(log))
            && (f.typ == 3 ==> ResetBy(more) == Some(Code(f.payload, 0)))
  {
    var more := log + [Item(f, hpack)];
    assert more[..|log|] == log;
    EndedMore(log, Item(f, hpack));
    if f.typ == 3 { CodeIs(f.payload); }
  }

  lemma EndedMore(log: Log, x: Item)
    requires Reaches(x.f)
    ensures Ended(log + [x]) <==> Ended(log) || ((x.f.typ == 0 || x.f.typ == 1) && x.f.flags as int % 2 == 1)
  {
    var more := log + [x];
    if Ended(log) {
      var i :| 0 <= i < |log| && (log[i].f.typ == 0 || log[i].f.typ == 1) && log[i].f.flags as int % 2 == 1;
      assert more[i] == log[i];
    }
    assert more[|log|] == x;
  }

  lemma CodeIs(p: Bytes)
    ensures Code(p, 0) == if |p| >= 4 then p[0] as int * 0x100_0000 + p[1] as int * 0x1_0000 + p[2] as int * 0x100 + p[3] as int else 0
  {
    if |p| >= 4 { assert p[0..4][0] == p[0] && p[0..4][1] == p[1] && p[0..4][2] == p[2] && p[0..4][3] == p[3]; }
  }

  /** A frame for another stream, or with nothing for this one. */
  lemma OtherFrame(h: H2, f: Frame, hpack: bool, id: nat)
    requires f.sid != id || !Reaches(f)
    ensures SameResponse(h, Handle(h, f, hpack).h, id)
  {
    if f.typ == SETTINGS { SettingsBalanced(h, f.payload, |f.payload| / 6); }
    else if f.typ == 0 { OtherData(h, f, id); }
    else if f.typ == 1 { OtherHeaders(h, f, hpack, id); }
  }

  lemma OtherData(h: H2, f: Frame, id: nat)
    requires f.typ == 0 && (f.sid != id || !Reaches(f))
    ensures SameResponse(h, OnData(h, f).h, id)
  {
    StripIsContent(f);
    if OnData(h, f).ok { DataForm(h, f); }
  }

  lemma OtherHeaders(h: H2, f: Frame, hpack: bool, id: nat)
    requires f.typ == 1 && (f.sid != id || !Reaches(f))
    ensures SameResponse(h, OnHeaders(h, f, hpack).h, id)
  {
    StripIsContent(f);
  }

  lemma DataStream(h: H2, f: Frame)
    requires f.typ == 0 && PaddingFits(f) && f.sid in h.streams
    ensures var h' := OnData(h, f).h; f.sid in h'.streams && var s, s' := h.streams[f.sid], h'.streams[f.sid];
            s' == s.(body := s.body + Content(f), endStream := s.endStream || f.flags as int % 2 == 1, recvConsumed := s'.recvConsumed)
  {
    StripIsContent(f);
  }

  lemma DataStep(h: H2, f: Frame, hpack: bool, log: Log, handed: Bytes)
    requires f.typ == 0 && Reaches(f) && f.sid in h.streams && Told(h.streams[f.sid], log, handed)
    ensures var h' := Handle(h, f, hpack).h; f.sid in h'.streams && Told(h'.streams[f.sid], log + [Item(f, hpack)], handed)
  {
    DataStream(h, f);
    ItemMore(log, f, hpack);
    assert handed + (h.streams[f.sid].body + Content(f)) == handed + h.streams[f.sid].body + Content(f);
  }

  /** The stream after its header bytes. */
  lemma HeaderStream(h: H2, f: Frame, hpack: bool)
    requires IsHeader(f) && Reaches(f)
    ensures Handle(h, f, hpack) == AddHeaders(h, f.sid, Block(f), f.typ == 1 && f.flags as int % 2 == 1, EndsBlock(f), hpack)
  {
    StripIsContent(f);
  }

  lemma AddedTold(h: H2, f: Frame, hpack: bool, log: Log, handed: Bytes)
    requires IsHeader(f) && Reaches(f)
    requires if f.sid in h.streams then Told(h.streams[f.sid], log, handed) else log == [] && handed == []
    ensures var h' := AddHeaders(h, f.sid, Block(f), f.typ == 1 && f.flags as int % 2 == 1, EndsBlock(f), hpack).h;
            f.sid in h'.streams && Told(h'.streams[f.sid], log + [Item(f, hpack)], handed)
  {
    ItemMore(log, f, hpack);
    var before := if f.sid in h.streams then h.streams[f.sid] else NewStream(0);
    assert Told(before, log, handed);
  }

  lemma HeaderStep(h: H2, f: Frame, hpack: bool, log: Log, handed: Bytes)
    requires IsHeader(f) && Reaches(f)
    requires if f.sid in h.streams then Told(h.streams[f.sid], log, handed) else log == [] && handed == []
    ensures var h' := Handle(h, f, hpack).h; f.sid in h'.streams && Told(h'.streams[f.sid], log + [Item(f, hpack)], handed)
  {
    HeaderStream(h, f, hpack);
    AddedTold(h, f, hpack, log, handed);
  }

  lemma ResetStep(h: H2, f: Frame, hpack: bool, log: Log, handed: Bytes)
    requires f.typ == 3 && f.sid in h.streams && Told(h.streams[f.sid], log, handed)
    ensures var h' := Handle(h, f, hpack).h; f.sid in h'.streams && Told(h'.streams[f.sid], log + [Item(f, hpack)], handed)
  {
    ItemMore(log, f, hpack);
  }

  /** What is known of a stream after a run. */
  ghost predicate Known(h: H2, present: bool, id: nat, log: Log, handed: Bytes) {
    (id in h.streams <==> present) && (if id in h.streams then Told(h.streams[id], log, handed) else log == [] && handed == [])
  }

  lemma FrameStep(h: H2, f: Frame, hpack: bool, present: bool, id: nat, log: Log, handed: Bytes)
    requires Known(h, present, id, log, handed)
    ensures var present' := present || (f.sid == id && IsHeader(f) && Reaches(f));
            var log' := if f.sid == id && Reaches(f) && present' then log + [Item(f, hpack)] else log;
            Known(Handle(h, f, hpack).h, present', id, log', handed)
  {
    if f.sid != id || !Reaches(f) { OtherFrame(h, f, hpack, id); }
    else if IsHeader(f) { HeaderStep(h, f, hpack, log, handed); }
    else if id in h.streams {
      if f.typ == 0 { DataStep(h, f, hpack, log, handed); } else { ResetStep(h, f, hpack, log, handed); }
    } else { AbsentFrame(h, f, hpack); }
  }

  /** DATA and resets do not bring a stream into being. */
  lemma AbsentFrame(h: H2, f: Frame, hpack: bool)
    requires (f.typ == 0 || f.typ == 3) && f.sid !in h.streams
    ensures f.sid !in Handle(h, f, hpack).h.streams
  {
  }

  lemma KnownStep(w: World, ev: Event, present: bool, id: nat, log: Log, handed: Bytes)
    requires Known(w.h, present, id, log, handed)
    ensures Known(Step(w, ev).h, PresentNext(present, w.h.nextId, ev, id), id,
                  HeardNext(log, present, w.h.nextId, ev, id), HandedNext(handed, w.h, w.h.nextId, ev, id))
  {
    if ev.Incoming? {
      FrameStep(w.h, ev.f, ev.hpack, present, id, log, handed);
      ReceiveHandles(w, ev.f, ev.hpack);
    } else {
      LocalStep(w, ev, present, id, log, handed);
    }
  }

  lemma ReceiveHandles(w: World, f: Frame, hpack: bool)
    ensures Step(w, Incoming(f, hpack)).h == Handle(w.h, f, hpack).h
  {
  }

  lemma LocalStep(w: World, ev: Event, present: bool, id: nat, log: Log, handed: Bytes)
    requires Known(w.h, present, id, log, handed) && !ev.Incoming?
    ensures Known(Step(w, ev).h, PresentNext(present, w.h.nextId, ev, id), id,
                  HeardNext(log, present, w.h.nextId, ev, id), HandedNext(handed, w.h, w.h.nextId, ev, id))
  {
    match ev
    case Request => assert [] + NewStream(w.h.peerInitial).body == Body([]);
    case Chunk(x, payload, rest) => assert SameResponse(w.h, Step(w, ev).h, id);
    case TakeBody(x) => if id in w.h.streams { assert handed + w.h.streams[id].body + [] == handed + w.h.streams[id].body; }
    case Forget(x) =>
  }

  lemma {:induction false} NextId(evs: seq<Event>)
    ensures Run(evs).h.nextId == 1 + 2 * Requests(evs)
    decreases |evs|
  {
    if evs != [] {
      NextId(evs[..|evs| - 1]);
      var ev := evs[|evs| - 1];
      if ev.Incoming? { HandleShifts(Run(evs[..|evs| - 1]).h, ev.f, ev.hpack); }
    }
  }

  /** In every run, for every stream since it came into being: the bytes handed out and those still there are the
      contents of its DATA frames in order; it has ended exactly if DATA or HEADERS said so; and its header
      bytes and its reset are those of its frames. */
  lemma {:induction false} ResponseIsFrames(evs: seq<Event>, id: nat)
    ensures Known(Run(evs).h, Present(evs, id), id, Heard(evs, id), Handed(evs, id))
    decreases |evs|
  {
    if evs != [] {
      var n := |evs| - 1;
      ResponseIsFrames(evs[..n], id);
      NextId(evs[..n]);
      KnownStep(Run(evs[..n]), evs[n], Present(evs[..n], id), id, Heard(evs[..n], id), Handed(evs[..n], id));
    }
  }

  // ---- which frames are refused, and what is answered ----

  /** Refused are exactly pushes, frames whose padding or priority does not fit, and header blocks that are too
      long or do not decode. */
  lemma AcceptedIff(h: H2, f: Frame, hpack: bool)
    ensures var held := if f.sid in h.streams then h.streams[f.sid].headerBlock else [];
            Handle(h, f, hpack).ok <==>
            && f.typ != 5 && (f.typ == 0 ==> PaddingFits(f))
            && (IsHeader(f) ==> Reaches(f) && (EndsBlock(f) ==> |held + Block(f)| <= 65_536 && hpack))
  {
    StripIsContent(f);
    if IsHeader(f) && Reaches(f) { HeaderStream(h, f, hpack); }
  }

  /** Settings and pings that are no acknowledgements are acknowledged, a ping with its own bytes. Nothing else
      but DATA is answered. */
  lemma AnswersExact(h: H2, f: Frame, hpack: bool)
    requires f.typ != 0
    ensures Handle(h, f, hpack).out ==
              if f.typ == 4 && f.flags as int % 2 == 0 then [Frame(4, 1, 0, [])]
              else if f.typ == 6 && f.flags as int % 2 == 0 then [Frame(6, 1, 0, f.payload)] else []
    ensures Handle(h, f, hpack).h.goaway <==> h.goaway || f.typ == 7
  {
    if f.typ == 4 { SettingsQuiet(h, f.payload, |f.payload| / 6); }
  }

  lemma {:induction false} SettingsQuiet(h: H2, payload: Bytes, k: nat)
    requires 6 * k <= |payload|
    ensures Settings(h, payload, k).goaway == h.goaway
  {
    if k > 0 { SettingsQuiet(h, payload, k - 1); }
  }

  /** A window update carries 31 bits; a short one is none. */
  lemma IncrementBytes(p: Bytes)
    ensures Increment(p) == if |p| < 4 then 0 else p[0] as int % 128 * 0x100_0000 + p[1] as int * 0x1_0000 + p[2] as int * 0x100 + p[3] as int
  {
    if |p| >= 4 {
      TopBit(p[..4]);
      assert p[..4][0] == p[0] && p[..4][1] == p[1] && p[..4][2] == p[2] && p[..4][3] == p[3];
    }
  }

  // ---- sending ----

  /** What is sent next is the most that the rest of the body, both windows and the peer's maximum allow. */
  lemma SendSizeMost(h: H2, id: nat, rest: nat, n: nat)
    ensures SendSize(h, id, rest) >= 0
    ensures n > 0 ==>
            (n <= SendSize(h, id, rest) <==>
             n <= rest && id in h.streams && n <= h.streams[id].sendWindow && n <= h.connWindow && n <= h.peerMaxFrame)
  {
  }

  // ---- settings ----

  /** The last value a payload of settings gives to this one: six bytes each, two of name and four of value. */
  function LastValue(p: Bytes, k: nat, name: nat): Option<nat>
    requires 6 * k <= |p|
  {
    if k == 0 then None else
    var i := 6 * k - 6;
    if 256 * (p[i] as int) + p[i + 1] as int == name then
      Some(p[i + 2] as int * 0x100_0000 + p[i + 3] as int * 0x1_0000 + p[i + 4] as int * 0x100 + p[i + 5] as int)
    else LastValue(p, k - 1, name)
  }

  /** The last value in a run. */
  function Said(evs: seq<Event>, name: nat): Option<nat> {
    if evs == [] then None else
    var before := Said(evs[..|evs| - 1], name);
    match evs[|evs| - 1]
    case Incoming(f, _) =>
      if f.typ == 4 && f.flags as int % 2 == 0 && LastValue(f.payload, |f.payload| / 6, name).Some?
      then LastValue(f.payload, |f.payload| / 6, name) else before
    case _ => before
  }

  function Initial(v: Option<nat>): nat {
    if v.Some? then v.value else 65_535
  }

  function MaxFrame(v: Option<nat>): nat {
    if v.None? || v.value < 16_384 then 16_384 else if v.value > 0x100_0000 then 0x100_0000 else v.value
  }

  function Later(before: Option<nat>, now: Option<nat>): Option<nat> {
    if now.Some? then now else before
  }

  lemma {:induction false} SettingsRead(h: H2, p: Bytes, k: nat, initial: Option<nat>, max: Option<nat>)
    requires 6 * k <= |p| && h.peerInitial == Initial(initial) && h.peerMaxFrame == MaxFrame(max)
    ensures var h' := Settings(h, p, k);
            h'.peerInitial == Initial(Later(initial, LastValue(p, k, 4))) && h'.peerMaxFrame == MaxFrame(Later(max, LastValue(p, k, 5)))
  {
    if k > 0 {
      SettingsRead(h, p, k - 1, initial, max);
      var c := p[6 * k - 6..6 * k];
      assert c[2..6][0] == p[6 * k - 4] && c[2..6][1] == p[6 * k - 3] && c[2..6][2] == p[6 * k - 2] && c[2..6][3] == p[6 * k - 1];
      SettingFields(Settings(h, p, k - 1), c);
    }
  }

  lemma OtherSettings(h: H2, f: Frame, hpack: bool)
    requires f.typ != 4 || f.flags as int % 2 == 1
    ensures var h' := Handle(h, f, hpack).h; h'.peerInitial == h.peerInitial && h'.peerMaxFrame == h.peerMaxFrame
  {
  }

  /** In every run the peer's initial window and maximum frame are those it said last, the latter held between
      2^14 and 2^24, or the defaults of RFC 9113. */
  lemma {:induction false} SettingsAreSaid(evs: seq<Event>)
    ensures Run(evs).h.peerInitial == Initial(Said(evs, 4)) && Run(evs).h.peerMaxFrame == MaxFrame(Said(evs, 5))
    decreases |evs|
  {
    if evs != [] {
      var past := evs[..|evs| - 1];
      var ev := evs[|evs| - 1];
      SettingsAreSaid(past);
      if ev.Incoming? {
        ReceiveHandles(Run(past), ev.f, ev.hpack);
        if ev.f.typ != 4 || ev.f.flags as int % 2 == 1 { OtherSettings(Run(past).h, ev.f, ev.hpack); }
        else { SettingsRead(Run(past).h, ev.f.payload, |ev.f.payload| / 6, Said(past, 4), Said(past, 5)); }
      }
    }
  }
}
