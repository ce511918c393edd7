/** The camera stream handle shared by an opener, any number of callers and the driver's
    callbacks; and the frames a snapshot waits for. Each critical section is one step. */
module Camera {
  import opened Common

  type Handle = nat
  type Thread = nat

  const WARMUP_FRAMES := 2
  const MAX_FRAMES := 0xFFFF_FFFF

  /** What the device mutex guards. */
  datatype Dev = Dev(handle: Option<Handle>, inUse: bool, pendingClose: bool, frames: nat)

  // ---- the critical sections ----

  function Opened(d: Dev, h: Handle): Dev {
    if d.pendingClose then d.(inUse := false, pendingClose := false)
    else d.(inUse := false, handle := Some(h), frames := 0)
  }

  function Released(d: Dev): Dev {
    if d.pendingClose then d.(inUse := false, pendingClose := false, handle := None) else d.(inUse := false)
  }

  function Disconnected(d: Dev): Dev {
    if d.inUse then d.(pendingClose := true) else d.(handle := None)
  }

  class DevState {
    var handle: Option<Handle>
    var inUse: bool
    var pendingClose: bool
    var frames: nat

    function View(): Dev
      reads this
    {
      Dev(handle, inUse, pendingClose, frames)
    }

    constructor ()
      ensures View() == Dev(None, false, false, 0)
    {
      handle, inUse, pendingClose, frames := None, false, false, 0;
    }

    method BeginOpen()
      modifies this`inUse, this`pendingClose
      ensures View() == old(View()).(inUse := true, pendingClose := false)
    {
      inUse := true;
      pendingClose := false;
    }

    /** The open call returned `h`; says whether it must be closed again at once. */
    method EndOpen(h: Handle) returns (close: bool)
      modifies this
      ensures View() == Opened(old(View()), h) && close == old(pendingClose)
    {
      inUse := false;
      if pendingClose {
        pendingClose := false;
        return true;
      }
      handle := Some(h);
      frames := 0;
      return false;
    }

    method OpenFailed()
      modifies this`inUse, this`pendingClose
      ensures View() == old(View()).(inUse := false, pendingClose := false)
    {
      inUse := false;
      pendingClose := false;
    }

    method Claim() returns (h: Option<Handle>)
      modifies this`inUse
      ensures h == if old(inUse) then None else handle
      ensures View() == if h.Some? then old(View()).(inUse := true) else old(View())
    {
      if inUse { return None; }
      h := handle;
      if h.Some? { inUse := true; }
    }

    method Release() returns (close: bool)
      modifies this
      ensures View() == Released(old(View())) && close == old(pendingClose)
    {
      inUse := false;
      if pendingClose {
        pendingClose := false;
        handle := None;
        return true;
      }
      return false;
    }

    /** The disconnect callback; a handle returned is closed by the caller. */
    method Disconnect() returns (h: Option<Handle>)
      modifies this`pendingClose, this`handle
      ensures View() == Disconnected(old(View())) && h == if old(inUse) then None else old(handle)
    {
      if inUse {
        pendingClose := true;
        return None;
      }
      h := handle;
      handle := None;
    }

    method NextFrame() returns (index: nat)
      requires frames <= MAX_FRAMES
      modifies this`frames
      ensures frames == Min(old(frames) + 1, MAX_FRAMES) && index == frames - 1
    {
      if frames < MAX_FRAMES { frames := frames + 1; }
      index := frames - 1;
    }
  }

  // ---- threads and histories ----

  /** Where a thread is between two critical sections. */
  datatype Pc =
    | Idle
    | Checked                      // the opener saw that no stream is open
    | Opening                      // inside the driver's open call
    | Holding(newHandle: Handle)   // the open call has returned this handle
    | Resetting                    // the handle is installed, the sequence not yet reset
    | InCall(handle: Handle)       // inside a driver call on this handle
    | Closing(handle: Handle)      // about to close this handle
    | Framed(index: nat, data: Bytes, no: nat)  // a frame is captured, the no-th, and not yet stored

  /** A snapshot under way: the sequence number it started from, and how many frames had been
      stored, how often the sequence had been reset and how many frames had been captured when it
      read that number. */
  datatype Ask = Ask(start: nat, skip: nat, from: nat, resets: nat, captured: nat)

  /** A snapshot returned: its data, and how many frames had been stored at that moment. */
  datatype Answer = Answer(ask: Ask, data: Bytes, at: nat)

  datatype State = State(
    dev: Dev, seqno: nat, data: Bytes,
    pcs: map<Thread, Pc>, asks: map<Thread, Ask>,
    holder: Option<Thread>, created: set<Handle>, closed: seq<Handle>, gone: set<Handle>,
    stored: seq<Bytes>, resets: nat, answers: seq<Answer>, captured: nat, origins: seq<nat>, called: bool)

  const OPENER: Thread := 0

  const INITIAL := State(Dev(None, false, false, 0), 0, [], map[], map[], None, {}, [], {}, [], 0, [], 0, [], false)

  function At(s: State, t: Thread): Pc {
    if t in s.pcs then s.pcs[t] else Idle
  }

  datatype Step =
    | Check(t: Thread)
    | BeginOpen(t: Thread)
    | DriverOpens(t: Thread, h: Handle)
    | OpenFails(t: Thread, retry: bool)
    | EndOpen(t: Thread)
    | ResetSequence(t: Thread)
    | Claim(t: Thread)
    | Release(t: Thread)
    | Disconnect(t: Thread)
    | DriverCloses(t: Thread, retry: bool)
    | StreamStarted(t: Thread)
    | CountFrame(t: Thread, data: Bytes)
    | StoreFrame(t: Thread)
    | AskFrame(t: Thread, skip: nat)
    | AnswerFrame(t: Thread)
    | GiveUp(t: Thread)

  /** Frames come only once a driver call was made on an installed handle (`called`), and snapshots are
      asked for only once an open has been completed. */
  predicate Can(s: State, st: Step) {
    var pc := At(s, st.t);
    match st
    case Check(t) => t == OPENER && pc == Idle && s.dev.handle.None?
    case BeginOpen(t) => pc == Checked
    case DriverOpens(t, h) => pc == Opening && h !in s.created
    case OpenFails(t, retry) => pc == Opening
    case EndOpen(t) => pc.Holding?
    case ResetSequence(t) => pc == Resetting
    case Claim(t) => pc == Idle && !s.dev.inUse && s.dev.handle.Some?
    case Release(t) => pc.InCall?
    case Disconnect(t) => t != OPENER && pc == Idle
    case DriverCloses(t, retry) => pc.Closing? && (retry ==> t == OPENER)
    case StreamStarted(t) => pc == Idle
    case CountFrame(t, data) => pc == Idle && t != OPENER && s.called
    case StoreFrame(t) => pc.Framed?
    case AskFrame(t, skip) => pc == Idle && t !in s.asks && s.resets > 0
    case AnswerFrame(t) => pc == Idle && t in s.asks && s.seqno > s.asks[t].start + s.asks[t].skip
    case GiveUp(t) => pc == Idle && t in s.asks
  }

  /** Frames of the warm-up and scraps are dropped. */
  predicate Storable(pc: Pc) {
    pc.Framed? && pc.index >= WARMUP_FRAMES && |pc.data| >= 4
  }

  /** The handle a disconnect concerns: the installed one, or one just returned by the open call. */
  function Alive(s: State): set<Handle> {
    (if s.dev.handle.Some? then {s.dev.handle.value} else {}) +
    (if At(s, OPENER).Holding? then {At(s, OPENER).newHandle} else {})
  }

  function Do(s: State, st: Step): State
    requires Can(s, st)
  {
    var pc := At(s, st.t);
    var d := s.dev;
    match st
    case Check(t) => s.(pcs := s.pcs[t := Checked])
    case BeginOpen(t) => s.(dev := d.(inUse := true, pendingClose := false), pcs := s.pcs[t := Opening], holder := Some(t))
    case DriverOpens(t, h) =>
      s.(pcs := s.pcs[t := Holding(h)], created := s.created + {h}, gone := if d.pendingClose then s.gone + {h} else s.gone)
    case OpenFails(t, retry) =>
      s.(dev := d.(inUse := false, pendingClose := false), pcs := s.pcs[t := if retry then Checked else Idle], holder := None)
    case EndOpen(t) =>
      s.(dev := Opened(d, pc.newHandle), pcs := s.pcs[t := if d.pendingClose then Closing(pc.newHandle) else Resetting], holder := None)
    case ResetSequence(t) => s.(seqno := 0, resets := s.resets + 1, pcs := s.pcs[t := Idle])
    case Claim(t) => s.(dev := d.(inUse := true), pcs := s.pcs[t := InCall(d.handle.value)], holder := Some(t), called := true)
    case Release(t) =>
      s.(dev := Released(d), pcs := s.pcs[t := if d.pendingClose then Closing(pc.handle) else Idle], holder := None)
    case Disconnect(t) =>
      s.(dev := Disconnected(d), gone := s.gone + Alive(s),
         pcs := s.pcs[t := if !d.inUse && d.handle.Some? then Closing(d.handle.value) else Idle])
    case DriverCloses(t, retry) => s.(closed := s.closed + [pc.handle], pcs := s.pcs[t := if retry then Checked else Idle])
    case StreamStarted(t) => if d.handle.Some? then s.(dev := d.(frames := 0)) else s
    case CountFrame(t, data) =>
      var n := Min(d.frames + 1, MAX_FRAMES);
      s.(dev := d.(frames := n), pcs := s.pcs[t := Framed(n - 1, data, s.captured)], captured := s.captured + 1)
    case StoreFrame(t) =>
      if !Storable(pc) then s.(pcs := s.pcs[t := Idle])
      else s.(pcs := s.pcs[t := Idle], seqno := s.seqno + 1, data := pc.data, stored := s.stored + [pc.data], origins := s.origins + [pc.no])
    case AskFrame(t, skip) => s.(asks := s.asks[t := Ask(s.seqno, skip, |s.stored|, s.resets, s.captured)])
    case AnswerFrame(t) => s.(asks := s.asks - {t}, answers := s.answers + [Answer(s.asks[t], s.data, |s.stored|)])
    case GiveUp(t) => s.(asks := s.asks - {t})
  }

  predicate Runs(s: State, steps: seq<Step>, s': State)
    decreases |steps|
  {
    if steps == [] then s' == s else Can(s, steps[0]) && Runs(Do(s, steps[0]), steps[1..], s')
  }

  // ---- the invariant ----

  predicate Busy(pc: Pc) {
    pc == Opening || pc.Holding? || pc.InCall?
  }

  /** Pcs in which the opener relies on no stream being installed. */
  predicate NoStream(pc: Pc) {
    pc == Checked || pc == Opening || pc.Holding? || pc.Closing?
  }

  /** The mutex state agrees with who holds the handle. */
  predicate UseInv(s: State) {
    && (s.dev.pendingClose ==> s.dev.inUse)
    && (s.dev.inUse <==> s.holder.Some?)
    && (forall t <- s.pcs :: Busy(s.pcs[t]) <==> s.holder == Some(t))
    && (s.holder.Some? ==> s.holder.value in s.pcs)
    && (forall t <- s.pcs :: s.pcs[t].InCall? ==> s.dev.handle == Some(s.pcs[t].handle))
    && (forall t <- s.pcs :: t != OPENER ==> s.pcs[t] != Checked && s.pcs[t] != Opening && !s.pcs[t].Holding? && s.pcs[t] != Resetting)
    && (NoStream(At(s, OPENER)) ==> s.dev.handle.None?)
  }

  predicate Open(s: State, h: Handle) {
    h in s.created && h !in s.closed
  }

  /** Handles in use are open; closed ones were disconnected. */
  predicate HandleInv(s: State) {
    && (s.dev.handle.Some? ==> Open(s, s.dev.handle.value))
    && (forall t <- s.pcs :: s.pcs[t].Holding? ==> Open(s, s.pcs[t].newHandle))
    && (forall t <- s.pcs :: s.pcs[t].Closing? ==>
          Open(s, s.pcs[t].handle) && s.pcs[t].handle in s.gone && s.dev.handle != Some(s.pcs[t].handle))
    && (s.dev.pendingClose ==> forall t <- s.pcs ::
          (s.pcs[t].InCall? ==> s.pcs[t].handle in s.gone) && (s.pcs[t].Holding? ==> s.pcs[t].newHandle in s.gone))
    && (forall h <- s.closed :: h in s.gone)
    && s.gone <= s.created
  }

  /** Each handle is on its way out in one place only. */
  predicate PairInv(s: State) {
    && (forall t, u :: t in s.pcs && u in s.pcs && s.pcs[t].Closing? && s.pcs[u].Closing? && s.pcs[t].handle == s.pcs[u].handle ==> t == u)
    && (forall t, u :: t in s.pcs && u in s.pcs && s.pcs[t].Closing? && s.pcs[u].Holding? ==> s.pcs[t].handle != s.pcs[u].newHandle)
    && (forall i, j :: 0 <= i < j < |s.closed| ==> s.closed[i] != s.closed[j])
  }

  /** Thread `t` owes the close of `h`: it is about to close it, or is in the driver with it and
      will find the request when it comes out. */
  predicate Owes(s: State, t: Thread, h: Handle) {
    At(s, t) == Closing(h) || (s.dev.pendingClose && (At(s, t) == InCall(h) || At(s, t) == Holding(h)))
  }

  ghost predicate Owed(s: State, h: Handle) {
    exists t :: t in s.pcs && Owes(s, t, h)
  }

  ghost predicate DebtInv(s: State) {
    forall h <- s.gone :: h in s.closed || Owed(s, h)
  }

  ghost predicate Inv(s: State) {
    UseInv(s) && HandleInv(s) && PairInv(s) && DebtInv(s)
  }

  predicate OpenerStep(st: Step) {
    st.Check? || st.BeginOpen? || st.DriverOpens? || st.OpenFails? || st.EndOpen? || st.ResetSequence?
  }

  predicate HandleStep(st: Step) {
    st.Claim? || st.Release? || st.Disconnect? || st.DriverCloses?
  }

  lemma UseKept(s: State, st: Step)
    requires UseInv(s) && Can(s, st)
    ensures UseInv(Do(s, st))
  {
    if OpenerStep(st) { UseKeptOpening(s, st); }
    else if HandleStep(st) { UseKeptHandle(s, st); }
    else { UseKeptFrame(s, st); }
  }

  lemma UseKeptOpening(s: State, st: Step)
    requires UseInv(s) && Can(s, st) && OpenerStep(st)
    ensures UseInv(Do(s, st))
  {
  }

  lemma UseKeptHandle(s: State, st: Step)
    requires UseInv(s) && Can(s, st) && HandleStep(st)
    ensures UseInv(Do(s, st))
  {
  }

  lemma UseKeptFrame(s: State, st: Step)
    requires UseInv(s) && Can(s, st) && !OpenerStep(st) && !HandleStep(st)
    ensures UseInv(Do(s, st))
  {
    if st.CountFrame? || st.StoreFrame? { UseKeptThread(s, st); }
    else { assert Do(s, st).pcs == s.pcs && Do(s, st).holder == s.holder; }
  }

  lemma UseKeptThread(s: State, st: Step)
    requires UseInv(s) && Can(s, st) && (st.CountFrame? || st.StoreFrame?)
    ensures UseInv(Do(s, st))
  {
    UseKeptPc(s, Do(s, st), st.t, At(Do(s, st), st.t));
  }

  lemma UseKeptPc(s: State, s': State, t: Thread, pc: Pc)
    requires UseInv(s) && (pc == Idle || pc.Framed?) && !Busy(At(s, t))
    requires s'.pcs == s.pcs[t := pc] && s'.holder == s.holder && s'.dev == s.dev.(frames := s'.dev.frames)
    ensures UseInv(s')
  {
  }

  lemma PairsKept(s: State, st: Step)
    requires UseInv(s) && HandleInv(s) && PairInv(s) && Can(s, st)
    ensures PairInv(Do(s, st))
  {
    if OpenerStep(st) { PairsKeptOpening(s, st); }
    else if HandleStep(st) { PairsKeptHandle(s, st); }
  }

  lemma PairsKeptOpening(s: State, st: Step)
    requires UseInv(s) && HandleInv(s) && PairInv(s) && Can(s, st) && OpenerStep(st)
    ensures PairInv(Do(s, st))
  {
  }

  lemma PairsKeptHandle(s: State, st: Step)
    requires UseInv(s) && HandleInv(s) && PairInv(s) && Can(s, st) && HandleStep(st)
    ensures PairInv(Do(s, st))
  {
  }

  lemma HandlesKept(s: State, st: Step)
    requires UseInv(s) && HandleInv(s) && PairInv(s) && Can(s, st)
    ensures HandleInv(Do(s, st))
  {
    if st.DriverCloses? || st.EndOpen? { HandlesKeptLast(s, st); } else { HandlesKeptOther(s, st); }
  }

  lemma HandlesKeptLast(s: State, st: Step)
    requires UseInv(s) && HandleInv(s) && PairInv(s) && Can(s, st) && (st.DriverCloses? || st.EndOpen?)
    ensures HandleInv(Do(s, st))
  {
  }

  lemma HandlesKeptOther(s: State, st: Step)
    requires UseInv(s) && HandleInv(s) && Can(s, st) && !st.DriverCloses? && !st.EndOpen?
    ensures HandleInv(Do(s, st))
  {
    if st.Claim? || st.Release? || st.Disconnect? { HandlesKeptCall(s, st); }
    else if OpenerStep(st) { HandlesKeptOpening(s, st); }
  }

  lemma HandlesKeptOpening(s: State, st: Step)
    requires UseInv(s) && HandleInv(s) && Can(s, st) && OpenerStep(st) && !st.EndOpen?
    ensures HandleInv(Do(s, st))
  {
  }

  lemma HandlesKeptCall(s: State, st: Step)
    requires UseInv(s) && HandleInv(s) && Can(s, st) && (st.Claim? || st.Release? || st.Disconnect?)
    ensures HandleInv(Do(s, st))
  {
  }

  /** No step of another thread takes a debt away, and the debtor's own step brings the close
      one step nearer. */
  lemma DebtMoves(s: State, st: Step, t: Thread, h: Handle)
    requires UseInv(s) && Can(s, st) && t in s.pcs && Owes(s, t, h)
    ensures t in Do(s, st).pcs
    ensures st.t != t ==> Owes(Do(s, st), t, h)
    ensures st.t == t ==> if At(s, t).Closing? then h in Do(s, st).closed else At(Do(s, st), t) == Closing(h)
  {
  }

  /** A debtor is never stuck: its next step is always possible. */
  lemma DebtorCanMove(s: State, t: Thread, h: Handle)
    requires Owes(s, t, h)
    ensures match At(s, t)
            case Closing(_) => Can(s, DriverCloses(t, false))
            case InCall(_) => Can(s, Release(t))
            case _ => Can(s, EndOpen(t))
  {
  }

  /** A disconnect of an open handle is settled at once or becomes a debt. */
  lemma NewDebt(s: State, st: Step, h: Handle)
    requires UseInv(s) && Can(s, st) && h in Do(s, st).gone && h !in s.gone
    ensures Owed(Do(s, st), h)
  {
    var s' := Do(s, st);
    assert Owes(s', st.t, h) || (s'.holder.Some? && Owes(s', s'.holder.value, h));
  }

  lemma DebtsKept(s: State, st: Step, h: Handle)
    requires Inv(s) && Can(s, st) && h in Do(s, st).gone
    ensures h in Do(s, st).closed || Owed(Do(s, st), h)
  {
    if h !in s.gone {
      NewDebt(s, st, h);
    } else if h in s.closed {
    } else {
      var t :| t in s.pcs && Owes(s, t, h);
      DebtMoves(s, st, t, h);
    }
  }

  lemma InvKept(s: State, st: Step)
    requires Inv(s) && Can(s, st)
    ensures Inv(Do(s, st))
  {
    UseKept(s, st);
    HandlesKept(s, st);
    PairsKept(s, st);
    forall h <- Do(s, st).gone ensures h in Do(s, st).closed || Owed(Do(s, st), h) { DebtsKept(s, st, h); }
  }

  lemma {:induction false} RunKeeps(s: State, steps: seq<Step>, s': State)
    requires Inv(s) && Runs(s, steps, s')
    ensures Inv(s')
    decreases |steps|
  {
    if steps != [] {
      InvKept(s, steps[0]);
      RunKeeps(Do(s, steps[0]), steps[1..], s');
    }
  }

  // ---- theorems ----

  /** In every interleaving: each handle is closed at most once; a close is never performed on a
      handle a driver call is in flight on, and no call is ever made on a closed handle; only
      handles that were disconnected are closed; every disconnected handle is closed or its close
      is owed; and a close is only requested while the handle is in use. */
  lemma HandleSafety(steps: seq<Step>, s: State)
    requires Runs(INITIAL, steps, s)
    ensures forall i, j :: 0 <= i < j < |s.closed| ==> s.closed[i] != s.closed[j]
    ensures forall t, u, h :: At(s, t) == Closing(h) ==> At(s, u) != InCall(h)
    ensures forall t, h :: h in s.closed ==> At(s, t) != InCall(h) && At(s, t) != Closing(h) && s.dev.handle != Some(h)
    ensures forall h <- s.closed :: h in s.gone
    ensures forall h <- s.gone :: h in s.closed || Owed(s, h)
    ensures s.dev.pendingClose ==> s.dev.inUse
    ensures forall t, u :: Busy(At(s, t)) && Busy(At(s, u)) ==> t == u
  {
    RunKeeps(INITIAL, steps, s);
    forall t, u, h | At(s, t) == Closing(h) ensures At(s, u) != InCall(h) { CloserAlone(s, t, u, h); }
    forall t, h | h in s.closed ensures At(s, t) != InCall(h) && At(s, t) != Closing(h) && s.dev.handle != Some(h) { ClosedUnused(s, t, h); }
  }

  lemma CloserAlone(s: State, t: Thread, u: Thread, h: Handle)
    requires UseInv(s) && HandleInv(s) && At(s, t) == Closing(h)
    ensures At(s, u) != InCall(h)
  {
  }

  lemma ClosedUnused(s: State, t: Thread, h: Handle)
    requires UseInv(s) && HandleInv(s) && h in s.closed
    ensures At(s, t) != InCall(h) && At(s, t) != Closing(h) && s.dev.handle != Some(h)
  {
  }

  /** The obligation is met: from any reachable state, once a debtor takes at most two steps of
      its own, with any steps of other threads in between, the handle is closed. */
  lemma {:induction false} DebtPaid(s: State, steps: seq<Step>, s': State, t: Thread, h: Handle)
    requires Inv(s) && Runs(s, steps, s') && t in s.pcs && Owes(s, t, h)
    requires StepsOf(steps, t) >= if At(s, t).Closing? then 1 else 2
    ensures h in s'.closed
    decreases |steps|
  {
    var s1 := Do(s, steps[0]);
    InvKept(s, steps[0]);
    DebtMoves(s, steps[0], t, h);
    if h in s1.closed {
      ClosedStays(s1, steps[1..], s', h);
    } else {
      DebtPaid(s1, steps[1..], s', t, h);
    }
  }

  function StepsOf(steps: seq<Step>, t: Thread): nat {
    if steps == [] then 0 else (if steps[0].t == t then 1 else 0) + StepsOf(steps[1..], t)
  }

  lemma {:induction false} ClosedStays(s: State, steps: seq<Step>, s': State, h: Handle)
    requires Runs(s, steps, s') && h in s.closed
    ensures h in s'.closed
    decreases |steps|
  {
    if steps != [] { ClosedStays(Do(s, steps[0]), steps[1..], s', h); }
  }

  // ---- snapshots ----

  predicate AskInv(s: State, a: Ask) {
    && a.from <= |s.stored| && a.resets <= s.resets
    && s.seqno - a.start <= |s.stored| - a.from
    && (a.resets == s.resets ==> s.seqno - a.start == |s.stored| - a.from)
  }

  /** The answer is the newest frame of its moment, and `skip` + 1 frames were stored after the
      call read its starting number. */
  predicate AnswerInv(s: State, r: Answer) {
    && r.ask.from + r.ask.skip + 1 <= r.at <= |s.stored|
    && r.data == s.stored[r.at - 1]
  }

  predicate FrameInv(s: State) {
    && (s.stored != [] ==> s.data == s.stored[|s.stored| - 1])
    && (forall t <- s.asks :: AskInv(s, s.asks[t]))
    && (forall i :: 0 <= i < |s.answers| ==> AnswerInv(s, s.answers[i]))
  }

  lemma FramesKept(s: State, st: Step)
    requires FrameInv(s) && Can(s, st)
    ensures FrameInv(Do(s, st))
  {
    if st.AnswerFrame? { AnswerKept(s, st); }
    else if st.StoreFrame? { StoreKept(s, st); }
    else if st.AskFrame? || st.GiveUp? || st.ResetSequence? { AsksKept(s, st); }
    else { assert SameFrames(s, Do(s, st)); }
  }

  predicate SameFrames(s: State, s': State) {
    s'.stored == s.stored && s'.data == s.data && s'.seqno == s.seqno && s'.resets == s.resets && s'.asks == s.asks && s'.answers == s.answers
  }

  lemma AnswerKept(s: State, st: Step)
    requires FrameInv(s) && Can(s, st) && st.AnswerFrame?
    ensures FrameInv(Do(s, st))
  {
    assert AskInv(s, s.asks[st.t]);
  }

  lemma StoreKept(s: State, st: Step)
    requires FrameInv(s) && Can(s, st) && st.StoreFrame?
    ensures FrameInv(Do(s, st))
  {
  }

  lemma AsksKept(s: State, st: Step)
    requires FrameInv(s) && Can(s, st) && (st.AskFrame? || st.GiveUp? || st.ResetSequence?)
    ensures FrameInv(Do(s, st))
  {
  }

  lemma {:induction false} RunFrames(s: State, steps: seq<Step>, s': State)
    requires FrameInv(s) && Runs(s, steps, s')
    ensures FrameInv(s')
    decreases |steps|
  {
    if steps != [] {
      FramesKept(s, steps[0]);
      RunFrames(Do(s, steps[0]), steps[1..], s');
    }
  }

  /** Every snapshot ever returned, in every interleaving with frame callbacks and reopens. */
  lemma SnapshotsFresh(steps: seq<Step>, s: State, i: nat)
    requires Runs(INITIAL, steps, s) && i < |s.answers|
    ensures AnswerInv(s, s.answers[i])
  {
    RunFrames(INITIAL, steps, s);
  }

  /** While the camera is not reopened, a snapshot can be answered exactly when `skip` + 1 frames
      have been stored since it was asked for. */
  lemma AnswerExact(steps: seq<Step>, s: State, t: Thread)
    requires Runs(INITIAL, steps, s) && t in s.asks && At(s, t) == Idle && s.asks[t].resets == s.resets
    ensures Can(s, AnswerFrame(t)) <==> |s.stored| >= s.asks[t].from + s.asks[t].skip + 1
  {
    RunFrames(INITIAL, steps, s);
    assert AskInv(s, s.asks[t]);
  }

  // ---- the warm-up ----

  /** Frames since a stream was last installed or started, after one more step. */
  function CountStep(s: State, n: nat, st: Step): nat {
    match st
    case EndOpen(_) => if s.dev.pendingClose then n else 0
    case StreamStarted(_) => if s.dev.handle.Some? then 0 else n
    case CountFrame(_, _) => n + 1
    case _ => n
  }

  function Count(s: State, n: nat, steps: seq<Step>): nat
    decreases |steps|
  {
    if steps == [] || !Can(s, steps[0]) then n else Count(Do(s, steps[0]), CountStep(s, n, steps[0]), steps[1..])
  }

  lemma {:induction false} CountKept(s: State, n: nat, steps: seq<Step>, s': State)
    requires Runs(s, steps, s') && s.dev.frames == Min(n, MAX_FRAMES)
    ensures s'.dev.frames == Min(Count(s, n, steps), MAX_FRAMES)
    decreases |steps|
  {
    if steps != [] { CountKept(Do(s, steps[0]), CountStep(s, n, steps[0]), steps[1..], s'); }
  }

  /** In every run the counter is the number of frames since a stream was last installed or started, up to 2^32 - 1;
      and a frame that comes now is stored exactly if it is not one of the first two of them and has
      four bytes at least. */
  lemma WarmupExact(steps: seq<Step>, s: State, t: Thread, data: Bytes)
    requires Runs(INITIAL, steps, s) && Can(s, CountFrame(t, data))
    ensures s.dev.frames == Min(Count(INITIAL, 0, steps), 0xFFFF_FFFF)
    ensures var s1 := Do(s, CountFrame(t, data));
            && Can(s1, StoreFrame(t))
            && Do(s1, StoreFrame(t)).stored == s.stored + (if Count(INITIAL, 0, steps) >= 2 && |data| >= 4 then [data] else [])
  {
    CountKept(INITIAL, 0, steps, s);
  }

  /** A frame is stored or not by when it came, whatever happens between its coming and its storing. */
  lemma FramedStays(s: State, st: Step, t: Thread)
    requires Can(s, st) && st.t != t
    ensures At(Do(s, st), t) == At(s, t)
  {
  }

  /** Frames stored since the sequence was last reset, after one more step. */
  function StoredStep(s: State, n: nat, st: Step): nat {
    match st
    case ResetSequence(_) => 0
    case StoreFrame(t) => if At(s, t).Framed? && At(s, t).index >= 2 && |At(s, t).data| >= 4 then n + 1 else n
    case _ => n
  }

  function StoredSince(s: State, n: nat, steps: seq<Step>): nat
    decreases |steps|
  {
    if steps == [] || !Can(s, steps[0]) then n else StoredSince(Do(s, steps[0]), StoredStep(s, n, steps[0]), steps[1..])
  }

  /** The sequence number is the number of frames stored since it was reset by the last open. */
  lemma {:induction false} SequenceCounts(s: State, n: nat, steps: seq<Step>, s': State)
    requires Runs(s, steps, s') && s.seqno == n
    ensures s'.seqno == StoredSince(s, n, steps)
    decreases |steps|
  {
    if steps != [] { SequenceCounts(Do(s, steps[0]), StoredStep(s, n, steps[0]), steps[1..], s'); }
  }

  // ---- captured after the call ----

  /** Frames come from one driver task. */
  predicate OneDriver(steps: seq<Step>, driver: Thread) {
    forall st <- steps :: st.CountFrame? ==> st.t == driver
  }

  /** Frames are stored in the order they were captured, and the one in flight is the newest. */
  ghost predicate OrderInv(s: State, driver: Thread) {
    && |s.origins| == |s.stored|
    && (forall i, j :: 0 <= i < j < |s.origins| ==> s.origins[i] < s.origins[j])
    && (forall i :: 0 <= i < |s.origins| ==> s.origins[i] < s.captured)
    && (forall t <- s.pcs :: s.pcs[t].Framed? ==> t == driver && s.pcs[t].no + 1 == s.captured)
    && (At(s, driver).Framed? ==> forall i :: 0 <= i < |s.origins| ==> s.origins[i] < At(s, driver).no)
  }

  lemma OrderKept(s: State, st: Step, driver: Thread)
    requires OrderInv(s, driver) && Can(s, st) && (st.CountFrame? ==> st.t == driver)
    ensures OrderInv(Do(s, st), driver)
  {
    if !st.CountFrame? && !st.StoreFrame? { OrderOther(s, st, driver); }
  }

  lemma OrderOther(s: State, st: Step, driver: Thread)
    requires OrderInv(s, driver) && Can(s, st) && !st.CountFrame? && !st.StoreFrame?
    ensures OrderInv(Do(s, st), driver)
  {
    var s' := Do(s, st);
    assert s'.origins == s.origins && s'.stored == s.stored && s'.captured == s.captured;
    assert forall t <- s'.pcs :: s'.pcs[t].Framed? ==> t in s.pcs && s'.pcs[t] == s.pcs[t];
  }

  /** What is stored after a call, and what may still be, if a frame was in flight (`behind`) or not. */
  ghost predicate NewerInv(s: State, a: Ask, behind: bool, driver: Thread) {
    && a.from <= |s.origins| && a.captured <= s.captured
    && (forall i :: a.from <= i < |s.origins| ==> s.origins[i] + 1 >= a.captured)
    && (!behind ==> forall i :: a.from <= i < |s.origins| ==> s.origins[i] >= a.captured)
    && (Storable(At(s, driver)) ==> At(s, driver).no + 1 >= a.captured && (!behind ==> At(s, driver).no >= a.captured))
  }

  lemma {:induction false} NewerKept(s: State, steps: seq<Step>, s': State, a: Ask, behind: bool, driver: Thread)
    requires OrderInv(s, driver) && NewerInv(s, a, behind, driver) && Runs(s, steps, s') && OneDriver(steps, driver)
    ensures OrderInv(s', driver) && NewerInv(s', a, behind, driver)
    decreases |steps|
  {
    if steps != [] {
      OrderKept(s, steps[0], driver);
      NewerStep(s, steps[0], a, behind, driver);
      NewerKept(Do(s, steps[0]), steps[1..], s', a, behind, driver);
    }
  }

  lemma NewerStep(s: State, st: Step, a: Ask, behind: bool, driver: Thread)
    requires OrderInv(s, driver) && NewerInv(s, a, behind, driver) && Can(s, st) && (st.CountFrame? ==> st.t == driver)
    ensures NewerInv(Do(s, st), a, behind, driver)
  {
  }

  lemma {:induction false} RunOrder(s: State, steps: seq<Step>, s': State, driver: Thread)
    requires OrderInv(s, driver) && Runs(s, steps, s') && OneDriver(steps, driver)
    ensures OrderInv(s', driver)
    decreases |steps|
  {
    if steps != [] {
      OrderKept(s, steps[0], driver);
      RunOrder(Do(s, steps[0]), steps[1..], s', driver);
    }
  }

  /** The call is about to be answered with a frame captured before it was made. */
  predicate AnswersOld(s: State, t: Thread, a: Ask) {
    && t in s.asks && s.asks[t] == a && Can(s, AnswerFrame(t)) && |s.origins| == |s.stored| > 0
    && s.origins[|s.origins| - 1] < a.captured
  }

  /** A call can get a frame captured before it. */
  ghost predicate MayBeOld(s: State, t: Thread, skip: nat, driver: Thread)
    requires Can(s, AskFrame(t, skip))
  {
    var s1 := Do(s, AskFrame(t, skip));
    exists steps, s' :: Runs(s1, steps, s') && OneDriver(steps, driver) && AnswersOld(s', t, s1.asks[t])
  }

  /** In every reachable state of the camera with its one driver task, a snapshot is sure to be a frame
      captured after the call, as `snapshot` promises, if and only if it skips a frame or none is
      captured and waiting to be stored when it is made. A frame counts as captured when its callback
      has counted it, the first the program knows of it; the picture itself was taken before that. */
  lemma CapturedAfterIff(before: seq<Step>, s: State, t: Thread, skip: nat, driver: Thread)
    requires Runs(INITIAL, before, s) && OneDriver(before, driver) && Can(s, AskFrame(t, skip))
    ensures MayBeOld(s, t, skip, driver) <==> skip == 0 && Storable(At(s, driver))
  {
    RunOrder(INITIAL, before, s, driver);
    RunFrames(INITIAL, before, s);
    var s1 := Do(s, AskFrame(t, skip));
    if skip == 0 && Storable(At(s, driver)) { OldWitness(s, t, driver); }
    if MayBeOld(s, t, skip, driver) {
      var steps, s' :| Runs(s1, steps, s') && OneDriver(steps, driver) && AnswersOld(s', t, s1.asks[t]);
      NeverOld(s, t, skip, driver, steps, s');
    }
  }

  lemma NeverOld(s: State, t: Thread, skip: nat, driver: Thread, steps: seq<Step>, s': State)
    requires OrderInv(s, driver) && FrameInv(s) && Can(s, AskFrame(t, skip)) && Runs(Do(s, AskFrame(t, skip)), steps, s') && OneDriver(steps, driver)
    requires AnswersOld(s', t, Do(s, AskFrame(t, skip)).asks[t])
    ensures skip == 0 && Storable(At(s, driver))
  {
    var s1 := Do(s, AskFrame(t, skip));
    var a := s1.asks[t];
    FramesKept(s, AskFrame(t, skip));
    RunFrames(s1, steps, s');
    assert AskInv(s', a);
    OrderKept(s, AskFrame(t, skip), driver);
    NewerKept(s1, steps, s', a, Storable(At(s, driver)), driver);
    var n := |s'.origins| - 1;
    assert n >= a.from + skip;
    assert s'.origins[a.from] + 1 >= a.captured;
  }

  /** Stored late: the frame was captured before the call, stored after it, and is handed out. */
  lemma OldWitness(s: State, t: Thread, driver: Thread)
    requires OrderInv(s, driver) && Can(s, AskFrame(t, 0)) && Storable(At(s, driver))
    ensures MayBeOld(s, t, 0, driver)
  {
    var s1 := Do(s, AskFrame(t, 0));
    var st := StoreFrame(driver);
    var s2 := Do(s1, st);
    assert Runs(s2, [], s2) && [st][1..] == [];
    assert Runs(s1, [st], s2) && OneDriver([st], driver) && AnswersOld(s2, t, s1.asks[t]);
  }

  /** Ready for frames, with threads 1 and 2 doing nothing. */
  predicate Running(s: State) {
    At(s, 1) == Idle && At(s, 2) == Idle && 2 !in s.asks && s.called && s.resets > 0
  }

  lemma {:induction false} RunsJoin(s: State, a: seq<Step>, mid: State, b: seq<Step>, s': State)
    requires Runs(s, a, mid) && Runs(mid, b, s')
    ensures Runs(s, a + b, s')
    decreases |a|
  {
    if a == [] {
      assert a + b == b;
    } else {
      RunsJoin(Do(s, a[0]), a[1..], mid, b, s');
      assert (a + b)[1..] == a[1..] + b;
    }
  }

  lemma RunsOne(s: State, st: Step)
    requires Can(s, st)
    ensures Runs(s, [st], Do(s, st))
  {
    assert [st][1..] == [] && Runs(Do(s, st), [], Do(s, st));
  }

  lemma RunsMore(s: State, a: seq<Step>, mid: State, st: Step)
    requires Runs(s, a, mid) && Can(mid, st)
    ensures Runs(s, a + [st], Do(mid, st))
  {
    RunsOne(mid, st);
    RunsJoin(s, a, mid, [st], Do(mid, st));
  }

  /** The open: no stream, the driver's call, the handle installed, the sequence reset. */
  lemma OpenRuns(h: Handle) returns (steps: seq<Step>, s: State)
    ensures steps == [Check(OPENER), BeginOpen(OPENER), DriverOpens(OPENER, h), EndOpen(OPENER), ResetSequence(OPENER)]
    ensures Runs(INITIAL, steps, s) && Installed(s, h) && OneDriver(steps, 1)
  {
    var first, s2 := OpenBegins();
    var s3 := Do(s2, DriverOpens(OPENER, h));
    var s4 := Do(s3, EndOpen(OPENER));
    s := Do(s4, ResetSequence(OPENER));
    RunsMore(INITIAL, first, s2, DriverOpens(OPENER, h));
    RunsMore(INITIAL, first + [DriverOpens(OPENER, h)], s3, EndOpen(OPENER));
    RunsMore(INITIAL, first + [DriverOpens(OPENER, h)] + [EndOpen(OPENER)], s4, ResetSequence(OPENER));
    steps := first + [DriverOpens(OPENER, h)] + [EndOpen(OPENER)] + [ResetSequence(OPENER)];
  }

  lemma OpenBegins() returns (steps: seq<Step>, s: State)
    ensures steps == [Check(OPENER), BeginOpen(OPENER)] && Runs(INITIAL, steps, s)
    ensures s == INITIAL.(dev := Dev(None, true, false, 0), pcs := map[OPENER := Opening], holder := Some(OPENER))
  {
    var s1 := Do(INITIAL, Check(OPENER));
    s := Do(s1, BeginOpen(OPENER));
    RunsOne(INITIAL, Check(OPENER));
    RunsMore(INITIAL, [Check(OPENER)], s1, BeginOpen(OPENER));
    steps := [Check(OPENER)] + [BeginOpen(OPENER)];
  }

  /** A stream is open, and nobody is doing anything. */
  predicate Installed(s: State, h: Handle) {
    s.dev == Dev(Some(h), false, false, 0) && s.resets == 1 && s.pcs == map[OPENER := Idle] && s.asks == map[]
  }

  /** A first snapshot: it asks, and makes the driver call that starts the stream. */
  lemma StartRuns(s: State, h: Handle) returns (steps: seq<Step>, s': State)
    requires Installed(s, h)
    ensures steps == [AskFrame(3, 0), Claim(3), Release(3), StreamStarted(3)]
    ensures Runs(s, steps, s') && Running(s') && s'.dev.frames == 0 && OneDriver(steps, 1)
  {
    var mid := CallRuns(s, h);
    var s3 := Do(mid, Release(3));
    s' := Do(s3, StreamStarted(3));
    RunsOne(mid, Release(3));
    RunsMore(mid, [Release(3)], s3, StreamStarted(3));
    RunsJoin(s, [AskFrame(3, 0)] + [Claim(3)], mid, [Release(3)] + [StreamStarted(3)], s');
    steps := [AskFrame(3, 0), Claim(3), Release(3), StreamStarted(3)];
    assert [AskFrame(3, 0)] + [Claim(3)] + ([Release(3)] + [StreamStarted(3)]) == steps;
  }

  lemma CallRuns(s: State, h: Handle) returns (s': State)
    requires Installed(s, h)
    ensures Runs(s, [AskFrame(3, 0)] + [Claim(3)], s')
    ensures s'.dev == Dev(Some(h), true, false, 0) && s'.called && s'.resets == 1 && s'.pcs == map[OPENER := Idle, 3 := InCall(h)] && s'.asks.Keys == {3}
  {
    var mid := Do(s, AskFrame(3, 0));
    s' := Do(mid, Claim(3));
    RunsOne(s, AskFrame(3, 0));
    RunsMore(s, [AskFrame(3, 0)], mid, Claim(3));
  }

  /** A frame of the warm-up is counted and dropped. */
  lemma WarmUp(s: State, frame: Step) returns (s': State)
    requires frame.CountFrame? && frame.t == 1 && Running(s) && s.dev.frames < WARMUP_FRAMES
    ensures Runs(s, [frame] + [StoreFrame(1)], s') && Running(s') && s'.dev.frames == s.dev.frames + 1
  {
    var mid := Do(s, frame);
    s' := Do(mid, StoreFrame(1));
    RunsOne(s, frame);
    RunsMore(s, [frame], mid, StoreFrame(1));
  }

  /** The third frame after a start, past the warm-up, is captured and not yet stored. */
  lemma ThirdFrame(s: State, frame: Step) returns (steps: seq<Step>, s': State)
    requires Running(s) && s.dev.frames == 0 && frame.CountFrame? && frame.t == 1 && |frame.data| >= 4
    ensures steps == [frame, StoreFrame(1), frame, StoreFrame(1), frame]
    ensures Runs(s, steps, s') && Storable(At(s', 1)) && Can(s', AskFrame(2, 0)) && OneDriver(steps, 1)
  {
    var pair := [frame] + [StoreFrame(1)];
    var s2 := WarmUp(s, frame);
    var s4 := WarmUp(s2, frame);
    s' := Do(s4, frame);
    RunsMore(s2, pair, s4, frame);
    RunsJoin(s, pair, s2, pair + [frame], s');
    steps := [frame, StoreFrame(1), frame, StoreFrame(1), frame];
    assert pair + (pair + [frame]) == steps;
  }

  lemma OldAfter(first: seq<Step>, mid: State, more: seq<Step>, s: State, t: Thread, driver: Thread)
    requires Runs(INITIAL, first, mid) && Runs(mid, more, s) && OneDriver(first, driver) && OneDriver(more, driver)
    requires Can(s, AskFrame(t, 0)) && Storable(At(s, driver))
    ensures Runs(INITIAL, first + more, s) && OneDriver(first + more, driver) && MayBeOld(s, t, 0, driver)
  {
    RunsJoin(INITIAL, first, mid, more, s);
    CapturedAfterIff(first + more, s, t, 0, driver);
  }

  /** A run from the start: the stream is opened, a first snapshot starts it, a frame past the warm-up is
      captured, and a snapshot asked for then can be that frame, captured before it was asked for. */
  lemma SnapshotCanBeOld(h: Handle, jpeg: Bytes) returns (opening: seq<Step>, starting: seq<Step>, frames: seq<Step>, s: State)
    requires |jpeg| >= 4
    ensures opening == [Check(OPENER), BeginOpen(OPENER), DriverOpens(OPENER, h), EndOpen(OPENER), ResetSequence(OPENER)]
    ensures starting == [AskFrame(3, 0), Claim(3), Release(3), StreamStarted(3)]
    ensures frames == [CountFrame(1, jpeg), StoreFrame(1), CountFrame(1, jpeg), StoreFrame(1), CountFrame(1, jpeg)]
    ensures Runs(INITIAL, opening + starting + frames, s) && Can(s, AskFrame(2, 0)) && MayBeOld(s, 2, 0, 1)
  {
    var mid, started;
    opening, mid := OpenRuns(h);
    starting, started := StartRuns(mid, h);
    StartedRuns(opening, mid, starting, started);
    frames, s := ThirdFrame(started, CountFrame(1, jpeg));
    OldAfter(opening + starting, started, frames, s, 2, 1);
  }

  lemma StartedRuns(opening: seq<Step>, mid: State, starting: seq<Step>, s: State)
    requires Runs(INITIAL, opening, mid) && Runs(mid, starting, s) && OneDriver(opening, 1) && OneDriver(starting, 1)
    ensures Runs(INITIAL, opening + starting, s) && OneDriver(opening + starting, 1)
  {
    RunsJoin(INITIAL, opening, mid, starting, s);
  }
}
