/** The userspace TCP stack's shared state: connection buffers between callers and the poll
    thread, and the wake flag that must not let the poll thread sleep through work. */
module Netstack {
  import opened Common

  const USER_TX_LIMIT := 32 * 1024
  const USER_RX_LIMIT := 16 * 1024
  const INBOUND_LIMIT := 256
  const CHUNK := 1024

  // ---- one connection ----

  /** What the connection mutex guards, with its history: bytes `write_all` accepted, bytes handed
      to the socket, bytes received from it, bytes read by the caller; whether the socket was
      closed gracefully; and what changed since the poll thread last looked. */
  datatype Conn = Conn(
    rx: Bytes, tx: Bytes, peerClosed: bool, localClosed: bool, aborted: bool, dead: bool,
    accepted: Bytes, handed: Bytes, received: Bytes, taken: Bytes, sockClosed: bool,
    changed: bool, leftBehind: bool)

  const NEW_CONN := Conn([], [], false, false, false, false, [], [], [], [], false, false, false)

  function ReadCount(c: Conn, max: nat): nat {
    Min(max, |c.rx|)
  }

  function ReadFrom(c: Conn, max: nat): Conn {
    var n := ReadCount(c, max);
    c.(rx := c.rx[n..], taken := c.taken + c.rx[..n])
  }

  /** Readers wake the poll thread when the buffer had reached its limit. */
  predicate WasFull(c: Conn) {
    |c.rx| >= USER_RX_LIMIT
  }

  predicate CanWrite(c: Conn) {
    !c.dead && !c.localClosed && |c.tx| < USER_TX_LIMIT
  }

  function WriteCount(c: Conn, data: Bytes): nat {
    Min(Max(USER_TX_LIMIT - |c.tx|, 0), |data|)
  }

  function WriteTo(c: Conn, data: Bytes): Conn {
    var chunk := data[..WriteCount(c, data)];
    c.(tx := c.tx + chunk, accepted := c.accepted + chunk, changed := true)
  }

  /** One look of the poll thread at a connection: bytes taken from the socket, whether it still
      has some and whether taking stopped early, bytes the socket took, and the socket's state. */
  datatype Look = Look(got: Bytes, more: bool, broke: bool, sent: nat, isOpen: bool, mayRecv: bool, connecting: bool, finished: bool)

  /** Looks the draining loops can end in. */
  predicate LookOk(c: Conn, v: Look) {
    && v.sent <= |c.tx|
    && (v.got != [] ==> |c.rx| < USER_RX_LIMIT && |c.rx| + |v.got| < USER_RX_LIMIT + CHUNK)
    && (v.more && !v.broke ==> |c.rx| + |v.got| >= USER_RX_LIMIT)
  }

  predicate ClosesSocket(c: Conn, v: Look)
    requires v.sent <= |c.tx|
  {
    !c.aborted && c.localClosed && c.tx[v.sent..] == [] && v.isOpen
  }

  function Looked(c: Conn, v: Look): Conn
    requires v.sent <= |c.tx|
  {
    c.(rx := c.rx + v.got, received := c.received + v.got,
       tx := c.tx[v.sent..], handed := c.handed + c.tx[..v.sent],
       sockClosed := c.sockClosed || ClosesSocket(c, v),
       peerClosed := c.peerClosed || (!v.mayRecv && !v.connecting) || v.finished,
       dead := c.dead || v.finished,
       changed := false, leftBehind := v.more && |c.rx| + |v.got| >= USER_RX_LIMIT)
  }

  /** Conservation: nothing is lost, repeated or reordered in either direction, the buffers are
      bounded, and the socket is closed gracefully only when every accepted byte was handed over. */
  predicate ConnInv(c: Conn) {
    && c.accepted == c.handed + c.tx && |c.tx| <= USER_TX_LIMIT
    && c.received == c.taken + c.rx && |c.rx| < USER_RX_LIMIT + CHUNK
    && (c.sockClosed ==> c.localClosed && c.handed == c.accepted)
  }

  lemma ReadKeeps(c: Conn, max: nat)
    requires ConnInv(c)
    ensures ConnInv(ReadFrom(c, max))
  {
    var n := ReadCount(c, max);
    assert c.rx == c.rx[..n] + c.rx[n..];
  }

  lemma WriteKeeps(c: Conn, data: Bytes)
    requires ConnInv(c) && CanWrite(c)
    ensures ConnInv(WriteTo(c, data))
  {
  }

  lemma LookKeeps(c: Conn, v: Look)
    requires ConnInv(c) && LookOk(c, v)
    ensures ConnInv(Looked(c, v))
  {
    assert c.tx == c.tx[..v.sent] + c.tx[v.sent..];
    if c.sockClosed { assert c.tx == []; }
  }

  // ---- the code ----

  /** The socket as the poll loop sees it: bytes that can be received, and whatever it makes of
      the calls. How much one call moves is up to the socket (`grants`, one entry a call). */
  class Socket {
    var readable: Bytes
    ghost var outbox: Bytes
    var grants: seq<nat>

    constructor (readable: Bytes, grants: seq<nat>)
      ensures this.readable == readable && this.grants == grants && outbox == []
    {
      this.readable, this.grants, outbox := readable, grants, [];
    }

    method Grant(limit: nat) returns (n: nat)
      modifies this`grants
      ensures n <= limit && |grants| <= |old(grants)| && (n > 0 ==> |grants| < |old(grants)|)
    {
      if grants == [] { return 0; }
      n := Min(grants[0], limit);
      grants := grants[1..];
    }

    method RecvSlice(max: nat) returns (b: Bytes)
      modifies this`readable, this`grants
      ensures |b| <= max && old(readable) == b + readable && |grants| <= |old(grants)|
      ensures b != [] ==> |grants| < |old(grants)|
    {
      var n := Grant(Min(max, |readable|));
      b := readable[..n];
      readable := readable[n..];
    }

    method SendSlice(b: Bytes) returns (n: nat)
      modifies this`outbox, this`grants
      ensures n <= |b| && outbox == old(outbox) + b[..n] && |grants| <= |old(grants)|
      ensures n > 0 ==> |grants| < |old(grants)|
    {
      n := Grant(|b|);
      outbox := outbox + b[..n];
    }
  }

  class ConnState {
    var rx: Bytes
    var tx: Bytes
    var peerClosed: bool
    var localClosed: bool
    var aborted: bool
    var dead: bool
    ghost var accepted: Bytes
    ghost var handed: Bytes
    ghost var received: Bytes
    ghost var taken: Bytes
    ghost var sockClosed: bool
    ghost var changed: bool
    ghost var leftBehind: bool

    ghost function View(): Conn
      reads this
    {
      Conn(rx, tx, peerClosed, localClosed, aborted, dead, accepted, handed, received, taken, sockClosed, changed, leftBehind)
    }

    constructor ()
      ensures View() == NEW_CONN
    {
      rx, tx, peerClosed, localClosed, aborted, dead := [], [], false, false, false, false;
      accepted, handed, received, taken, sockClosed, changed, leftBehind := [], [], [], [], false, false, false;
    }

    /** The lock-held part of `read`; `wake` says whether the caller must wake the poll thread. */
    method Read(max: nat) returns (bytes: Bytes, wake: bool)
      modifies this`rx, this`taken
      ensures View() == ReadFrom(old(View()), max)
      ensures bytes == old(rx)[..ReadCount(old(View()), max)] && wake == WasFull(old(View()))
    {
      var n := Min(max, |rx|);
      bytes := rx[..n];
      taken := taken + rx[..n];
      rx := rx[n..];
      wake := |rx| + n >= USER_RX_LIMIT;
    }

    /** The lock-held part of one round of `write_all`: bytes accepted, or None when closed. */
    method Write(data: Bytes) returns (n: Option<nat>)
      modifies this`tx, this`accepted, this`changed
      ensures n.None? <==> dead || localClosed
      ensures n.None? || |old(tx)| >= USER_TX_LIMIT ==> View() == old(View())
      ensures n.Some? ==> n.value == WriteCount(old(View()), data)
      ensures CanWrite(old(View())) ==> View() == WriteTo(old(View()), data)
    {
      if dead || localClosed { return None; }
      var room := if |tx| < USER_TX_LIMIT then USER_TX_LIMIT - |tx| else 0;
      if room == 0 { return Some(0); }
      var k := Min(room, |data|);
      tx := tx + data[..k];
      accepted := accepted + data[..k];
      changed := true;
      n := Some(k);
    }

    method Drain(sock: Socket) returns (ghost got: Bytes, broke: bool)
      modifies this`rx, this`received, sock`readable, sock`grants
      ensures rx == old(rx) + got && received == old(received) + got && old(sock.readable) == got + sock.readable
      ensures got != [] ==> |old(rx)| < USER_RX_LIMIT && |rx| < USER_RX_LIMIT + CHUNK
      ensures sock.readable != [] && !broke ==> |rx| >= USER_RX_LIMIT
    {
      got, broke := [], false;
      while sock.readable != [] && |rx| < USER_RX_LIMIT
        invariant rx == old(rx) + got && received == old(received) + got && old(sock.readable) == got + sock.readable
        invariant got != [] ==> |old(rx)| < USER_RX_LIMIT && |rx| < USER_RX_LIMIT + CHUNK
        decreases |sock.grants|
      {
        var b := sock.RecvSlice(CHUNK);
        if b == [] {
          broke := true;
          break;
        }
        rx := rx + b;
        received := received + b;
        got := got + b;
      }
    }

    /** `split` is where the deque's first slice ends, up to the whole of it. */
    method Push(sock: Socket, split: nat) returns (ghost sent: nat)
      requires 1 <= split
      modifies this`tx, this`handed, sock`outbox, sock`grants
      ensures sent <= |old(tx)| && tx == old(tx)[sent..] && handed == old(handed) + old(tx)[..sent]
      ensures sock.outbox == old(sock.outbox) + old(tx)[..sent]
    {
      sent := 0;
      while tx != []
        invariant sent <= |old(tx)| && tx == old(tx)[sent..] && handed == old(handed) + old(tx)[..sent]
        invariant sock.outbox == old(sock.outbox) + old(tx)[..sent]
        decreases |sock.grants|
      {
        var chunkLen := Min(Min(split, |tx|), CHUNK);
        var n := sock.SendSlice(tx[..chunkLen]);
        if n == 0 { break; }
        assert tx[..chunkLen][..n] == tx[..n] == old(tx)[sent..sent + n];
        assert old(tx)[..sent] + old(tx)[sent..sent + n] == old(tx)[..sent + n];
        handed := handed + tx[..n];
        tx := tx[n..];
        sent := sent + n;
      }
    }

    /** One look of the poll thread. Returns whether the socket is to be aborted or closed. */
    method Visit(sock: Socket, split: nat, isOpen: bool, mayRecv: bool, connecting: bool, finished: bool)
      returns (ghost v: Look, abort: bool, close: bool)
      requires 1 <= split
      modifies this, sock
      ensures LookOk(old(View()), v) && View() == Looked(old(View()), v)
      ensures old(sock.readable) == v.got + sock.readable && sock.outbox == old(sock.outbox) + old(tx)[..v.sent]
      ensures abort == old(aborted) && close == ClosesSocket(old(View()), v)
    {
      ghost var got, broke := Drain(sock);
      ghost var sent := Push(sock, split);
      v := Look(got, sock.readable != [], broke, sent, isOpen, mayRecv, connecting, finished);
      abort := aborted;
      close := Settle(isOpen, mayRecv, connecting, finished, sock.readable != []);
    }

    method Settle(isOpen: bool, mayRecv: bool, connecting: bool, finished: bool, more: bool) returns (close: bool)
      modifies this`sockClosed, this`peerClosed, this`dead, this`changed, this`leftBehind
      ensures close <==> !aborted && localClosed && tx == [] && isOpen
      ensures sockClosed == (old(sockClosed) || close)
      ensures peerClosed == (old(peerClosed) || (!mayRecv && !connecting) || finished)
      ensures dead == (old(dead) || finished)
      ensures !changed && leftBehind == (more && |rx| >= USER_RX_LIMIT)
    {
      close := !aborted && localClosed && tx == [] && isOpen;
      sockClosed := sockClosed || close;
      if !mayRecv && !connecting { peerClosed := true; }
      if finished {
        dead := true;
        peerClosed := true;
      }
      changed := false;
      leftBehind := more && |rx| >= USER_RX_LIMIT;
    }
  }

  // ---- the whole stack ----

  type Thread = nat
  type ConnId = nat

  /** What the stack mutex guards (addresses and listeners as what is waiting to be taken up). */
  datatype Stack = Stack(inbound: seq<Bytes>, addrsDirty: bool, newListeners: seq<nat>, newConnects: seq<ConnId>, shutdown: bool, wake: bool)

  /** Where the poll thread is. */
  datatype Poller =
    | Ready                              // about to pull work
    | Adopting(connects: seq<ConnId>)    // turning pulled connects and accepted sockets into connections
    | Passing(next: nat)                 // looking at its connections one by one
    | Sleeping
    | Stopped

  /** `owing` holds the callers between their buffer change and their wake call. */
  datatype System = System(stack: Stack, conns: map<ConnId, Conn>, active: seq<ConnId>, poller: Poller, owing: map<Thread, ConnId>)

  const INITIAL := System(Stack([], false, [], [], false, false), map[], [], Ready, map[])

  predicate Waiting(st: Stack) {
    st.inbound != [] || st.addrsDirty || st.newListeners != [] || st.newConnects != []
  }

  datatype Step =
    | Inject(pkt: Bytes)
    | SetAddresses
    | Listen(port: nat)
    | Connect(c: ConnId)
    | Shutdown
    | Reads(t: Thread, c: ConnId, max: nat)
    | Writes(t: Thread, c: ConnId, data: Bytes)
    | Closes(t: Thread, c: ConnId, abort: bool)
    | Wakes(t: Thread)
    | ListenerDropped
    | Pull
    | Adopt(ok: bool)
    | Accept(c: ConnId)
    | BeginPass
    | LookAt(v: Look)
    | EndPass
    | WakeUp

  predicate Can(s: System, st: Step) {
    match st
    case Connect(c) => c !in s.conns
    case Reads(t, c, max) => t !in s.owing && c in s.conns && s.conns[c].rx != []
    case Writes(t, c, data) => t !in s.owing && c in s.conns && CanWrite(s.conns[c])
    case Closes(t, c, abort) => t !in s.owing && c in s.conns
    case Wakes(t) => t in s.owing
    case Pull => s.poller == Ready
    case Adopt(ok) => s.poller.Adopting? && s.poller.connects != [] && s.poller.connects[0] in s.conns
    case Accept(c) => s.poller == Adopting([]) && c !in s.conns
    case BeginPass => s.poller == Adopting([])
    case LookAt(v) => s.poller.Passing? && s.poller.next < |s.active| && s.active[s.poller.next] in s.conns
                      && LookOk(s.conns[s.active[s.poller.next]], v)
    case EndPass => s.poller.Passing? && s.poller.next >= |s.active|
    case WakeUp => s.poller == Sleeping
    case _ => true
  }

  function Do(s: System, st: Step): System
    requires Can(s, st)
  {
    var k := s.stack;
    match st
    case Inject(pkt) =>
      s.(stack := k.(inbound := if |k.inbound| < INBOUND_LIMIT then k.inbound + [pkt] else k.inbound, wake := true))
    case SetAddresses => s.(stack := k.(addrsDirty := true, wake := true))
    case Listen(port) => s.(stack := k.(newListeners := k.newListeners + [port], wake := true))
    case Connect(c) => s.(stack := k.(newConnects := k.newConnects + [c], wake := true), conns := s.conns[c := NEW_CONN])
    case Shutdown => s.(stack := k.(shutdown := true, wake := true))
    case Reads(t, c, max) =>
      s.(conns := s.conns[c := ReadFrom(s.conns[c], max)], owing := if WasFull(s.conns[c]) then s.owing[t := c] else s.owing)
    case Writes(t, c, data) => s.(conns := s.conns[c := WriteTo(s.conns[c], data)], owing := s.owing[t := c])
    case Closes(t, c, abort) =>
      s.(conns := s.conns[c := s.conns[c].(localClosed := true, aborted := abort || s.conns[c].aborted, changed := true)], owing := s.owing[t := c])
    case Wakes(t) => s.(stack := k.(wake := true), owing := s.owing - {t})
    case ListenerDropped => s.(stack := k.(wake := true))
    case Pull =>
      if k.shutdown then s.(poller := Stopped)
      else s.(stack := Stack([], false, [], [], false, false), poller := Adopting(k.newConnects))
    case Adopt(ok) =>
      var c := s.poller.connects[0];
      var rest := Adopting(s.poller.connects[1..]);
      if ok then s.(active := s.active + [c], poller := rest)
      else s.(conns := s.conns[c := s.conns[c].(dead := true)], poller := rest)
    case Accept(c) => s.(conns := s.conns[c := NEW_CONN], active := s.active + [c])
    case BeginPass => s.(poller := Passing(0))
    case LookAt(v) =>
      var i := s.poller.next;
      var c := s.active[i];
      var s1 := s.(conns := s.conns[c := Looked(s.conns[c], v)]);
      if v.finished then s1.(active := s.active[..i] + s.active[i + 1..]) else s1.(poller := Passing(i + 1))
    case EndPass => s.(poller := if k.wake || k.shutdown then Ready else Sleeping)
    case WakeUp => s.(poller := Ready)
  }

  predicate Runs(s: System, steps: seq<Step>, s': System)
    decreases |steps|
  {
    if steps == [] then s' == s else Can(s, steps[0]) && Runs(Do(s, steps[0]), steps[1..], s')
  }

  // ---- invariants ----

  /** A connection the poll thread ought to look at: something changed since it last did, or it
      left data in the socket because the buffer was full and there is room now. */
  predicate NeedsLook(c: Conn) {
    !c.dead && (c.changed || (c.leftBehind && |c.rx| < USER_RX_LIMIT))
  }

  ghost predicate CallerOwes(s: System, c: ConnId) {
    exists t :: t in s.owing && s.owing[t] == c
  }

  /** The poll thread will come to the connection before it can sleep. */
  predicate WillLook(s: System, c: ConnId) {
    match s.poller
    case Ready => true
    case Adopting(_) => true
    case Passing(i) => i <= |s.active| && c in s.active[i..]
    case _ => false
  }

  ghost predicate Covered(s: System, c: ConnId) {
    s.stack.wake || s.stack.shutdown || CallerOwes(s, c) || WillLook(s, c)
  }

  predicate Known(s: System, c: ConnId) {
    c in s.active || c in s.stack.newConnects || (s.poller.Adopting? && c in s.poller.connects)
  }

  ghost predicate Inv(s: System) {
    && (Waiting(s.stack) ==> s.stack.wake || s.stack.shutdown)
    && (forall c <- s.conns :: ConnInv(s.conns[c]))
    && (forall c <- s.conns :: !s.conns[c].dead ==> s.poller == Stopped || Known(s, c))
    && (forall c <- s.conns :: NeedsLook(s.conns[c]) ==> Covered(s, c))
    && (s.poller == Stopped ==> s.stack.shutdown)
  }

  predicate StackStep(st: Step) {
    st.Inject? || st.SetAddresses? || st.Listen? || st.Connect? || st.Shutdown? || st.ListenerDropped?
  }

  predicate CallerStep(st: Step) {
    st.Reads? || st.Writes? || st.Closes? || st.Wakes?
  }

  lemma ConnsKept(s: System, st: Step)
    requires Inv(s) && Can(s, st)
    ensures forall c <- Do(s, st).conns :: ConnInv(Do(s, st).conns[c])
  {
    match st
    case Reads(t, c, max) => ReadKeeps(s.conns[c], max);
    case Writes(t, c, data) => WriteKeeps(s.conns[c], data);
    case LookAt(v) => LookKeeps(s.conns[s.active[s.poller.next]], v);
    case _ =>
  }

  lemma KnownKept(s: System, st: Step, c: ConnId)
    requires Inv(s) && Can(s, st) && c in Do(s, st).conns && !Do(s, st).conns[c].dead
    ensures Do(s, st).poller == Stopped || Known(Do(s, st), c)
  {
    match st
    case Adopt(ok) => assert s.poller.connects == [s.poller.connects[0]] + s.poller.connects[1..];
    case LookAt(v) => KnownLook(s, v, c);
    case _ =>
  }

  lemma KnownLook(s: System, v: Look, c: ConnId)
    requires Inv(s) && Can(s, LookAt(v)) && c in s.conns && !Do(s, LookAt(v)).conns[c].dead
    ensures Known(Do(s, LookAt(v)), c)
  {
    var i := s.poller.next;
    assert !s.conns[c].dead && Known(s, c);
    if v.finished {
      assert c != s.active[i];
      assert s.active == s.active[..i] + [s.active[i]] + s.active[i + 1..];
    }
  }

  /** Work a step leaves at a connection is covered afterwards. */
  lemma CoveredKept(s: System, st: Step, c: ConnId)
    requires Inv(s) && Can(s, st) && c in Do(s, st).conns && NeedsLook(Do(s, st).conns[c])
    ensures Covered(Do(s, st), c)
  {
    if StackStep(st) {
    } else if CallerStep(st) {
      CoveredByCaller(s, st, c);
    } else {
      CoveredByPoller(s, st, c);
    }
  }

  lemma CoveredByCaller(s: System, st: Step, c: ConnId)
    requires Inv(s) && Can(s, st) && c in Do(s, st).conns && NeedsLook(Do(s, st).conns[c]) && CallerStep(st)
    ensures Covered(Do(s, st), c)
  {
    var s' := Do(s, st);
    if !st.Wakes? {
      if NeedsLook(s.conns[c]) && CallerOwes(s, c) {
        var t :| t in s.owing && s.owing[t] == c;
        assert s'.owing[t] == c;
      }
      if c == st.c && (st.Writes? || st.Closes? || WasFull(s.conns[c])) { assert s'.owing[st.t] == c; }
    }
  }

  lemma CoveredByPoller(s: System, st: Step, c: ConnId)
    requires Inv(s) && Can(s, st) && c in Do(s, st).conns && NeedsLook(Do(s, st).conns[c])
    requires !StackStep(st) && !CallerStep(st)
    ensures Covered(Do(s, st), c)
  {
    var s' := Do(s, st);
    assert s'.owing == s.owing;
    match st
    case BeginPass => assert s.active[0..] == s.active;
    case LookAt(v) =>
      var i := s.poller.next;
      assert s.active[i..] == [s.active[i]] + s.active[i + 1..];
      if v.finished { assert s'.active[i..] == s.active[i + 1..]; }
    case EndPass => if s.poller.next <= |s.active| { assert s.active[s.poller.next..] == []; }
    case _ =>
  }

  lemma InvKept(s: System, st: Step)
    requires Inv(s) && Can(s, st)
    ensures Inv(Do(s, st))
  {
    ConnsKept(s, st);
    forall c <- Do(s, st).conns ensures !Do(s, st).conns[c].dead ==> Do(s, st).poller == Stopped || Known(Do(s, st), c) {
      if !Do(s, st).conns[c].dead { KnownKept(s, st, c); }
    }
    forall c <- Do(s, st).conns ensures NeedsLook(Do(s, st).conns[c]) ==> Covered(Do(s, st), c) {
      if NeedsLook(Do(s, st).conns[c]) { CoveredKept(s, st, c); }
    }
  }

  lemma {:induction false} RunKeeps(s: System, steps: seq<Step>, s': System)
    requires Inv(s) && Runs(s, steps, s')
    ensures Inv(s')
    decreases |steps|
  {
    if steps != [] {
      InvKept(s, steps[0]);
      RunKeeps(Do(s, steps[0]), steps[1..], s');
    }
  }

  // ---- theorems ----

  /** Whenever the stack lock is free, work waiting for the poll thread has it woken or shut down;
      and while it sleeps, every connection it ought to look at has the wake flag set, the stack
      shut down, or a caller of that very connection on its way to set the flag. */
  lemma NeverSleepsThroughWork(steps: seq<Step>, s: System)
    requires Runs(INITIAL, steps, s)
    ensures Waiting(s.stack) ==> s.stack.wake || s.stack.shutdown
    ensures s.poller == Sleeping ==> forall c <- s.conns :: NeedsLook(s.conns[c]) ==>
              s.stack.wake || s.stack.shutdown || CallerOwes(s, c)
  {
    RunKeeps(INITIAL, steps, s);
  }

  /** Per connection, in every interleaving: bytes handed to the socket are a prefix of the bytes
      accepted, bytes read a prefix of the bytes received, with exactly the buffers in between and
      the buffers bounded; after a graceful close every accepted byte has been handed over. */
  lemma BytesConserved(steps: seq<Step>, s: System, c: ConnId)
    requires Runs(INITIAL, steps, s) && c in s.conns
    ensures var k := s.conns[c];
            && k.handed <= k.accepted && k.accepted[|k.handed|..] == k.tx && |k.tx| <= 32768
            && k.taken <= k.received && k.received[|k.taken|..] == k.rx && |k.rx| <= 16384 + 1023
            && (k.sockClosed ==> k.handed == k.accepted && !CanWrite(k))
  {
    RunKeeps(INITIAL, steps, s);
    assert ConnInv(s.conns[c]);
  }

  /** A connection closed gracefully accepts and hands over nothing more, however the run goes on. */
  lemma {:induction false} ClosedIsFinal(s: System, steps: seq<Step>, s': System, c: ConnId)
    requires Inv(s) && Runs(s, steps, s') && c in s.conns && s.conns[c].sockClosed
    ensures c in s'.conns && s'.conns[c].sockClosed
    ensures s'.conns[c].accepted == s.conns[c].accepted && s'.conns[c].handed == s.conns[c].handed
    decreases |steps|
  {
    if steps != [] {
      InvKept(s, steps[0]);
      ClosedStep(s, steps[0], c);
      ClosedIsFinal(Do(s, steps[0]), steps[1..], s', c);
    }
  }

  lemma ClosedStep(s: System, st: Step, c: ConnId)
    requires Inv(s) && Can(s, st) && c in s.conns && s.conns[c].sockClosed
    ensures var s' := Do(s, st);
            && c in s'.conns && s'.conns[c].sockClosed
            && s'.conns[c].accepted == s.conns[c].accepted && s'.conns[c].handed == s.conns[c].handed
  {
    assert ConnInv(s.conns[c]);
    assert s.conns[c].tx == [];
  }

  /** A read takes the next bytes received, as many as it asked for or all there are. */
  lemma ReadMost(c: Conn, max: nat)
    ensures var c' := ReadFrom(c, max);
            && c.taken <= c'.taken && c.rx == c'.taken[|c.taken|..] + c'.rx
            && |c'.taken| - |c.taken| <= max && (|c'.taken| - |c.taken| == max || c'.rx == [])
  {
    var n := ReadCount(c, max);
    assert c.rx == c.rx[..n] + c.rx[n..];
  }

  /** A write takes the front of its data, all of it or as much as fills the buffer to 32 KiB. */
  lemma WriteMost(c: Conn, data: Bytes)
    requires |c.tx| <= 32_768
    ensures var c' := WriteTo(c, data);
            && c.accepted <= c'.accepted && c'.accepted[|c.accepted|..] <= data && c'.tx == c.tx + c'.accepted[|c.accepted|..]
            && |c'.tx| <= 32_768 && (|c'.tx| == 32_768 || c'.accepted == c.accepted + data)
  {
  }

  /** Waiting packets are never more than 256: one more is dropped exactly when that many wait, and the others stay. */
  lemma {:induction false} InboundBounded(s: System, steps: seq<Step>, s': System)
    requires |s.stack.inbound| <= 256 && Runs(s, steps, s')
    ensures |s'.stack.inbound| <= 256
    decreases |steps|
  {
    if steps != [] { InboundBounded(Do(s, steps[0]), steps[1..], s'); }
  }

  lemma InjectExact(s: System, pkt: Bytes)
    ensures Do(s, Inject(pkt)).stack.inbound == if |s.stack.inbound| < 256 then s.stack.inbound + [pkt] else s.stack.inbound
  {
  }

  /** A connection aborted before it was closed gracefully is never closed so, however the run goes on. */
  lemma {:induction false} AbortedStays(s: System, steps: seq<Step>, s': System, c: ConnId)
    requires Runs(s, steps, s') && c in s.conns && s.conns[c].aborted && !s.conns[c].sockClosed
    ensures c in s'.conns && s'.conns[c].aborted && !s'.conns[c].sockClosed
    decreases |steps|
  {
    if steps != [] { AbortedStays(Do(s, steps[0]), steps[1..], s', c); }
  }

  /** The poll thread falls asleep exactly if it was neither woken nor shut down in the meantime, and then nothing
      waits for it and no connection needs a look, but for those whose caller is about to wake it. */
  lemma FallsAsleepIdle(steps: seq<Step>, s: System)
    requires Runs(INITIAL, steps, s) && Can(s, EndPass)
    ensures var s' := Do(s, EndPass);
            && (s'.poller == Sleeping <==> !s.stack.wake && !s.stack.shutdown)
            && (s'.poller == Sleeping ==> !Waiting(s'.stack) && forall c <- s'.conns :: NeedsLook(s'.conns[c]) ==> CallerOwes(s', c))
  {
    RunKeeps(INITIAL, steps, s);
    InvKept(s, EndPass);
  }

  predicate TakesNothingUp(p: Poller) {
    p == Ready || p == Sleeping || p == Stopped
  }

  /** A stack shut down stays so, and from between two passes the poll thread takes up nothing any more. */
  lemma {:induction false} ShutdownFinal(s: System, steps: seq<Step>, s': System)
    requires Runs(s, steps, s') && s.stack.shutdown
    ensures s'.stack.shutdown && (TakesNothingUp(s.poller) ==> TakesNothingUp(s'.poller))
    decreases |steps|
  {
    if steps != [] { ShutdownFinal(Do(s, steps[0]), steps[1..], s'); }
  }
}
