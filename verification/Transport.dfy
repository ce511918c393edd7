/** A byte stream between two ends. How many bytes each read returns is up to the transport. */
module Transport {
  import opened Common

  datatype Read = Data(bytes: Bytes) | Eof | TimedOut | Failed

  /** What `read_exact` gets of `n` bytes, of `have` still to come, before a read does not deliver; and
      what the transport will do after it. */
  function Gather(have: nat, script: seq<nat>, n: nat): (nat, seq<nat>)
    decreases |script|
  {
    if n == 0 || script == [] then (0, script) else
    if script[0] == 0 then (0, script[1..]) else
    if have == 0 then (0, script) else
    var k := Min(Min(script[0], n), have);
    var (t, s) := Gather(have - k, script[1..], n - k);
    (k + t, s)
  }

  lemma {:induction false} GatherFits(have: nat, script: seq<nat>, n: nat)
    ensures Gather(have, script, n).0 <= n && Gather(have, script, n).0 <= have
    decreases |script|
  {
    if n > 0 && script != [] && script[0] > 0 && have > 0 {
      var k := Min(Min(script[0], n), have);
      GatherFits(have - k, script[1..], n - k);
    }
  }

  class Conn {
    var unread: Bytes
    var written: Bytes
    /** What coming reads will do: time out (0), return at most this many bytes, and fail when it ends. */
    var script: seq<nat>
    /** Some read timed out or failed. */
    var failed: bool

    constructor (arriving: Bytes, behaviour: seq<nat>)
      ensures unread == arriving && written == [] && script == behaviour && !failed
    {
      unread, written, script, failed := arriving, [], behaviour, false;
    }

    /** Returns some next bytes, in order, at most `max` of them. */
    method Receive(max: nat) returns (r: Read)
      requires max > 0
      modifies this`unread, this`script, this`failed
      ensures match r
              case Data(b) => 0 < |b| <= max && old(unread) == b + unread
              case Eof => unread == old(unread) == []
              case TimedOut => unread == old(unread) && failed
              case Failed => unread == old(unread) && failed
      ensures r.Data? ==> |script| < |old(script)|
      ensures old(script) == [] ==> r.Failed? && script == []
      ensures old(script) != [] && old(script)[0] == 0 ==> r.TimedOut? && script == old(script)[1..]
      ensures old(script) != [] && old(script)[0] > 0 && old(unread) == [] ==> r.Eof? && script == old(script)
      ensures old(script) != [] && old(script)[0] > 0 && old(unread) != [] ==>
                r.Data? && |r.bytes| == Min(Min(old(script)[0], max), |old(unread)|) && script == old(script)[1..]
    {
      if script == [] {
        failed := true;
        return Failed;
      }
      if script[0] == 0 {
        failed := true;
        script := script[1..];
        return TimedOut;
      }
      if unread == [] { return Eof; }
      var n := Min(Min(script[0], max), |unread|);
      script := script[1..];
      r := Data(unread[..n]);
      unread := unread[n..];
    }

    /** A read with no bound of its own. */
    method ReceiveAny() returns (r: Read)
      modifies this`unread, this`script, this`failed
      ensures match r
              case Data(b) => 0 < |b| && old(unread) == b + unread
              case Eof => unread == old(unread) == []
              case TimedOut => unread == old(unread) && failed
              case Failed => unread == old(unread) && failed
      ensures r.Data? ==> |script| < |old(script)|
    {
      r := Receive(|unread| + 1);
    }

    /** `read_exact`: exactly the next `n` bytes. When a read in between does not deliver, what was taken
        until then is lost. */
    method ReceiveExact(n: nat) returns (r: Option<Bytes>)
      modifies this`unread, this`script, this`failed
      ensures var (t, s) := Gather(|old(unread)|, old(script), n);
              && t <= |old(unread)| && unread == old(unread)[t..] && script == s
              && r == if t == n then Some(old(unread)[..n]) else None
      ensures r.None? ==> failed || unread == []
    {
      GatherFits(|unread|, script, n);
      var got: Bytes := [];
      while |got| < n
        invariant |got| <= n && old(unread) == got + unread
        invariant Gather(|old(unread)|, old(script), n) == (|got| + Gather(|unread|, script, n - |got|).0, Gather(|unread|, script, n - |got|).1)
        decreases n - |got|
      {
        var r := Receive(n - |got|);
        if !r.Data? { return None; }
        got := got + r.bytes;
      }
      return Some(got);
    }

    method Send(bytes: Bytes)
      modifies this`written
      ensures written == old(written) + bytes
    {
      written := written + bytes;
    }
  }
}
