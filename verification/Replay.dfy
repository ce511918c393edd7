/** The anti-replay window of a WireGuard session: a ring of 32 words that slides
    over the counters (section 2 of RFC 6479), proved equal to a plain set. */
module Replay {

  const REPLAY_WORDS := 32
  const REPLAY_BITS := 1984

  /** The reference: the highest counter and the set of every counter accepted so far. */
  datatype Window = Window(last: nat, seen: set<nat>)

  const EMPTY := Window(0, {})

  predicate Fresh(w: Window, counter: nat) {
    counter > w.last || (w.last - counter < REPLAY_BITS && counter !in w.seen)
  }

  function Note(w: Window, counter: nat): Window {
    Window(if counter > w.last then counter else w.last, w.seen + {counter})
  }

  // ---- the ring ----

  function Bit(k: nat): bv64
    requires k < 64
  {
    (1 as bv64) << k
  }

  lemma SetBit(w: bv64, j: nat, k: nat)
    requires j < 64 && k < 64
    ensures ((w | Bit(j)) & Bit(k) != 0) <==> (w & Bit(k) != 0 || j == k)
  {
  }

  function WordOf(counter: nat): (i: nat)
    ensures i < REPLAY_WORDS
  {
    (counter / 64) % REPLAY_WORDS
  }

  predicate Marked(bits: seq<bv64>, counter: nat)
    requires |bits| == REPLAY_WORDS
  {
    bits[WordOf(counter)] & Bit(counter % 64) != 0
  }

  /** Counters the ring still decides by their bit: up to the end of the newest word,
      and less than REPLAY_BITS behind the highest counter. */
  predicate Held(last: nat, counter: nat) {
    counter / 64 <= last / 64 && last < counter + REPLAY_BITS
  }

  /** The ring represents the reference window. */
  ghost predicate Represents(bits: seq<bv64>, w: Window)
    requires |bits| == REPLAY_WORDS
  {
    && (forall c <- w.seen :: c <= w.last)
    && (forall c: nat | Held(w.last, c) :: Marked(bits, c) <==> c in w.seen)
  }

  /** Two counters of one ring span sit in different words unless they share theirs. */
  lemma WordsApart(c: nat, d: nat)
    requires c / 64 <= d / 64 < c / 64 + REPLAY_WORDS
    ensures WordOf(c) == WordOf(d) <==> c / 64 == d / 64
  {
  }

  function MarkedAt(bits: seq<bv64>, counter: nat): seq<bv64>
    requires |bits| == REPLAY_WORDS
  {
    bits[WordOf(counter) := bits[WordOf(counter)] | Bit(counter % 64)]
  }

  lemma MarkOne(bits: seq<bv64>, counter: nat, last: nat, c: nat)
    requires |bits| == REPLAY_WORDS && Held(last, counter) && Held(last, c)
    ensures Marked(MarkedAt(bits, counter), c) <==> Marked(bits, c) || c == counter
  {
    if c / 64 <= counter / 64 { WordsApart(c, counter); } else { WordsApart(counter, c); }
    if WordOf(c) == WordOf(counter) { SetBit(bits[WordOf(counter)], counter % 64, c % 64); }
  }

  lemma MarkRepresents(bits: seq<bv64>, counter: nat, w: Window)
    requires |bits| == REPLAY_WORDS && Represents(bits, w) && Held(w.last, counter) && counter <= w.last
    ensures Represents(MarkedAt(bits, counter), Window(w.last, w.seen + {counter}))
  {
    forall c: nat | Held(w.last, c) ensures Marked(MarkedAt(bits, counter), c) <==> c in w.seen + {counter} {
      MarkOne(bits, counter, w.last, c);
    }
  }

  /** After the words between two counters are cleared, every counter the new window
      holds is marked exactly when it was marked at or below the old highest counter. */
  lemma Slide(bits: seq<bv64>, cleared: seq<bv64>, w: Window, counter: nat)
    requires |bits| == |cleared| == REPLAY_WORDS
    requires Represents(bits, w)
    requires w.last < counter < w.last + REPLAY_BITS
    requires forall i :: 0 <= i < REPLAY_WORDS ==>
      cleared[i] == if ClearedWord(w.last / 64, counter / 64, i) then 0 else bits[i]
    ensures Represents(cleared, Window(counter, w.seen))
  {
    forall c: nat | Held(counter, c) ensures Marked(cleared, c) <==> c in w.seen {
      var i := WordOf(c);
      if c / 64 <= w.last / 64 {
        assert Held(w.last, c);
        forall v | w.last / 64 < v <= counter / 64 ensures v % REPLAY_WORDS != i {
          WordsApart(c, v * 64);
        }
      } else {
        assert ClearedWord(w.last / 64, counter / 64, i);
        assert (0 as bv64) & Bit(c % 64) == 0;
      }
    }
  }

  /** Word `i` of the ring is one of the words after `from` up to `to`. */
  ghost predicate ClearedWord(from: nat, to: nat, i: nat) {
    exists v: nat :: from < v <= to && v % REPLAY_WORDS == i
  }

  class ReplayWindow {
    var last: nat
    const bitmap: array<bv64>
    ghost var seen: set<nat>

    ghost predicate Valid()
      reads this, bitmap
    {
      bitmap.Length == REPLAY_WORDS && Represents(bitmap[..], View())
    }

    ghost function View(): Window
      reads this
    {
      Window(last, seen)
    }

    constructor ()
      ensures Valid() && fresh(bitmap) && View() == EMPTY
    {
      last, seen := 0, {};
      bitmap := new bv64[REPLAY_WORDS](_ => 0);
      new;
      forall c: nat | Held(0, c) ensures !Marked(bitmap[..], c) {
        assert (0 as bv64) & Bit(c % 64) == 0;
      }
    }

    method CheckAndUpdate(counter: nat) returns (ok: bool)
      requires Valid()
      modifies this, bitmap
      ensures Valid()
      ensures ok <==> Fresh(old(View()), counter)
      ensures View() == if ok then Note(old(View()), counter) else old(View())
    {
      if counter > last {
        if counter - last >= REPLAY_BITS {
          ClearAll(counter);
        } else {
          ClearBetween(counter);
        }
        last := counter;
        Mark(counter);
        return true;
      }
      if last - counter >= REPLAY_BITS {
        return false;
      }
      assert Held(last, counter);
      if bitmap[WordOf(counter)] & Bit(counter % 64) != 0 {
        return false;
      }
      Mark(counter);
      return true;
    }

    method ClearAll(counter: nat)
      requires Valid() && counter >= last + REPLAY_BITS
      modifies bitmap
      ensures Represents(bitmap[..], Window(counter, seen))
    {
      forall i | 0 <= i < REPLAY_WORDS { bitmap[i] := 0; }
      forall c: nat | Held(counter, c) ensures !Marked(bitmap[..], c) {
        assert (0 as bv64) & Bit(c % 64) == 0;
      }
    }

    /** Clears the words the window slides over. */
    method ClearBetween(counter: nat)
      requires Valid() && last < counter < last + REPLAY_BITS
      modifies bitmap
      ensures Represents(bitmap[..], Window(counter, seen))
    {
      ghost var before := bitmap[..];
      var w := last / 64 + 1;
      while w <= counter / 64
        invariant last / 64 < w <= counter / 64 + 1
        invariant forall i :: 0 <= i < REPLAY_WORDS ==>
          bitmap[i] == if ClearedWord(last / 64, w - 1, i) then 0 else before[i]
      {
        bitmap[w % REPLAY_WORDS] := 0;
        forall i | 0 <= i < REPLAY_WORDS
          ensures ClearedWord(last / 64, w, i) <==> ClearedWord(last / 64, w - 1, i) || i == w % REPLAY_WORDS
        {
          if i == w % REPLAY_WORDS { assert last / 64 < w <= w && w % REPLAY_WORDS == i; }
        }
        w := w + 1;
      }
      Slide(before, bitmap[..], View(), counter);
    }

    method Mark(counter: nat)
      requires bitmap.Length == REPLAY_WORDS && Represents(bitmap[..], Window(last, seen))
      requires Held(last, counter) && counter <= last
      modifies bitmap, this`seen
      ensures Valid() && View() == Window(last, old(seen) + {counter})
    {
      MarkRepresents(bitmap[..], counter, View());
      ghost var before := bitmap[..];
      bitmap[WordOf(counter)] := bitmap[WordOf(counter)] | Bit(counter % 64);
      assert bitmap[..] == MarkedAt(before, counter);
      seen := seen + {counter};
    }
  }

  // ---- whole sequences of counters ----

  /** The reference window after a sequence of counters, and the verdicts given. */
  function Run(w: Window, counters: seq<nat>): (Window, seq<bool>) {
    if counters == [] then (w, []) else
    var n := |counters| - 1;
    var (w', vs) := Run(w, counters[..n]);
    var ok := Fresh(w', counters[n]);
    (if ok then Note(w', counters[n]) else w', vs + [ok])
  }

  /** The ring gives the reference's verdict on every counter of every sequence. */
  method CheckAll(counters: seq<nat>) returns (verdicts: seq<bool>)
    ensures verdicts == Run(EMPTY, counters).1
  {
    var ring := new ReplayWindow();
    verdicts := [];
    for i := 0 to |counters|
      invariant ring.Valid() && fresh(ring) && fresh(ring.bitmap)
      invariant (ring.View(), verdicts) == Run(EMPTY, counters[..i])
    {
      assert counters[..i + 1][..i] == counters[..i];
      var ok := ring.CheckAndUpdate(counters[i]);
      verdicts := verdicts + [ok];
    }
    assert counters[..|counters|] == counters;
  }

  /** After any sequence, the seen set is exactly the accepted counters and `last` its maximum. */
  lemma {:induction false} SeenIsAccepted(counters: seq<nat>)
    ensures var (w, vs) := Run(EMPTY, counters);
            && |vs| == |counters|
            && w.seen == (set i | 0 <= i < |counters| && vs[i] :: counters[i])
            && (forall c <- w.seen :: c <= w.last)
            && (w.last == 0 || w.last in w.seen)
  {
    if counters != [] {
      var n := |counters| - 1;
      SeenIsAccepted(counters[..n]);
      var (w0, vs0) := Run(EMPTY, counters[..n]);
      var (w, vs) := Run(EMPTY, counters);
      assert forall i :: 0 <= i < n ==> vs[i] == vs0[i] && counters[..n][i] == counters[i];
      assert w.seen == w0.seen + (if vs[n] then {counters[n]} else {});
    }
  }

  /** No counter is accepted twice, whatever the sequence. */
  lemma {:induction false} NeverTwice(counters: seq<nat>, i: nat, j: nat)
    requires i < j < |counters| && counters[i] == counters[j]
    ensures |Run(EMPTY, counters).1| == |counters|
    ensures !(Run(EMPTY, counters).1[i] && Run(EMPTY, counters).1[j])
  {
    SeenIsAccepted(counters);
    var n := |counters| - 1;
    SeenIsAccepted(counters[..n]);
    var (w, vs) := Run(EMPTY, counters[..n]);
    if j < n {
      NeverTwice(counters[..n], i, j);
    } else if vs[i] {
      assert counters[..n][i] in w.seen;
    }
  }

  /** The verdict on each counter is decided by the counters accepted before it: above all
      of them, or less than REPLAY_BITS behind the highest and not among them. */
  lemma {:induction false} VerdictExact(counters: seq<nat>, i: nat)
    requires i < |counters|
    ensures |Run(EMPTY, counters).1| == |counters|
    ensures var vs := Run(EMPTY, counters).1;
            var accepted := set j | 0 <= j < i && vs[j] :: counters[j];
            vs[i] <==>
              || (counters[i] > 0 && forall c <- accepted :: c < counters[i])
              || (counters[i] !in accepted && forall c <- accepted :: c - counters[i] < REPLAY_BITS)
  {
    SeenIsAccepted(counters);
    var n := |counters| - 1;
    SeenIsAccepted(counters[..n]);
    var (w, vs) := Run(EMPTY, counters[..n]);
    var all := Run(EMPTY, counters).1;
    assert forall k :: 0 <= k < n ==> all[k] == vs[k];
    if i < n {
      VerdictExact(counters[..n], i);
      assert (set j | 0 <= j < i && vs[j] :: counters[..n][j]) == (set j | 0 <= j < i && all[j] :: counters[j]);
    } else {
      assert (set j | 0 <= j < n && vs[j] :: counters[..n][j]) == (set j | 0 <= j < n && all[j] :: counters[j]);
    }
  }
}
