/** The initiations a tunnel accepts over a whole run: their timestamps only go up, so none is accepted
    twice, and one from the peer is accepted exactly when it is newer than all before it. */
module InitiationRuns {
  import opened Common
  import opened Noise
  import opened TunnelSpec
  import opened TunnelRuns

  /** The timestamp read from an initiation; 0 when it does not decrypt. */
  function StampIn(local: nat, m: Wire): nat {
    match ConsumeInitiation(local, m)
    case Err(_) => 0
    case Ok(ci) => ci.stamp
  }

  /** The timestamp of an initiation that decrypts and names `peer`. */
  function StampFrom(local: nat, peer: Term, m: Wire): Option<nat> {
    match ConsumeInitiation(local, m)
    case Err(_) => None
    case Ok(ci) => if ci.peer == peer then Some(ci.stamp) else None
  }

  /** The event is an initiation that is answered. */
  predicate Answers(t: Tunn, ev: Event) {
    ev.GotInitiation? && Step(t, ev).1 != []
  }

  /** Timestamps of the initiations answered in a run, read from the messages, in order. */
  function StampsAnswered(local: nat, peer: Term, evs: seq<Event>): seq<nat>
    decreases |evs|
  {
    if evs == [] then [] else
    var n := |evs| - 1;
    var ev := evs[n];
    StampsAnswered(local, peer, evs[..n]) +
    (if Answers(Run(Begin(local, peer), evs[..n]).t, ev) then [StampIn(local, ev.m)] else [])
  }

  predicate Increasing(s: seq<nat>) {
    forall i, j :: 0 <= i < j < |s| ==> s[i] < s[j]
  }

  predicate Above(n: nat, s: seq<nat>) {
    forall i :: 0 <= i < |s| ==> s[i] < n
  }

  /** The newest timestamp accepted; 0 at first. */
  predicate Newest(last: nat, s: seq<nat>) {
    Increasing(s) && last == (if s == [] then 0 else s[|s| - 1])
  }

  lemma AboveNewest(n: nat, last: nat, s: seq<nat>)
    requires Newest(last, s)
    ensures n > last <==> n > 0 && Above(n, s)
  {
    if s != [] && Above(n, s) { assert s[|s| - 1] < n; }
  }

  /** Nothing but an initiation that is answered moves the newest timestamp. */
  lemma StampStep(t: Tunn, ev: Event)
    ensures var stamp := if ev.GotInitiation? then StampFrom(t.local, t.peer, ev.m) else None;
            && (Answers(t, ev) <==> stamp.Some? && stamp.value > t.lastStamp)
            && Step(t, ev).0.lastStamp == if Answers(t, ev) then stamp.value else t.lastStamp
  {
  }

  lemma Same(local: nat, peer: Term, evs: seq<Event>)
    ensures var t := Run(Begin(local, peer), evs).t; t.local == local && t.peer == peer
    decreases |evs|
  {
    if evs != [] {
      Same(local, peer, evs[..|evs| - 1]);
      SameStep(Run(Begin(local, peer), evs[..|evs| - 1]).t, evs[|evs| - 1]);
    }
  }

  lemma SameStep(t: Tunn, ev: Event)
    ensures var t' := Step(t, ev).0; t'.local == t.local && t'.peer == t.peer
  {
    if !Creates(t, ev) { QuietStep(t, ev); }
  }

  /** In every run the timestamps of the answered initiations are strictly increasing. */
  lemma {:induction false} StampsIncrease(local: nat, peer: Term, evs: seq<Event>)
    ensures Increasing(StampsAnswered(local, peer, evs))
    ensures Newest(Run(Begin(local, peer), evs).t.lastStamp, StampsAnswered(local, peer, evs))
    decreases |evs|
  {
    if evs != [] {
      var n := |evs| - 1;
      var t := Run(Begin(local, peer), evs[..n]).t;
      StampsIncrease(local, peer, evs[..n]);
      Same(local, peer, evs[..n]);
      StampStep(t, evs[n]);
      if Answers(t, evs[n]) {
        AboveNewest(StampFrom(local, peer, evs[n].m).value, t.lastStamp, StampsAnswered(local, peer, evs[..n]));
      }
    }
  }

  /** After any run, an initiation is answered if and only if it decrypts, names the peer, and its timestamp is
      above 0 and above that of every initiation answered before. */
  lemma AnsweredIff(local: nat, peer: Term, evs: seq<Event>, m: Wire, now: Time, d: Draw)
    ensures var stamp := StampFrom(local, peer, m);
            Answers(Run(Begin(local, peer), evs).t, GotInitiation(m, now, d)) <==>
            stamp.Some? && stamp.value > 0 && Above(stamp.value, StampsAnswered(local, peer, evs))
  {
    var t := Run(Begin(local, peer), evs).t;
    var stamp := StampFrom(local, peer, m);
    Same(local, peer, evs);
    StampsIncrease(local, peer, evs);
    StampStep(t, GotInitiation(m, now, d));
    if stamp.Some? { AboveNewest(stamp.value, t.lastStamp, StampsAnswered(local, peer, evs)); }
  }

  lemma AnswerListed(local: nat, peer: Term, evs: seq<Event>, ev: Event)
    requires Answers(Run(Begin(local, peer), evs).t, ev)
    ensures StampFrom(local, peer, ev.m) == Some(StampIn(local, ev.m)) && StampIn(local, ev.m) in StampsAnswered(local, peer, evs + [ev])
  {
    Same(local, peer, evs);
    StampStep(Run(Begin(local, peer), evs).t, ev);
    assert (evs + [ev])[..|evs|] == evs;
    var s := StampsAnswered(local, peer, evs + [ev]);
    assert s[|s| - 1] == StampIn(local, ev.m);
  }

  lemma {:induction false} ListedStays(local: nat, peer: Term, evs: seq<Event>, more: seq<Event>, stamp: nat)
    requires stamp in StampsAnswered(local, peer, evs)
    ensures stamp in StampsAnswered(local, peer, evs + more)
    decreases |more|
  {
    if more == [] {
      assert evs + more == evs;
    } else {
      ListedStays(local, peer, evs, more[..|more| - 1], stamp);
      assert (evs + more)[..|evs + more| - 1] == evs + more[..|more| - 1];
    }
  }

  /** No initiation is answered twice: once answered after `evs`, and whatever happens then, it is refused;
      nothing is sent and nothing changes. */
  lemma NeverAnsweredTwice(local: nat, peer: Term, evs: seq<Event>, ev: Event, more: seq<Event>, now: Time, d: Draw)
    requires Answers(Run(Begin(local, peer), evs).t, ev)
    ensures var t := Run(Begin(local, peer), evs + [ev] + more).t; Step(t, GotInitiation(ev.m, now, d)) == (t, [])
  {
    AnswerListed(local, peer, evs, ev);
    ListedStays(local, peer, evs + [ev], more, StampIn(local, ev.m));
    OldRefused(local, peer, evs + [ev] + more, ev.m, now, d);
  }

  lemma OldRefused(local: nat, peer: Term, evs: seq<Event>, m: Wire, now: Time, d: Draw)
    requires StampFrom(local, peer, m) == Some(StampIn(local, m)) && StampIn(local, m) in StampsAnswered(local, peer, evs)
    ensures var t := Run(Begin(local, peer), evs).t; Step(t, GotInitiation(m, now, d)) == (t, [])
  {
    AnsweredIff(local, peer, evs, m, now, d);
    RefusedKeeps(Run(Begin(local, peer), evs).t, GotInitiation(m, now, d));
  }

  lemma RefusedKeeps(t: Tunn, ev: Event)
    requires ev.GotInitiation? && !Answers(t, ev)
    ensures Step(t, ev) == (t, [])
  {
  }
}
