/** The named rule sets the node keeps across map messages, and the filter they install. */
module FilterSets {
  import opened Common
  import opened Filter

  /** The parts of a map message that decide about the filter. `carriesNodes` stands for a node,
      a peer list, changed peers or a peer patch being present. */
  datatype MapMessage = MapMessage(
    keepAlive: bool, carriesNodes: bool,
    packetFilter: Option<seq<FilterRule>>,
    packetFilters: Option<map<string, Option<seq<FilterRule>>>>)

  type RuleSets = map<string, seq<FilterRule>>

  const LEGACY := "*"

  /** A pure keep-alive is dropped before anything in it is looked at. */
  predicate Ignored(m: MapMessage) {
    m.keepAlive && !m.carriesNodes
  }

  // ---- what a message does ----

  /** All named sets of a message merged at once: a value replaces, a null deletes. */
  function Merge(sets: RuleSets, named: map<string, Option<seq<FilterRule>>>): RuleSets {
    map name | name in sets.Keys + named.Keys && (name in named ==> named[name].Some?)
             :: if name in named then named[name].value else sets[name]
  }

  function Update(sets: RuleSets, m: MapMessage): RuleSets {
    if Ignored(m) then sets else
    var s1 := if m.packetFilter.Some? then map[LEGACY := m.packetFilter.value] else sets;
    if m.packetFilters.Some? then Merge(s1, m.packetFilters.value) else s1
  }

  predicate Changes(m: MapMessage) {
    !Ignored(m) && (m.packetFilter.Some? || m.packetFilters.Some?)
  }

  /** What the sets permit, whatever order they are listed in. */
  ghost predicate SetsPermit(sets: RuleSets, t: Tuple) {
    exists name, i :: name in sets && 0 <= i < |sets[name]| && Permits(sets[name][i], t)
  }

  /** The filter is the one compiled from the sets, up to the order of the rules. */
  ghost predicate Reflects(rules: seq<Rule>, sets: RuleSets) {
    forall t :: AllowsTuple(rules, t) <==> (t.proto == 6 && t.tcpEstablished) || SetsPermit(sets, t)
  }

  /** `values().flatten()` in some order of the names. */
  function Flatten(sets: RuleSets, order: seq<string>): seq<FilterRule>
    requires forall name <- order :: name in sets
  {
    if order == [] then [] else Flatten(sets, order[..|order| - 1]) + sets[order[|order| - 1]]
  }

  lemma {:induction false} FlattenListed(sets: RuleSets, order: seq<string>, t: Tuple)
    requires forall name <- order :: name in sets
    ensures (exists i :: 0 <= i < |Flatten(sets, order)| && Permits(Flatten(sets, order)[i], t)) <==>
            (exists name, i :: name in order && 0 <= i < |sets[name]| && Permits(sets[name][i], t))
  {
    if order != [] {
      var n := |order| - 1;
      var before := Flatten(sets, order[..n]);
      var all := Flatten(sets, order);
      FlattenListed(sets, order[..n], t);
      if i :| 0 <= i < |all| && Permits(all[i], t) {
        if i < |before| {
          assert Permits(before[i], t);
          var name, j :| name in order[..n] && 0 <= j < |sets[name]| && Permits(sets[name][j], t);
          assert name in order;
        } else {
          assert order[n] in order && Permits(sets[order[n]][i - |before|], t);
        }
      }
      if name, i :| name in order && 0 <= i < |sets[name]| && Permits(sets[name][i], t) {
        if name in order[..n] {
          var j :| 0 <= j < |before| && Permits(before[j], t);
          assert Permits(all[j], t);
        } else {
          assert name == order[n];
          assert Permits(all[|before| + i], t);
        }
      }
    }
  }

  /** Whatever order the sets are listed in, the compiled filter reflects them. */
  lemma CompileReflects(sets: RuleSets, order: seq<string>)
    requires forall name :: name in order <==> name in sets
    ensures Reflects(Compile(Flatten(sets, order)), sets)
  {
    forall t ensures AllowsTuple(Compile(Flatten(sets, order)), t) <==> (t.proto == 6 && t.tcpEstablished) || SetsPermit(sets, t) {
      FilterExact(Flatten(sets, order), t);
      FlattenListed(sets, order, t);
    }
  }

  function Only(named: map<string, Option<seq<FilterRule>>>, names: set<string>): map<string, Option<seq<FilterRule>>> {
    map name | name in named && name in names :: named[name]
  }

  lemma MergeNone(sets: RuleSets, named: map<string, Option<seq<FilterRule>>>)
    ensures Merge(sets, Only(named, {})) == sets
  {
  }

  lemma OnlyAll(named: map<string, Option<seq<FilterRule>>>)
    ensures Only(named, named.Keys) == named
  {
  }

  /** One more name merged. */
  lemma MergeOne(sets: RuleSets, named: map<string, Option<seq<FilterRule>>>, done: set<string>, name: string)
    requires name in named && name !in done
    ensures var before := Merge(sets, Only(named, done));
            Merge(sets, Only(named, done + {name})) == if named[name].Some? then before[name := named[name].value] else before - {name}
  {
  }

  // ---- the code ----

  class Node {
    var filterSets: RuleSets
    /** The filter last handed to the packet path, if any. */
    var filter: Option<seq<Rule>>

    constructor ()
      ensures filterSets == map[] && filter.None?
    {
      filterSets, filter := map[], None;
    }

    /** The filter part of handling a map message; maps may be walked in any order. */
    method HandleMapResponse(m: MapMessage)
      modifies this
      ensures filterSets == Update(old(filterSets), m)
      ensures if Changes(m) then filter.Some? && Reflects(filter.value, filterSets) else filter == old(filter)
    {
      if m.keepAlive && !m.carriesNodes { return; }
      var changed := false;
      if m.packetFilter.Some? {
        filterSets := map[LEGACY := m.packetFilter.value];
        changed := true;
      }
      if m.packetFilters.Some? {
        MergeNamed(m.packetFilters.value);
        changed := true;
      }
      if changed {
        var all := CollectRules();
        filter := Some(Compile(all));
      }
    }

    method MergeNamed(named: map<string, Option<seq<FilterRule>>>)
      modifies this`filterSets
      ensures filterSets == Merge(old(filterSets), named)
    {
      var todo := named.Keys;
      ghost var done: set<string> := {};
      MergeNone(filterSets, named);
      while todo != {}
        invariant todo + done == named.Keys && todo !! done
        invariant filterSets == Merge(old(filterSets), Only(named, done))
        decreases |todo|
      {
        var name :| name in todo;
        MergeOne(old(filterSets), named, done, name);
        var rules := named[name];
        filterSets := if rules.Some? then filterSets[name := rules.value] else filterSets - {name};
        todo, done := todo - {name}, done + {name};
      }
      OnlyAll(named);
    }

    method CollectRules() returns (all: seq<FilterRule>)
      ensures Reflects(Compile(all), filterSets)
    {
      all := [];
      var todo := filterSets.Keys;
      ghost var order: seq<string> := [];
      while todo != {}
        invariant todo <= filterSets.Keys
        invariant forall name :: name in order <==> name in filterSets.Keys - todo
        invariant all == Flatten(filterSets, order)
        decreases |todo|
      {
        var name :| name in todo;
        all := all + filterSets[name];
        assert (order + [name])[..|order|] == order;
        order := order + [name];
        todo := todo - {name};
      }
      CompileReflects(filterSets, order);
    }
  }

  // ---- every message so far ----

  function SetsAfter(ms: seq<MapMessage>): RuleSets {
    if ms == [] then map[] else Update(SetsAfter(ms[..|ms| - 1]), ms[|ms| - 1])
  }

  /** The last message that decides about a name decides alone: naming it sets or deletes it, and
      a legacy filter clears every name but its own. */
  function LastWord(ms: seq<MapMessage>, name: string): Option<seq<FilterRule>> {
    if ms == [] then None else
    var m := ms[|ms| - 1];
    if m.keepAlive && !m.carriesNodes then LastWord(ms[..|ms| - 1], name) else
    if m.packetFilters.Some? && name in m.packetFilters.value then m.packetFilters.value[name] else
    if m.packetFilter.Some? then (if name == "*" then m.packetFilter else None) else
    LastWord(ms[..|ms| - 1], name)
  }

  /** The sets after any messages are the last words said about each name. */
  lemma {:induction false} SetsAreLastWords(ms: seq<MapMessage>, name: string)
    ensures (if name in SetsAfter(ms) then Some(SetsAfter(ms)[name]) else None) == LastWord(ms, name)
  {
    if ms != [] { SetsAreLastWords(ms[..|ms| - 1], name); }
  }

  /** The message carries a filter and is not a keep-alive without nodes. */
  predicate HasFilter(m: MapMessage) {
    !(m.keepAlive && !m.carriesNodes) && (m.packetFilter.Some? || m.packetFilters.Some?)
  }

  /** Some rule in the last words permits the packet. */
  ghost predicate WordsPermit(ms: seq<MapMessage>, t: Tuple) {
    exists name, i :: LastWord(ms, name).Some? && 0 <= i < |LastWord(ms, name).value| && Permits(LastWord(ms, name).value[i], t)
  }

  lemma WordsArePermits(ms: seq<MapMessage>, t: Tuple)
    ensures SetsPermit(SetsAfter(ms), t) <==> WordsPermit(ms, t)
  {
    var sets := SetsAfter(ms);
    if name, i :| name in sets && 0 <= i < |sets[name]| && Permits(sets[name][i], t) {
      SetsAreLastWords(ms, name);
      assert LastWord(ms, name) == Some(sets[name]) && Permits(LastWord(ms, name).value[i], t);
    }
    if name, i :| LastWord(ms, name).Some? && 0 <= i < |LastWord(ms, name).value| && Permits(LastWord(ms, name).value[i], t) {
      SetsAreLastWords(ms, name);
      assert name in sets && Permits(sets[name][i], t);
    }
  }

  /** A node fed any sequence of map messages: it has a filter exactly when some message that is
      not a pure keep-alive carried one, and that filter permits exactly established TCP and what
      some rule in the last words permits. */
  method FeedAll(ms: seq<MapMessage>) returns (filter: Option<seq<Rule>>)
    ensures filter.Some? <==> exists i :: 0 <= i < |ms| && HasFilter(ms[i])
    ensures filter.Some? ==> forall t :: AllowsTuple(filter.value, t) <==>
              (t.proto == 6 && t.tcpEstablished) || WordsPermit(ms, t)
  {
    var node := new Node();
    for n := 0 to |ms|
      invariant fresh(node) && node.filterSets == SetsAfter(ms[..n])
      invariant node.filter.Some? <==> exists i :: 0 <= i < n && HasFilter(ms[i])
      invariant node.filter.Some? ==> Reflects(node.filter.value, node.filterSets)
    {
      assert ms[..n + 1][..n] == ms[..n];
      node.HandleMapResponse(ms[n]);
    }
    assert ms[..|ms|] == ms;
    filter := node.filter;
    forall t ensures SetsPermit(node.filterSets, t) <==> WordsPermit(ms, t) { WordsArePermits(ms, t); }
  }
}
