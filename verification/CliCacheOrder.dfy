/** In which order the cache of the command line evicts: by age where resolutions do not overlap, and not
    by age where they do. */
module CliCacheOrder {
  import opened CliSecretCache

  ghost predicate OldestFirst(m: OrderedMap) { forall i, j :: 0 <= i < j < |m| ==> m[i].storedAt <= m[j].storedAt }

  /** Setting a key keeps the map in order of age exactly when no older entry follows its place: a key
      that is set again keeps its old place. */
  lemma SettingKeepsAgeOrder(m: OrderedMap, e: Entry)
    requires OldestFirst(m) && forall k :: 0 <= k < |m| ==> m[k].storedAt <= e.storedAt
    ensures OldestFirst(Set(m, e)) <==> forall j :: Position(m, e.key) < j < |m| ==> m[j].storedAt == e.storedAt
  {
    var i := Position(m, e.key);
    forall j | i < j < |m| ensures Set(m, e)[i] == e && Set(m, e)[j] == m[j] { }
  }

  lemma DeletingKeepsAgeOrder(m: OrderedMap, key: string)
    requires OldestFirst(m)
    ensures OldestFirst(Delete(m, key))
  {
  }

  lemma AppendingKeepsAgeOrder(m: OrderedMap, n: nat, e: Entry)
    requires OldestFirst(m) && n <= |m| && !Has(m, e.key) && forall k :: 0 <= k < |m| ==> m[k].storedAt <= e.storedAt
    ensures OldestFirst(Set(m[n..], e))
  {
    assert Position(m[n..], e.key) == |m[n..]|;
  }

  // ---------------------------------------------------------------------- resolutions one after the other

  /** Every value is stored right after the lookup that missed it. */
  ghost predicate OneAfterTheOther(states: seq<OrderedMap>, steps: seq<Step>)
    requires IsRun(states, steps)
  {
    forall i :: 0 <= i < |steps| && steps[i].Fetched? ==>
      i > 0 && steps[i - 1].LookingUp? && steps[i - 1].key == steps[i].key
          && !Fresh(states[i - 1], steps[i].key, steps[i - 1].now)
  }

  ghost predicate ClockRuns(steps: seq<Step>) { forall i, j :: 0 <= i < j < |steps| ==> steps[i].now <= steps[j].now }

  lemma StampsArePast(states: seq<OrderedMap>, steps: seq<Step>, n: nat, k: nat)
    requires IsRun(states, steps) && ClockRuns(steps) && n < |steps| && k < |states[n]|
    ensures states[n][k].storedAt <= steps[n].now
  {
    EntriesAreFetched(states, steps, n, states[n][k]);
  }

  lemma StoringKeepsAgeOrder(m: OrderedMap, key: string, value: Value, now: int, m': OrderedMap)
    requires OldestFirst(m) && !Has(m, key) && Stores(m, key, value, now, m')
    requires forall k :: 0 <= k < |m| ==> m[k].storedAt <= now
    ensures OldestFirst(m')
  {
    if |value| <= MAX_CACHE_BYTES {
      var n :| IsEviction(m, |value|, n) && m' == Set(m[n..], Entry(key, now, value));
      AppendingKeepsAgeOrder(m, n, Entry(key, now, value));
    }
  }

  /** One resolution that misses and then stores its value keeps any map in order of age. */
  lemma ResolvingKeepsAgeOrder(m: OrderedMap, key: string, value: Value, now: int, later: int, m': OrderedMap)
    requires Bounded(m) && OldestFirst(m) && !Fresh(m, key, now)
      && Stores(AfterLookup(m, key, now), key, value, later, m')
    requires forall k :: 0 <= k < |m| ==> m[k].storedAt <= later
    ensures OldestFirst(m')
  {
    DeletingKeepsBounds(m, key);
    DeletingKeepsAgeOrder(m, key);
    DeletingKeepsStamps(m, key, later);
    hide Bounded, OldestFirst, Fresh, Stores, Has, Delete;
    StoringKeepsAgeOrder(Delete(m, key), key, value, later, m');
  }

  lemma DeletingKeepsStamps(m: OrderedMap, key: string, later: int)
    requires forall k :: 0 <= k < |m| ==> m[k].storedAt <= later
    ensures forall k :: 0 <= k < |Delete(m, key)| ==> Delete(m, key)[k].storedAt <= later
  {
  }

  /** A value is stored under a key that the lookup before it has found absent or deleted. */
  lemma MissBefore(states: seq<OrderedMap>, steps: seq<Step>, i: nat)
    requires IsRun(states, steps) && OneAfterTheOther(states, steps) && i < |steps| && steps[i].Fetched?
    ensures !Has(states[i], steps[i].key)
  {
    assert Moves(states[i - 1], steps[i - 1], states[i]);
    RunsStayBounded(states, steps, i - 1);
    DeletingKeepsBounds(states[i - 1], steps[i].key);
    hide Bounded, Has, Delete, Position, Stores;
  }

  /** Over every run of resolutions that do not overlap, with a clock that does not go back, the map is in
      order of age, so that eviction from its front is oldest first. */
  lemma {:induction false} RunsEvictOldestFirst(states: seq<OrderedMap>, steps: seq<Step>, n: nat)
    requires IsRun(states, steps) && OneAfterTheOther(states, steps) && ClockRuns(steps) && n <= |steps|
    ensures OldestFirst(states[n])
    decreases n
  {
    if n > 0 {
      hide OldestFirst, Bounded, Has, Stores, Delete, Position;
      var m, step := states[n - 1], steps[n - 1];
      RunsEvictOldestFirst(states, steps, n - 1);
      assert Moves(m, step, states[n]);
      if step.LookingUp? {
        DeletingKeepsAgeOrder(m, step.key);
      } else {
        MissBefore(states, steps, n - 1);
        forall k | 0 <= k < |m| ensures m[k].storedAt <= step.now { StampsArePast(states, steps, n - 1, k); }
        StoringKeepsAgeOrder(m, step.key, step.value, step.now, states[n]);
      }
    }
  }

  // ---------------------------------------------------------------------- resolutions that overlap

  /** Two resolutions of one key overlap; between their stores another key is resolved. */
  function OverlappingSteps(): seq<Step> {
    [LookingUp("a", 0), LookingUp("a", 1), Fetched("a", [], 2), LookingUp("b", 3), Fetched("b", [], 4),
        Fetched("a", [], 5)]
  }

  function OverlappingStates(): seq<OrderedMap> {
    var a, b := Entry("a", 2, []), Entry("b", 4, []);
    [[], [], [], [a], [a], [a, b], [Entry("a", 5, []), b]]
  }

  lemma {:induction false} EmptyValues(m: OrderedMap)
    requires forall k :: 0 <= k < |m| ==> m[k].value == []
    ensures Total(m) == 0
  {
    if m != [] { EmptyValues(m[1..]); }
  }

  lemma SmallStore(m: OrderedMap, key: string, now: int)
    requires |m| <= 2 && forall k :: 0 <= k < |m| ==> m[k].value == []
    ensures Moves(m, Fetched(key, [], now), Set(m, Entry(key, now, [])))
  {
    EmptyValues(m);
    assert m[0..] == m;
    assert IsEviction(m, 0, 0);
  }

  lemma Miss(m: OrderedMap, key: string, now: int)
    requires !Has(m, key)
    ensures Moves(m, LookingUp(key, now), m)
  {
  }

  lemma OverlappingMoves(i: nat)
    requires i < 6
    ensures Moves(OverlappingStates()[i], OverlappingSteps()[i], OverlappingStates()[i + 1])
  {
    var a, b := Entry("a", 2, []), Entry("b", 4, []);
    assert "a" != "b";
    hide Moves, Has;
    if i == 0 || i == 1 {
      assert !Has([], "a") by { NotIn([], "a"); }
      Miss([], "a", i);
    } else if i == 2 {
      SmallStore([], "a", 2);
    } else if i == 3 {
      NotIn([a], "b");
      Miss([a], "b", 3);
    } else if i == 4 {
      SmallStore([a], "b", 4);
      assert Set([a], b) == [a, b];
    } else {
      SmallStore([a, b], "a", 5);
      assert Set([a, b], Entry("a", 5, [])) == [Entry("a", 5, []), b];
    }
  }

  lemma NotIn(m: OrderedMap, key: string)
    requires forall k :: 0 <= k < |m| ==> m[k].key != key
    ensures !Has(m, key)
  {
  }

  /** The run reaches a map whose first entry is the younger one. */
  lemma OverlapsLoseAgeOrder()
    ensures IsRun(OverlappingStates(), OverlappingSteps()) && ClockRuns(OverlappingSteps())
    ensures !OldestFirst(OverlappingStates()[6])
  {
    forall i: nat | i < 6 ensures Moves(OverlappingStates()[i], OverlappingSteps()[i], OverlappingStates()[i + 1]) {
      OverlappingMoves(i);
    }
    hide Moves;
    var last := OverlappingStates()[6];
    assert last == [Entry("a", 5, []), Entry("b", 4, [])];
    assert last[0].storedAt == 5 && last[1].storedAt == 4;
  }
}
