/** The in-memory cache of external vault secrets: what is kept, what is evicted, and for how long a
    stored value may be handed out again. Times are in nanoseconds, the unit of the clock. */
module SecretCache {
  import opened Options

  const MAX_CACHE_BYTES := 20_000_000
  const MAX_CACHE_ENTRIES := 256
  const SECOND := 1_000_000_000
  const MAX_CACHE_SECONDS := 3_600
  const MAX_AGE := MAX_CACHE_SECONDS * SECOND

  /** Values are strings of bytes. */
  type Value = seq<bv8>

  datatype Entry = Entry(storedAt: nat, value: Value)

  type Cache = map<string, Entry>

  // ---------------------------------------------------------------------- sizes

  ghost function Total(m: Cache): nat {
    if m == map[] then 0 else var k :| k in m; |m[k].value| + Total(m - {k})
  }

  lemma {:induction false} TotalWithout(m: Cache, k: string)
    requires k in m
    ensures Total(m) == |m[k].value| + Total(m - {k})
    decreases |m|
  {
    var j :| j in m && Total(m) == |m[j].value| + Total(m - {j});
    if j != k {
      TotalWithout(m - {j}, k);
      TotalWithout(m - {k}, j);
      assert m - {j} - {k} == m - {k} - {j};
    }
  }

  lemma TotalAfterInsert(m: Cache, k: string, e: Entry)
    ensures Total(m[k := e]) <= Total(m) + |e.value|
    ensures |m[k := e]| <= |m| + 1
  {
    TotalWithout(m[k := e], k);
    assert m[k := e] - {k} == m - {k};
    assert m[k := e].Keys == m.Keys + {k};
    if k in m {
      TotalWithout(m, k);
    } else {
      assert m - {k} == m;
    }
  }

  lemma {:induction false} SubmapIsSmaller(a: Cache, b: Cache)
    requires IsPart(a, b)
    ensures |a| <= |b| && Total(a) <= Total(b)
    decreases |a|
  {
    if a != map[] {
      var k :| k in a;
      SubmapIsSmaller(a - {k}, b - {k});
      TotalWithout(a, k);
      TotalWithout(b, k);
      assert (a - {k}).Keys == a.Keys - {k} && (b - {k}).Keys == b.Keys - {k};
    }
  }

  method TotalBytes(m: Cache) returns (n: nat)
    ensures n == Total(m)
  {
    n := 0;
    var rest := m;
    while rest != map[]
      invariant n + Total(rest) == Total(m)
      decreases |rest|
    {
      var k :| k in rest;
      TotalWithout(rest, k);
      n := n + |rest[k].value|;
      rest := rest - {k};
    }
  }

  // ---------------------------------------------------------------------- eviction

  ghost predicate IsPart(a: Cache, b: Cache) { forall k :: k in a ==> k in b && a[k] == b[k] }

  /** An elapsed time saturates at zero. */
  function Elapsed(e: Entry, now: nat): nat { if e.storedAt <= now then now - e.storedAt else 0 }

  /** The clock is read once for each entry. */
  function Retained(m: Cache, clock: string -> nat): Cache {
    map k | k in m && Elapsed(m[k], clock(k)) < MAX_AGE :: m[k]
  }

  ghost predicate NeedsRoom(m: Cache, value: Value) {
    |m| >= MAX_CACHE_ENTRIES || Total(m) + |value| > MAX_CACHE_BYTES
  }

  predicate IsOldest(m: Cache, k: string) {
    k in m && forall j :: j in m ==> m[k].storedAt <= m[j].storedAt
  }

  /** Whatever was evicted is at least as old as all that was kept, and keeping the youngest evicted
      entry as well would leave no room. */
  ghost predicate EvictsOldest(m: Cache, value: Value, kept: Cache) {
    && IsPart(kept, m)
    && (forall gone, stays :: gone in m && gone !in kept && stays in kept ==> m[gone].storedAt <= m[stays].storedAt)
    && (kept == m || exists last :: IsLastEvicted(m, value, kept, last))
  }

  ghost predicate IsEviction(m: Cache, value: Value, kept: Cache) {
    EvictsOldest(m, value, kept) && !NeedsRoom(kept, value)
  }

  ghost predicate IsLastEvicted(m: Cache, value: Value, kept: Cache, last: string) {
    && last in m && last !in kept && NeedsRoom(kept[last := m[last]], value)
    && forall gone :: gone in m && gone !in kept ==> m[gone].storedAt <= m[last].storedAt
  }

  /** A value of admissible size needs room only in a cache that has something to evict. */
  lemma {:induction false} SomethingToEvict(m: Cache, value: Value)
    requires |value| <= MAX_CACHE_BYTES && NeedsRoom(m, value)
    ensures exists k :: IsOldest(m, k)
  {
    assert m != map[];
    OldestExists(m);
  }

  lemma {:induction false} OldestExists(m: Cache)
    requires m != map[]
    ensures exists k :: IsOldest(m, k)
    decreases |m|
  {
    var k :| k in m;
    var rest := m - {k};
    assert forall j :: j in m ==> j == k || (j in rest && rest[j] == m[j]);
    if rest == map[] {
      assert IsOldest(m, k);
    } else {
      OldestExists(rest);
      var j :| IsOldest(rest, j);
      assert IsOldest(m, if m[k].storedAt <= m[j].storedAt then k else j);
    }
  }

  /** One round of the eviction loop. */
  lemma EvictOldest(m: Cache, value: Value, kept: Cache, oldest: string)
    requires EvictsOldest(m, value, kept) && NeedsRoom(kept, value) && IsOldest(kept, oldest)
    ensures EvictsOldest(m, value, kept - {oldest}) && |kept - {oldest}| < |kept|
  {
    hide NeedsRoom;
    assert (kept - {oldest})[oldest := m[oldest]] == kept;
    assert IsLastEvicted(m, value, kept - {oldest}, oldest);
    assert (kept - {oldest}).Keys == kept.Keys - {oldest};
  }

  /** When no two entries are equally old, which entries survive is determined. */
  lemma EvictionIsDetermined(m: Cache, value: Value, kept: Cache, kept': Cache)
    requires IsEviction(m, value, kept) && IsEviction(m, value, kept')
    requires forall j, k :: j in m && k in m && j != k ==> m[j].storedAt != m[k].storedAt
    ensures kept == kept'
  {
    if j :| j in kept && j !in kept' {
      EvictsNoMore(m, value, kept, kept', j);
    } else if k :| k in kept' && k !in kept {
      EvictsNoMore(m, value, kept', kept, k);
    }
  }

  lemma RoomShrinks(a: Cache, b: Cache, value: Value)
    requires IsPart(a, b) && NeedsRoom(a, value)
    ensures NeedsRoom(b, value)
  {
    SubmapIsSmaller(a, b);
  }

  lemma StaysToo(m: Cache, value: Value, kept: Cache, j: string, k: string)
    requires IsEviction(m, value, kept) && j in kept && k in m && m[j].storedAt <= m[k].storedAt
    requires forall j, k :: j in m && k in m && j != k ==> m[j].storedAt != m[k].storedAt
    ensures k in kept
  {
  }

  lemma EvictsNoMore(m: Cache, value: Value, kept: Cache, kept': Cache, j: string)
    requires IsEviction(m, value, kept) && IsEviction(m, value, kept')
    requires forall j, k :: j in m && k in m && j != k ==> m[j].storedAt != m[k].storedAt
    ensures !(j in kept && j !in kept')
  {
    if j in kept && j !in kept' {
      var last :| IsLastEvicted(m, value, kept', last);
      hide NeedsRoom;
      var more := kept'[last := m[last]];
      forall k | k in more ensures k in kept { StaysToo(m, value, kept, j, k); }
      RoomShrinks(more, kept, value);
    }
  }

  // ---------------------------------------------------------------------- the cache object

  ghost predicate Bounded(m: Cache) { |m| <= MAX_CACHE_ENTRIES && Total(m) <= MAX_CACHE_BYTES }

  /** What storing a value at time now leaves in the cache. */
  ghost predicate Stores(m: Cache, key: string, value: Value, clock: string -> nat, now: nat, m': Cache) {
    if |value| > MAX_CACHE_BYTES then m' == m
    else exists kept :: IsEviction(Retained(m, clock), value, kept) && m' == kept[key := Entry(now, value)]
  }

  lemma StoringKeepsBounds(m: Cache, key: string, value: Value, clock: string -> nat, now: nat, m': Cache)
    requires Bounded(m) && Stores(m, key, value, clock, now, m')
    ensures Bounded(m')
  {
    if |value| <= MAX_CACHE_BYTES {
      var kept :| IsEviction(Retained(m, clock), value, kept) && m' == kept[key := Entry(now, value)];
      TotalAfterInsert(kept, key, Entry(now, value));
    }
  }

  function Hit(m: Cache, key: string, cacheSeconds: nat, now: nat): Option<Value> {
    if key in m && Elapsed(m[key], now) < Allowed(cacheSeconds) then Some(m[key].value) else None
  }

  function Allowed(cacheSeconds: nat): nat {
    (if cacheSeconds < MAX_CACHE_SECONDS then cacheSeconds else MAX_CACHE_SECONDS) * SECOND
  }

  class ExternalSecretCache {
    var entries: Cache

    ghost predicate Valid()
      reads this
    {
      Bounded(entries)
    }

    constructor ()
      ensures Valid() && entries == map[]
    {
      entries := map[];
    }

    /** The first critical section of a resolution. */
    method Lookup(key: string, cacheSeconds: nat, now: nat) returns (hit: Option<Value>)
      ensures hit == Hit(entries, key, cacheSeconds, now)
    {
      var allowed := if cacheSeconds < MAX_CACHE_SECONDS then cacheSeconds else MAX_CACHE_SECONDS;
      hit := None;
      if allowed > 0 && key in entries && Elapsed(entries[key], now) < allowed * SECOND {
        hit := Some(entries[key].value);
      }
    }

    /** The second critical section, after the value was fetched. */
    method Store(key: string, value: Value, cacheSeconds: nat, clock: string -> nat, now: nat)
      requires Valid()
      modifies this
      ensures Valid()
      ensures if cacheSeconds == 0 then entries == old(entries)
        else Stores(old(entries), key, value, clock, now, entries)
    {
      if cacheSeconds == 0 || |value| > MAX_CACHE_BYTES {
        return;
      }
      entries := map k | k in entries && Elapsed(entries[k], clock(k)) < MAX_AGE :: entries[k];
      ghost var retained := entries;
      var bytes := TotalBytes(entries);
      while |entries| >= MAX_CACHE_ENTRIES || bytes + |value| > MAX_CACHE_BYTES
        invariant bytes == Total(entries) && EvictsOldest(retained, value, entries)
        decreases |entries|
      {
        hide EvictsOldest, IsOldest;
        SomethingToEvict(entries, value);
        var oldest :| IsOldest(entries, oldest);
        EvictOldest(retained, value, entries, oldest);
        entries := entries - {oldest};
        bytes := TotalBytes(entries);
      }
      assert retained == Retained(old(entries), clock) && IsEviction(retained, value, entries);
      entries := entries[key := Entry(now, value)];
      StoringKeepsBounds(old(entries), key, value, clock, now, entries);
    }

    method Clear()
      modifies this
      ensures Valid() && entries == map[]
    {
      entries := map[];
    }
  }

  // ---------------------------------------------------------------------- any interleaving of resolutions

  /** The critical sections of any number of resolutions, in the order in which they take the lock. */
  datatype Step =
    | LookUp(key: string, cacheSeconds: nat, now: nat)
    | Fetched(key: string, value: Value, cacheSeconds: nat, clock: string -> nat, now: nat)
    | ClearAll

  ghost predicate Moves(m: Cache, step: Step, m': Cache) {
    match step
    case LookUp(_, _, _) => m' == m
    case Fetched(key, value, cacheSeconds, clock, now) =>
      if cacheSeconds == 0 then m' == m else Stores(m, key, value, clock, now, m')
    case ClearAll => m' == map[]
  }

  ghost predicate IsRun(states: seq<Cache>, steps: seq<Step>) {
    && |states| == |steps| + 1 && states[0] == map[]
    && forall i :: 0 <= i < |steps| ==> Moves(states[i], steps[i], states[i + 1])
  }

  /** In every interleaving both bounds hold at all times. */
  lemma {:induction false} RunsStayBounded(states: seq<Cache>, steps: seq<Step>, n: nat)
    requires IsRun(states, steps) && n <= |steps|
    ensures Bounded(states[n])
    decreases n
  {
    if n > 0 {
      RunsStayBounded(states, steps, n - 1);
      var step := steps[n - 1];
      if step.Fetched? && step.cacheSeconds != 0 {
        StoringKeepsBounds(states[n - 1], step.key, step.value, step.clock, step.now, states[n]);
      }
    }
  }

  /** Step i fetched this value for the key, at this time, and no clearing follows it before step n. */
  ghost predicate ComesFrom(steps: seq<Step>, key: string, e: Entry, i: nat, n: nat)
    requires n <= |steps|
  {
    && i < n && steps[i].Fetched? && steps[i].key == key && steps[i].value == e.value && steps[i].now == e.storedAt
    && forall j :: i < j < n ==> !steps[j].ClearAll?
  }

  lemma {:induction false} EntriesAreFetched(states: seq<Cache>, steps: seq<Step>, n: nat, key: string)
    requires IsRun(states, steps) && n <= |steps| && key in states[n]
    ensures exists i :: ComesFrom(steps, key, states[n][key], i, n)
    decreases n
  {
    hide IsEviction;
    var m, step := states[n - 1], steps[n - 1];
    assert Moves(m, step, states[n]);
    if step.Fetched? && step.key == key && states[n][key] == Entry(step.now, step.value) {
      assert ComesFrom(steps, key, states[n][key], n - 1, n);
    } else {
      OthersStay(m, step, states[n], key);
      EntriesAreFetched(states, steps, n - 1, key);
      var i :| ComesFrom(steps, key, m[key], i, n - 1);
      assert ComesFrom(steps, key, states[n][key], i, n);
    }
  }

  lemma OthersStay(m: Cache, step: Step, m': Cache, key: string)
    requires Moves(m, step, m') && key in m'
    requires !(step.Fetched? && step.key == key && m'[key] == Entry(step.now, step.value))
    ensures !step.ClearAll? && key in m && m[key] == m'[key]
  {
  }

  /** In every interleaving, a hit hands out a value that some resolution fetched for the same key since
      the last clearing, a shorter time ago than the allowed number of seconds. */
  lemma HitsAreFresh(states: seq<Cache>, steps: seq<Step>, n: nat)
    requires IsRun(states, steps) && n < |steps| && steps[n].LookUp?
    ensures var hit := Hit(states[n], steps[n].key, steps[n].cacheSeconds, steps[n].now);
      hit.Some? ==> exists i, e ::
        ComesFrom(steps, steps[n].key, e, i, n) && e.value == hit.value
            && steps[n].now < e.storedAt + Allowed(steps[n].cacheSeconds)
  {
    var key := steps[n].key;
    if Hit(states[n], key, steps[n].cacheSeconds, steps[n].now).Some? {
      EntriesAreFetched(states, steps, n, key);
      var i :| ComesFrom(steps, key, states[n][key], i, n);
      assert steps[n].now < states[n][key].storedAt + Allowed(steps[n].cacheSeconds);
    }
  }

  /** A fetched value of admissible size is handed out as long as its age is allowed, until something else is
      fetched or the cache is cleared. */
  lemma FetchedIsHit(states: seq<Cache>, steps: seq<Step>, i: nat, n: nat)
    requires IsRun(states, steps) && i < n < |steps|
    requires steps[i].Fetched? && steps[i].cacheSeconds > 0 && |steps[i].value| <= MAX_CACHE_BYTES
    requires steps[n].LookUp? && steps[n].key == steps[i].key
    requires forall j :: i < j < n ==> steps[j].LookUp?
    ensures var allowed := if steps[n].cacheSeconds < 3_600 then steps[n].cacheSeconds else 3_600;
      Hit(states[n], steps[n].key, steps[n].cacheSeconds, steps[n].now)
      == if allowed > 0 && steps[n].now < steps[i].now + allowed * SECOND then Some(steps[i].value) else None
  {
    LookupsKeepState(states, steps, i + 1, n);
    assert Moves(states[i], steps[i], states[i + 1]);
  }

  lemma {:induction false} LookupsKeepState(states: seq<Cache>, steps: seq<Step>, i: nat, n: nat)
    requires IsRun(states, steps) && i <= n <= |steps| && forall j :: i <= j < n ==> steps[j].LookUp?
    ensures states[n] == states[i]
    decreases n
  {
    if i < n {
      LookupsKeepState(states, steps, i, n - 1);
      assert Moves(states[n - 1], steps[n - 1], states[n]);
    }
  }

  /** Against fetching every time: if each secret keeps its value during the run, every hit is what a
      fetch would return. */
  lemma HitsEqualFetches(states: seq<Cache>, steps: seq<Step>, n: nat, vault: string -> Value)
    requires IsRun(states, steps) && n < |steps| && steps[n].LookUp?
    requires forall i :: 0 <= i < n && steps[i].Fetched? ==> steps[i].value == vault(steps[i].key)
    ensures var hit := Hit(states[n], steps[n].key, steps[n].cacheSeconds, steps[n].now);
      hit.Some? ==> hit.value == vault(steps[n].key)
  {
    HitsAreFresh(states, steps, n);
  }
}
