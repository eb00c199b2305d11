/** The external-secret resolver of the command line: its approved-reference keys, and its cache over an
    insertion-ordered map. Times are in milliseconds. */
module CliSecretCache {
  import opened Options
  import opened Text
  import opened UriComponents

  const MAX_CACHE_BYTES := 20_000_000
  const MAX_CACHE_ENTRIES := 256
  const CACHE_MS := 30 * 60 * 1_000

  /** Values are strings of bytes. */
  type Value = seq<bv8>

  datatype Entry = Entry(key: string, storedAt: int, value: Value)

  /** A map that remembers the order in which its keys were first set. */
  type OrderedMap = seq<Entry>

  ghost predicate Keyed(m: OrderedMap) { forall i, j :: 0 <= i < j < |m| ==> m[i].key != m[j].key }

  predicate Has(m: OrderedMap, key: string) { exists i :: 0 <= i < |m| && m[i].key == key }

  function Total(m: OrderedMap): nat { if m == [] then 0 else |m[0].value| + Total(m[1..]) }

  /** Position of a key, or the length of the map. */
  function Position(m: OrderedMap, key: string): (i: nat)
    ensures i <= |m| && (i < |m| ==> m[i].key == key)
    ensures forall j :: 0 <= j < i ==> m[j].key != key
  {
    if m == [] then 0 else if m[0].key == key then 0 else 1 + Position(m[1..], key)
  }

  function Delete(m: OrderedMap, key: string): OrderedMap {
    var i := Position(m, key);
    if i < |m| then m[..i] + m[i + 1..] else m
  }

  /** Setting a key that is present keeps its place. */
  function Set(m: OrderedMap, e: Entry): OrderedMap {
    var i := Position(m, e.key);
    if i < |m| then m[i := e] else m + [e]
  }

  /** Deleting removes the entry of its key and leaves the others in order. */
  lemma DeletingRemovesOne(m: OrderedMap, key: string, i: nat)
    requires Keyed(m) && i < |m| && m[i].key == key
    ensures var r := Delete(m, key);
      |r| == |m| - 1 && forall k :: 0 <= k < |r| ==> r[k] == m[if k < i then k else k + 1]
  {
    PositionIs(m, key, i);
    hide Position, Keyed;
    assert Delete(m, key) == m[..i] + m[i + 1..];
  }

  lemma PositionIs(m: OrderedMap, key: string, i: nat)
    requires Keyed(m) && i < |m| && m[i].key == key
    ensures Position(m, key) == i
  {
    hide Position;
    var j := Position(m, key);
    assert j <= i;
  }

  lemma DeletingNothing(m: OrderedMap, key: string)
    requires !Has(m, key)
    ensures Delete(m, key) == m
  {
  }

  /** Setting replaces the entry of its key in place, or appends, and leaves the others alone. */
  lemma SettingChangesOne(m: OrderedMap, e: Entry)
    requires Keyed(m)
    ensures Has(m, e.key) ==> |Set(m, e)| == |m|
    ensures forall i :: 0 <= i < |m| ==> Set(m, e)[i] == if m[i].key == e.key then e else m[i]
    ensures !Has(m, e.key) ==> |Set(m, e)| == |m| + 1 && Set(m, e)[|m|] == e
  {
  }

  // ---------------------------------------------------------------------- bounds

  ghost predicate Bounded(m: OrderedMap) {
    Keyed(m) && |m| <= MAX_CACHE_ENTRIES && Total(m) <= MAX_CACHE_BYTES
  }

  predicate NeedsRoom(m: OrderedMap, bytes: nat) {
    |m| >= MAX_CACHE_ENTRIES || Total(m) + bytes > MAX_CACHE_BYTES
  }

  /** The first n entries were evicted, and none of them needlessly. */
  ghost predicate IsEviction(m: OrderedMap, bytes: nat, n: int) {
    0 <= n <= |m| && !NeedsRoom(m[n..], bytes) && forall k :: 0 <= k < n ==> NeedsRoom(m[k..], bytes)
  }

  lemma {:induction false} TotalOfParts(a: OrderedMap, b: OrderedMap)
    ensures Total(a + b) == Total(a) + Total(b)
  {
    if a == [] {
      assert a + b == b;
    } else {
      TotalOfParts(a[1..], b);
      assert (a + b)[1..] == a[1..] + b;
    }
  }

  lemma TotalAround(m: OrderedMap, i: nat)
    requires i < |m|
    ensures Total(m) == Total(m[..i]) + |m[i].value| + Total(m[i + 1..])
  {
    assert m == m[..i] + m[i..] && m[i..][1..] == m[i + 1..];
    TotalOfParts(m[..i], m[i..]);
  }

  lemma DeletingKeepsKeys(m: OrderedMap, key: string)
    requires Keyed(m)
    ensures Keyed(Delete(m, key)) && !Has(Delete(m, key), key)
  {
  }

  lemma DeletingKeepsBounds(m: OrderedMap, key: string)
    requires Bounded(m)
    ensures Bounded(Delete(m, key)) && !Has(Delete(m, key), key)
  {
    DeletingKeepsKeys(m, key);
    hide Keyed, Has;
    var i := Position(m, key);
    if i < |m| {
      TotalAround(m, i);
      TotalOfParts(m[..i], m[i + 1..]);
    }
  }

  lemma SuffixKeepsBounds(m: OrderedMap, n: nat)
    requires Bounded(m) && n <= |m|
    ensures Bounded(m[n..])
  {
    assert m == m[..n] + m[n..];
    TotalOfParts(m[..n], m[n..]);
  }

  lemma SettingKeepsBounds(m: OrderedMap, e: Entry)
    requires Bounded(m) && !NeedsRoom(m, |e.value|)
    ensures Bounded(Set(m, e))
  {
    var i := Position(m, e.key);
    if i < |m| {
      TotalAround(m, i);
      TotalAround(m[i := e], i);
      assert m[i := e][..i] == m[..i] && m[i := e][i + 1..] == m[i + 1..];
    } else {
      TotalOfParts(m, [e]);
      assert [e][1..] == [];
    }
  }

  // ---------------------------------------------------------------------- the resolver

  predicate Fresh(m: OrderedMap, key: string, now: int) {
    var i := Position(m, key);
    i < |m| && now - m[i].storedAt < CACHE_MS
  }

  /** What the first part of a resolution, up to the external call, leaves in the map. */
  function AfterLookup(m: OrderedMap, key: string, now: int): OrderedMap {
    if Fresh(m, key, now) then m else Delete(m, key)
  }

  /** What the second part leaves. */
  ghost predicate Stores(m: OrderedMap, key: string, value: Value, now: int, m': OrderedMap) {
    if |value| > MAX_CACHE_BYTES then m' == m
    else exists n :: IsEviction(m, |value|, n) && m' == Set(m[n..], Entry(key, now, value))
  }

  datatype Outcome = Resolved(value: Value) | DeviceProfile | NotApproved | Failed

  class Resolver {
    const allowlist: seq<string>
    var cache: OrderedMap

    ghost predicate Valid()
      reads this
    {
      Bounded(cache)
    }

    constructor (allowlist: seq<string>)
      ensures Valid() && cache == [] && this.allowlist == allowlist
    {
      this.allowlist := allowlist;
      cache := [];
    }

    method LookUp(key: string, now: int) returns (hit: Option<Value>)
      requires Valid()
      modifies this
      ensures Valid() && cache == AfterLookup(old(cache), key, now)
      ensures hit.Some? <==> Fresh(old(cache), key, now)
      ensures hit.Some? ==> cache[Position(cache, key)].value == hit.value
    {
      var i := Position(cache, key);
      if i < |cache| && now - cache[i].storedAt < CACHE_MS {
        return Some(cache[i].value);
      }
      DeletingKeepsBounds(cache, key);
      if i < |cache| {
        cache := Delete(cache, key);
      }
      hit := None;
    }

    method Store(key: string, value: Value, now: int)
      requires Valid()
      modifies this
      ensures Valid() && Stores(old(cache), key, value, now, cache)
    {
      var bytes := |value|;
      if bytes <= MAX_CACHE_BYTES {
        ghost var n := 0;
        while cache != [] && (|cache| >= MAX_CACHE_ENTRIES || Total(cache) + bytes > MAX_CACHE_BYTES)
          invariant 0 <= n <= |old(cache)| && cache == old(cache)[n..]
          invariant forall k :: 0 <= k < n ==> NeedsRoom(old(cache)[k..], bytes)
          decreases |cache|
        {
          cache := cache[1..];
          n := n + 1;
        }
        SuffixKeepsBounds(old(cache), n);
        SettingKeepsBounds(cache, Entry(key, now, value));
        assert IsEviction(old(cache), bytes, n);
        cache := Set(cache, Entry(key, now, value));
      }
    }

    /** A resolution that no other overlaps; fetched stands for the external call, which may fail. */
    method Resolve(input: Input, fetched: Option<Value>, now: int, later: int) returns (r: Outcome)
      requires Valid()
      modifies this
      ensures Valid()
      ensures Profiled(input) ==> r == DeviceProfile && cache == old(cache)
      ensures !Profiled(input) && ReferenceKey(input) !in allowlist ==> r == NotApproved && cache == old(cache)
      ensures !Profiled(input) && ReferenceKey(input) in allowlist ==>
        var key := ReferenceKey(input); var hit := Position(old(cache), key);
        if Fresh(old(cache), key, now) then r == Resolved(old(cache)[hit].value) && cache == old(cache)
        else if fetched == None then r == Failed && cache == AfterLookup(old(cache), key, now)
        else r == Resolved(fetched.value) && Stores(AfterLookup(old(cache), key, now), key, fetched.value, later, cache)
    {
      if Profiled(input) {
        return DeviceProfile;
      }
      var key := ReferenceKey(input);
      if key !in allowlist {
        return NotApproved;
      }
      var hit := LookUp(key, now);
      if hit.Some? {
        return Resolved(hit.value);
      }
      if fetched == None {
        return Failed;
      }
      Store(key, fetched.value, later);
      r := Resolved(fetched.value);
    }
  }

  // ---------------------------------------------------------------------- any interleaving of resolutions

  /** The two parts of any number of resolutions, in the order in which they run. */
  datatype Step = LookingUp(key: string, now: int) | Fetched(key: string, value: Value, now: int)

  ghost predicate Moves(m: OrderedMap, step: Step, m': OrderedMap) {
    match step
    case LookingUp(key, now) => m' == AfterLookup(m, key, now)
    case Fetched(key, value, now) => Stores(m, key, value, now, m')
  }

  ghost predicate IsRun(states: seq<OrderedMap>, steps: seq<Step>) {
    && |states| == |steps| + 1 && states[0] == []
    && forall i :: 0 <= i < |steps| ==> Moves(states[i], steps[i], states[i + 1])
  }

  lemma StoringKeepsBounds(m: OrderedMap, key: string, value: Value, now: int, m': OrderedMap)
    requires Bounded(m) && Stores(m, key, value, now, m')
    ensures Bounded(m')
  {
    if |value| <= MAX_CACHE_BYTES {
      var n :| IsEviction(m, |value|, n) && m' == Set(m[n..], Entry(key, now, value));
      hide Bounded, Set, NeedsRoom;
      SuffixKeepsBounds(m, n);
      SettingKeepsBounds(m[n..], Entry(key, now, value));
    }
  }

  /** In every interleaving both bounds hold at all times. */
  lemma {:induction false} RunsStayBounded(states: seq<OrderedMap>, steps: seq<Step>, n: nat)
    requires IsRun(states, steps) && n <= |steps|
    ensures Bounded(states[n])
    decreases n
  {
    if n > 0 {
      hide Bounded, Stores, AfterLookup;
      RunsStayBounded(states, steps, n - 1);
      StepKeepsBounds(states[n - 1], steps[n - 1], states[n]);
    } else {
      assert states[n] == [];
    }
  }

  lemma StepKeepsBounds(m: OrderedMap, step: Step, m': OrderedMap)
    requires Bounded(m) && Moves(m, step, m')
    ensures Bounded(m')
  {
    match step {
      case LookingUp(key, now) => DeletingKeepsBounds(m, key);
      case Fetched(key, value, now) => StoringKeepsBounds(m, key, value, now, m');
    }
  }

  /** Step i fetched this entry. */
  ghost predicate ComesFrom(steps: seq<Step>, e: Entry, i: nat, n: nat)
    requires n <= |steps|
  {
    i < n && steps[i] == Fetched(e.key, e.value, e.storedAt)
  }

  lemma SetAddsOne(m: OrderedMap, added: Entry, e: Entry)
    requires e in Set(m, added)
    ensures e == added || e in m
  {
  }

  lemma DeleteAddsNothing(m: OrderedMap, key: string, e: Entry)
    requires e in Delete(m, key)
    ensures e in m
  {
  }

  lemma OthersStay(m: OrderedMap, step: Step, m': OrderedMap, e: Entry)
    requires Moves(m, step, m') && e in m' && step != Fetched(e.key, e.value, e.storedAt)
    ensures e in m
  {
    hide Set, Delete, NeedsRoom;
    if step.LookingUp? {
      if m' != m { DeleteAddsNothing(m, step.key, e); }
    } else if m' != m {
      var n :| IsEviction(m, |step.value|, n) && m' == Set(m[n..], Entry(step.key, step.now, step.value));
      SetAddsOne(m[n..], Entry(step.key, step.now, step.value), e);
    }
  }

  lemma {:induction false} EntriesAreFetched(states: seq<OrderedMap>, steps: seq<Step>, n: nat, e: Entry)
    requires IsRun(states, steps) && n <= |steps| && e in states[n]
    ensures exists i :: ComesFrom(steps, e, i, n)
    decreases n
  {
    hide Moves;
    if steps[n - 1] == Fetched(e.key, e.value, e.storedAt) {
      assert ComesFrom(steps, e, n - 1, n);
    } else {
      OthersStay(states[n - 1], steps[n - 1], states[n], e);
      EntriesAreFetched(states, steps, n - 1, e);
      var i :| ComesFrom(steps, e, i, n - 1);
      assert ComesFrom(steps, e, i, n);
    }
  }

  /** In every interleaving, a hit hands out a value that some resolution fetched for the same key less
      than half an hour ago. */
  lemma HitsAreFresh(states: seq<OrderedMap>, steps: seq<Step>, n: nat)
    requires IsRun(states, steps) && n < |steps| && steps[n].LookingUp? && Fresh(states[n], steps[n].key, steps[n].now)
    ensures var e := states[n][Position(states[n], steps[n].key)];
      && e.key == steps[n].key && steps[n].now < e.storedAt + 1_800_000
      && exists i :: ComesFrom(steps, e, i, n)
  {
    EntriesAreFetched(states, steps, n, states[n][Position(states[n], steps[n].key)]);
  }

  lemma KeyedPosition(m: OrderedMap, e: Entry)
    requires Keyed(m) && e in m
    ensures Position(m, e.key) < |m| && m[Position(m, e.key)] == e
  {
  }

  lemma StoredIsThere(m: OrderedMap, key: string, value: Value, now: int, m': OrderedMap)
    requires Bounded(m) && |value| <= MAX_CACHE_BYTES && Stores(m, key, value, now, m')
    ensures Keyed(m') && Entry(key, now, value) in m'
  {
    StoringKeepsBounds(m, key, value, now, m');
    var n :| IsEviction(m, |value|, n) && m' == Set(m[n..], Entry(key, now, value));
    SuffixKeepsBounds(m, n);
    SettingChangesOne(m[n..], Entry(key, now, value));
    hide Stores, NeedsRoom, Set;
    if i :| 0 <= i < |m[n..]| && m[n..][i].key == key {
      assert m'[i] == Entry(key, now, value);
    }
  }

  lemma LookupKeeps(m: OrderedMap, key: string, now: int, e: Entry)
    requires Keyed(m) && e in m && e.key != key
    ensures Keyed(AfterLookup(m, key, now)) && e in AfterLookup(m, key, now)
  {
    DeletingKeepsKeys(m, key);
    hide Keyed, Delete, Has, Fresh;
    DeletingKeepsOthers(m, key, e);
  }

  lemma DeletingKeepsOthers(m: OrderedMap, key: string, e: Entry)
    requires Keyed(m) && e in m && e.key != key
    ensures e in Delete(m, key)
  {
    hide Keyed, Delete, Position;
    if i: nat :| i < |m| && m[i].key == key {
      DeletingRemovesOne(m, key, i);
      var k :| 0 <= k < |m| && m[k] == e;
      var at := if k < i then k else k - 1;
      assert at < |Delete(m, key)| && Delete(m, key)[at] == e;
    } else {
      DeletingNothing(m, key);
    }
  }

  /** A fetched value of admissible size is handed out as long as it is fresh, whatever other keys are looked up
      in between. */
  lemma FetchedIsHit(states: seq<OrderedMap>, steps: seq<Step>, i: nat, n: nat)
    requires IsRun(states, steps) && i < n < |steps|
    requires steps[i].Fetched? && |steps[i].value| <= MAX_CACHE_BYTES
    requires steps[n].LookingUp? && steps[n].key == steps[i].key
    requires forall j :: i < j < n ==> steps[j].LookingUp? && steps[j].key != steps[i].key
    ensures Fresh(states[n], steps[n].key, steps[n].now) <==> steps[n].now - steps[i].now < 1_800_000
    ensures Fresh(states[n], steps[n].key, steps[n].now) ==>
      states[n][Position(states[n], steps[n].key)].value == steps[i].value
  {
    EntryStays(states, steps, i, n);
    KeyedPosition(states[n], Entry(steps[i].key, steps[i].now, steps[i].value));
  }

  lemma {:induction false} EntryStays(states: seq<OrderedMap>, steps: seq<Step>, i: nat, n: nat)
    requires IsRun(states, steps) && i < n <= |steps|
    requires steps[i].Fetched? && |steps[i].value| <= MAX_CACHE_BYTES
    requires forall j :: i < j < n ==> steps[j].LookingUp? && steps[j].key != steps[i].key
    ensures Keyed(states[n]) && Entry(steps[i].key, steps[i].now, steps[i].value) in states[n]
    decreases n
  {
    hide Keyed, Stores, AfterLookup;
    var e := Entry(steps[i].key, steps[i].now, steps[i].value);
    assert Moves(states[n - 1], steps[n - 1], states[n]);
    if n == i + 1 {
      RunsStayBounded(states, steps, i);
      StoredIsThere(states[i], e.key, e.value, e.storedAt, states[n]);
    } else {
      EntryStays(states, steps, i, n - 1);
      LookupKeeps(states[n - 1], steps[n - 1].key, steps[n - 1].now, e);
    }
  }

  // ---------------------------------------------------------------------- the key

  /** Absent parts are empty. */
  datatype Input = Input(provider: string, reference: string, scope: string, field: string, version: string,
                         credentialId: string, appName: string)

  predicate Profiled(input: Input) { Trim(input.credentialId) != "" || Trim(input.appName) != "" }

  function Parts(input: Input): seq<string> {
    [Trim(input.provider), Trim(input.reference), Trim(input.scope), Trim(input.field), Trim(input.version)]
  }

  function EncodeAll(parts: seq<string>): seq<string> {
    if parts == [] then [] else [Encode(parts[0])] + EncodeAll(parts[1..])
  }

  function ReferenceKey(input: Input): string { "v1:" + Join(EncodeAll(Parts(input)), ':') }

  lemma {:induction false} EncodeAllIsInjective(a: seq<string>, b: seq<string>)
    requires |a| == |b|
    ensures |EncodeAll(a)| == |a| && (forall part :: part in EncodeAll(a) ==> ':' !in part)
    ensures EncodeAll(a) == EncodeAll(b) ==> a == b
  {
    if a != [] {
      EncodeAllIsInjective(a[1..], b[1..]);
      EncodedHasNoColon(a[0]);
      if EncodeAll(a) == EncodeAll(b) {
        assert EncodeAll(a)[0] == EncodeAll(b)[0] && EncodeAll(a)[1..] == EncodeAll(b)[1..];
        EncodeIsInjective(a[0], b[0]);
        assert a == [a[0]] + a[1..] && b == [b[0]] + b[1..];
      }
    }
  }

  /** The five parts that say which secret is meant agree up to surrounding white space. */
  predicate SameReference(a: Input, b: Input) {
    && Trim(a.provider) == Trim(b.provider) && Trim(a.reference) == Trim(b.reference)
    && Trim(a.scope) == Trim(b.scope) && Trim(a.field) == Trim(b.field) && Trim(a.version) == Trim(b.version)
  }

  lemma PartsAgree(a: Input, b: Input)
    ensures Parts(a) == Parts(b) <==> SameReference(a, b)
  {
    hide Trim;
    var p, q := Parts(a), Parts(b);
    if p == q {
      assert p[0] == q[0] && p[1] == q[1] && p[2] == q[2] && p[3] == q[3] && p[4] == q[4];
    }
  }

  /** Two inputs share a key exactly when their five trimmed parts agree, whatever characters they hold:
      approving one reference approves no other. */
  lemma KeysIdentifyParts(a: Input, b: Input)
    ensures ReferenceKey(a) == ReferenceKey(b) <==> SameReference(a, b)
  {
    PartsAgree(a, b);
    hide SameReference;
    var x, y := EncodeAll(Parts(a)), EncodeAll(Parts(b));
    EncodeAllIsInjective(Parts(a), Parts(b));
    EncodeAllIsInjective(Parts(b), Parts(a));
    SplitJoin(x, ':');
    SplitJoin(y, ':');
    if ReferenceKey(a) == ReferenceKey(b) {
      assert ReferenceKey(a)[3..] == Join(x, ':') && ReferenceKey(b)[3..] == Join(y, ':');
    }
  }

  /** An input is refused as profiled exactly when one of the two profile fields holds more than white space. */
  lemma ProfiledMeansText(input: Input)
    ensures Profiled(input) <==> exists c :: (c in input.credentialId || c in input.appName) && !IsSpace(c)
  {
    TrimIsCore(input.credentialId);
    TrimIsCore(input.appName);
    hide Trim;
  }

  /** In every interleaving of resolutions, a hit hands out what was fetched for a reference with the same five
      parts: no two references that differ in one of them share a value. */
  lemma HitsBelongToTheReference(states: seq<OrderedMap>, steps: seq<Step>, n: nat, input: Input, inputs: seq<Input>)
    requires IsRun(states, steps) && n < |steps| && |inputs| == |steps|
    requires forall i :: 0 <= i < n && steps[i].Fetched? ==> steps[i].key == ReferenceKey(inputs[i])
    requires steps[n].LookingUp? && steps[n].key == ReferenceKey(input) && Fresh(states[n], steps[n].key, steps[n].now)
    ensures var e := states[n][Position(states[n], steps[n].key)];
      exists i: nat :: ComesFrom(steps, e, i, n) && SameReference(inputs[i], input)
  {
    hide Moves, ReferenceKey, SameReference;
    HitsAreFresh(states, steps, n);
    var e := states[n][Position(states[n], steps[n].key)];
    var i: nat :| ComesFrom(steps, e, i, n);
    KeysIdentifyParts(inputs[i], input);
  }
}
