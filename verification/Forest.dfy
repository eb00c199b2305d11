/** Trees of resources given by parent ids. A parent id that is empty or unknown makes a root. */
module Forest {
  type Parents = map<string, string>

  predicate HasParent(m: Parents, id: string) { id in m && m[id] != "" && m[id] in m }

  /** The parent chain of id, from id itself up to its root. */
  ghost predicate IsLineage(m: Parents, id: string, l: seq<string>) {
    && l != [] && l[0] == id
    && (forall i :: 0 <= i < |l| ==> l[i] in m)
    && (forall i :: 0 <= i < |l| - 1 ==> HasParent(m, l[i]) && l[i + 1] == m[l[i]])
    && !HasParent(m, l[|l| - 1])
  }

  /** Every parent chain ends. */
  ghost predicate Acyclic(m: Parents) { forall id :: id in m ==> Ends(m, id) }

  ghost predicate Ends(m: Parents, id: string) { exists l :: IsLineage(m, id, l) }

  function Without(l: seq<string>, d: string): seq<string> {
    if l == [] then [] else (if l[0] == d then [] else [l[0]]) + Without(l[1..], d)
  }

  lemma {:induction false} WithoutAbsent(l: seq<string>, d: string)
    requires d !in l
    ensures Without(l, d) == l
  {
    if l != [] {
      WithoutAbsent(l[1..], d);
      assert l == [l[0]] + l[1..];
    }
  }

  lemma {:induction false} InWithout(l: seq<string>, d: string)
    ensures forall x :: x in Without(l, d) <==> x in l && x != d
  {
    if l != [] { InWithout(l[1..], d); }
  }

  /** The positions from i on that do not hold d, ascending. */
  function Others(l: seq<string>, d: string, i: nat): seq<nat>
    requires i <= |l|
    decreases |l| - i
  {
    if i == |l| then [] else if l[i] != d then [i] + Others(l, d, i + 1) else Others(l, d, i + 1)
  }

  /** r reads l at the ascending positions at, which are those from i on that do not hold d. */
  ghost predicate ReadsOthers(l: seq<string>, d: string, i: nat, at: seq<nat>, r: seq<string>)
    requires i <= |l|
  {
    && |r| == |at|
    && (forall k :: 0 <= k < |at| ==> i <= at[k] < |l| && r[k] == l[at[k]])
    && (forall k :: 0 <= k < |at| - 1 ==> at[k] < at[k + 1])
    && forall j :: i <= j < |l| ==> (l[j] != d <==> j in at)
  }

  lemma ReadsOneMore(l: seq<string>, d: string, i: nat, at: seq<nat>, r: seq<string>)
    requires i < |l| && l[i] != d && ReadsOthers(l, d, i + 1, at, r)
    ensures ReadsOthers(l, d, i, [i] + at, [l[i]] + r)
  {
    forall j | i <= j < |l| ensures l[j] != d <==> j in [i] + at {
      assert j in [i] + at <==> j == i || j in at;
    }
  }

  lemma WithoutStep(l: seq<string>, d: string, i: nat)
    requires i < |l|
    ensures Without(l[i..], d) == if l[i] != d then [l[i]] + Without(l[i + 1..], d) else Without(l[i + 1..], d)
  {
    assert l[i..][1..] == l[i + 1..] && l[i..][0] == l[i];
  }

  lemma {:induction false} WithoutReads(l: seq<string>, d: string, i: nat)
    requires i <= |l|
    ensures ReadsOthers(l, d, i, Others(l, d, i), Without(l[i..], d))
    decreases |l| - i
  {
    if i < |l| {
      WithoutReads(l, d, i + 1);
      WithoutStep(l, d, i);
      hide Without;
      if l[i] != d {
        ReadsOneMore(l, d, i, Others(l, d, i + 1), Without(l[i + 1..], d));
        hide ReadsOthers;
      }
    } else {
      assert l[i..] == [];
    }
  }

  ghost predicate NoDuplicates(l: seq<string>) { forall i, j :: 0 <= i < j < |l| ==> l[i] != l[j] }

  lemma {:induction false} DistinctIsPreserved(a: seq<string>, d: string)
    requires NoDuplicates(a)
    ensures NoDuplicates(Without(a, d))
  {
    if a != [] {
      var t := a[1..];
      forall i, j | 0 <= i < j < |t| ensures t[i] != t[j] { assert a[i + 1] != a[j + 1]; }
      forall i | 0 <= i < |t| ensures t[i] != a[0] { assert a[0] != a[i + 1]; }
      DistinctIsPreserved(t, d);
      InWithout(t, d);
      ConsDistinct(a[0], Without(t, d));
      assert a[0] == d ==> Without(a, d) == Without(t, d);
    }
  }

  lemma ConsDistinct(x: string, l: seq<string>)
    requires NoDuplicates(l) && x !in l
    ensures NoDuplicates([x] + l)
  {
  }

  // ---------------------------------------------------------------------- lineages

  lemma LineageTail(m: Parents, id: string, l: seq<string>)
    requires IsLineage(m, id, l) && |l| > 1
    ensures HasParent(m, id) && l[1] == m[id] && IsLineage(m, m[id], l[1..])
  {
    var t := l[1..];
    assert HasParent(m, l[0]) && l[1] == m[l[0]];
    forall i | 0 <= i < |t| - 1 ensures HasParent(m, t[i]) && t[i + 1] == m[t[i]] {
      assert HasParent(m, l[i + 1]);
    }
  }

  lemma LineageCons(m: Parents, id: string, t: seq<string>)
    requires HasParent(m, id) && IsLineage(m, m[id], t)
    ensures IsLineage(m, id, [id] + t)
  {
    var l := [id] + t;
    forall i | 0 <= i < |l| - 1 ensures HasParent(m, l[i]) && l[i + 1] == m[l[i]] {
      if i > 0 { assert HasParent(m, t[i - 1]); }
    }
  }

  lemma {:induction false} LineageUnique(m: Parents, id: string, a: seq<string>, b: seq<string>)
    requires IsLineage(m, id, a) && IsLineage(m, id, b)
    ensures a == b
    decreases |a|
  {
    if |a| == 1 {
      if |b| > 1 { LineageTail(m, id, b); }
    } else {
      LineageTail(m, id, a);
      if |b| > 1 { LineageTail(m, id, b); }
      LineageUnique(m, m[id], a[1..], b[1..]);
      assert a == [a[0]] + a[1..] && b == [b[0]] + b[1..];
    }
  }

  lemma {:induction false} LineageDrop(m: Parents, id: string, l: seq<string>, i: nat)
    requires IsLineage(m, id, l) && i < |l|
    ensures IsLineage(m, l[i], l[i..])
    decreases i
  {
    if i > 0 {
      LineageTail(m, id, l);
      LineageDrop(m, m[id], l[1..], i - 1);
      assert l[1..][i - 1..] == l[i..];
    }
  }

  lemma LineageDistinct(m: Parents, id: string, l: seq<string>, i: nat, j: nat)
    requires IsLineage(m, id, l) && i < j < |l|
    ensures l[i] != l[j]
  {
    LineageDrop(m, id, l, i);
    LineageDrop(m, id, l, j);
    if l[i] == l[j] {
      LineageUnique(m, l[i], l[i..], l[j..]);
    }
  }

  lemma {:induction false} LineageStep(m: Parents, id: string, l: seq<string>)
    requires IsLineage(m, id, l)
    ensures id !in l[1..]
    ensures HasParent(m, id) ==> |l| > 1 && m[id] != id
    ensures !HasParent(m, id) ==> l == [id]
  {
    forall i | 1 <= i < |l| ensures l[i] != id {
      LineageDistinct(m, id, l, 0, i);
    }
    if |l| > 1 { LineageTail(m, id, l); }
  }

  // ---------------------------------------------------------------------- deleting a node

  /** A deleted node's children move to its parent. */
  function Delete(m: Parents, d: string): Parents
    requires d in m
  {
    map id | id in m && id != d :: if m[id] == d then m[d] else m[id]
  }

  /** Every remaining lineage is the old one with only the deleted node removed. */
  lemma {:induction false} DeleteKeepsLineage(m: Parents, d: string, id: string, l: seq<string>)
    requires d in m && d != "" && id != d && IsLineage(m, id, l)
    ensures IsLineage(Delete(m, d), id, Without(l, d))
    decreases |l|
  {
    var m' := Delete(m, d);
    LineageStep(m, id, l);
    if |l| == 1 {
      assert Without(l, d) == [id] by { WithoutAbsent(l, d); }
      assert !HasParent(m', id);
    } else {
      LineageTail(m, id, l);
      var t := l[1..];
      if m[id] == d {
        LineageStep(m, d, t);
        assert Without(l, d) == [id] + Without(t, d);
        if |t| == 1 {
          assert Without(t, d) == [];
          assert !HasParent(m', id);
          assert IsLineage(m', id, [id]);
        } else {
          LineageTail(m, d, t);
          assert Without(t, d) == Without(t[1..], d);
          DeleteKeepsLineage(m, d, m[d], t[1..]);
          LineageCons(m', id, Without(t[1..], d));
        }
      } else {
        DeleteKeepsLineage(m, d, m[id], t);
        LineageCons(m', id, Without(t, d));
      }
    }
  }

  lemma DeleteKeepsAcyclic(m: Parents, d: string)
    requires d in m && d != "" && Acyclic(m)
    ensures Acyclic(Delete(m, d))
  {
    forall id | id in Delete(m, d) ensures Ends(Delete(m, d), id) {
      var l :| IsLineage(m, id, l);
      DeleteKeepsLineage(m, d, id, l);
    }
  }

  // ---------------------------------------------------------------------- moving a node

  /** p is x itself or below x. */
  ghost predicate AtOrBelow(m: Parents, p: string, x: string) { exists l :: IsLineage(m, p, l) && x in l }

  lemma {:induction false} MoveKeepsLineage(m: Parents, x: string, p: string, id: string, l: seq<string>)
    requires x in m && IsLineage(m, id, l) && x !in l
    ensures IsLineage(m[x := p], id, l)
    decreases |l|
  {
    var m' := m[x := p];
    if |l| > 1 {
      LineageTail(m, id, l);
      MoveKeepsLineage(m, x, p, m[id], l[1..]);
      LineageCons(m', id, l[1..]);
      assert l == [id] + l[1..];
    } else {
      assert l[0] in l;
    }
  }

  /** Giving x the parent p keeps the forest acyclic exactly when p is not at or below x. */
  lemma MoveCyclesExactlyBelow(m: Parents, x: string, p: string)
    requires Acyclic(m) && x in m && x != ""
    ensures Acyclic(m[x := p]) <==> (p == "" || p !in m || !AtOrBelow(m, p, x))
  {
    if p == "" || p !in m {
      MoveToRoot(m, x, p);
    } else if AtOrBelow(m, p, x) {
      MoveBelowLoops(m, x, p);
      assert x in m[x := p];
    } else {
      MoveElsewhere(m, x, p);
    }
  }

  lemma {:induction false} MoveRewires(m: Parents, x: string, p: string, above: seq<string>, id: string, l: seq<string>)
    requires x in m && IsLineage(m, id, l) && IsLineage(m[x := p], x, above)
    ensures Ends(m[x := p], id)
    decreases |l|
  {
    var m' := m[x := p];
    if id == x {
    } else if |l| == 1 {
      LineageStep(m, id, l);
      assert IsLineage(m', id, [id]);
    } else {
      LineageTail(m, id, l);
      MoveRewires(m, x, p, above, m[id], l[1..]);
      var t :| IsLineage(m', m[id], t);
      LineageCons(m', id, t);
    }
  }

  lemma MoveWithAbove(m: Parents, x: string, p: string, above: seq<string>)
    requires Acyclic(m) && x in m && IsLineage(m[x := p], x, above)
    ensures Acyclic(m[x := p])
  {
    var m' := m[x := p];
    forall id | id in m' ensures Ends(m', id) {
      assert Ends(m, id);
      var l :| IsLineage(m, id, l);
      MoveRewires(m, x, p, above, id, l);
    }
  }

  lemma MoveToRoot(m: Parents, x: string, p: string)
    requires Acyclic(m) && x in m && x != "" && (p == "" || p !in m)
    ensures Acyclic(m[x := p])
  {
    var m' := m[x := p];
    assert !HasParent(m', x) && x in m';
    assert IsLineage(m', x, [x]);
    MoveWithAbove(m, x, p, [x]);
  }

  lemma MoveElsewhere(m: Parents, x: string, p: string)
    requires Acyclic(m) && x in m && p in m && p != "" && !AtOrBelow(m, p, x)
    ensures Acyclic(m[x := p])
  {
    var l :| IsLineage(m, p, l);
    MoveKeepsLineage(m, x, p, p, l);
    LineageCons(m[x := p], x, l);
    MoveWithAbove(m, x, p, [x] + l);
  }

  /** With p below x, the new chain of x would come back to x. */
  lemma {:induction false} ReachesX(m: Parents, x: string, p: string, id: string, l: seq<string>, l': seq<string>)
    requires x in m && IsLineage(m, id, l) && x in l && IsLineage(m[x := p], id, l')
    ensures x in l'
    decreases |l|
  {
    if id != x {
      LineageStep(m, id, l);
      LineageTail(m, id, l);
      assert HasParent(m[x := p], id);
      LineageStep(m[x := p], id, l');
      LineageTail(m[x := p], id, l');
      assert x in l[1..] by { assert l == [id] + l[1..]; }
      ReachesX(m, x, p, m[id], l[1..], l'[1..]);
    }
  }

  lemma MoveBelowLoops(m: Parents, x: string, p: string)
    requires x in m && p in m && p != "" && AtOrBelow(m, p, x)
    ensures !Ends(m[x := p], x)
  {
    var m' := m[x := p];
    var l :| IsLineage(m, p, l) && x in l;
    if Ends(m', x) {
      var l' :| IsLineage(m', x, l');
      LineageStep(m', x, l');
      LineageTail(m', x, l');
      ReachesX(m, x, p, p, l, l'[1..]);
    }
  }

  // ---------------------------------------------------------------------- a path of any depth

  function Name(k: nat): string { seq(k, _ => 'a') }

  /** A path of n nodes, each below the one before. */
  function Deep(n: nat): Parents {
    if n == 0 then map[] else Deep(n - 1)[Name(n) := Name(n - 1)]
  }

  function Path(n: nat): seq<string> { if n == 0 then [] else [Name(n)] + Path(n - 1) }

  lemma NamesDiffer(j: nat, k: nat)
    ensures Name(j) == Name(k) <==> j == k
  {
    assert |Name(j)| == j && |Name(k)| == k;
  }

  lemma {:induction false} DeepAt(n: nat, k: nat)
    requires 1 <= k <= n
    ensures Name(k) in Deep(n) && Deep(n)[Name(k)] == Name(k - 1)
  {
    NamesDiffer(k, n);
    if k < n { DeepAt(n - 1, k); }
  }

  /** Every node of a path is named, and all but the first have their parent in it. */
  lemma {:induction false} DeepNode(n: nat, id: string) returns (k: nat)
    requires id in Deep(n)
    ensures 1 <= k <= n && id == Name(k) && Deep(n)[id] == Name(k - 1) && (k > 1 ==> Name(k - 1) in Deep(n))
  {
    k := n;
    if id != Name(n) {
      k := DeepNode(n - 1, id);
      DeepAt(n, k);
    }
    if k > 1 { DeepAt(n, k - 1); }
  }

  lemma {:induction false} DeepLineage(n: nat, k: nat)
    requires 1 <= k <= n
    ensures IsLineage(Deep(n), Name(k), Path(k))
    decreases k
  {
    DeepAt(n, k);
    assert |Name(k - 1)| == k - 1;
    if k == 1 {
      assert Path(1) == [Name(1)];
    } else {
      DeepAt(n, k - 1);
      DeepLineage(n, k - 1);
      LineageCons(Deep(n), Name(k), Path(k - 1));
    }
  }

  lemma {:induction false} PathAt(n: nat, i: nat)
    requires i < n
    ensures |Path(n)| == n && Path(n)[i] == Name(n - i)
    decreases n
  {
    if i > 0 { PathAt(n - 1, i - 1); } else if n > 1 { PathAt(n - 1, 0); }
  }

  lemma DeepIsForest(n: nat)
    ensures Acyclic(Deep(n)) && "" !in Deep(n)
  {
    forall id | id in Deep(n) ensures Ends(Deep(n), id) && id != "" {
      var k := DeepNode(n, id);
      assert |Name(k)| == k;
      DeepLineage(n, k);
    }
  }
}
