/** The folders and requests of a collection under deletion and under the choice of a new parent. */
module FolderTree {
  import opened Forest

  const MAX_ANCESTORS := 20

  datatype Folder = Folder(id: string, parentId: string, settings: string)

  datatype Request = Request(id: string, folderId: string, settings: string)

  datatype Collection = Collection(folders: seq<Folder>, requests: seq<Request>, order: seq<string>)

  ghost predicate DistinctIds(folders: seq<Folder>) {
    && (forall i, j :: 0 <= i < j < |folders| ==> folders[i].id != folders[j].id)
    && (forall i :: 0 <= i < |folders| ==> folders[i].id != "")
  }

  function ParentsOf(folders: seq<Folder>): Parents {
    if folders == [] then map[] else map[folders[0].id := folders[0].parentId] + ParentsOf(folders[1..])
  }

  lemma {:induction false} ParentsOnlyAt(folders: seq<Folder>, id: string)
    requires id in ParentsOf(folders)
    ensures exists i :: 0 <= i < |folders| && folders[i].id == id
  {
    if folders[0].id != id {
      ParentsOnlyAt(folders[1..], id);
      var i :| 0 <= i < |folders[1..]| && folders[1..][i].id == id;
      assert folders[i + 1].id == id;
    }
  }

  lemma ParentsAreNamed(folders: seq<Folder>)
    requires DistinctIds(folders)
    ensures "" !in ParentsOf(folders)
  {
    if "" in ParentsOf(folders) { ParentsOnlyAt(folders, ""); }
  }

  // ---------------------------------------------------------------------- deleting a folder

  function Kept(f: Folder, folderId: string, parentId: string): seq<Folder> {
    if f.id == folderId then []
    else if f.parentId == folderId then [f.(parentId := parentId)]
    else [f]
  }

  function WithoutFolder(folders: seq<Folder>, folderId: string, parentId: string): seq<Folder> {
    if folders == [] then []
    else
      Kept(folders[0], folderId, parentId) + WithoutFolder(folders[1..], folderId, parentId)
  }

  function MoveRequests(requests: seq<Request>, folderId: string, parentId: string): seq<Request> {
    seq(|requests|, i requires 0 <= i < |requests| =>
      if requests[i].folderId == folderId then requests[i].(folderId := parentId) else requests[i])
  }

  function DeleteFolder(c: Collection, folderId: string): Collection {
    var m := ParentsOf(c.folders);
    if folderId !in m then c
    else
      Collection(WithoutFolder(c.folders, folderId, m[folderId]),
                 MoveRequests(c.requests, folderId, m[folderId]),
                 Without(c.order, folderId))
  }

  function Ids(folders: seq<Folder>): seq<string> { seq(|folders|, i requires 0 <= i < |folders| => folders[i].id) }

  lemma {:induction false} WithoutFolderIds(folders: seq<Folder>, d: string, p: string)
    ensures Ids(WithoutFolder(folders, d, p)) == Without(Ids(folders), d)
  {
    if folders == [] {
      assert Ids(folders) == [];
    } else {
      WithoutFolderIds(folders[1..], d, p);
      assert Ids(folders) == [folders[0].id] + Ids(folders[1..]);
      assert Ids(folders)[1..] == Ids(folders[1..]);
    }
  }

  function Promoted(m: Parents, d: string, p: string): Parents {
    map id | id in m && id != d :: if m[id] == d then p else m[id]
  }

  lemma PromotedUnion(a: Parents, b: Parents, d: string, p: string)
    ensures Promoted(a + b, d, p) == Promoted(a, d, p) + Promoted(b, d, p)
  {
  }

  lemma PromotedOne(id: string, parentId: string, d: string, p: string)
    ensures Promoted(map[id := parentId], d, p) ==
      if id == d then map[] else map[id := if parentId == d then p else parentId]
  {
  }

  lemma ParentsCons(head: Folder, rest: seq<Folder>)
    ensures ParentsOf([head] + rest) == map[head.id := head.parentId] + ParentsOf(rest)
  {
    assert ([head] + rest)[1..] == rest;
  }

  lemma KeptParents(f: Folder, m: Parents, rest: seq<Folder>, d: string, p: string)
    requires ParentsOf(rest) == Promoted(m, d, p)
    ensures ParentsOf(Kept(f, d, p) + rest) == Promoted(map[f.id := f.parentId] + m, d, p)
  {
    PromotedUnion(map[f.id := f.parentId], m, d, p);
    PromotedOne(f.id, f.parentId, d, p);
    if f.id == d {
      assert [] + rest == rest;
    } else {
      ParentsCons(Kept(f, d, p)[0], rest);
    }
  }

  /** On the parent ids, deleting a folder is deleting a node of the forest. */
  lemma {:induction false} WithoutFolderParents(folders: seq<Folder>, d: string, p: string)
    ensures ParentsOf(WithoutFolder(folders, d, p)) == Promoted(ParentsOf(folders), d, p)
  {
    if folders != [] {
      WithoutFolderParents(folders[1..], d, p);
      hide Promoted;
      KeptParents(folders[0], ParentsOf(folders[1..]), WithoutFolder(folders[1..], d, p), d, p);
    }
  }

  lemma DistinctSurvives(folders: seq<Folder>, d: string, p: string)
    requires DistinctIds(folders)
    ensures DistinctIds(WithoutFolder(folders, d, p))
  {
    var a, b := Ids(folders), WithoutFolder(folders, d, p);
    WithoutFolderIds(folders, d, p);
    DistinctIsPreserved(a, d);
    InWithout(a, d);
    forall i | 0 <= i < |b| ensures b[i].id == Ids(b)[i] && Ids(b)[i] in a { assert Ids(b)[i] in Ids(b); }
  }

  /** Nothing but the parent of a promoted child changes in the remaining folders. */
  lemma {:induction false} SurvivorsKeepSettings(folders: seq<Folder>, d: string, p: string, f: Folder)
    requires f in WithoutFolder(folders, d, p)
    ensures exists g :: g in folders && f == g.(parentId := f.parentId) && (g.parentId != d ==> f == g)
  {
    if f in WithoutFolder(folders[1..], d, p) {
      SurvivorsKeepSettings(folders[1..], d, p, f);
      var g :| g in folders[1..] && f == g.(parentId := f.parentId) && (g.parentId != d ==> f == g);
      assert g in folders;
    } else {
      assert folders[0] in folders;
    }
  }

  /** A deleted folder's children and requests move to its parent: every remaining folder's parent
      chain is the old chain with only that folder removed, and the forest stays acyclic. */
  lemma DeleteKeepsTheForest(c: Collection, d: string)
    requires DistinctIds(c.folders) && Acyclic(ParentsOf(c.folders)) && d in ParentsOf(c.folders)
    ensures var c' := DeleteFolder(c, d);
      && DistinctIds(c'.folders) && Acyclic(ParentsOf(c'.folders))
      && Ids(c'.folders) == Without(Ids(c.folders), d)
      && forall id, l :: id != d && IsLineage(ParentsOf(c.folders), id, l) ==>
           IsLineage(ParentsOf(c'.folders), id, Without(l, d))
  {
    var m := ParentsOf(c.folders);
    ParentsAreNamed(c.folders);
    DistinctSurvives(c.folders, d, m[d]);
    WithoutFolderIds(c.folders, d, m[d]);
    WithoutFolderParents(c.folders, d, m[d]);
    assert Promoted(m, d, m[d]) == Delete(m, d);
    DeleteKeepsAcyclic(m, d);
    forall id, l | id != d && IsLineage(m, id, l) ensures IsLineage(Delete(m, d), id, Without(l, d)) {
      DeleteKeepsLineage(m, d, id, l);
    }
  }

  /** The chain of folders a request is in, from the closest to the root. */
  ghost predicate InFolders(m: Parents, folderId: string, l: seq<string>) {
    if folderId == "" || folderId !in m then l == [] else IsLineage(m, folderId, l)
  }

  /** Requests are conserved, in order, and every request's chain only loses the deleted folder. */
  lemma DeleteKeepsRequests(c: Collection, d: string, k: nat, l: seq<string>)
    requires DistinctIds(c.folders) && Acyclic(ParentsOf(c.folders)) && d in ParentsOf(c.folders)
    requires k < |c.requests| && InFolders(ParentsOf(c.folders), c.requests[k].folderId, l)
    ensures var c' := DeleteFolder(c, d);
      && |c'.requests| == |c.requests|
      && c'.requests[k].id == c.requests[k].id && c'.requests[k].settings == c.requests[k].settings
      && InFolders(ParentsOf(c'.folders), c'.requests[k].folderId, Without(l, d))
  {
    var m := ParentsOf(c.folders);
    var folderId := c.requests[k].folderId;
    DeleteKeepsTheForest(c, d);
    ParentsAreNamed(c.folders);
    WithoutFolderParents(c.folders, d, m[d]);
    if folderId == d {
      LineageStep(m, d, l);
      assert Without(l, d) == Without(l[1..], d);
      if HasParent(m, d) { LineageTail(m, d, l); }
    }
  }

  /** The display order is the old one read at the positions that do not hold the deleted id, ascending. */
  lemma DeleteKeepsOrder(c: Collection, d: string)
    requires d in ParentsOf(c.folders)
    ensures ReadsOthers(c.order, d, 0, Others(c.order, d, 0), DeleteFolder(c, d).order)
  {
    WithoutReads(c.order, d, 0);
    assert c.order[0..] == c.order;
  }

  // ---------------------------------------------------------------------- choosing a new parent

  /** The walk of folderAncestors, from the folder upwards, seeing at most n folders. */
  function Walk(m: Parents, id: string, visited: set<string>, n: nat): seq<string>
    decreases n
  {
    if n == 0 || id == "" || id !in m || id in visited then []
    else [id] + Walk(m, m[id], visited + {id}, n - 1)
  }

  function Reversed(l: seq<string>): seq<string> { if l == [] then [] else Reversed(l[1..]) + [l[0]] }

  /** folderAncestors: the folder and its ancestors from the root down, but at most 20 of them. */
  method FolderAncestors(m: Parents, folderId: string) returns (chain: seq<string>)
    ensures chain == Reversed(Walk(m, folderId, {}, MAX_ANCESTORS))
  {
    hide Walk, Reversed;
    chain := [];
    var current := folderId;
    var visited := {};
    while current != "" && current in m && current !in visited && |chain| < MAX_ANCESTORS
      invariant |chain| <= MAX_ANCESTORS
      invariant Reversed(Walk(m, folderId, {}, MAX_ANCESTORS))
        == Reversed(Walk(m, current, visited, MAX_ANCESTORS - |chain|)) + chain
      decreases MAX_ANCESTORS - |chain|
    {
      WalkStep(m, current, visited, MAX_ANCESTORS - |chain|);
      visited := visited + {current};
      chain := [current] + chain;
      current := m[current];
    }
    WalkDone(m, current, visited, MAX_ANCESTORS - |chain|);
  }

  lemma WalkStep(m: Parents, id: string, visited: set<string>, n: nat)
    requires n > 0 && id != "" && id in m && id !in visited
    ensures Reversed(Walk(m, id, visited, n)) == Reversed(Walk(m, m[id], visited + {id}, n - 1)) + [id]
  {
    assert Walk(m, id, visited, n)[1..] == Walk(m, m[id], visited + {id}, n - 1);
  }

  lemma WalkDone(m: Parents, id: string, visited: set<string>, n: nat)
    requires n == 0 || id == "" || id !in m || id in visited
    ensures Reversed(Walk(m, id, visited, n)) == []
  {
  }

  function Closest(l: seq<string>, n: nat): seq<string> { if |l| <= n then l else l[..n] }

  lemma ClosestCons(id: string, t: seq<string>, n: nat)
    requires n > 0
    ensures Closest([id] + t, n) == [id] + Closest(t, n - 1)
  {
  }

  /** In a forest the walk is the parent chain, cut after 20 folders. */
  lemma {:induction false} WalkIsCutLineage(m: Parents, id: string, visited: set<string>, n: nat, l: seq<string>)
    requires id != "" && IsLineage(m, id, l) && forall x :: x in l ==> x !in visited
    ensures Walk(m, id, visited, n) == Closest(l, n)
    decreases n
  {
    if n > 0 {
      LineageStep(m, id, l);
      assert l[0] in l;
      if HasParent(m, id) {
        LineageTail(m, id, l);
        assert l == [id] + l[1..];
        WalkIsCutLineage(m, m[id], visited + {id}, n - 1, l[1..]);
        ClosestCons(id, l[1..], n);
      }
    }
  }

  lemma {:induction false} InReversed(l: seq<string>)
    ensures forall x :: x in Reversed(l) <==> x in l
  {
    if l != [] {
      InReversed(l[1..]);
      assert l == [l[0]] + l[1..];
    }
  }

  /** The parents the folder editor withholds. */
  function InvalidParents(m: Parents, x: string): set<string> {
    {x} + set p | p in m.Keys && x in Reversed(Walk(m, p, {}, MAX_ANCESTORS))
  }

  /** They are the folder and every folder whose chain of ancestors, cut after 20, contains it. */
  lemma InvalidParentsAreCutDescendants(m: Parents, x: string, p: string)
    requires Acyclic(m) && "" !in m
    ensures p in InvalidParents(m, x)
      <==> p == x || (p in m && exists l :: IsLineage(m, p, l) && x in Closest(l, MAX_ANCESTORS))
  {
    if p in m {
      assert Ends(m, p);
      var l :| IsLineage(m, p, l);
      WalkIsCutLineage(m, p, {}, MAX_ANCESTORS, l);
      InReversed(Closest(l, MAX_ANCESTORS));
      OnlyLineage(m, p, l, x);
    }
  }

  lemma OnlyLineage(m: Parents, p: string, l: seq<string>, x: string)
    requires IsLineage(m, p, l)
    ensures (exists k :: IsLineage(m, p, k) && x in Closest(k, MAX_ANCESTORS)) <==> x in Closest(l, MAX_ANCESTORS)
  {
    forall k | IsLineage(m, p, k) ensures k == l { LineageUnique(m, p, k, l); }
  }

  /** An offered parent makes a cycle exactly when the folder is an ancestor of it that the cut chain
      does not reach; in a forest at most 20 deep no offered parent does. */
  lemma OfferedParentsCycleOnlyWhenDeep(m: Parents, x: string, p: string, l: seq<string>)
    requires Acyclic(m) && "" !in m && x in m && IsLineage(m, p, l) && p in m && p !in InvalidParents(m, x)
    ensures Acyclic(m[x := p]) <==> x !in l
    ensures |l| <= MAX_ANCESTORS ==> Acyclic(m[x := p])
  {
    InvalidParentsAreCutDescendants(m, x, p);
    OnlyLineage(m, p, l, x);
    MoveCyclesExactlyBelow(m, x, p);
    if AtOrBelow(m, p, x) {
      var k :| IsLineage(m, p, k) && x in k;
      LineageUnique(m, p, k, l);
    }
  }

  /** Every withheld parent would make a cycle; the collection root never does. */
  lemma WithheldParentsCycle(m: Parents, x: string, p: string)
    requires Acyclic(m) && "" !in m && x in m && p in InvalidParents(m, x)
    ensures !Acyclic(m[x := p]) && Acyclic(m[x := ""])
  {
    WithheldIsAtOrBelow(m, x, p);
    MoveCyclesExactlyBelow(m, x, p);
    MoveCyclesExactlyBelow(m, x, "");
    hide Acyclic, InvalidParents;
  }

  lemma WithheldIsAtOrBelow(m: Parents, x: string, p: string)
    requires Acyclic(m) && "" !in m && x in m && p in InvalidParents(m, x)
    ensures AtOrBelow(m, p, x)
  {
    InvalidParentsAreCutDescendants(m, x, p);
    assert Ends(m, p);
    hide Acyclic, InvalidParents;
    var l :| IsLineage(m, p, l) && (p == x || x in Closest(l, MAX_ANCESTORS));
    assert l[0] == p && l[0] in l;
    assert x in l;
  }

  // ---------------------------------------------------------------------- forests that are too deep

  /** Concretely: in a path of more than 20 folders the deepest one is offered as parent of the
      first, and choosing it makes a cycle. */
  lemma DeepestFolderIsOffered(n: nat)
    requires n > MAX_ANCESTORS
    ensures IsLineage(Deep(n), Name(n), Path(n))
    ensures Name(n) in Deep(n) && Name(n) !in InvalidParents(Deep(n), Name(1)) && !Acyclic(Deep(n)[Name(1) := Name(n)])
  {
    DeepIsForest(n);
    DeepLineage(n, n);
    DeepLineage(n, 1);
    PathAt(n, n - 1);
    forall i | 0 <= i < MAX_ANCESTORS ensures Path(n)[i] != Name(1) {
      PathAt(n, i);
      assert |Name(n - i)| == n - i && |Name(1)| == 1;
    }
    assert |Name(n)| == n && |Name(1)| == 1;
    OnlyLineage(Deep(n), Name(n), Path(n), Name(1));
    InvalidParentsAreCutDescendants(Deep(n), Name(1), Name(n));
    OfferedParentsCycleOnlyWhenDeep(Deep(n), Name(1), Name(n), Path(n));
  }

  /** Choosing any offered parent for any folder is safe. */
  ghost predicate EveryOfferIsSafe(m: Parents) {
    forall x, p :: x in m && p in m && p !in InvalidParents(m, x) ==> Acyclic(m[x := p])
  }

  /** The editor offers no parent that makes a cycle if and only if no folder is more than 20 deep. */
  lemma OffersAreSafeExactlyUpToTwenty(m: Parents)
    requires Acyclic(m) && "" !in m
    ensures EveryOfferIsSafe(m) <==> forall id, l :: IsLineage(m, id, l) ==> |l| <= MAX_ANCESTORS
  {
    if forall id, l :: IsLineage(m, id, l) ==> |l| <= MAX_ANCESTORS {
      forall x, p | x in m && p in m && p !in InvalidParents(m, x) ensures Acyclic(m[x := p]) {
        assert Ends(m, p);
        var l :| IsLineage(m, p, l);
        OfferedParentsCycleOnlyWhenDeep(m, x, p, l);
      }
    }
    forall id, l | IsLineage(m, id, l) && |l| > MAX_ANCESTORS ensures !EveryOfferIsSafe(m) {
      DeepOfferCycles(m, id, l);
    }
  }

  /** The ancestor just beyond the cut may be given this folder as parent. */
  lemma DeepOfferCycles(m: Parents, id: string, l: seq<string>)
    requires Acyclic(m) && "" !in m && IsLineage(m, id, l) && |l| > MAX_ANCESTORS
    ensures var x := l[MAX_ANCESTORS]; x in m && id in m && id !in InvalidParents(m, x) && !Acyclic(m[x := id])
  {
    var x := l[MAX_ANCESTORS];
    forall i | 0 <= i < MAX_ANCESTORS ensures l[i] != x { LineageDistinct(m, id, l, i, MAX_ANCESTORS); }
    assert l[0] in m && l[MAX_ANCESTORS] in m;
    InvalidParentsAreCutDescendants(m, x, id);
    OnlyLineage(m, id, l, x);
    OfferedParentsCycleOnlyWhenDeep(m, x, id, l);
  }
}
