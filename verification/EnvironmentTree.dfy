/** Environments under adding and deleting: parent chains, effective privacy, the active
    environment and the file state owned by root environments. */
module EnvironmentTree {
  import opened Forest

  const PRIVACY_WALK_LIMIT := 500

  datatype Environment = Environment(id: string, parentId: string, isPrivate: bool)

  /** Cookies and certificates of one file, by name only. */
  datatype FileState = FileState(cookies: seq<string>, certificates: seq<string>)

  const EMPTY_FILE_STATE := FileState([], [])

  datatype Workspace = Workspace(environments: seq<Environment>, fileState: map<string, FileState>, active: string)

  function ById(environments: seq<Environment>): map<string, Environment> {
    if environments == [] then map[] else map[environments[0].id := environments[0]] + ById(environments[1..])
  }

  function ParentsOf(w: Workspace): Parents {
    var byId := ById(w.environments);
    map id | id in byId :: byId[id].parentId
  }

  ghost predicate Named(w: Workspace) {
    && (forall i, j :: 0 <= i < j < |w.environments| ==> w.environments[i].id != w.environments[j].id)
    && (forall i :: 0 <= i < |w.environments| ==> w.environments[i].id != "")
  }

  // ---------------------------------------------------------------------- privacy and file state of an environment

  /** One of the first n environments of a parent chain carries the private flag. */
  predicate PrivateWithin(byId: map<string, Environment>, l: seq<string>, n: nat) {
    if n == 0 || l == [] then false
    else (l[0] in byId && byId[l[0]].isPrivate) || PrivateWithin(byId, l[1..], n - 1)
  }

  /** The walk of publicEnvironments, seeing at most limit environments. */
  predicate PrivateWalk(byId: map<string, Environment>, id: string, visited: set<string>, limit: nat)
    decreases limit
  {
    if limit == 0 || id == "" || id !in byId || id in visited then false
    else byId[id].isPrivate || PrivateWalk(byId, byId[id].parentId, visited + {id}, limit - 1)
  }

  predicate EffectivelyPrivate(w: Workspace, id: string) {
    PrivateWalk(ById(w.environments), id, {}, PRIVACY_WALK_LIMIT)
  }

  function StateOf(fileState: map<string, FileState>, id: string): FileState {
    if id in fileState then fileState[id] else EMPTY_FILE_STATE
  }

  // ---------------------------------------------------------------------- adding and deleting

  function AddEnvironment(w: Workspace, parentId: string, id: string): Workspace {
    var isPublic := parentId in ById(w.environments) && !EffectivelyPrivate(w, parentId);
    Workspace(w.environments + [Environment(id, parentId, parentId != "" && !isPublic)],
              if parentId != "" then w.fileState else w.fileState[id := EMPTY_FILE_STATE],
              id)
  }

  function Kept(e: Environment, deleted: Environment): seq<Environment> {
    if e.id == deleted.id then []
    else if e.parentId == deleted.id then [Environment(e.id, deleted.parentId, e.isPrivate || deleted.isPrivate)]
    else [e]
  }

  function Survivors(environments: seq<Environment>, deleted: Environment): seq<Environment> {
    if environments == [] then [] else Kept(environments[0], deleted) + Survivors(environments[1..], deleted)
  }

  function Children(w: Workspace, id: string): set<string> {
    var byId := ById(w.environments);
    set other | other in byId && other != id && byId[other].parentId == id
  }

  function ForAll(ids: set<string>, state: FileState): map<string, FileState> { map id | id in ids :: state }

  /** The file states after the deletion: a deleted root's state goes to each of its children. */
  function FileStateAfter(w: Workspace, deleted: Environment): map<string, FileState> {
    if deleted.parentId != "" then w.fileState
    else (w.fileState + ForAll(Children(w, deleted.id), StateOf(w.fileState, deleted.id))) - {deleted.id}
  }

  function ActiveAfter(w: Workspace, deleted: Environment, environments: seq<Environment>): string {
    if w.active != deleted.id || environments == [] then w.active
    else if deleted.parentId in ById(environments) then deleted.parentId
    else environments[0].id
  }

  function DeleteEnvironment(w: Workspace, id: string): Workspace {
    if |w.environments| <= 1 || id !in ById(w.environments) then w
    else
      var deleted := ById(w.environments)[id];
      var environments := Survivors(w.environments, deleted);
      Workspace(environments, FileStateAfter(w, deleted), ActiveAfter(w, deleted, environments))
  }

  // ---------------------------------------------------------------------- the environments by id

  lemma {:induction false} InById(environments: seq<Environment>, id: string)
    ensures id in ById(environments) <==> exists i :: 0 <= i < |environments| && environments[i].id == id
    ensures id in ById(environments) ==> ById(environments)[id].id == id && ById(environments)[id] in environments
  {
    if environments != [] {
      var rest := environments[1..];
      InById(rest, id);
      assert environments[0].id == id ==> exists i :: 0 <= i < |environments| && environments[i].id == id;
      if id in ById(rest) {
        var i :| 0 <= i < |rest| && rest[i].id == id;
        assert environments[i + 1].id == id;
      }
      if i :| 0 <= i < |environments| && environments[i].id == id {
        if i > 0 { assert rest[i - 1].id == id; }
      }
    }
  }

  function PromotedById(m: map<string, Environment>, d: Environment): map<string, Environment> {
    map id | id in m && id != d.id ::
      if m[id].parentId == d.id then Environment(m[id].id, d.parentId, m[id].isPrivate || d.isPrivate) else m[id]
  }

  lemma PromotedUnion(a: map<string, Environment>, b: map<string, Environment>, d: Environment)
    ensures PromotedById(a + b, d) == PromotedById(a, d) + PromotedById(b, d)
  {
  }

  lemma ByIdCons(e: Environment, rest: seq<Environment>)
    ensures ById([e] + rest) == map[e.id := e] + ById(rest)
  {
    assert ([e] + rest)[1..] == rest;
  }

  lemma KeptById(e: Environment, m: map<string, Environment>, rest: seq<Environment>, d: Environment)
    requires ById(rest) == PromotedById(m, d)
    ensures ById(Kept(e, d) + rest) == PromotedById(map[e.id := e] + m, d)
  {
    PromotedUnion(map[e.id := e], m, d);
    PromotedOne(e, d);
    hide PromotedById;
    if e.id == d.id {
      assert [] + rest == rest;
    } else {
      ByIdCons(Kept(e, d)[0], rest);
    }
  }

  lemma PromotedOne(e: Environment, d: Environment)
    ensures PromotedById(map[e.id := e], d) == if e.id == d.id then map[] else map[e.id := Kept(e, d)[0]]
  {
  }

  lemma {:induction false} SurvivorsById(environments: seq<Environment>, d: Environment)
    ensures ById(Survivors(environments, d)) == PromotedById(ById(environments), d)
  {
    if environments != [] {
      SurvivorsById(environments[1..], d);
      hide PromotedById;
      KeptById(environments[0], ById(environments[1..]), Survivors(environments[1..], d), d);
    }
  }

  function DeletedOf(w: Workspace, id: string): Environment
    requires id in ById(w.environments)
  {
    ById(w.environments)[id]
  }

  predicate Deletes(w: Workspace, id: string) { |w.environments| > 1 && id in ById(w.environments) && id != "" }

  lemma DeletedParents(w: Workspace, d: string)
    requires Deletes(w, d)
    ensures ById(DeleteEnvironment(w, d).environments) == PromotedById(ById(w.environments), DeletedOf(w, d))
    ensures DeletedOf(w, d).id == d
    ensures ParentsOf(DeleteEnvironment(w, d)) == Delete(ParentsOf(w), d)
  {
    InById(w.environments, d);
    SurvivorsById(w.environments, DeletedOf(w, d));
    hide ById, Survivors, FileStateAfter, ActiveAfter;
  }

  /** Deleting keeps the forest: parent chains lose the deleted environment and nothing else. */
  lemma DeleteKeepsForest(w: Workspace, d: string)
    requires Deletes(w, d) && Acyclic(ParentsOf(w))
    ensures Acyclic(ParentsOf(DeleteEnvironment(w, d)))
    ensures forall id, l :: id != d && IsLineage(ParentsOf(w), id, l) ==>
      IsLineage(ParentsOf(DeleteEnvironment(w, d)), id, Without(l, d))
  {
    DeletedParents(w, d);
    DeleteKeepsAcyclic(ParentsOf(w), d);
    forall id, l | id != d && IsLineage(ParentsOf(w), id, l)
      ensures IsLineage(Delete(ParentsOf(w), d), id, Without(l, d))
    {
      DeleteKeepsLineage(ParentsOf(w), d, id, l);
    }
  }

  // ---------------------------------------------------------------------- privacy survives

  /** The walk of publicEnvironments reads the private flags along the parent chain. */
  lemma {:induction false} WalkReadsLineage(w: Workspace, id: string, visited: set<string>, n: nat, l: seq<string>)
    requires id != "" && IsLineage(ParentsOf(w), id, l) && forall x :: x in l ==> x !in visited
    ensures PrivateWalk(ById(w.environments), id, visited, n) <==> PrivateWithin(ById(w.environments), l, n)
    decreases n
  {
    if n > 0 {
      LineageStep(ParentsOf(w), id, l);
      assert l[0] in l;
      if HasParent(ParentsOf(w), id) {
        LineageTail(ParentsOf(w), id, l);
        assert l == [id] + l[1..];
        WalkReadsLineage(w, ParentsOf(w)[id], visited + {id}, n - 1, l[1..]);
      }
    }
  }

  ghost predicate Matches(parents: Parents, m: map<string, Environment>) {
    parents.Keys == m.Keys && forall id :: id in m ==> parents[id] == m[id].parentId
  }

  lemma WithinCons(m: map<string, Environment>, x: string, t: seq<string>, n: nat)
    requires n > 0
    ensures PrivateWithin(m, [x] + t, n) <==> (x in m && m[x].isPrivate) || PrivateWithin(m, t, n - 1)
  {
    assert ([x] + t)[1..] == t;
  }

  /** An environment whose parent is not the deleted one keeps its flag. */
  lemma FlagKept(m: map<string, Environment>, parents: Parents, d: Environment, l: seq<string>)
    requires d.id in m && d.id != "" && Matches(parents, m)
    requires l != [] && IsLineage(parents, l[0], l) && l[0] != d.id && (|l| > 1 ==> l[1] != d.id)
    ensures PromotedById(m, d)[l[0]] == m[l[0]]
  {
    LineageStep(parents, l[0], l);
    if |l| > 1 { LineageTail(parents, l[0], l); }
  }

  /** After a deletion the walk sees the same flags, one environment further if the chain loses one. */
  lemma {:induction false} FlagsAfterDelete(m: map<string, Environment>, parents: Parents, d: Environment,
                                            l: seq<string>, n: nat)
    requires d.id in m && m[d.id] == d && d.id != "" && Matches(parents, m)
    requires l != [] && IsLineage(parents, l[0], l) && l[0] != d.id
    ensures PrivateWithin(PromotedById(m, d), Without(l, d.id), n)
       <==> PrivateWithin(m, l, if d.id in Prefix(l, n + 1) then n + 1 else n)
    decreases |l|
  {
    var t := l[1..];
    if n > 0 {
      hide PromotedById, PrivateWithin, Matches, IsLineage, Prefix, Without;
      if t != [] { LineageTail(parents, l[0], l); }
      if t != [] && t[0] == d.id {
        DeletedIsNext(m, parents, d, l, n);
      } else {
        if t != [] { FlagsAfterDelete(m, parents, d, t, n - 1); }
        FlagsAtHead(m, parents, d, l, n);
      }
    }
  }

  lemma FlagsAtHead(m: map<string, Environment>, parents: Parents, d: Environment, l: seq<string>, n: nat)
    requires d.id in m && d.id != "" && Matches(parents, m) && n > 0
    requires l != [] && IsLineage(parents, l[0], l) && l[0] != d.id && (|l| > 1 ==> l[1] != d.id)
    requires |l| > 1 ==>
      (PrivateWithin(PromotedById(m, d), Without(l[1..], d.id), n - 1)
       <==> PrivateWithin(m, l[1..], if d.id in Prefix(l[1..], n) then n else n - 1))
    ensures PrivateWithin(PromotedById(m, d), Without(l, d.id), n)
       <==> PrivateWithin(m, l, if d.id in Prefix(l, n + 1) then n + 1 else n)
  {
    assert l == [l[0]] + l[1..];
    PrefixCons(l, n + 1);
    FlagKept(m, parents, d, l);
    hide PrivateWithin, IsLineage, Prefix, Without;
    FlagsStep(m, d, l[0], l[1..], n);
  }

  lemma FlagsStep(m: map<string, Environment>, d: Environment, x: string, t: seq<string>, n: nat)
    requires n > 0 && x != d.id && x in m && x in PromotedById(m, d) && PromotedById(m, d)[x] == m[x]
    requires t != [] ==>
      (PrivateWithin(PromotedById(m, d), Without(t, d.id), n - 1)
       <==> PrivateWithin(m, t, if d.id in Prefix(t, n) then n else n - 1))
    ensures PrivateWithin(PromotedById(m, d), Without([x] + t, d.id), n)
       <==> PrivateWithin(m, [x] + t, if d.id in Prefix(t, n) then n + 1 else n)
  {
    assert ([x] + t)[1..] == t;
    assert Without([x] + t, d.id) == [x] + Without(t, d.id);
    WithinCons(PromotedById(m, d), x, Without(t, d.id), n);
    WithinCons(m, x, t, n);
    WithinCons(m, x, t, n + 1);
  }

  function Prefix(l: seq<string>, n: nat): seq<string> { if |l| <= n then l else l[..n] }

  lemma PrefixCons(l: seq<string>, n: nat)
    requires l != [] && n > 0
    ensures Prefix(l, n) == [l[0]] + Prefix(l[1..], n - 1)
    ensures forall x :: x in Prefix(l, n) <==> x == l[0] || x in Prefix(l[1..], n - 1)
  {
    assert l == [l[0]] + l[1..];
    assert |l| > n ==> l[..n] == [l[0]] + l[1..][..n - 1];
  }

  lemma DeletedIsNext(m: map<string, Environment>, parents: Parents, d: Environment, l: seq<string>, n: nat)
    requires d.id in m && m[d.id] == d && d.id != "" && Matches(parents, m)
    requires |l| > 1 && IsLineage(parents, l[0], l) && l[0] != d.id && l[1] == d.id && n > 0
    ensures PrivateWithin(PromotedById(m, d), Without(l, d.id), n) <==> PrivateWithin(m, l, n + 1)
    ensures d.id in Prefix(l, n + 1)
  {
    var rest := l[2..];
    LineageTail(parents, l[0], l);
    LineageStep(parents, d.id, l[1..]);
    assert l[1..][1..] == rest && l == [l[0]] + ([d.id] + rest);
    if rest != [] {
      LineageTail(parents, d.id, l[1..]);
      FlagsAbove(m, parents, d, rest, n - 1);
    }
    assert Prefix(l, n + 1)[1] == d.id;
    WithoutAbsent(rest, d.id);
    WithoutNext(l[0], d.id, rest);
    var m' := PromotedById(m, d);
    assert m'[l[0]].isPrivate == (m[l[0]].isPrivate || d.isPrivate);
    hide PromotedById, Matches, IsLineage, PrivateWithin;
    WithinCons(m', l[0], rest, n);
    WithinCons(m, l[0], [d.id] + rest, n + 1);
    WithinCons(m, d.id, rest, n);
    WithinNothing(m, n - 1);
    WithinNothing(m', n - 1);
  }

  lemma WithinNothing(m: map<string, Environment>, n: nat)
    ensures !PrivateWithin(m, [], n)
  {
  }

  lemma WithoutNext(x: string, d: string, rest: seq<string>)
    requires x != d && Without(rest, d) == rest
    ensures Without([x] + ([d] + rest), d) == [x] + rest
  {
    WithoutCons(d, rest, d);
    WithoutCons(x, [d] + rest, d);
  }

  lemma WithoutCons(x: string, rest: seq<string>, d: string)
    ensures Without([x] + rest, d) == if x == d then Without(rest, d) else [x] + Without(rest, d)
  {
    assert ([x] + rest)[1..] == rest;
  }

  /** Above the deleted environment nothing changes. */
  lemma {:induction false} FlagsAbove(m: map<string, Environment>, parents: Parents, d: Environment,
                                      l: seq<string>, n: nat)
    requires d.id in m && d.id != "" && Matches(parents, m)
    requires l != [] && IsLineage(parents, l[0], l) && d.id !in l
    ensures PrivateWithin(PromotedById(m, d), l, n) <==> PrivateWithin(m, l, n)
    decreases |l|
  {
    LineageStep(parents, l[0], l);
    assert l[0] in l;
    if n > 0 && |l| > 1 {
      LineageTail(parents, l[0], l);
      assert l[1] in l;
      FlagsAbove(m, parents, d, l[1..], n - 1);
    }
  }

  lemma {:induction false} OneMore(m: map<string, Environment>, l: seq<string>, n: nat)
    ensures PrivateWithin(m, l, n + 1) <==> PrivateWithin(m, l, n) || (n < |l| && l[n] in m && m[l[n]].isPrivate)
    decreases n
  {
    if n > 0 && l != [] { OneMore(m, l[1..], n - 1); }
  }

  lemma LineageKnown(w: Workspace, id: string, l: seq<string>)
    requires IsLineage(ParentsOf(w), id, l)
    ensures forall x :: x in l ==> x in ById(w.environments)
  {
  }

  lemma PrivacyAfter(w: Workspace, d: string, id: string, l: seq<string>)
    requires Deletes(w, d) && id != d && id != "" && IsLineage(ParentsOf(w), id, l)
    ensures EffectivelyPrivate(DeleteEnvironment(w, d), id) <==>
      PrivateWithin(ById(w.environments), l,
        if d in Prefix(l, PRIVACY_WALK_LIMIT + 1) then PRIVACY_WALK_LIMIT + 1 else PRIVACY_WALK_LIMIT)
  {
    var m, e := ById(w.environments), DeletedOf(w, d);
    assert m[d] == e && Matches(ParentsOf(w), m);
    DeletedParents(w, d);
    DeleteKeepsLineage(ParentsOf(w), d, id, l);
    hide ById, ParentsOf, DeleteEnvironment, PromotedById, PrivateWithin, PrivateWalk, Matches;
    WalkReadsLineage(DeleteEnvironment(w, d), id, {}, PRIVACY_WALK_LIMIT, Without(l, d));
    FlagsAfterDelete(m, ParentsOf(w), e, l, PRIVACY_WALK_LIMIT);
  }

  /** A survivor's effective privacy changes exactly when its chain is longer than the walk limit, the
      deleted environment is among the first 501 of the chain, and the 501st is private while none of
      the first 500 is: then it becomes private. On chains within the limit privacy is kept exactly. */
  lemma DeleteKeepsPrivacy(w: Workspace, d: string, id: string, l: seq<string>)
    requires Deletes(w, d) && id != d && id != "" && IsLineage(ParentsOf(w), id, l)
    ensures forall x :: x in l ==> x in ById(w.environments)
    ensures var before := EffectivelyPrivate(w, id); var after := EffectivelyPrivate(DeleteEnvironment(w, d), id);
      var limit := PRIVACY_WALK_LIMIT;
      && (after <==> before || (d in Prefix(l, limit + 1) && limit < |l| && ById(w.environments)[l[limit]].isPrivate))
      && (|l| <= limit ==> (after <==> before))
  {
    LineageKnown(w, id, l);
    PrivacyAfter(w, d, id, l);
    WalkReadsLineage(w, id, {}, PRIVACY_WALK_LIMIT, l);
    hide DeleteEnvironment, PrivateWithin, PrivateWalk, ParentsOf, IsLineage;
    OneMore(ById(w.environments), l, PRIVACY_WALK_LIMIT);
  }

  // ---------------------------------------------------------------------- active environment and file state

  ghost predicate RootsOwnState(w: Workspace) {
    forall id :: id in ById(w.environments) && ById(w.environments)[id].parentId == "" ==> id in w.fileState
  }

  ghost predicate OnlyRootsOwnState(w: Workspace) {
    forall id :: id in w.fileState ==> id in ById(w.environments) && ById(w.environments)[id].parentId == ""
  }

  ghost predicate NoDanglingParents(w: Workspace) {
    var m := ById(w.environments);
    forall id :: id in m ==> m[id].parentId == "" || m[id].parentId in m
  }

  ghost predicate Sound(w: Workspace) {
    && Named(w) && w.active in ById(w.environments)
    && Acyclic(ParentsOf(w)) && NoDanglingParents(w) && RootsOwnState(w)
  }

  function Ids(environments: seq<Environment>): seq<string> {
    seq(|environments|, i requires 0 <= i < |environments| => environments[i].id)
  }

  lemma {:induction false} SurvivorIds(environments: seq<Environment>, d: Environment)
    ensures Ids(Survivors(environments, d)) == Without(Ids(environments), d.id)
  {
    if environments == [] {
      assert Ids(environments) == [];
    } else {
      SurvivorIds(environments[1..], d);
      assert Ids(environments) == [environments[0].id] + Ids(environments[1..]);
      assert Ids(environments)[1..] == Ids(environments[1..]);
    }
  }

  lemma DeleteKeepsNames(w: Workspace, d: string)
    requires Named(w) && Deletes(w, d)
    ensures Named(DeleteEnvironment(w, d))
      && Ids(DeleteEnvironment(w, d).environments) == Without(Ids(w.environments), d)
    ensures DeleteEnvironment(w, d).environments != []
  {
    var a, b := Ids(w.environments), DeleteEnvironment(w, d).environments;
    InById(w.environments, d);
    SurvivorIds(w.environments, DeletedOf(w, d));
    DistinctIsPreserved(a, d);
    InWithout(a, d);
    forall i | 0 <= i < |b| ensures b[i].id == Ids(b)[i] && Ids(b)[i] in a { assert Ids(b)[i] in Ids(b); }
    assert a[0] in a && a[1] in a && a[0] != a[1];
    assert Ids(b) != [];
  }

  lemma DeletedIsNotItsParent(w: Workspace, d: string)
    requires Deletes(w, d) && Acyclic(ParentsOf(w))
    ensures DeletedOf(w, d).parentId != d
  {
    assert Ends(ParentsOf(w), d);
    var l :| IsLineage(ParentsOf(w), d, l);
    LineageStep(ParentsOf(w), d, l);
  }

  /** The active environment stays an existing one; only if it is deleted does it change, to its parent
      or, for a base environment, to the first one left. */
  lemma DeleteKeepsActive(w: Workspace, d: string)
    requires Named(w) && Deletes(w, d) && w.active in ById(w.environments)
    ensures var w' := DeleteEnvironment(w, d); var m := ParentsOf(w);
      && w'.environments != [] && w'.active in ById(w'.environments)
      && (w.active != d ==> w'.active == w.active)
      && (w.active == d && HasParent(m, d) && m[d] != d ==> w'.active == m[d])
      && (w.active == d && !HasParent(m, d) ==> w'.active == w'.environments[0].id)
  {
    DeleteKeepsNames(w, d);
    InById(DeleteEnvironment(w, d).environments, DeleteEnvironment(w, d).environments[0].id);
    InById(w.environments, "");
    SurvivingIds(w, d, w.active);
    SurvivingIds(w, d, DeletedOf(w, d).parentId);
    hide ById, ParentsOf, Survivors, FileStateAfter, Ids, Without;
  }

  lemma SurvivingIds(w: Workspace, d: string, id: string)
    requires Deletes(w, d)
    ensures id in ById(DeleteEnvironment(w, d).environments) <==> id in ById(w.environments) && id != d
    ensures d in ById(w.environments) && ParentsOf(w)[d] == DeletedOf(w, d).parentId && DeletedOf(w, d).id == d
    ensures id in ParentsOf(w) <==> id in ById(w.environments)
  {
    InById(w.environments, d);
    SurvivorsById(w.environments, DeletedOf(w, d));
  }

  /** Who owns which state after a deletion: promoted children of a deleted base environment get its
      state, the deleted environment loses it, and nobody else is touched. */
  lemma StateAfter(w: Workspace, d: string, id: string)
    requires Deletes(w, d) && id != d && id in ById(w.environments)
    ensures var after := FileStateAfter(w, DeletedOf(w, d)); var deleted := DeletedOf(w, d);
      if deleted.parentId == "" && ById(w.environments)[id].parentId == d
      then id in after && after[id] == StateOf(w.fileState, d)
      else (id in after <==> id in w.fileState) && StateOf(after, id) == StateOf(w.fileState, id)
  {
    InById(w.environments, d);
  }

  lemma DeleteKeepsParentsKnown(w: Workspace, d: string)
    requires Deletes(w, d) && Acyclic(ParentsOf(w)) && NoDanglingParents(w)
    ensures NoDanglingParents(DeleteEnvironment(w, d))
  {
    DeletedParents(w, d);
    DeletedIsNotItsParent(w, d);
    hide DeleteEnvironment, ById;
  }

  lemma DeleteKeepsState(w: Workspace, d: string)
    requires Deletes(w, d) && RootsOwnState(w)
    ensures RootsOwnState(DeleteEnvironment(w, d))
  {
    var m, w' := ById(w.environments), DeleteEnvironment(w, d);
    DeletedParents(w, d);
    assert w'.fileState == FileStateAfter(w, DeletedOf(w, d));
    hide DeleteEnvironment, ById, FileStateAfter;
    forall id | id in ById(w'.environments) && ById(w'.environments)[id].parentId == "" ensures id in w'.fileState {
      StateAfter(w, d, id);
    }
  }

  lemma DeleteKeepsOwners(w: Workspace, d: string)
    requires OnlyRootsOwnState(w) && Named(w)
    ensures OnlyRootsOwnState(DeleteEnvironment(w, d))
  {
    if d in ById(w.environments) && |w.environments| > 1 {
      InById(w.environments, d);
      var m, w', deleted := ById(w.environments), DeleteEnvironment(w, d), DeletedOf(w, d);
      DeletedParents(w, d);
      assert w'.fileState == FileStateAfter(w, deleted);
      OwnersAfter(w, deleted);
      hide DeleteEnvironment, ById, FileStateAfter;
      forall id | id in w'.fileState ensures id in ById(w'.environments) && ById(w'.environments)[id].parentId == "" {
        assert id in m && id != d;
      }
    }
  }

  lemma OwnersAfter(w: Workspace, deleted: Environment)
    requires OnlyRootsOwnState(w) && deleted.id in ById(w.environments) && ById(w.environments)[deleted.id] == deleted
    ensures forall id :: id in FileStateAfter(w, deleted) ==>
      && id in ById(w.environments) && id != deleted.id
      && var e := ById(w.environments)[id];
         e.parentId == "" || (e.parentId == deleted.id && deleted.parentId == "")
  {
    hide ById;
  }

  lemma DeleteKeepsSound(w: Workspace, d: string)
    requires Sound(w)
    ensures Sound(DeleteEnvironment(w, d))
  {
    if d in ById(w.environments) && |w.environments| > 1 {
      InById(w.environments, d);
      hide ById, ParentsOf, Named, Acyclic, NoDanglingParents, RootsOwnState, DeleteEnvironment;
      DeleteKeepsForest(w, d);
      DeleteKeepsNames(w, d);
      DeleteKeepsActive(w, d);
      DeleteKeepsParentsKnown(w, d);
      DeleteKeepsState(w, d);
    }
  }

  /** Every survivor keeps the cookies and certificates of its root: where the root itself is deleted,
      its promoted child owns a copy of them. */
  lemma DeleteKeepsEffectiveState(w: Workspace, d: string, id: string, l: seq<string>)
    requires Deletes(w, d) && id != d && IsLineage(ParentsOf(w), id, l) && NoDanglingParents(w)
    ensures var l' := Without(l, d);
      var w' := DeleteEnvironment(w, d);
      && l' != [] && IsLineage(ParentsOf(w'), id, l')
      && StateOf(w'.fileState, l'[|l'| - 1]) == StateOf(w.fileState, l[|l| - 1])
      && (l[|l| - 1] in w.fileState ==>
            l'[|l'| - 1] in w'.fileState && w'.fileState[l'[|l'| - 1]] == w.fileState[l[|l| - 1]])
  {
    var m, root := ParentsOf(w), l[|l| - 1];
    DeletedParents(w, d);
    DeleteKeepsLineage(m, d, id, l);
    forall i, j | 0 <= i < j < |l| ensures l[i] != l[j] { LineageDistinct(m, id, l, i, j); }
    LineageStep(m, id, l);
    WithoutLast(l, d);
    assert !HasParent(m, root) && root in m;
    RootStateAfter(w, d, root, if root == d then l[|l| - 2] else root);
    hide DeleteEnvironment, IsLineage;
  }

  /** The state of a root goes to its promoted child if the root is deleted, and stays otherwise. */
  lemma RootStateAfter(w: Workspace, d: string, root: string, heir: string)
    requires Deletes(w, d) && NoDanglingParents(w) && heir != d && root in ParentsOf(w)
      && !HasParent(ParentsOf(w), root)
    requires if root == d then HasParent(ParentsOf(w), heir) && ParentsOf(w)[heir] == d else heir == root
    ensures var after := DeleteEnvironment(w, d).fileState;
      && StateOf(after, heir) == StateOf(w.fileState, root)
      && (root in w.fileState ==> heir in after && after[heir] == w.fileState[root])
  {
    StateAfter(w, d, heir);
    DeletedParents(w, d);
    assert DeleteEnvironment(w, d).fileState == FileStateAfter(w, DeletedOf(w, d));
    hide FileStateAfter, ById, DeleteEnvironment;
  }

  lemma {:induction false} WithoutLast(l: seq<string>, d: string)
    requires |l| > 1 || (|l| == 1 && l[0] != d)
    requires forall i, j :: 0 <= i < j < |l| ==> l[i] != l[j]
    ensures var l' := Without(l, d);
      l' != [] && l'[|l'| - 1] == if l[|l| - 1] == d then l[|l| - 2] else l[|l| - 1]
  {
    if |l| == 1 {
      WithoutAbsent(l, d);
    } else {
      var t := l[1..];
      assert Without(l, d) == (if l[0] == d then [] else [l[0]]) + Without(t, d);
      if |t| == 1 && t[0] == d {
        assert Without(t, d) == [];
      } else {
        WithoutLast(t, d);
      }
    }
  }

  // ---------------------------------------------------------------------- adding

  /** A fresh id under an existing parent, or as a new base environment. */
  predicate Adds(w: Workspace, parentId: string, id: string) {
    id != "" && id !in ById(w.environments) && (parentId == "" || parentId in ById(w.environments))
  }

  lemma {:induction false} ByIdAppend(environments: seq<Environment>, e: Environment)
    ensures ById(environments + [e]) == ById(environments) + map[e.id := e]
  {
    if environments == [] {
      assert [] + [e] == [e];
    } else {
      ByIdAppend(environments[1..], e);
      assert environments + [e] == [environments[0]] + (environments[1..] + [e]);
    }
  }

  lemma AddedById(w: Workspace, parentId: string, id: string)
    requires Adds(w, parentId, id)
    ensures ById(AddEnvironment(w, parentId, id).environments) ==
      ById(w.environments)[id := Environment(id, parentId, parentId != "" && EffectivelyPrivate(w, parentId))]
  {
    var isPrivate := parentId != "" && EffectivelyPrivate(w, parentId);
    ByIdAppend(w.environments, Environment(id, parentId, isPrivate));
    assert AddEnvironment(w, parentId, id).environments == w.environments + [Environment(id, parentId, isPrivate)];
    hide ById, AddEnvironment, EffectivelyPrivate;
  }

  lemma AddedParents(w: Workspace, parentId: string, id: string)
    requires Adds(w, parentId, id)
    ensures ParentsOf(AddEnvironment(w, parentId, id)) == ParentsOf(w)[id := parentId]
    ensures ById(AddEnvironment(w, parentId, id).environments).Keys == ById(w.environments).Keys + {id}
    ensures forall other :: other in ById(w.environments) ==>
      ById(AddEnvironment(w, parentId, id).environments)[other] == ById(w.environments)[other]
    ensures ById(AddEnvironment(w, parentId, id).environments)[id].isPrivate ==
      (parentId != "" && EffectivelyPrivate(w, parentId))
  {
    AddedById(w, parentId, id);
    AddedParentIds(w, parentId, id);
    assert id !in ById(w.environments);
    hide ById, AddEnvironment, EffectivelyPrivate, ParentsOf;
  }

  lemma AddedParentIds(w: Workspace, parentId: string, id: string)
    requires Adds(w, parentId, id)
    ensures ParentsOf(AddEnvironment(w, parentId, id)) == ParentsOf(w)[id := parentId]
  {
    AddedById(w, parentId, id);
    hide ById, AddEnvironment, EffectivelyPrivate;
  }

  /** A new environment leaves every parent chain alone and hangs below its parent. */
  lemma {:induction false} AddKeepsLineage(w: Workspace, parentId: string, id: string, other: string, l: seq<string>)
    requires Adds(w, parentId, id) && NoDanglingParents(w) && IsLineage(ParentsOf(w), other, l)
    ensures IsLineage(ParentsOf(w)[id := parentId], other, l)
    decreases |l|
  {
    var m := ParentsOf(w);
    LineageStep(m, other, l);
    if |l| > 1 {
      LineageTail(m, other, l);
      AddKeepsLineage(w, parentId, id, m[other], l[1..]);
      LineageCons(m[id := parentId], other, l[1..]);
      assert l == [other] + l[1..];
    }
  }

  lemma AddKeepsForest(w: Workspace, parentId: string, id: string)
    requires Adds(w, parentId, id) && NoDanglingParents(w) && Acyclic(ParentsOf(w)) && "" !in ById(w.environments)
    ensures Acyclic(ParentsOf(w)[id := parentId])
  {
    var m := ParentsOf(w);
    var m' := m[id := parentId];
    forall other | other in m' ensures Ends(m', other) {
      if other != id {
        assert Ends(m, other);
        var l :| IsLineage(m, other, l);
        AddKeepsLineage(w, parentId, id, other, l);
      } else if parentId == "" {
        assert IsLineage(m', id, [id]);
      } else {
        assert Ends(m, parentId);
        var l :| IsLineage(m, parentId, l);
        AddKeepsLineage(w, parentId, id, parentId, l);
        LineageCons(m', id, l);
      }
    }
  }

  lemma AddKeepsNames(w: Workspace, parentId: string, id: string)
    requires Adds(w, parentId, id) && Named(w)
    ensures Named(AddEnvironment(w, parentId, id))
  {
    forall i | 0 <= i < |w.environments| ensures w.environments[i].id != id {
      InById(w.environments, w.environments[i].id);
    }
  }

  lemma AddKeepsParentsKnown(w: Workspace, parentId: string, id: string)
    requires Adds(w, parentId, id) && NoDanglingParents(w)
    ensures NoDanglingParents(AddEnvironment(w, parentId, id))
  {
    var m' := ById(AddEnvironment(w, parentId, id).environments);
    AddedParents(w, parentId, id);
    assert ParentsOf(AddEnvironment(w, parentId, id))[id] == m'[id].parentId;
    hide AddEnvironment, ById;
  }

  lemma AddedStates(w: Workspace, parentId: string, id: string)
    ensures var w' := AddEnvironment(w, parentId, id);
      && w'.active == id
      && w'.fileState == if parentId != "" then w.fileState else w.fileState[id := FileState([], [])]
  {
    hide EffectivelyPrivate, ById;
  }

  lemma AddKeepsState(w: Workspace, parentId: string, id: string)
    requires Adds(w, parentId, id) && RootsOwnState(w)
    ensures var w' := AddEnvironment(w, parentId, id);
      && RootsOwnState(w') && w'.active == id && id in ById(w'.environments)
      && (parentId != "" ==> w'.fileState == w.fileState)
      && (parentId == "" ==> w'.fileState.Keys == w.fileState.Keys + {id} && w'.fileState[id] == FileState([], []))
      && forall other :: other != id && other in w.fileState ==> w'.fileState[other] == w.fileState[other]
  {
    AddedById(w, parentId, id);
    AddedStates(w, parentId, id);
    hide ById, AddEnvironment, EffectivelyPrivate, Adds;
  }

  lemma AddKeepsOwners(w: Workspace, parentId: string, id: string)
    requires Adds(w, parentId, id) && OnlyRootsOwnState(w)
    ensures OnlyRootsOwnState(AddEnvironment(w, parentId, id))
  {
    AddedById(w, parentId, id);
    AddedStates(w, parentId, id);
    hide ById, AddEnvironment, EffectivelyPrivate;
  }

  lemma AddKeepsSound(w: Workspace, parentId: string, id: string)
    requires Sound(w) && Adds(w, parentId, id)
    ensures Sound(AddEnvironment(w, parentId, id))
  {
    InById(w.environments, "");
    AddedParents(w, parentId, id);
    hide ById, ParentsOf, Acyclic, NoDanglingParents, RootsOwnState, AddEnvironment, Adds;
    AddKeepsForest(w, parentId, id);
    AddKeepsNames(w, parentId, id);
    AddKeepsParentsKnown(w, parentId, id);
    AddKeepsState(w, parentId, id);
  }

  /** A new environment is effectively private exactly when its parent is. */
  lemma AddedPrivacyIsInherited(w: Workspace, parentId: string, id: string, l: seq<string>)
    requires Sound(w) && Adds(w, parentId, id) && parentId != "" && IsLineage(ParentsOf(w), parentId, l)
    ensures EffectivelyPrivate(AddEnvironment(w, parentId, id), id) <==> EffectivelyPrivate(w, parentId)
  {
    var w' := AddEnvironment(w, parentId, id);
    var m, m' := ById(w.environments), ById(w'.environments);
    AddedParents(w, parentId, id);
    AddKeepsLineage(w, parentId, id, parentId, l);
    LineageCons(ParentsOf(w'), id, l);
    WalkReadsLineage(w', id, {}, PRIVACY_WALK_LIMIT, [id] + l);
    WalkReadsLineage(w, parentId, {}, PRIVACY_WALK_LIMIT, l);
    WithinCons(m', id, l, PRIVACY_WALK_LIMIT);
    SameFlags(m, m', l, PRIVACY_WALK_LIMIT - 1);
    OneMore(m, l, PRIVACY_WALK_LIMIT - 1);
  }

  lemma {:induction false} SameFlags(m: map<string, Environment>, m': map<string, Environment>, l: seq<string>, n: nat)
    requires forall x :: x in l ==> x in m && x in m' && m[x] == m'[x]
    ensures PrivateWithin(m, l, n) <==> PrivateWithin(m', l, n)
    decreases n
  {
    if n > 0 && l != [] {
      assert l[0] in l;
      SameFlags(m, m', l[1..], n - 1);
    }
  }

  // ---------------------------------------------------------------------- runs

  datatype Step = Add(parentId: string, id: string) | Remove(id: string)

  ghost predicate ValidRun(w: Workspace, steps: seq<Step>)
    decreases |steps|
  {
    steps == [] || ((steps[0].Add? ==> Adds(w, steps[0].parentId, steps[0].id))
        && ValidRun(After(w, steps[0]), steps[1..]))
  }

  function After(w: Workspace, step: Step): Workspace {
    match step
    case Add(parentId, id) => AddEnvironment(w, parentId, id)
    case Remove(id) => DeleteEnvironment(w, id)
  }

  ghost function Run(w: Workspace, steps: seq<Step>): Workspace
    requires ValidRun(w, steps)
    decreases |steps|
  {
    if steps == [] then w else Run(After(w, steps[0]), steps[1..])
  }

  /** Over every run of additions and deletions the forest stays acyclic without dangling parents, the
      active environment exists, and every base environment owns a file state; nobody else comes to own one. */
  lemma {:induction false} RunsStaySound(w: Workspace, steps: seq<Step>)
    requires Sound(w) && ValidRun(w, steps)
    ensures Sound(Run(w, steps)) && (OnlyRootsOwnState(w) ==> OnlyRootsOwnState(Run(w, steps)))
    decreases |steps|
  {
    assert Named(w);
    if steps != [] && OnlyRootsOwnState(w) {
      match steps[0] {
        case Add(parentId, id) => AddKeepsOwners(w, parentId, id);
        case Remove(id) => DeleteKeepsOwners(w, id);
      }
    }
    hide Sound, OnlyRootsOwnState;
    if steps != [] {
      match steps[0] {
        case Add(parentId, id) => AddKeepsSound(w, parentId, id);
        case Remove(id) => DeleteKeepsSound(w, id);
      }
      RunsStaySound(After(w, steps[0]), steps[1..]);
    }
  }

  // ---------------------------------------------------------------------- deletion, as the workspace update does it

  lemma GiveNobody(m: map<string, FileState>, state: FileState)
    ensures m + ForAll({}, state) == m
  {
  }

  lemma GiveOneMore(m: map<string, FileState>, ids: set<string>, id: string, state: FileState)
    ensures (m + ForAll(ids, state))[id := state] == m + ForAll(ids + {id}, state)
  {
  }

  /** The file state is copied and then edited child by child. */
  method EditFileState(w: Workspace, deleted: Environment) returns (fileState: map<string, FileState>)
    ensures fileState == FileStateAfter(w, deleted)
  {
    fileState := w.fileState;
    if deleted.parentId == "" {
      hide Children, ForAll;
      GiveNobody(w.fileState, StateOf(w.fileState, deleted.id));
      var deletedState := StateOf(w.fileState, deleted.id);
      var children := Children(w, deleted.id);
      var todo := children;
      assert children - todo == {};
      while todo != {}
        invariant todo <= children
        invariant fileState == w.fileState + ForAll(children - todo, deletedState)
        decreases todo
      {
        var child :| child in todo;
        assert children - (todo - {child}) == (children - todo) + {child};
        GiveOneMore(w.fileState, children - todo, child, deletedState);
        fileState := fileState[child := deletedState];
        todo := todo - {child};
      }
      fileState := fileState - {deleted.id};
    }
  }

  /** The updater of deleteEnvironment. */
  method DeleteByEditing(w: Workspace, id: string) returns (w': Workspace)
    ensures w' == DeleteEnvironment(w, id)
  {
    var byId := ById(w.environments);
    if |w.environments| <= 1 || id !in byId {
      return w;
    }
    hide ById, Survivors, FileStateAfter, ActiveAfter;
    var deleted := byId[id];
    var environments := Survivors(w.environments, deleted);
    var fileState := EditFileState(w, deleted);
    w' := Workspace(environments, fileState, ActiveAfter(w, deleted, environments));
  }
}
