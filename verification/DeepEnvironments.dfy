/** Workspaces whose environments form one path longer than the privacy walk: a deletion there changes
    what is private. */
module DeepEnvironments {
  import opened Forest
  import opened EnvironmentTree

  function DeepList(n: nat, secret: nat): seq<Environment> {
    if n == 0 then [] else DeepList(n - 1, secret) + [Environment(Name(n), Name(n - 1), n == secret)]
  }

  function DeepMap(n: nat, secret: nat): map<string, Environment> {
    if n == 0 then map[] else DeepMap(n - 1, secret)[Name(n) := Environment(Name(n), Name(n - 1), n == secret)]
  }

  /** A path of n environments; only the one 500 above the deepest is marked private. */
  function DeepWorkspace(n: nat): Workspace
    requires n > PRIVACY_WALK_LIMIT
  {
    Workspace(DeepList(n, n - PRIVACY_WALK_LIMIT), map[Name(1) := EMPTY_FILE_STATE], Name(n))
  }

  lemma {:induction false} DeepById(n: nat, secret: nat)
    ensures ById(DeepList(n, secret)) == DeepMap(n, secret)
  {
    if n > 0 {
      DeepById(n - 1, secret);
      ByIdAppend(DeepList(n - 1, secret), Environment(Name(n), Name(n - 1), n == secret));
    }
  }

  lemma {:induction false} DeepMapAt(n: nat, secret: nat, k: nat)
    requires 1 <= k <= n
    ensures Name(k) in DeepMap(n, secret)
      && DeepMap(n, secret)[Name(k)] == Environment(Name(k), Name(k - 1), k == secret)
  {
    NamesDiffer(k, n);
    if k < n { DeepMapAt(n - 1, secret, k); }
  }

  lemma {:induction false} DeepMapParents(n: nat, secret: nat)
    ensures var m := DeepMap(n, secret);
      m.Keys == Deep(n).Keys && forall id :: id in m ==> m[id].parentId == Deep(n)[id]
  {
    if n > 0 { DeepMapParents(n - 1, secret); }
  }

  lemma DeepParents(n: nat)
    requires n > PRIVACY_WALK_LIMIT
    ensures ParentsOf(DeepWorkspace(n)) == Deep(n)
  {
    DeepById(n, n - PRIVACY_WALK_LIMIT);
    DeepMapParents(n, n - PRIVACY_WALK_LIMIT);
  }

  lemma {:induction false} DeepListAt(n: nat, secret: nat, i: nat)
    requires i < n
    ensures |DeepList(n, secret)| == n && DeepList(n, secret)[i].id == Name(i + 1)
    decreases n
  {
    if i < n - 1 {
      DeepListAt(n - 1, secret, i);
    } else if n > 1 {
      DeepListAt(n - 1, secret, 0);
    }
  }

  lemma DeepAreNamed(n: nat)
    requires n > PRIVACY_WALK_LIMIT
    ensures Named(DeepWorkspace(n))
  {
    var w := DeepWorkspace(n);
    DeepListAt(n, n - PRIVACY_WALK_LIMIT, 0);
    forall i, j | 0 <= i < j < n ensures w.environments[i].id != w.environments[j].id {
      DeepListAt(n, n - PRIVACY_WALK_LIMIT, i);
      DeepListAt(n, n - PRIVACY_WALK_LIMIT, j);
      NamesDiffer(i + 1, j + 1);
    }
    forall i | 0 <= i < n ensures w.environments[i].id != "" {
      DeepListAt(n, n - PRIVACY_WALK_LIMIT, i);
      assert |Name(i + 1)| == i + 1;
    }
  }

  lemma DeepRoots(n: nat)
    requires n > PRIVACY_WALK_LIMIT
    ensures RootsOwnState(DeepWorkspace(n)) && NoDanglingParents(DeepWorkspace(n))
  {
    var secret := n - PRIVACY_WALK_LIMIT;
    var m := DeepMap(n, secret);
    DeepById(n, secret);
    DeepMapParents(n, secret);
    hide ById, Deep, DeepMap, DeepList;
    forall id | id in m
      ensures m[id].parentId == "" || m[id].parentId in m
      ensures m[id].parentId == "" ==> id == Name(1)
    {
      var k := DeepNode(n, id);
      assert |Name(k - 1)| == k - 1;
    }
  }

  lemma DeepIsActive(n: nat)
    requires n > PRIVACY_WALK_LIMIT
    ensures DeepWorkspace(n).active in ById(DeepWorkspace(n).environments)
  {
    DeepById(n, n - PRIVACY_WALK_LIMIT);
    DeepMapAt(n, n - PRIVACY_WALK_LIMIT, n);
  }

  lemma DeepIsSound(n: nat)
    requires n > PRIVACY_WALK_LIMIT
    ensures Sound(DeepWorkspace(n))
  {
    DeepParents(n);
    DeepAreNamed(n);
    DeepIsForest(n);
    DeepRoots(n);
    DeepIsActive(n);
    hide DeepWorkspace, ById, Deep, Named, Acyclic, RootsOwnState, NoDanglingParents, ParentsOf;
  }

  lemma {:induction false} NoneWithin(byId: map<string, Environment>, l: seq<string>, n: nat)
    requires forall i :: 0 <= i < n && i < |l| ==> l[i] in byId && !byId[l[i]].isPrivate
    ensures !PrivateWithin(byId, l, n)
    decreases n
  {
    if n > 0 && l != [] {
      assert forall i :: 0 <= i < n - 1 && i < |l| - 1 ==> l[1..][i] == l[i + 1];
      NoneWithin(byId, l[1..], n - 1);
    }
  }

  /** The flags along the chain of the deepest environment. */
  lemma DeepFlags(n: nat, i: nat)
    requires n > PRIVACY_WALK_LIMIT && i <= PRIVACY_WALK_LIMIT
    ensures var byId := ById(DeepWorkspace(n).environments); var l := Path(n);
      |l| == n && l[i] == Name(n - i) && l[i] in byId && (byId[l[i]].isPrivate <==> i == PRIVACY_WALK_LIMIT)
  {
    if i < n {
      PathAt(n, i);
      DeepById(n, n - PRIVACY_WALK_LIMIT);
      DeepMapAt(n, n - PRIVACY_WALK_LIMIT, n - i);
    }
  }

  lemma DeepestIsPublic(n: nat)
    requires n > PRIVACY_WALK_LIMIT
    ensures !EffectivelyPrivate(DeepWorkspace(n), Name(n)) && IsLineage(ParentsOf(DeepWorkspace(n)), Name(n), Path(n))
  {
    var w, l := DeepWorkspace(n), Path(n);
    DeepParents(n);
    DeepLineage(n, n);
    DeepFlags(n, 0);
    assert |Name(n)| == n;
    hide ById, ParentsOf, PrivateWithin, PrivateWalk, IsLineage, Path, Deep, DeepList;
    forall i | 0 <= i < PRIVACY_WALK_LIMIT
      ensures l[i] in ById(w.environments) && !ById(w.environments)[l[i]].isPrivate
    {
      DeepFlags(n, i);
    }
    NoneWithin(ById(w.environments), l, PRIVACY_WALK_LIMIT);
    WalkReadsLineage(w, Name(n), {}, PRIVACY_WALK_LIMIT, l);
  }

  lemma DeepDeletes(n: nat)
    requires n > PRIVACY_WALK_LIMIT
    ensures Deletes(DeepWorkspace(n), Name(n - 1))
  {
    DeepFlags(n, 1);
    DeepListAt(n, n - PRIVACY_WALK_LIMIT, 0);
    assert |Name(n - 1)| == n - 1;
    hide ById, DeepList, Path;
  }

  /** In every such path of more than 500 environments the deepest is public, and deleting its parent
      makes it private. */
  lemma DeletingRevealsADeepFlag(n: nat)
    requires n > PRIVACY_WALK_LIMIT
    ensures var w := DeepWorkspace(n);
      && Sound(w) && Deletes(w, Name(n - 1))
      && !EffectivelyPrivate(w, Name(n)) && EffectivelyPrivate(DeleteEnvironment(w, Name(n - 1)), Name(n))
  {
    var w, l := DeepWorkspace(n), Path(n);
    DeepIsSound(n);
    DeepestIsPublic(n);
    DeepFlags(n, 1);
    DeepFlags(n, PRIVACY_WALK_LIMIT);
    DeepDeletes(n);
    NamesDiffer(n, n - 1);
    assert |Name(n)| == n;
    hide Deletes, DeepWorkspace, ById, ParentsOf, Sound, DeleteEnvironment, EffectivelyPrivate, IsLineage, Path,
      DeepList, Name;
    DeleteKeepsPrivacy(w, Name(n - 1), Name(n), l);
    assert Prefix(l, PRIVACY_WALK_LIMIT + 1)[1] == Name(n - 1);
  }
}
