/** A collector run that returns lists exactly the files reachable from the entry. */
module SourceCollectorProofs {
  import opened Options
  import opened Sets
  import opened SourceCollector

  // ---------------------------------------------------------------------- reachability

  function Target(from: Path, reference: seq<string>): Path { Resolve(Dirname(from), reference) }

  ghost predicate RefersTo(job: Job, c: Path, target: Path) {
    var source := Read(job.fs, c);
    source.Readable?
    && exists i :: 0 <= i < |source.references| && source.references[i].Some?
                   && Target(c, source.references[i].value) == target
  }

  /** One canonical file mentions another, possibly through a symbolic link. */
  ghost predicate Leads(job: Job, c: Path, d: Path) {
    exists target :: RefersTo(job, c, target) && Realpath(job.fs, target) == Existing(d)
  }

  ghost predicate Chain(job: Job, chain: seq<Path>) {
    && chain != [] && chain[0] == job.entry
    && forall i :: 0 <= i < |chain| - 1 ==> Leads(job, chain[i], chain[i + 1])
  }

  ghost predicate Reachable(job: Job, c: Path) {
    exists chain :: Chain(job, chain) && chain[|chain| - 1] == c
  }

  lemma ReachableStep(job: Job, c: Path, d: Path)
    requires Reachable(job, c) && Leads(job, c, d)
    ensures Reachable(job, d)
  {
    var chain :| Chain(job, chain) && chain[|chain| - 1] == c;
    assert Chain(job, chain + [d]);
    assert (chain + [d])[|chain|] == d;
  }

  lemma EntryReachable(job: Job)
    ensures Reachable(job, job.entry)
  {
    assert Chain(job, [job.entry]);
  }

  /** A set that holds the entry and is closed under references holds every reachable file. */
  lemma {:induction false} ClosedHoldsChain(job: Job, closed: set<Path>, chain: seq<Path>, k: nat)
    requires Chain(job, chain) && k < |chain| && job.entry in closed
    requires forall c, d :: c in closed && Leads(job, c, d) ==> d in closed
    ensures chain[k] in closed
  {
    if k > 0 {
      ClosedHoldsChain(job, closed, chain, k - 1);
      assert Leads(job, chain[k - 1], chain[k]);
    }
  }

  // ---------------------------------------------------------------------- what makes a run throw

  /** The entry is canonical, as realpath returned it, and the root is its directory. */
  ghost predicate ValidJob(job: Job) {
    && CanonicalIsStable(job.fs)
    && (forall path :: Realpath(job.fs, path).Existing? ==> Resolved(Realpath(job.fs, path).path))
    && job.entry != [] && Realpath(job.fs, job.entry) == Existing(job.entry)
    && job.root == Dirname(job.entry)
  }

  /** The target stays inside the root, before and after following links, and can be resolved. */
  predicate Safe(job: Job, target: Path) {
    && job.root <= target
    && !Realpath(job.fs, target).Broken?
    && (Realpath(job.fs, target).Existing? ==> job.root <= Realpath(job.fs, target).path)
  }

  ghost predicate Trouble(job: Job, c: Path) {
    Read(job.fs, c).Unreadable? || exists target :: RefersTo(job, c, target) && !Safe(job, target)
  }

  /** A reachable file is unreadable or has an unsafe reference, or too many files are reachable. */
  ghost predicate Doomed(job: Job) {
    || (exists c :: Reachable(job, c) && Trouble(job, c))
    || (exists many: set<Path> :: |many| > MAX_SOURCE_FILES && forall c :: c in many ==> Reachable(job, c))
  }

  // ---------------------------------------------------------------------- the invariant of the search

  /** The list and the visited set are the same files; no file is listed twice; texts are right. */
  ghost predicate Listed(job: Job, s: Search) {
    && |s.visited| == |s.files| <= MAX_SOURCE_FILES
    && AllVisited(job, s.files, s.visited)
    && AllListed(job, s.visited, s.files)
    && Distinct(s.files)
    && (job.entry in s.visited ==> Text(job, job.entry, s.entryText))
  }

  ghost predicate AllVisited(job: Job, files: seq<SourceFile>, visited: set<Path>) {
    forall f :: f in files ==> Absolute(job, f) in visited && Text(job, Absolute(job, f), f.text)
  }

  ghost predicate AllListed(job: Job, visited: set<Path>, files: seq<SourceFile>) {
    forall c :: c in visited ==> InList(job, files, c)
  }

  ghost predicate InList(job: Job, files: seq<SourceFile>, c: Path) { exists f :: f in files && Absolute(job, f) == c }

  function Absolute(job: Job, f: SourceFile): Path { job.root + f.path }

  ghost predicate Distinct(files: seq<SourceFile>) {
    forall i, j :: 0 <= i < j < |files| ==> files[i].path != files[j].path
  }

  predicate Text(job: Job, c: Path, text: string) { Read(job.fs, c).Readable? && Read(job.fs, c).text == text }

  ghost predicate Sound(job: Job, s: Search) {
    forall c :: c in s.visited ==> Reachable(job, c) && job.root <= c && Realpath(job.fs, c) == Existing(c)
  }

  ghost predicate SearchInv(job: Job, s: Search) { Listed(job, s) && Sound(job, s) }

  /** Every reference of c is safe, and its file, if it exists, has been visited. */
  ghost predicate Handled(job: Job, c: Path, visited: set<Path>) {
    && Read(job.fs, c).Readable?
    && forall i :: 0 <= i < |Read(job.fs, c).references| ==> ReferenceHandled(job, c, i, visited)
  }

  ghost predicate ReferenceHandled(job: Job, c: Path, i: nat, visited: set<Path>)
    requires Read(job.fs, c).Readable? && i < |Read(job.fs, c).references|
  {
    var reference := Read(job.fs, c).references[i];
    reference.Some? ==> TargetHandled(job, Target(c, reference.value), visited)
  }

  predicate TargetHandled(job: Job, target: Path, visited: set<Path>) {
    Safe(job, target) && (Realpath(job.fs, target).Existing? ==> Realpath(job.fs, target).path in visited)
  }

  /** What a call that returns has done: it only adds, and everything it adds is handled. */
  ghost predicate Extends(job: Job, s: Search, s': Search) {
    && SearchInv(job, s') && s.visited <= s'.visited && s.files <= s'.files
    && forall c :: c in s'.visited && c !in s.visited ==> Handled(job, c, s'.visited)
  }

  lemma ExtendsTransitive(job: Job, a: Search, b: Search, c: Search)
    requires Extends(job, a, b) && Extends(job, b, c)
    ensures Extends(job, a, c)
  {
    forall f | f in c.visited && f !in a.visited ensures Handled(job, f, c.visited) {
      if f in b.visited {
        HandledMonotone(job, f, b.visited, c.visited);
      }
    }
  }

  lemma HandledMonotone(job: Job, c: Path, small: set<Path>, large: set<Path>)
    requires Handled(job, c, small) && small <= large
    ensures Handled(job, c, large)
  {
    forall i | 0 <= i < |Read(job.fs, c).references| ensures ReferenceHandled(job, c, i, large) {
      assert ReferenceHandled(job, c, i, small);
    }
  }

  lemma RecordKeepsList(job: Job, s: Search, c: Path, text: string)
    requires Listed(job, s) && c !in s.visited && Text(job, c, text)
    requires job.root <= c && |s.files| < MAX_SOURCE_FILES
    requires Relative(job.root, c) == c[|job.root|..]
    ensures Listed(job, Record(job, s, c, text))
  {
    hide AllVisited, AllListed, Distinct, InList, Absolute, Text, Relative, Record;
    var f := SourceFile(c[|job.root|..], text);
    RecordAppends(job, s, c, text);
    NewPath(job, s, f);
    AppendVisited(job, s, f);
    AppendListed(job, s, f);
  }

  lemma RecordAppends(job: Job, s: Search, c: Path, text: string)
    requires job.root <= c && c !in s.visited && Relative(job.root, c) == c[|job.root|..]
    ensures var r := Record(job, s, c, text);
      && r.files == s.files + [SourceFile(c[|job.root|..], text)] && r.visited == s.visited + {c}
      && |r.visited| == |s.visited| + 1 && r.entryText == if c == job.entry then text else s.entryText
    ensures Absolute(job, SourceFile(c[|job.root|..], text)) == c
  {
    hide Relative;
    assert job.root + c[|job.root|..] == c;
  }

  lemma NewPath(job: Job, s: Search, f: SourceFile)
    requires AllVisited(job, s.files, s.visited) && Absolute(job, f) !in s.visited && Distinct(s.files)
    ensures Distinct(s.files + [f])
  {
    forall g | g in s.files ensures g.path != f.path {
      assert Absolute(job, g) in s.visited;
    }
  }

  lemma AppendVisited(job: Job, s: Search, f: SourceFile)
    requires AllVisited(job, s.files, s.visited) && Text(job, Absolute(job, f), f.text)
    ensures AllVisited(job, s.files + [f], s.visited + {Absolute(job, f)})
  {
  }

  lemma AppendListed(job: Job, s: Search, f: SourceFile)
    requires AllListed(job, s.visited, s.files)
    ensures AllListed(job, s.visited + {Absolute(job, f)}, s.files + [f])
    ensures f in s.files + [f]
  {
    assert (s.files + [f])[|s.files|] == f;
    forall d | d in s.visited ensures InList(job, s.files + [f], d) {
      var g :| g in s.files && Absolute(job, g) == d;
      assert g in s.files + [f];
    }
  }

  lemma RecordKeepsInv(job: Job, s: Search, c: Path, text: string)
    requires SearchInv(job, s) && c !in s.visited && Text(job, c, text)
    requires Reachable(job, c) && job.root <= c && Realpath(job.fs, c) == Existing(c)
    requires |s.files| < MAX_SOURCE_FILES && Relative(job.root, c) == c[|job.root|..]
    ensures var s1 := Record(job, s, c, text);
      SearchInv(job, s1) && s1.visited == s.visited + {c} && s.files <= s1.files && |s1.files| == |s.files| + 1
  {
    hide Listed, Reachable;
    RecordKeepsList(job, s, c, text);
  }

  // ---------------------------------------------------------------------- the search is correct

  ghost predicate VisitSpec(job: Job, s: Search, path: Path, outcome: Outcome) {
    match outcome
    case Done(s') => Extends(job, s, s') && TargetHandled(job, path, s'.visited)
    case Thrown(_) => !Safe(job, path) || Doomed(job)
  }

  /** At depth d at least d files are listed, so the depth cut never fires: the file limit does. */
  lemma {:induction false} VisitCorrect(job: Job, s: Search, path: Path, depth: nat)
    requires ValidJob(job) && SearchInv(job, s) && Resolved(path)
    requires depth <= |s.files|
    requires Realpath(job.fs, path).Existing? ==> Reachable(job, Realpath(job.fs, path).path)
    ensures VisitSpec(job, s, path, Visit(job, s, path, depth))
    decreases MAX_DEPTH + 1 - depth, 1, 0
  {
    hide Resolve, CommonPrefix, Ups, Relative, VisitReferences;
    WithinRootIsPrefix(job.root, path);
    if path in s.visited || !WithinRoot(job.root, path) {
    } else if Realpath(job.fs, path).Existing? {
      var c := Realpath(job.fs, path).path;
      WithinRootIsPrefix(job.root, c);
      if WithinRoot(job.root, c) && c !in s.visited {
        match Read(job.fs, c)
        case Unreadable(_) => assert Trouble(job, c);
        case Readable(text, _) =>
          if |s.files| == MAX_SOURCE_FILES { OneTooMany(job, s, c); } else { VisitNew(job, s, c, text, depth); }
      }
    }
  }

  lemma OneTooMany(job: Job, s: Search, c: Path)
    requires Sound(job, s) && |s.visited| == MAX_SOURCE_FILES && Reachable(job, c) && c !in s.visited
    ensures Doomed(job)
  {
    var many := s.visited + {c};
    assert forall d :: d in many ==> Reachable(job, d);
  }

  lemma {:induction false} VisitNew(job: Job, s: Search, c: Path, text: string, depth: nat)
    requires ValidJob(job) && SearchInv(job, s) && depth <= |s.files| < MAX_SOURCE_FILES
    requires Reachable(job, c) && Realpath(job.fs, c) == Existing(c) && c !in s.visited && Text(job, c, text)
    requires job.root <= c && Relative(job.root, c) == c[|job.root|..]
    ensures var outcome := VisitReferences(job, Record(job, s, c, text), c, Read(job.fs, c).references, depth + 1);
      if outcome.Done? then Extends(job, s, outcome.search) && c in outcome.search.visited else Doomed(job)
    decreases MAX_DEPTH + 1 - depth, 0
  {
    hide SearchInv, Extends, ReferencesSpec, Visit, VisitReferences, CanonicalIsStable, Doomed, Reachable;
    var s1 := Record(job, s, c, text);
    RecordKeepsInv(job, s, c, text);
    RecordAppends(job, s, c, text);
    assert Read(job.fs, c).Readable?;
    hide Record, Text, Relative, Read, Realpath, ValidJob;
    ReferencesCorrect(job, s1, c, 0, depth + 1);
    assert Read(job.fs, c).references[0..] == Read(job.fs, c).references;
    NewFileHandled(job, s, s1, c, VisitReferences(job, s1, c, Read(job.fs, c).references, depth + 1));
  }

  lemma NewFileHandled(job: Job, s: Search, s1: Search, c: Path, outcome: Outcome)
    requires s1.visited == s.visited + {c} && s.files <= s1.files
    requires Read(job.fs, c).Readable? && ReferencesSpec(job, s1, c, 0, outcome)
    ensures if outcome.Done? then Extends(job, s, outcome.search) && c in outcome.search.visited else Doomed(job)
  {
  }

  ghost predicate ReferencesSpec(job: Job, s: Search, from: Path, k: nat, outcome: Outcome)
    requires Read(job.fs, from).Readable?
  {
    match outcome
    case Done(s') =>
      && Extends(job, s, s')
      && forall i :: k <= i < |Read(job.fs, from).references| ==> ReferenceHandled(job, from, i, s'.visited)
    case Thrown(_) => Doomed(job)
  }

  lemma {:induction false} ReferencesCorrect(job: Job, s: Search, from: Path, k: nat, depth: nat)
    requires ValidJob(job) && SearchInv(job, s) && from in s.visited
    requires Read(job.fs, from).Readable? && k <= |Read(job.fs, from).references|
    requires depth <= |s.files|
    ensures ReferencesSpec(job, s, from, k, VisitReferences(job, s, from, Read(job.fs, from).references[k..], depth))
    decreases MAX_DEPTH + 1 - depth, 2, |Read(job.fs, from).references| - k
  {
    var all := Read(job.fs, from).references;
    if k < |all| {
      assert all[k..][1..] == all[k + 1..];
      if all[k].None? {
        ReferencesCorrect(job, s, from, k + 1, depth);
      } else {
        var target := Target(from, all[k].value);
        assert RefersTo(job, from, target);
        TargetIsSound(job, s, from, target);
        ResolveResolves(Dirname(from), all[k].value);
        VisitCorrect(job, s, target, depth);
        match Visit(job, s, target, depth)
        case Thrown(_) =>
          if !Safe(job, target) { assert Trouble(job, from); }
        case Done(s1) =>
          ReferencesCorrect(job, s1, from, k + 1, depth);
          match VisitReferences(job, s1, from, all[k + 1..], depth)
          case Thrown(_) =>
          case Done(s') => ReferencesStep(job, s, s1, s', from, k);
      }
    }
  }

  lemma TargetIsSound(job: Job, s: Search, from: Path, target: Path)
    requires ValidJob(job) && Sound(job, s) && from in s.visited && RefersTo(job, from, target)
    ensures Realpath(job.fs, target).Existing? ==> Reachable(job, Realpath(job.fs, target).path)
    ensures Resolved(Dirname(from))
  {
    if Realpath(job.fs, target).Existing? {
      assert Leads(job, from, Realpath(job.fs, target).path);
      ReachableStep(job, from, Realpath(job.fs, target).path);
    }
    assert Resolved(Realpath(job.fs, from).path);
  }

  lemma ReferencesStep(job: Job, s: Search, s1: Search, s': Search, from: Path, k: nat)
    requires Read(job.fs, from).Readable? && k < |Read(job.fs, from).references|
    requires Extends(job, s, s1) && Extends(job, s1, s')
    requires ReferenceHandled(job, from, k, s1.visited)
    requires forall i :: k + 1 <= i < |Read(job.fs, from).references| ==> ReferenceHandled(job, from, i, s'.visited)
    ensures Extends(job, s, s')
    ensures forall i :: k <= i < |Read(job.fs, from).references| ==> ReferenceHandled(job, from, i, s'.visited)
  {
    ExtendsTransitive(job, s, s1, s');
  }

  // ---------------------------------------------------------------------- main results

  lemma EntryStart(job: Job)
    requires ValidJob(job)
    ensures SearchInv(job, EMPTY) && Resolved(job.entry)
    ensures VisitSpec(job, EMPTY, job.entry, Collect(job))
    ensures Safe(job, job.entry)
  {
    EntryReachable(job);
    assert Resolved(Realpath(job.fs, job.entry).path);
    VisitCorrect(job, EMPTY, job.entry, 0);
  }

  /** A run that returns lists every reachable file exactly once, relative to the root and with its
      text, and nothing else; all of it lies inside the root, and the entry's text is the result. The
      depth cut drops nothing. */
  lemma CollectsExactlyTheReachableFiles(job: Job)
    requires ValidJob(job) && Collect(job).Done?
    ensures var s := Collect(job).search;
      && (forall c :: c in s.visited <==> Reachable(job, c))
      && (forall c :: c in s.visited ==> job.root <= c)
      && Listed(job, s)
      && Text(job, job.entry, s.entryText)
  {
    EntryStart(job);
    var s := Collect(job).search;
    forall c, d | c in s.visited && Leads(job, c, d) ensures d in s.visited {
      HandledLeads(job, s.visited, c, d);
    }
    forall c | Reachable(job, c) ensures c in s.visited {
      var chain :| Chain(job, chain) && chain[|chain| - 1] == c;
      ClosedHoldsChain(job, s.visited, chain, |chain| - 1);
    }
  }

  lemma HandledLeads(job: Job, visited: set<Path>, c: Path, d: Path)
    requires Handled(job, c, visited) && Leads(job, c, d)
    ensures d in visited
  {
    var target :| RefersTo(job, c, target) && Realpath(job.fs, target) == Existing(d);
    var references := Read(job.fs, c).references;
    var i :| 0 <= i < |references| && references[i].Some? && Target(c, references[i].value) == target;
    assert ReferenceHandled(job, c, i, visited);
  }

  lemma HandledIsNoTrouble(job: Job, visited: set<Path>, c: Path)
    requires Handled(job, c, visited)
    ensures !Trouble(job, c)
  {
    forall target | RefersTo(job, c, target) ensures Safe(job, target) {
      var references := Read(job.fs, c).references;
      var i :| 0 <= i < |references| && references[i].Some? && Target(c, references[i].value) == target;
      assert ReferenceHandled(job, c, i, visited);
    }
  }

  /** A run returns exactly when nothing reachable is unreadable, unsafe or unresolvable and at most
      100 files are reachable. */
  lemma ReturnsUnlessDoomed(job: Job)
    requires ValidJob(job)
    ensures Collect(job).Done? <==> !Doomed(job)
  {
    EntryStart(job);
    if Collect(job).Done? {
      CollectsExactlyTheReachableFiles(job);
      var s := Collect(job).search;
      forall c | Reachable(job, c) ensures !Trouble(job, c) {
        HandledIsNoTrouble(job, s.visited, c);
      }
      forall many: set<Path> | forall c :: c in many ==> Reachable(job, c) ensures |many| <= MAX_SOURCE_FILES {
        assert many <= s.visited;
        SubsetIsSmaller(many, s.visited);
      }
    }
  }

  /** A reference written as the relative path to any place is followed to that place: its file is
      collected, or, outside the root, nothing is. */
  lemma RelativeReferencesAreFollowed(job: Job, c: Path, i: nat, target: Path)
    requires ValidJob(job) && Reachable(job, c) && Read(job.fs, c).Readable? && i < |Read(job.fs, c).references|
    requires Resolved(target) && Read(job.fs, c).references[i] == Some(Relative(Dirname(c), target))
    ensures !(job.root <= target) ==> Collect(job).Thrown?
    ensures Collect(job).Done? && Realpath(job.fs, target).Existing? ==>
      var d := Realpath(job.fs, target).path;
      d in Collect(job).search.visited && InList(job, Collect(job).search.files, d)
  {
    RelativeLeadsThere(Dirname(c), target);
    assert RefersTo(job, c, target);
    ReturnsUnlessDoomed(job);
    if !(job.root <= target) {
      assert !Safe(job, target) && Trouble(job, c);
    } else if Collect(job).Done? && Realpath(job.fs, target).Existing? {
      CollectsExactlyTheReachableFiles(job);
      var d := Realpath(job.fs, target).path;
      assert Leads(job, c, d);
      ReachableStep(job, c, d);
    }
  }

  /** If the first local reference of the entry is the relative path to a place outside the root, the run
      throws because of that place. */
  lemma FirstReferenceEscapes(job: Job, k: nat, target: Path)
    requires ValidJob(job) && Read(job.fs, job.entry).Readable? && k < |Read(job.fs, job.entry).references|
    requires forall i :: 0 <= i < k ==> Read(job.fs, job.entry).references[i] == None
    requires Read(job.fs, job.entry).references[k] == Some(Relative(job.root, target))
    requires Resolved(target) && !(job.root <= target)
    ensures Collect(job) == Thrown(Escapes(target))
  {
    var source := Read(job.fs, job.entry);
    WithinRootIsPrefix(job.root, job.entry);
    WithinRootIsPrefix(job.root, target);
    var s1 := Record(job, EMPTY, job.entry, source.text);
    assert source.references[0..] == source.references;
    ReferenceEscapes(job, s1, source.references, 0, k, target);
    assert Resolved(Realpath(job.fs, job.entry).path);
  }

  lemma {:induction false} ReferenceEscapes(job: Job, s: Search, references: seq<Option<seq<string>>>, i: nat, k: nat,
                                            target: Path)
    requires i <= k < |references| && forall j :: 0 <= j < k ==> references[j] == None
    requires references[k] == Some(Relative(Dirname(job.entry), target)) && Resolved(target)
    requires target !in s.visited && !WithinRoot(job.root, target)
    ensures VisitReferences(job, s, job.entry, references[i..], 1) == Thrown(Escapes(target))
    decreases k - i
  {
    assert references[i..][1..] == references[i + 1..];
    RelativeLeadsThere(Dirname(job.entry), target);
    if i < k { ReferenceEscapes(job, s, references, i + 1, k, target); }
  }

  // ---------------------------------------------------------------------- the whole command

  datatype Kind = Specification | Ruleset

  function Alias(kind: Kind): string { if kind.Specification? then "openapi.yaml" else ".spectral.yaml" }

  lemma AliasesByKind()
    ensures Alias(Specification) == "openapi.yaml" && Alias(Ruleset) == ".spectral.yaml"
  {
  }

  /** collectCliApiDesignSources up to normalisation: the search, and the entry's text under the
      conventional name unless a collected file already has that name. */
  method CollectSources(job: Job, kind: Kind) returns (error: Option<Error>, text: string, files: seq<SourceFile>)
    requires ValidJob(job)
    ensures error.None? <==> !Doomed(job)
    ensures error.None? ==>
      && Text(job, job.entry, text) && Distinct(files)
      && (forall c :: Reachable(job, c) ==> job.root <= c && InList(job, files, c))
      && (forall f :: f in files ==>
            || (Reachable(job, Absolute(job, f)) && Text(job, Absolute(job, f), f.text))
            || (f == SourceFile([Alias(kind)], text) && !Reachable(job, Absolute(job, f))))
      && exists f :: f in files && f.path == [Alias(kind)]
  {
    hide Doomed, Reachable, ValidJob, Alias, Visit, VisitReferences, Resolve, Relative, WithinRoot;
    ReturnsUnlessDoomed(job);
    var collector := new Collector(job);
    error := collector.Walk(job.entry, 0);
    text, files := collector.entryText, collector.files;
    hide Text, AllVisited;
    if error.None? {
      CollectsExactlyTheReachableFiles(job);
      if i :| 0 <= i < |files| && files[i].path == [Alias(kind)] {
        assert files[i] in files;
      } else {
        AddAlias(job, collector.View(), kind);
        files := files + [SourceFile([Alias(kind)], text)];
      }
    }
  }

  lemma AddAlias(job: Job, s: Search, kind: Kind)
    requires Listed(job, s) && forall c :: c in s.visited <==> Reachable(job, c)
    requires forall i :: 0 <= i < |s.files| ==> s.files[i].path != [Alias(kind)]
    ensures var alias := SourceFile([Alias(kind)], s.entryText); var files := s.files + [alias];
      && Distinct(files) && alias in files && !Reachable(job, Absolute(job, alias))
      && forall c :: Reachable(job, c) ==> InList(job, files, c)
  {
    var alias := SourceFile([Alias(kind)], s.entryText);
    AppendListed(job, s, alias);
    forall f | f in s.files ensures Absolute(job, f) != Absolute(job, alias) {
      PrefixCancels(job.root, f.path, alias.path);
    }
  }

  lemma PrefixCancels(root: Path, p: Path, q: Path)
    ensures root + p == root + q ==> p == q
  {
    assert p == (root + p)[|root|..] && q == (root + q)[|root|..];
  }
}
