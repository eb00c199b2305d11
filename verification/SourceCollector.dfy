/** Collecting the local files an API specification refers to: a depth-first search over file
    references, with canonical paths, a visited set, a depth cut and a file limit. */
module SourceCollector {
  import opened Options

  const MAX_DEPTH := 100
  const MAX_SOURCE_FILES := 100

  /** An absolute path by its segments; no segment is "." or ".." once resolved. */
  type Path = seq<string>

  datatype Canonical = Existing(path: Path) | Missing | Broken(error: string)

  /** A file that cannot be read as bounded UTF-8 text, or its text with its references: None for a
      reference that is not local, else the segments of the relative path. */
  datatype Source = Unreadable(error: string) | Readable(text: string, references: seq<Option<seq<string>>>)

  datatype FileSystem = FileSystem(links: map<Path, Canonical>, contents: map<Path, Source>)

  function Realpath(fs: FileSystem, path: Path): Canonical {
    if path in fs.links then fs.links[path] else Missing
  }

  function Read(fs: FileSystem, path: Path): Source {
    if path in fs.contents then fs.contents[path] else Unreadable("no such file")
  }

  /** A canonical path is its own canonical path. */
  ghost predicate CanonicalIsStable(fs: FileSystem) {
    forall path :: Realpath(fs, path).Existing? ==> Realpath(fs, Realpath(fs, path).path) == Realpath(fs, path)
  }

  function Dirname(path: Path): Path { if path == [] then [] else path[..|path| - 1] }

  function Resolve(base: Path, reference: seq<string>): Path
    decreases |reference|
  {
    if reference == [] then base
    else if reference[0] == "" || reference[0] == "." then Resolve(base, reference[1..])
    else if reference[0] == ".." then Resolve(Dirname(base), reference[1..])
    else Resolve(base + [reference[0]], reference[1..])
  }

  // ---------------------------------------------------------------------- staying inside the root

  function Ups(n: nat): seq<string> { seq(n, _ => "..") }

  function CommonPrefix(a: Path, b: Path): (n: nat)
    ensures n <= |a| && n <= |b| && a[..n] == b[..n]
    ensures n < |a| && n < |b| ==> a[n] != b[n]
  {
    if a == [] || b == [] || a[0] != b[0] then 0 else 1 + CommonPrefix(a[1..], b[1..])
  }

  function Relative(root: Path, candidate: Path): seq<string> {
    var n := CommonPrefix(root, candidate);
    Ups(|root| - n) + candidate[n..]
  }

  predicate WithinRoot(root: Path, candidate: Path) {
    var child := Relative(root, candidate);
    child == [] || child[0] != ".."
  }

  /** A name, not a step of navigation. */
  predicate Plain(segment: string) { segment != "" && segment != "." && segment != ".." }

  predicate Resolved(path: Path) { forall i :: 0 <= i < |path| ==> Plain(path[i]) }

  /** The textual test on the relative path is the prefix order on resolved paths. */
  lemma WithinRootIsPrefix(root: Path, candidate: Path)
    requires Resolved(candidate)
    ensures WithinRoot(root, candidate) <==> root <= candidate
    ensures root <= candidate ==> Relative(root, candidate) == candidate[|root|..]
  {
    var n := CommonPrefix(root, candidate);
    var child := Relative(root, candidate);
    if n == |root| {
      assert child == candidate[n..];
    } else {
      assert child[0] == "..";
      assert n < |candidate| ==> root[n] != candidate[n];
    }
  }

  // ---------------------------------------------------------------------- what resolving means

  lemma {:induction false} ResolveResolves(base: Path, reference: seq<string>)
    requires Resolved(base)
    ensures Resolved(Resolve(base, reference))
    decreases |reference|
  {
    if reference != [] {
      if reference[0] == "" || reference[0] == "." {
        ResolveResolves(base, reference[1..]);
      } else if reference[0] == ".." {
        ResolveResolves(Dirname(base), reference[1..]);
      } else {
        ResolveResolves(base + [reference[0]], reference[1..]);
      }
    }
  }

  /** A reference is followed segment by segment. */
  lemma {:induction false} ResolveInParts(base: Path, a: seq<string>, b: seq<string>)
    ensures Resolve(base, a + b) == Resolve(Resolve(base, a), b)
    decreases |a|
  {
    if a == [] {
      assert a + b == b;
    } else {
      assert (a + b)[1..] == a[1..] + b;
      ResolveInParts(base, a[1..], b);
      ResolveInParts(Dirname(base), a[1..], b);
      ResolveInParts(base + [a[0]], a[1..], b);
    }
  }

  /** Names are appended. */
  lemma {:induction false} NamesAppend(base: Path, names: seq<string>)
    requires Resolved(names)
    ensures Resolve(base, names) == base + names
    decreases |names|
  {
    if names != [] {
      assert forall i :: 0 <= i < |names| - 1 ==> names[1..][i] == names[i + 1];
      NamesAppend(base + [names[0]], names[1..]);
    }
  }

  /** Each parent segment takes off one name, and none at the root. */
  lemma {:induction false} UpsTakeOff(base: Path, k: nat)
    ensures Resolve(base, Ups(k)) == if k <= |base| then base[..|base| - k] else []
    decreases k
  {
    if k > 0 {
      assert Ups(k)[1..] == Ups(k - 1) && Ups(k)[0] == "..";
      UpsTakeOff(Dirname(base), k - 1);
    } else {
      assert Ups(0) == [];
    }
  }

  /** A name followed by a parent segment cancels, and empty and dot segments do nothing. */
  lemma SegmentsCancel(base: Path, before: seq<string>, segments: seq<string>, after: seq<string>)
    requires (|segments| == 2 && Plain(segments[0]) && segments[1] == "..") || segments == ["."] || segments == [""]
    ensures Resolve(base, before + segments + after) == Resolve(base, before + after)
  {
    var middle := Resolve(base, before);
    ResolveInParts(base, before + segments, after);
    ResolveInParts(base, before, segments);
    ResolveInParts(base, before, after);
    if |segments| == 2 {
      assert segments == [segments[0]] + Ups(1);
      ResolveInParts(middle, [segments[0]], Ups(1));
      NamesAppend(middle, [segments[0]]);
      UpsTakeOff(middle + [segments[0]], 1);
    } else {
      assert segments[1..] == [];
    }
  }

  /** Following the relative path from one place to another leads there. */
  lemma RelativeLeadsThere(base: Path, target: Path)
    requires Resolved(target)
    ensures Resolve(base, Relative(base, target)) == target
  {
    hide Resolve, Ups, CommonPrefix;
    var n := CommonPrefix(base, target);
    ResolveInParts(base, Ups(|base| - n), target[n..]);
    UpsTakeOff(base, |base| - n);
    NamesAppend(base[..n], target[n..]);
  }

  // ---------------------------------------------------------------------- the search

  datatype SourceFile = SourceFile(path: seq<string>, text: string)

  datatype Error =
    | Escapes(path: Path) | EscapesBySymlink(path: Path)
    | CannotResolve(path: Path) | CannotRead(path: Path) | TooManyFiles

  datatype Search = Search(visited: set<Path>, files: seq<SourceFile>, entryText: string)

  datatype Outcome = Done(search: Search) | Thrown(error: Error)

  datatype Job = Job(fs: FileSystem, root: Path, entry: Path)

  function Record(job: Job, s: Search, c: Path, text: string): Search {
    Search(s.visited + {c}, s.files + [SourceFile(Relative(job.root, c), text)],
           if c == job.entry then text else s.entryText)
  }

  function Visit(job: Job, s: Search, path: Path, depth: nat): Outcome
    decreases MAX_DEPTH + 1 - depth, 1, 0
  {
    if depth > MAX_DEPTH || path in s.visited then Done(s)
    else if !WithinRoot(job.root, path) then Thrown(Escapes(path))
    else
      match Realpath(job.fs, path)
      case Missing => Done(s)
      case Broken(_) => Thrown(CannotResolve(path))
      case Existing(c) =>
        if !WithinRoot(job.root, c) then Thrown(EscapesBySymlink(path))
        else if c in s.visited then Done(s)
        else
          match Read(job.fs, c)
          case Unreadable(_) => Thrown(CannotRead(c))
          case Readable(text, references) =>
            var s1 := Record(job, s, c, text);
            if |s1.files| > MAX_SOURCE_FILES then Thrown(TooManyFiles)
            else VisitReferences(job, s1, c, references, depth + 1)
  }

  function VisitReferences(job: Job, s: Search, from: Path, references: seq<Option<seq<string>>>, depth: nat): Outcome
    decreases MAX_DEPTH + 1 - depth, 2, |references|
  {
    if references == [] then Done(s)
    else if references[0].None? then VisitReferences(job, s, from, references[1..], depth)
    else
      match Visit(job, s, Resolve(Dirname(from), references[0].value), depth)
      case Thrown(e) => Thrown(e)
      case Done(s1) => VisitReferences(job, s1, from, references[1..], depth)
  }

  const EMPTY := Search({}, [], "")

  function Collect(job: Job): Outcome { Visit(job, EMPTY, job.entry, 0) }

  lemma WalkedAll(job: Job, s: Search, from: Path, references: seq<Option<seq<string>>>, depth: nat)
    ensures VisitReferences(job, s, from, references[|references|..], depth) == Done(s)
  {
  }

  lemma WalkedOne(job: Job, s: Search, from: Path, references: seq<Option<seq<string>>>, i: nat, depth: nat)
    requires i < |references|
    ensures VisitReferences(job, s, from, references[i..], depth) ==
      if references[i].None? then VisitReferences(job, s, from, references[i + 1..], depth)
      else
        match Visit(job, s, Resolve(Dirname(from), references[i].value), depth)
        case Thrown(e) => Thrown(e)
        case Done(s1) => VisitReferences(job, s1, from, references[i + 1..], depth)
  {
    assert references[i..][1..] == references[i + 1..];
  }

  // ---------------------------------------------------------------------- the search, in place

  /** The closure of collectCliApiDesignSources: three variables updated during the recursion. */
  class Collector {
    const job: Job
    var visited: set<Path>
    var files: seq<SourceFile>
    var entryText: string

    ghost function View(): Search
      reads this
    {
      Search(visited, files, entryText)
    }

    constructor (job: Job)
      ensures this.job == job && View() == EMPTY
    {
      this.job := job;
      visited, files, entryText := {}, [], "";
    }

    /** Some(e) is an exception that leaves the whole search; the state then no longer matters. */
    method Walk(path: Path, depth: nat) returns (error: Option<Error>)
      modifies this
      ensures Visit(job, old(View()), path, depth) == if error.Some? then Thrown(error.value) else Done(View())
      decreases MAX_DEPTH + 1 - depth, 0
    {
      hide Resolve, CommonPrefix, Relative, WithinRoot, VisitReferences;
      if depth > MAX_DEPTH || path in visited {
        return None;
      }
      if !WithinRoot(job.root, path) {
        return Some(Escapes(path));
      }
      var canonical := Realpath(job.fs, path);
      if canonical.Missing? {
        return None;
      }
      if canonical.Broken? {
        return Some(CannotResolve(path));
      }
      var c := canonical.path;
      if !WithinRoot(job.root, c) {
        return Some(EscapesBySymlink(path));
      }
      if c in visited {
        return None;
      }
      visited := visited + {c};
      var source := Read(job.fs, c);
      if source.Unreadable? {
        return Some(CannotRead(c));
      }
      if c == job.entry {
        entryText := source.text;
      }
      files := files + [SourceFile(Relative(job.root, c), source.text)];
      if |files| > MAX_SOURCE_FILES {
        return Some(TooManyFiles);
      }
      ghost var s1 := View();
      assert s1 == Record(job, old(View()), c, source.text);
      assert Visit(job, old(View()), path, depth) == VisitReferences(job, s1, c, source.references, depth + 1);
      assert source.references[0..] == source.references;
      hide Visit, Record;
      var i := 0;
      while i < |source.references|
        invariant 0 <= i <= |source.references|
        invariant VisitReferences(job, s1, c, source.references, depth + 1)
               == VisitReferences(job, View(), c, source.references[i..], depth + 1)
      {
        WalkedOne(job, View(), c, source.references, i, depth + 1);
        if source.references[i].Some? {
          error := Walk(Resolve(Dirname(c), source.references[i].value), depth + 1);
          if error.Some? {
            return;
          }
        }
        i := i + 1;
      }
      WalkedAll(job, View(), c, source.references, depth + 1);
      error := None;
    }
  }
}
