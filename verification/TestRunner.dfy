/** The unit-test loop of the command line: iterations, suites, tests in order, and attempts. */
module TestRunner {
  import opened Options

  datatype Status = Passed | Failed | Skipped

  /** What one execution of a test script gives: its results, or the error it threw. */
  datatype Outcome = Outcome(tests: seq<Status>, thrown: Option<string>)

  datatype Slot = Slot(iteration: nat, suite: nat, test: nat)

  datatype Result = Result(slot: Slot, attempt: nat, tests: seq<Status>, error: Option<string>, passed: bool)

  /** An execution may depend on everything executed before it. */
  type Oracle = (seq<Result>, Slot, nat) -> Outcome

  function ErrorOf(o: Outcome): Option<string> {
    if o.thrown.Some? then o.thrown else if o.tests == [] then Some("The test did not report a result.") else None
  }

  /** A thrown error leaves no test results. */
  function TestsOf(o: Outcome): seq<Status> { if o.thrown.Some? then [] else o.tests }

  predicate Passes(o: Outcome) { o.thrown.None? && o.tests != [] && Failed !in o.tests }

  function Execute(history: seq<Result>, slot: Slot, attempt: nat, oracle: Oracle): Result {
    var o := oracle(history, slot, attempt);
    Result(slot, attempt, TestsOf(o), ErrorOf(o), Passes(o))
  }

  // ---------------------------------------------------------------------- what a run consists of

  /** The attempts of one test, from this attempt on. */
  function Attempts(history: seq<Result>, slot: Slot, attempt: nat, retries: nat, oracle: Oracle): seq<Result>
    decreases retries + 1 - attempt
  {
    var r := Execute(history, slot, attempt, oracle);
    if r.passed || attempt > retries then [r] else [r] + Attempts(history + [r], slot, attempt + 1, retries, oracle)
  }

  function Flatten(segments: seq<seq<Result>>): seq<Result> {
    if segments == [] then [] else Flatten(segments[..|segments| - 1]) + segments[|segments| - 1]
  }

  /** The attempts of every test of a full run, test by test. */
  function Segments(slots: seq<Slot>, retries: nat, oracle: Oracle): (segments: seq<seq<Result>>)
    ensures |segments| == |slots|
    decreases |slots|
  {
    if slots == [] then []
    else
      var before := Segments(slots[..|slots| - 1], retries, oracle);
      before + [Attempts(Flatten(before), slots[|slots| - 1], 1, retries, oracle)]
  }

  predicate Exhausted(segment: seq<Result>) { segment != [] && !segment[|segment| - 1].passed }

  /** Position of the first test that never passed, or the number of tests. */
  function FirstExhausted(segments: seq<seq<Result>>): (k: nat)
    ensures k <= |segments| && (k < |segments| ==> Exhausted(segments[k]))
    ensures forall j :: 0 <= j < k ==> !Exhausted(segments[j])
  {
    if segments == [] || Exhausted(segments[0]) then 0 else 1 + FirstExhausted(segments[1..])
  }

  /** A bail run executes the full run up to and including its first exhausted test. */
  function Cut(segments: seq<seq<Result>>, bail: bool): seq<seq<Result>> {
    var k := FirstExhausted(segments);
    if bail && k < |segments| then segments[..k + 1] else segments
  }

  type Matcher = (nat, nat) -> bool

  /** The tests that match the name pattern, from a position on. counts gives the tests per suite. */
  function TestSlots(iteration: nat, suite: nat, test: nat, counts: seq<nat>, matches: Matcher): seq<Slot>
    requires suite < |counts|
    decreases counts[suite] - test
  {
    if test >= counts[suite] then []
    else
      (if matches(suite, test) then [Slot(iteration, suite, test)] else [])
      + TestSlots(iteration, suite, test + 1, counts, matches)
  }

  function SuiteSlots(iteration: nat, suite: nat, counts: seq<nat>, matches: Matcher): seq<Slot>
    decreases |counts| - suite
  {
    if suite >= |counts| then []
    else TestSlots(iteration, suite, 0, counts, matches) + SuiteSlots(iteration, suite + 1, counts, matches)
  }

  function IterationSlots(iteration: nat, iterations: nat, counts: seq<nat>, matches: Matcher): seq<Slot>
    decreases iterations - iteration
  {
    if iteration >= iterations then []
    else SuiteSlots(iteration, 0, counts, matches) + IterationSlots(iteration + 1, iterations, counts, matches)
  }

  // ---------------------------------------------------------------------- the loop

  lemma {:induction false} SegmentsOfPrefix(slots: seq<Slot>, n: nat, retries: nat, oracle: Oracle)
    requires n <= |slots|
    ensures Segments(slots[..n], retries, oracle) == Segments(slots, retries, oracle)[..n]
    decreases |slots|
  {
    if n < |slots| {
      assert slots[..|slots| - 1][..n] == slots[..n];
      SegmentsOfPrefix(slots[..|slots| - 1], n, retries, oracle);
    } else {
      assert slots[..n] == slots;
    }
  }

  lemma CutsAt(segments: seq<seq<Result>>, prefix: seq<seq<Result>>, n: nat)
    requires n < |segments| && prefix == segments[..n + 1] && FirstExhausted(prefix) == n
    ensures FirstExhausted(segments) == n && Cut(segments, true) == prefix
  {
    assert Exhausted(segments[n]) && forall j :: 0 <= j < n ==> prefix[j] == segments[j];
  }

  /** When the first exhausted test of a prefix is its last, the full run is cut there. */
  lemma CutAtPrefix(all: seq<Slot>, n: nat, retries: nat, oracle: Oracle)
    requires n < |all| && FirstExhausted(Segments(all[..n + 1], retries, oracle)) == n
    ensures FirstExhausted(Segments(all, retries, oracle)) == n
    ensures Cut(Segments(all, retries, oracle), true) == Segments(all[..n + 1], retries, oracle)
  {
    hide *;
    SegmentsOfPrefix(all, n + 1, retries, oracle);
    CutsAt(Segments(all, retries, oracle), Segments(all[..n + 1], retries, oracle), n);
  }

  lemma OneMore(done: seq<Slot>, slot: Slot, retries: nat, oracle: Oracle)
    ensures var before := Segments(done, retries, oracle);
      var segment := Attempts(Flatten(before), slot, 1, retries, oracle);
      && Segments(done + [slot], retries, oracle) == before + [segment]
      && Flatten(before + [segment]) == Flatten(before) + segment
      && (FirstExhausted(before) == |done| ==>
        FirstExhausted(before + [segment]) == if Exhausted(segment) then |done| else |done| + 1)
  {
    var before := Segments(done, retries, oracle);
    var segment := Attempts(Flatten(before), slot, 1, retries, oracle);
    assert (done + [slot])[..|done|] == done;
    assert (before + [segment])[..|done|] == before;
    if FirstExhausted(before) == |done| {
      assert forall j :: 0 <= j < |done| ==> (before + [segment])[j] == before[j];
    }
  }

  lemma AttemptsUnfold(history: seq<Result>, slot: Slot, attempt: nat, retries: nat, oracle: Oracle)
    ensures var r := Execute(history, slot, attempt, oracle);
      var all, rest := Attempts(history, slot, attempt, retries, oracle),
        Attempts(history + [r], slot, attempt + 1, retries, oracle);
      if r.passed || attempt > retries then history + all == history + [r] && Exhausted(all) == !r.passed
      else history + all == history + [r] + rest && Exhausted(all) == Exhausted(rest)
  {
  }

  /** The attempt loop of one test. */
  method RunTest(history: seq<Result>, slot: Slot, retries: nat, oracle: Oracle)
      returns (results: seq<Result>, passed: bool)
    ensures var segment := Attempts(history, slot, 1, retries, oracle);
      results == history + segment && passed == !Exhausted(segment)
  {
    results := history;
    var attempt := 1;
    while attempt <= retries + 1
      invariant 1 <= attempt <= retries + 1
      invariant results + Attempts(results, slot, attempt, retries, oracle)
        == history + Attempts(history, slot, 1, retries, oracle)
      invariant Exhausted(Attempts(results, slot, attempt, retries, oracle))
        == Exhausted(Attempts(history, slot, 1, retries, oracle))
    {
      var r := Execute(results, slot, attempt, oracle);
      AttemptsUnfold(results, slot, attempt, retries, oracle);
      results := results + [r];
      if r.passed || attempt > retries {
        return results, r.passed;
      }
      attempt := attempt + 1;
    }
    assert false;
  }

  ghost predicate Executed(results: seq<Result>, done: seq<Slot>, bail: bool, retries: nat, oracle: Oracle) {
    results == Flatten(Segments(done, retries, oracle))
        && (bail ==> FirstExhausted(Segments(done, retries, oracle)) == |done|)
  }

  ghost predicate Complete(results: seq<Result>, all: seq<Slot>, bail: bool, bailed: bool, retries: nat,
                           oracle: Oracle) {
    var segments := Segments(all, retries, oracle);
    results == Flatten(Cut(segments, bail)) && bailed == (bail && FirstExhausted(segments) < |segments|)
  }

  ghost predicate Remain(done: seq<Slot>, rest: seq<Slot>, all: seq<Slot>) { done + rest == all }

  lemma NextIteration(done: seq<Slot>, all: seq<Slot>, iteration: nat, iterations: nat, counts: seq<nat>,
                      matches: Matcher)
    requires iteration < iterations && Remain(done, IterationSlots(iteration, iterations, counts, matches), all)
    ensures Remain(done,
                   SuiteSlots(iteration, 0, counts, matches)
                   + IterationSlots(iteration + 1, iterations, counts, matches),
                   all)
  {
  }

  lemma NextSuite(done: seq<Slot>, all: seq<Slot>, iteration: nat, suite: nat, counts: seq<nat>, matches: Matcher,
                  later: seq<Slot>)
    requires Remain(done, SuiteSlots(iteration, suite, counts, matches) + later, all)
    ensures suite < |counts| ==>
      Remain(done, TestSlots(iteration, suite, 0, counts, matches) +
          (SuiteSlots(iteration, suite + 1, counts, matches) + later), all)
    ensures suite >= |counts| ==> Remain(done, later, all)
  {
    if suite < |counts| {
      Regroup(TestSlots(iteration, suite, 0, counts, matches),
          SuiteSlots(iteration, suite + 1, counts, matches), later);
    } else {
      assert SuiteSlots(iteration, suite, counts, matches) + later == later;
    }
  }

  lemma Regroup(a: seq<Slot>, b: seq<Slot>, c: seq<Slot>)
    ensures (a + b) + c == a + (b + c)
  {
  }

  lemma NextTest(done: seq<Slot>, all: seq<Slot>, iteration: nat, suite: nat, test: nat, counts: seq<nat>,
                 matches: Matcher, later: seq<Slot>)
    requires suite < |counts| && Remain(done, TestSlots(iteration, suite, test, counts, matches) + later, all)
    ensures test < counts[suite] ==>
      Remain(if matches(suite, test) then done + [Slot(iteration, suite, test)] else done,
             TestSlots(iteration, suite, test + 1, counts, matches) + later, all)
    ensures test >= counts[suite] ==> Remain(done, later, all)
  {
    var rest := TestSlots(iteration, suite, test, counts, matches);
    if test < counts[suite] {
      var tail := TestSlots(iteration, suite, test + 1, counts, matches);
      var slot := Slot(iteration, suite, test);
      if matches(suite, test) {
        assert done + (([slot] + tail) + later) == done + [slot] + (tail + later);
      } else {
        assert [] + tail == tail;
      }
    } else {
      assert rest + later == later;
    }
  }

  /** After one more test: go on, or stop for good. */
  lemma AfterTest(results: seq<Result>, done: seq<Slot>, slot: Slot, rest: seq<Slot>, all: seq<Slot>, bail: bool,
                  retries: nat, oracle: Oracle)
    requires Executed(results, done, bail, retries, oracle) && Remain(done + [slot], rest, all)
    ensures var segment := Attempts(results, slot, 1, retries, oracle);
      if bail && Exhausted(segment) then Complete(results + segment, all, bail, true, retries, oracle)
      else Executed(results + segment, done + [slot], bail, retries, oracle)
  {
    OneMore(done, slot, retries, oracle);
    if bail && Exhausted(Attempts(results, slot, 1, retries, oracle)) {
      assert all[..|done| + 1] == done + [slot];
      CutAtPrefix(all, |done|, retries, oracle);
    }
  }

  lemma AfterAll(results: seq<Result>, done: seq<Slot>, all: seq<Slot>, iterations: nat, counts: seq<nat>,
                 matches: Matcher, bail: bool, retries: nat, oracle: Oracle)
    requires Executed(results, done, bail, retries, oracle)
      && Remain(done, IterationSlots(iterations, iterations, counts, matches), all)
    ensures Complete(results, all, bail, false, retries, oracle)
  {
    assert done == all;
  }

  lemma Begin(all: seq<Slot>, bail: bool, retries: nat, oracle: Oracle)
    ensures Executed([], [], bail, retries, oracle) && Remain([], all, all)
  {
  }

  /** The nested loops: the results are those of the full run, cut after the first exhausted test when
      bailing, and the run reports bailing exactly then. */
  method RunTests(iterations: nat, counts: seq<nat>, matches: Matcher, retries: nat, bail: bool, oracle: Oracle)
    returns (results: seq<Result>, bailed: bool)
    ensures Complete(results, IterationSlots(0, iterations, counts, matches), bail, bailed, retries, oracle)
  {
    hide *;
    results, bailed := [], false;
    ghost var all := IterationSlots(0, iterations, counts, matches);
    ghost var done: seq<Slot> := [];
    Begin(all, bail, retries, oracle);
    var iteration := 0;
    label outer: while iteration < iterations
      invariant 0 <= iteration <= iterations && !bailed
      invariant Remain(done, IterationSlots(iteration, iterations, counts, matches), all)
      invariant Executed(results, done, bail, retries, oracle)
    {
      NextIteration(done, all, iteration, iterations, counts, matches);
      ghost var iterationsLeft := IterationSlots(iteration + 1, iterations, counts, matches);
      var suite := 0;
      while suite < |counts|
        invariant 0 <= suite <= |counts| && !bailed
        invariant Remain(done, SuiteSlots(iteration, suite, counts, matches) + iterationsLeft, all)
        invariant Executed(results, done, bail, retries, oracle)
      {
        NextSuite(done, all, iteration, suite, counts, matches, iterationsLeft);
        ghost var suitesLeft := SuiteSlots(iteration, suite + 1, counts, matches) + iterationsLeft;
        var test := 0;
        while test < counts[suite]
          invariant 0 <= test <= counts[suite] && !bailed
          invariant Remain(done, TestSlots(iteration, suite, test, counts, matches) + suitesLeft, all)
          invariant Executed(results, done, bail, retries, oracle)
        {
          NextTest(done, all, iteration, suite, test, counts, matches, suitesLeft);
          if matches(suite, test) {
            var slot := Slot(iteration, suite, test);
            AfterTest(results, done, slot, TestSlots(iteration, suite, test + 1, counts, matches) + suitesLeft, all,
                bail, retries, oracle);
            var passed;
            results, passed := RunTest(results, slot, retries, oracle);
            if !passed && bail {
              bailed := true;
              break outer;
            }
            done := done + [slot];
          }
          test := test + 1;
        }
        NextTest(done, all, iteration, suite, test, counts, matches, suitesLeft);
        suite := suite + 1;
      }
      NextSuite(done, all, iteration, suite, counts, matches, iterationsLeft);
      iteration := iteration + 1;
    }
    if !bailed {
      AfterAll(results, done, all, iterations, counts, matches, bail, retries, oracle);
    }
  }

  // ---------------------------------------------------------------------- what the results look like

  /** Attempts 1..k with k at most retries + 1: all but the last fail, and the last passes or is number
      retries + 1. */
  ghost predicate IsSegment(segment: seq<Result>, slot: Slot, first: nat, retries: nat) {
    && segment != [] && first + |segment| - 1 <= retries + 1
    && (forall j :: 0 <= j < |segment| ==> segment[j].slot == slot && segment[j].attempt == first + j)
    && (forall j :: 0 <= j < |segment| - 1 ==> !segment[j].passed)
    && (segment[|segment| - 1].passed || segment[|segment| - 1].attempt == retries + 1)
  }

  lemma {:induction false} AttemptsAreNumbered(history: seq<Result>, slot: Slot, attempt: nat, retries: nat,
                                               oracle: Oracle)
    requires attempt <= retries + 1
    ensures IsSegment(Attempts(history, slot, attempt, retries, oracle), slot, attempt, retries)
    decreases retries + 1 - attempt
  {
    var r := Execute(history, slot, attempt, oracle);
    if !(r.passed || attempt > retries) {
      AttemptsAreNumbered(history + [r], slot, attempt + 1, retries, oracle);
    }
  }

  /** The results of a run are one segment of attempts for each matching test, in order; only a bail run
      leaves out a tail of them, and then its last test is the only exhausted one. */
  lemma {:induction false} ResultsAreSegments(slots: seq<Slot>, retries: nat, bail: bool, oracle: Oracle, i: nat)
    requires i < |Cut(Segments(slots, retries, oracle), bail)|
    ensures var cut := Cut(Segments(slots, retries, oracle), bail);
      && |cut| <= |slots| && IsSegment(cut[i], slots[i], 1, retries)
      && (bail && i < |cut| - 1 ==> !Exhausted(cut[i]))
      && (|cut| < |slots| ==> bail && Exhausted(cut[|cut| - 1]))
  {
    SegmentAt(slots, retries, oracle, i);
  }

  lemma {:induction false} SegmentAt(slots: seq<Slot>, retries: nat, oracle: Oracle, i: nat)
    requires i < |slots|
    ensures IsSegment(Segments(slots, retries, oracle)[i], slots[i], 1, retries)
    decreases |slots|
  {
    var front := slots[..|slots| - 1];
    if i < |front| {
      SegmentAt(front, retries, oracle, i);
    } else {
      AttemptsAreNumbered(Flatten(Segments(front, retries, oracle)), slots[i], 1, retries, oracle);
    }
  }

  /** The results of the bail run are a prefix of those of the full run with the same outcomes. */
  lemma BailRunIsPrefix(slots: seq<Slot>, retries: nat, oracle: Oracle)
    ensures Flatten(Cut(Segments(slots, retries, oracle), true))
         <= Flatten(Cut(Segments(slots, retries, oracle), false))
  {
    var segments := Segments(slots, retries, oracle);
    FlattenPrefix(segments, |Cut(segments, true)|);
  }

  lemma {:induction false} FlattenPrefix(segments: seq<seq<Result>>, n: nat)
    requires n <= |segments|
    ensures Flatten(segments[..n]) <= Flatten(segments)
    decreases |segments|
  {
    if n < |segments| {
      assert segments[..|segments| - 1][..n] == segments[..n];
      FlattenPrefix(segments[..|segments| - 1], n);
    } else {
      assert segments[..n] == segments;
    }
  }

  /** What a result says about the execution it stands for. */
  predicate Tells(r: Result, o: Outcome) {
    && (r.passed <==> o.thrown.None? && o.tests != [] && forall k :: 0 <= k < |o.tests| ==> o.tests[k] != Failed)
    && r.tests == (if o.thrown.None? then o.tests else [])
    && (r.error.None? <==> o.thrown.None? && o.tests != [])
    && (o.thrown.Some? ==> r.error == o.thrown)
  }

  /** Every result of a run tells the outcome of its own attempt, executed after all results before it. */
  lemma ResultsTellOutcomes(slots: seq<Slot>, retries: nat, bail: bool, oracle: Oracle, i: nat)
    requires i < |Flatten(Cut(Segments(slots, retries, oracle), bail))|
    ensures var results := Flatten(Cut(Segments(slots, retries, oracle), bail));
      Tells(results[i], oracle(results[..i], results[i].slot, results[i].attempt))
  {
    var full := Flatten(Segments(slots, retries, oracle));
    FlattenPrefix(Segments(slots, retries, oracle), |Cut(Segments(slots, retries, oracle), bail)|);
    assert Cut(Segments(slots, retries, oracle), bail)
        == Segments(slots, retries, oracle)[..|Cut(Segments(slots, retries, oracle), bail)|];
    var results := Flatten(Cut(Segments(slots, retries, oracle), bail));
    assert results <= full && results[..i] == [] + full[..i];
    SegmentsTell(slots, retries, oracle, i);
  }

  ghost predicate TellsAt(history: seq<Result>, results: seq<Result>, oracle: Oracle, i: nat)
    requires i < |results|
  {
    Tells(results[i], oracle(history + results[..i], results[i].slot, results[i].attempt))
  }

  lemma TellsInParts(before: seq<Result>, last: seq<Result>, oracle: Oracle, i: nat)
    requires i < |before + last|
    requires if i < |before| then TellsAt([], before, oracle, i) else TellsAt(before, last, oracle, i - |before|)
    ensures TellsAt([], before + last, oracle, i)
  {
    hide Tells;
    if i < |before| {
      assert [] + (before + last)[..i] == [] + before[..i];
    } else {
      assert [] + (before + last)[..i] == before + last[..i - |before|];
    }
  }

  lemma {:induction false} SegmentsTell(slots: seq<Slot>, retries: nat, oracle: Oracle, i: nat)
    requires i < |Flatten(Segments(slots, retries, oracle))|
    ensures TellsAt([], Flatten(Segments(slots, retries, oracle)), oracle, i)
    decreases |slots|
  {
    if slots != [] {
      hide Segments, Flatten, Attempts, TellsAt, Exhausted, FirstExhausted;
      var front, slot := slots[..|slots| - 1], slots[|slots| - 1];
      var before := Flatten(Segments(front, retries, oracle));
      var last := Attempts(before, slot, 1, retries, oracle);
      OneMore(front, slot, retries, oracle);
      assert slots == front + [slot];
      if i < |before| {
        SegmentsTell(front, retries, oracle, i);
      } else {
        AttemptsTell(before, slot, 1, retries, oracle, i - |before|);
      }
      TellsInParts(before, last, oracle, i);
    }
  }

  lemma {:induction false} AttemptsTell(history: seq<Result>, slot: Slot, attempt: nat, retries: nat, oracle: Oracle,
                                        j: nat)
    requires j < |Attempts(history, slot, attempt, retries, oracle)|
    ensures TellsAt(history, Attempts(history, slot, attempt, retries, oracle), oracle, j)
    decreases j
  {
    var r := Execute(history, slot, attempt, oracle);
    var segment := Attempts(history, slot, attempt, retries, oracle);
    if j == 0 {
      assert history + segment[..0] == history;
    } else {
      var rest := Attempts(history + [r], slot, attempt + 1, retries, oracle);
      AttemptsTell(history + [r], slot, attempt + 1, retries, oracle, j - 1);
      assert history + segment[..j] == history + [r] + rest[..j - 1];
    }
  }

  predicate Before(a: Slot, b: Slot) {
    a.iteration < b.iteration
        || (a.iteration == b.iteration && (a.suite < b.suite || (a.suite == b.suite && a.test < b.test)))
  }

  /** The slots are exactly the matching tests of every iteration. */
  lemma SlotsAreTheMatches(iterations: nat, counts: seq<nat>, matches: Matcher, slot: Slot)
    ensures slot in IterationSlots(0, iterations, counts, matches) <==>
      slot.iteration < iterations && slot.suite < |counts| && slot.test < counts[slot.suite]
          && matches(slot.suite, slot.test)
  {
    InIterations(0, iterations, counts, matches, slot);
  }

  lemma {:induction false} InIterations(iteration: nat, iterations: nat, counts: seq<nat>, matches: Matcher, slot: Slot)
    ensures slot in IterationSlots(iteration, iterations, counts, matches) <==>
      iteration <= slot.iteration < iterations && slot.suite < |counts| && slot.test < counts[slot.suite]
          && matches(slot.suite, slot.test)
    decreases iterations - iteration
  {
    if iteration < iterations {
      InIterations(iteration + 1, iterations, counts, matches, slot);
      InSuites(iteration, 0, counts, matches, slot);
    }
  }

  lemma {:induction false} InSuites(iteration: nat, suite: nat, counts: seq<nat>, matches: Matcher, slot: Slot)
    ensures slot in SuiteSlots(iteration, suite, counts, matches) <==>
      slot.iteration == iteration && suite <= slot.suite < |counts| && slot.test < counts[slot.suite]
          && matches(slot.suite, slot.test)
    decreases |counts| - suite
  {
    if suite < |counts| {
      InSuites(iteration, suite + 1, counts, matches, slot);
      InTests(iteration, suite, 0, counts, matches, slot);
    }
  }

  lemma {:induction false} InTests(iteration: nat, suite: nat, test: nat, counts: seq<nat>, matches: Matcher,
                                   slot: Slot)
    requires suite < |counts|
    ensures slot in TestSlots(iteration, suite, test, counts, matches) <==>
      slot.iteration == iteration && slot.suite == suite && test <= slot.test < counts[suite]
          && matches(suite, slot.test)
    decreases counts[suite] - test
  {
    if test < counts[suite] {
      InTests(iteration, suite, test + 1, counts, matches, slot);
    }
  }

  ghost predicate Ascending(slots: seq<Slot>) { forall i, j :: 0 <= i < j < |slots| ==> Before(slots[i], slots[j]) }

  lemma AscendingParts(a: seq<Slot>, b: seq<Slot>)
    requires Ascending(a) && Ascending(b) && forall x, y :: x in a && y in b ==> Before(x, y)
    ensures Ascending(a + b)
  {
  }

  /** They come in order, each once. */
  lemma {:induction false} SlotsAscend(iteration: nat, iterations: nat, counts: seq<nat>, matches: Matcher)
    ensures Ascending(IterationSlots(iteration, iterations, counts, matches))
    decreases iterations - iteration
  {
    if iteration < iterations {
      hide Ascending;
      var a, b := SuiteSlots(iteration, 0, counts, matches), IterationSlots(iteration + 1, iterations, counts, matches);
      SlotsAscend(iteration + 1, iterations, counts, matches);
      SuitesAscend(iteration, 0, counts, matches);
      forall x, y | x in a && y in b ensures Before(x, y) {
        InSuites(iteration, 0, counts, matches, x);
        InIterations(iteration + 1, iterations, counts, matches, y);
      }
      AscendingParts(a, b);
    }
  }

  lemma {:induction false} SuitesAscend(iteration: nat, suite: nat, counts: seq<nat>, matches: Matcher)
    ensures Ascending(SuiteSlots(iteration, suite, counts, matches))
    decreases |counts| - suite
  {
    if suite < |counts| {
      hide Ascending;
      var a, b := TestSlots(iteration, suite, 0, counts, matches), SuiteSlots(iteration, suite + 1, counts, matches);
      SuitesAscend(iteration, suite + 1, counts, matches);
      TestsAscend(iteration, suite, 0, counts, matches);
      forall x, y | x in a && y in b ensures Before(x, y) {
        InTests(iteration, suite, 0, counts, matches, x);
        InSuites(iteration, suite + 1, counts, matches, y);
      }
      AscendingParts(a, b);
    }
  }

  lemma {:induction false} TestsAscend(iteration: nat, suite: nat, test: nat, counts: seq<nat>, matches: Matcher)
    requires suite < |counts|
    ensures Ascending(TestSlots(iteration, suite, test, counts, matches))
    decreases counts[suite] - test
  {
    if test < counts[suite] {
      TestsAscend(iteration, suite, test + 1, counts, matches);
      forall y | y in TestSlots(iteration, suite, test + 1, counts, matches)
        ensures Before(Slot(iteration, suite, test), y)
      {
        InTests(iteration, suite, test + 1, counts, matches, y);
      }
    }
  }

  // ---------------------------------------------------------------------- the report

  datatype Report = Report(matchedTests: nat, total: nat, passed: nat, failed: nat, bailed: bool)

  function Having(results: seq<Result>, passed: bool): nat {
    if results == [] then 0
    else Having(results[..|results| - 1], passed) + if results[|results| - 1].passed == passed then 1 else 0
  }

  function TestResults(results: seq<Result>): nat {
    if results == [] then 0 else TestResults(results[..|results| - 1]) + |results[|results| - 1].tests|
  }

  /** The statuses of all executions, one after the other. */
  ghost function AllTests(results: seq<Result>): seq<Status> {
    if results == [] then [] else AllTests(results[..|results| - 1]) + results[|results| - 1].tests
  }

  function Summary(results: seq<Result>, bailed: bool): Report {
    Report(TestResults(results), |results|, Having(results, true), Having(results, false), bailed)
  }

  ghost function Numbers(results: seq<Result>, passed: bool): set<nat> {
    set i: nat | i < |results| && results[i].passed == passed
  }

  /** Every attempt is counted once, the passed ones as passed and the others as failed; the tests counted are
      those of all attempts. */
  lemma {:induction false} CountsAddUp(results: seq<Result>, bailed: bool)
    ensures var r := Summary(results, bailed);
      && r.passed == |Numbers(results, true)| && r.failed == |Numbers(results, false)|
      && r.passed + r.failed == r.total == |results|
      && r.matchedTests == |AllTests(results)| && r.bailed == bailed
    decreases |results|
  {
    if results != [] {
      var n := |results| - 1;
      CountsAddUp(results[..n], bailed);
      NumbersGrow(results, true);
      NumbersGrow(results, false);
    } else {
      assert Numbers(results, true) == {} && Numbers(results, false) == {};
    }
  }

  lemma NumbersGrow(results: seq<Result>, passed: bool)
    requires results != []
    ensures var n := |results| - 1;
      |Numbers(results, passed)| == |Numbers(results[..n], passed)| + if results[n].passed == passed then 1 else 0
  {
    var n, front := |results| - 1, results[..|results| - 1];
    var before := Numbers(front, passed);
    assert forall i: nat :: i in before <==> i < n && results[i].passed == passed;
    assert n !in before;
    assert Numbers(results, passed) == if results[n].passed == passed then before + {n} else before;
  }
}
