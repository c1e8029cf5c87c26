/** Which sandboxed tests leave a trace, over whole runs: exactly when every sandbox of a forest undoes what its
    tests do. */
module SandboxRuns {
  import opened SnapshotChain
  import opened SuiteRuns
  import opened CacheProofs
  import opened InnerHooks
  import opened TestEnds
  import opened SandboxNesting
  import opened CacheTheorems

  // ----- What a run does

  /** A test that reaches the given state. */
  function Reaching<S>(x: S): S -> S {
    (_: S) => x
  }

  /** The next test would end in the same state whatever state it reaches. */
  ghost predicate Undone<S(!new)>(w: World<S>, depth: nat)
    requires w.Shaped()
  {
    forall x: S, y: S ::
      RunTest(w, Reaching(x), depth).chain.state == RunTest(w, Reaching(y), depth).chain.state
  }

  /** Every test of the run with a sandbox on its path is undone. */
  ghost predicate TestsUndone<S(!new)>(w: World<S>, tests: seq<S -> S>, depth: nat)
    requires w.Shaped()
    decreases |tests|
  {
    tests != [] ==>
      && (FirstSandbox(w.path) < |w.path| ==> Undone(w, depth))
      && TestsUndone(RunTest(w, tests[0], depth), tests[1..], depth)
  }

  ghost predicate SuiteUndone<S(!new)>(w: World<S>, s: Suite<S>, depth: nat)
    requires w.Shaped()
    decreases s, 1
  {
    var entered := Enter(w, s.hooks, depth + 1);
    && TestsUndone(entered, s.tests, depth + 1)
    && SuitesUndone(RunTests(entered, s.tests, depth + 1), s.children, depth + 1)
  }

  ghost predicate SuitesUndone<S(!new)>(w: World<S>, suites: seq<Suite<S>>, depth: nat)
    requires w.Shaped()
    decreases suites, 0
  {
    suites != [] ==>
      && SuiteUndone(w, suites[0], depth)
      && SuitesUndone(RunSuite(w, suites[0], depth), suites[1..], depth)
  }

  // ----- What the tree of suites says

  /** With m cached hooks of the path initialized, a sandbox of the path undoes the test. */
  ghost predicate TestContained<S>(path: seq<Hook<S>>, m: nat) {
    m <= Count(path, |path|) && FirstSandbox(path) < |path| ==> Contained(path, m)
  }

  /** The first test of a suite finds m cached hooks initialized, every later one all of its path. */
  ghost predicate TestsContained<S>(path: seq<Hook<S>>, m: nat, tests: nat) {
    && (tests > 0 ==> TestContained(path, m))
    && (tests > 1 ==> TestContained(path, Count(path, |path|)))
  }

  /** How many cached hooks of the path are initialized once that many tests have run on it or below. */
  ghost function Initialized<S>(path: seq<Hook<S>>, m: nat, tests: nat): nat {
    if tests > 0 then Count(path, |path|) else m
  }

  ghost predicate SuiteContained<S>(hooks: seq<Hook<S>>, m: nat, s: Suite<S>)
    decreases s, 1
  {
    var path := hooks + s.hooks;
    TestsContained(path, m, |s.tests|) && SuitesContained(path, Initialized(path, m, |s.tests|), s.children)
  }

  ghost predicate SuitesContained<S>(hooks: seq<Hook<S>>, m: nat, suites: seq<Suite<S>>)
    decreases suites, 0
  {
    suites != [] ==>
      && SuiteContained(hooks, m, suites[0])
      && SuitesContained(hooks, Initialized(hooks, m, TestCount(suites[0])), suites[1..])
  }

  // ----- Soundness over runs

  lemma EnterSound<S>(w: World<S>, inner: seq<Hook<S>>, depth: nat)
    requires Sound(w, depth)
    ensures Sound(Enter(w, inner, depth + 1), depth + 1)
  {
    hide Tracks, FirstSandbox;
    EnterBalanced(w, inner, depth + 1);
    OutsideInner(w.path, inner, w.chain.state);
  }

  lemma LeaveSound<S>(w: World<S>, outer: seq<Hook<S>>, inner: seq<Hook<S>>, depth: nat)
    requires Sound(w, depth + 1) && w.path == outer + inner
    requires forall i :: 0 <= i < |outer| ==> 0 < w.depths[i] <= depth
    ensures Sound(Leave(w, |outer|), depth)
  {
    hide Tracks, FirstSandbox;
    LeaveBalanced(w, outer, inner);
    OutsideInner(outer, inner, w.chain.state);
  }

  // ----- The two agree

  lemma UndoneIffContained<S(!new)>(w: World<S>, depth: nat, x: S, y: S)
    requires Sound(w, depth) && x != y
    ensures |w.stack| <= Count(w.path, |w.path|)
    ensures Undone(w, depth) <==> Contained(w.path, |w.stack|)
  {
    hide RunTest, Sound, Contained;
    SoundParts(w, depth);
    LeavesNoTraceIff(w, depth, x, y);
    if Undone(w, depth) && !Contained(w.path, |w.stack|) {
      ChangesStay(w, Reaching(x), depth);
      ChangesStay(w, Reaching(y), depth);
    }
  }

  lemma TestUndone<S(!new)>(w: World<S>, depth: nat, x: S, y: S)
    requires Sound(w, depth) && x != y
    ensures (FirstSandbox(w.path) < |w.path| ==> Undone(w, depth)) <==> TestContained(w.path, |w.stack|)
  {
    hide Sound, Undone, Contained;
    UndoneIffContained(w, depth, x, y);
  }

  lemma SoundBalanced<S>(w: World<S>, depth: nat)
    requires Sound(w, depth)
    ensures Balanced(w) && w.Shaped() && forall i :: 0 <= i < |w.depths| ==> 0 < w.depths[i] <= depth
  {
  }

  lemma {:induction false} TestsUndoneIff<S(!new)>(
    w: World<S>, tests: seq<S -> S>, depth: nat, x: S, y: S)
    requires Sound(w, depth) && x != y
    ensures Sound(RunTests(w, tests, depth), depth)
    ensures TestsUndone(w, tests, depth) <==> TestsContained(w.path, |w.stack|, |tests|)
    decreases |tests|
  {
    hide RunTest, Sound, Balanced, Undone, TestContained;
    SoundBalanced(w, depth);
    if tests != [] {
      TestUndone(w, depth, x, y);
      TestKeepsSound(w, tests[0], depth);
      RunTestBalanced(w, tests[0], depth);
      TestsUndoneIff(RunTest(w, tests[0], depth), tests[1..], depth, x, y);
    }
  }

  /** Over a suite: every sandboxed test is undone exactly when the tree says so. */
  lemma {:induction false} SuiteUndoneIff<S(!new)>(w: World<S>, s: Suite<S>, depth: nat, x: S, y: S)
    requires Sound(w, depth) && x != y
    ensures Sound(RunSuite(w, s, depth), depth)
    ensures SuiteUndone(w, s, depth) <==> SuiteContained(w.path, |w.stack|, s)
    decreases s, 1
  {
    hide Enter, Leave, RunTests, Sound, Balanced, TestsUndone, TestsContained;
    SoundBalanced(w, depth);
    EnterSound(w, s.hooks, depth);
    EnterShape(w, s.hooks, depth + 1);
    var entered := Enter(w, s.hooks, depth + 1);
    SoundBalanced(entered, depth + 1);
    TestsUndoneIff(entered, s.tests, depth + 1, x, y);
    RunTestsBalanced(entered, s.tests, depth + 1);
    var tested := RunTests(entered, s.tests, depth + 1);
    SuitesUndoneIff(tested, s.children, depth + 1, x, y);
    var nested := RunSuites(tested, s.children, depth + 1);
    assert forall i :: 0 <= i < |w.depths| ==> nested.depths[i] == nested.depths[..|w.depths|][i];
    LeaveSound(nested, w.path, s.hooks, depth);
  }

  lemma {:induction false} SuitesUndoneIff<S(!new)>(
    w: World<S>, suites: seq<Suite<S>>, depth: nat, x: S, y: S)
    requires Sound(w, depth) && x != y
    ensures Sound(RunSuites(w, suites, depth), depth)
    ensures SuitesUndone(w, suites, depth) <==> SuitesContained(w.path, |w.stack|, suites)
    decreases suites, 0
  {
    hide RunSuite, Sound, Balanced, SuiteUndone, SuiteContained;
    SoundBalanced(w, depth);
    if suites != [] {
      SuiteUndoneIff(w, suites[0], depth, x, y);
      StackDiscipline(w, suites[0], depth);
      SuitesUndoneIff(RunSuite(w, suites[0], depth), suites[1..], depth, x, y);
    }
  }

  /** Exactly when a run leaves no trace of any sandboxed test, over every forest, stale reverts or not: each such
      test runs with a sandbox before every cached hook of its path, or after the last one initialized. */
  lemma RunUndoneIffContained<S(!new)>(chain: Chain<S>, suites: seq<Suite<S>>, x: S, y: S)
    requires chain.Valid() && x != y
    ensures SuitesUndone(Fresh(chain), suites, 0) <==> SuitesContained([], 0, suites)
  {
    SuitesUndoneIff(Fresh(chain), suites, 0, x, y);
  }

  // ----- When the observer `restored` goes false

  /** A test that leaves the state its outermost sandbox hook found: it runs with no initialized cached hook inside a
      sandbox or with none outside, or it happens to end where that hook was. */
  ghost predicate Restores<S>(w: World<S>, test: S -> S)
    requires |w.stack| <= Count(w.path, |w.path|)
  {
    FirstSandbox(w.path) < |w.path| && Dirty(w) && 0 < Outside(w.path) ==> EndState(w, test) == SandboxFound(w)
  }

  ghost predicate TestsRestore<S>(w: World<S>, tests: seq<S -> S>, depth: nat)
    requires w.Shaped()
    decreases |tests|
  {
    tests != [] ==>
      && (|w.stack| <= Count(w.path, |w.path|) ==> Restores(w, tests[0]))
      && TestsRestore(RunTest(w, tests[0], depth), tests[1..], depth)
  }

  ghost predicate SuiteRestores<S>(w: World<S>, s: Suite<S>, depth: nat)
    requires w.Shaped()
    decreases s, 1
  {
    var entered := Enter(w, s.hooks, depth + 1);
    && TestsRestore(entered, s.tests, depth + 1)
    && SuitesRestore(RunTests(entered, s.tests, depth + 1), s.children, depth + 1)
  }

  ghost predicate SuitesRestore<S>(w: World<S>, suites: seq<Suite<S>>, depth: nat)
    requires w.Shaped()
    decreases suites, 0
  {
    suites != [] ==>
      SuiteRestores(w, suites[0], depth) && SuitesRestore(RunSuite(w, suites[0], depth), suites[1..], depth)
  }

  lemma TestRestoresIff<S>(w: World<S>, test: S -> S, depth: nat)
    requires Sound(w, depth)
    ensures |w.stack| <= Count(w.path, |w.path|)
    ensures RunTest(w, test, depth).restored <==> w.restored && Restores(w, test)
  {
    hide Sound, EndState, SandboxFound, Outside;
    SoundParts(w, depth);
    if FirstSandbox(w.path) < |w.path| {
      SandboxLeavesNoTrace(w, test, depth);
    }
  }

  lemma {:induction false} TestsRestoreIff<S>(w: World<S>, tests: seq<S -> S>, depth: nat)
    requires Sound(w, depth)
    ensures Sound(RunTests(w, tests, depth), depth)
    ensures RunTests(w, tests, depth).restored <==> w.restored && TestsRestore(w, tests, depth)
    decreases |tests|
  {
    hide RunTest, Sound, Balanced, Restores;
    SoundBalanced(w, depth);
    if tests != [] {
      TestRestoresIff(w, tests[0], depth);
      TestKeepsSound(w, tests[0], depth);
      TestsRestoreIff(RunTest(w, tests[0], depth), tests[1..], depth);
    }
  }

  lemma {:induction false} SuiteRestoresIff<S>(w: World<S>, s: Suite<S>, depth: nat)
    requires Sound(w, depth)
    ensures Sound(RunSuite(w, s, depth), depth)
    ensures RunSuite(w, s, depth).restored <==> w.restored && SuiteRestores(w, s, depth)
    decreases s, 1
  {
    hide Enter, Leave, RunTests, Sound, Balanced, TestsRestore;
    SoundBalanced(w, depth);
    EnterSound(w, s.hooks, depth);
    EnterShape(w, s.hooks, depth + 1);
    var entered := Enter(w, s.hooks, depth + 1);
    TestsRestoreIff(entered, s.tests, depth + 1);
    var tested := RunTests(entered, s.tests, depth + 1);
    SuitesRestoreIff(tested, s.children, depth + 1);
    var nested := RunSuites(tested, s.children, depth + 1);
    assert forall i :: 0 <= i < |w.depths| ==> nested.depths[i] == nested.depths[..|w.depths|][i];
    LeaveSound(nested, w.path, s.hooks, depth);
  }

  lemma {:induction false} SuitesRestoreIff<S>(w: World<S>, suites: seq<Suite<S>>, depth: nat)
    requires Sound(w, depth)
    ensures Sound(RunSuites(w, suites, depth), depth)
    ensures RunSuites(w, suites, depth).restored <==> w.restored && SuitesRestore(w, suites, depth)
    decreases suites, 0
  {
    hide RunSuite, Sound, Balanced, SuiteRestores;
    SoundBalanced(w, depth);
    if suites != [] {
      SuiteRestoresIff(w, suites[0], depth);
      SuitesRestoreIff(RunSuite(w, suites[0], depth), suites[1..], depth);
    }
  }

  /** Exactly when some sandboxed test of a run failed to leave what its outermost sandbox found. */
  lemma RunRestoresIff<S>(chain: Chain<S>, suites: seq<Suite<S>>)
    requires chain.Valid()
    ensures RunSuites(Fresh(chain), suites, 0).restored <==> SuitesRestore(Fresh(chain), suites, 0)
  {
    SuitesRestoreIff(Fresh(chain), suites, 0);
  }
}
