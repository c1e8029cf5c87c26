/** addSnapshotBeforeRestoreAfterEach: what a sandbox restores, and what it takes from a cached hook that
    runs inside it. */
module SandboxNesting {
  import opened Options
  import opened SnapshotChain
  import opened SuiteRuns
  import opened CacheProofs
  import opened CacheTheorems
  import opened TestPhases
  import opened InnerHooks
  import opened TestEnds

  // ----- What a test leaves behind

  lemma AgreeIsSound<S>(w: World<S>, n: Naive<S>, depth: nat)
    requires Agree(w, n, depth)
    ensures Sound(w, depth) && (Dirty(w) ==> TopConsumed(w))
  {
    hide Tracks, Values;
    var k := Min(|w.stack|, Outside(w.path));
    assert forall j :: 0 <= j < k ==> w.stack[..k][j] == w.stack[j];
  }

  /** The state that the outermost sandbox hook finds: the cached hooks before it that are initialized make it
      start anew. */
  ghost function SandboxFound<S>(w: World<S>): S
    requires |w.stack| <= Count(w.path, |w.path|)
  {
    var f, m := FirstSandbox(w.path), Min(|w.stack|, Outside(w.path));
    OutsideResume(w.path, m);
    ExecFrom(w.path, Base(w), Resume(w.path, m), f)
  }

  lemma OutermostFinds<S>(w: World<S>, depth: nat)
    requires Sound(w, depth) && (w.stack == [] || 0 < Outside(w.path))
    ensures |w.stack| <= Count(w.path, |w.path|)
    ensures BeforeEach(w, FirstSandbox(w.path)).chain.state == SandboxFound(w)
  {
    hide RunHook, Tracks, Resumed, Grown, Renewed, Base, Sound;
    SoundParts(w, depth);
    var f, m := FirstSandbox(w.path), |w.stack|;
    if m <= Outside(w.path) {
      OutsideResume(w.path, m);
      Resumes(w);
      ResumedBalanced(w, BeforeEach(w, Resume(w.path, m)));
      BeforeEachGrows(w, Resume(w.path, m), f);
      GrownShape(BeforeEach(w, Resume(w.path, m)), BeforeEach(w, f), Resume(w.path, m), f);
    } else {
      DirtyOutermostFinds(w);
    }
  }

  lemma DirtyOutermostFinds<S>(w: World<S>)
    requires Balanced(w) && w.chain.Valid() && Known(w.chain, w.stack)
    requires 0 < Outside(w.path) < |w.stack| <= Count(w.path, |w.path|)
    ensures BeforeEach(w, FirstSandbox(w.path)).chain.state == SandboxFound(w)
  {
    hide RunHook, Balanced, Renewed, BeforeEach, Recalled;
    var f := FirstSandbox(w.path);
    BeforeEachRewinds(w, f);
    OutsideResume(w.path, Outside(w.path));
    SameCached(w.path, LastCached(w.path, f), Resume(w.path, Outside(w.path)) - 1);
  }

  lemma SameCached<S>(path: seq<Hook<S>>, i: nat, k: nat)
    requires i < |path| && k < |path| && path[i].Cached? && path[k].Cached? && Count(path, i) == Count(path, k)
    ensures i == k
  {
    if i < k {
      CountMono(path, i, k);
    } else if k < i {
      CountMono(path, k, i);
    }
  }

  /** Exactly when a test leaves the chain in the state that the outermost sandbox hook found: always, unless an
      initialized cached hook runs inside a sandbox and another one outside all of them. Then the test ends where
      EndState says, which may or may not be that state. */
  lemma SandboxLeavesNoTrace<S>(w: World<S>, test: S -> S, depth: nat)
    requires Sound(w, depth) && FirstSandbox(w.path) < |w.path|
    ensures |w.stack| <= Count(w.path, |w.path|)
    ensures RunTest(w, test, depth).chain.state == BeforeEach(w, FirstSandbox(w.path)).chain.state <==>
            (Dirty(w) && 0 < Outside(w.path) ==> EndState(w, test) == SandboxFound(w))
  {
    hide RunTest, BeforeEach, Sound, EndState, SandboxFound, Outside;
    SoundParts(w, depth);
    if 0 < Outside(w.path) {
      TestEnd(w, test, depth);
      OutermostFinds(w, depth);
      if !Dirty(w) {
        CleanEnd(w, test);
      }
    } else {
      ShieldedEnd(w, test, depth);
      ShieldedFinds(w);
    }
  }

  lemma CleanEnd<S>(w: World<S>, test: S -> S)
    requires !Dirty(w) && FirstSandbox(w.path) < |w.path|
    ensures |w.stack| <= Count(w.path, |w.path|) && EndState(w, test) == SandboxFound(w)
  {
    OutsideResume(w.path, |w.stack|);
  }

  lemma ShieldedFinds<S>(w: World<S>)
    requires Balanced(w) && w.chain.Valid() && Outside(w.path) == 0
    ensures var f := FirstSandbox(w.path); BeforeEach(w, f).chain.state == Exec(w.path, w.chain.state, f)
  {
    BeforeFirstCached(w, FirstSandbox(w.path));
  }

  /** Sandboxed from the first hook on, a test leaves no trace at all. */
  lemma SandboxedTestIsInvisible<S>(w: World<S>, test: S -> S, depth: nat)
    requires Sound(w, depth) && w.path != [] && w.path[0].Sandbox?
    ensures RunTest(w, test, depth).chain.state == w.chain.state
  {
    assert FirstSandbox(w.path) == 0;
    ShieldedEnd(w, test, depth);
  }

  /** A test with an initialized cached hook inside a sandbox and another one outside: the first sandbox after the
      last initialized hook undoes it, back to what that sandbox found; without one its changes stay. */
  lemma DirtyTestEnd<S>(w: World<S>, n: Naive<S>, test: S -> S, depth: nat)
    requires Agree(w, n, depth) && Dirty(w) && 0 < Outside(w.path)
    ensures |w.stack| <= Count(w.path, |w.path|)
    ensures var s := Exec(w.path, w.chain.state, NthCached(w.path, 0, |w.path|));
            var l := NthCached(w.path, |w.stack| - 1, |w.path|);
            var g := SandboxFrom(w.path, l + 1);
            RunTest(w, test, depth).chain.state ==
            if g < |w.path| then ExecFrom(w.path, s, l + 1, g)
            else test(StaleStart(w.path, w.chain.state, |w.stack|))
  {
    hide RunTest, Agree, Sound, EndState;
    AgreeIsSound(w, n, depth);
    SoundParts(w, depth);
    TestEnd(w, test, depth);
    DirtyEndState(w, test);
  }

  lemma DirtyEndState<S>(w: World<S>, test: S -> S)
    requires TopConsumed(w) && |w.stack| <= Count(w.path, |w.path|)
    ensures var s := Exec(w.path, w.chain.state, NthCached(w.path, 0, |w.path|));
            var l := NthCached(w.path, |w.stack| - 1, |w.path|);
            var g := SandboxFrom(w.path, l + 1);
            EndState(w, test) ==
            if g < |w.path| then ExecFrom(w.path, s, l + 1, g)
            else test(StaleStart(w.path, w.chain.state, |w.stack|))
  {
  }

  /** Every sandbox before the last initialized hook has lost its snapshot before the test runs; with none after
      that hook the afterEach hooks do nothing at all. */
  lemma SandboxLeaks<S>(w: World<S>, test: S -> S, depth: nat)
    requires Sound(w, depth) && 0 < Outside(w.path)
    ensures |w.stack| <= Count(w.path, |w.path|)
    ensures var t, c := Tested(w, test), Resume(w.path, |w.stack|);
            && (forall k :: 0 <= k < c && w.path[k].Sandbox? ==> t.closures[k].snapshotId !in t.chain.snapshots)
            && (SandboxFrom(w.path, c) == |w.path| ==> RunTest(w, test, depth).chain == t.chain)
  {
    hide RunHook, Kept, Outside;
    SoundParts(w, depth);
    HooksFinish(w, depth);
    if SandboxFrom(w.path, Resume(w.path, |w.stack|)) == |w.path| {
      DeadAfterEach(Tested(w, test), depth);
    }
  }

  /** Exactly when a test on a simulated path starts where re-execution starts it: its path is clean, or the
      hooks that the stale revert skips make no difference. */
  lemma TestStartsRight<S>(w: World<S>, n: Naive<S>, test: S -> S, depth: nat)
    requires Agree(w, n, depth)
    ensures RunTest(w, test, depth).starts == NaiveTest(n, test).starts <==>
            (Dirty(w) ==>
               |w.stack| <= Count(w.path, |w.path|) &&
               StaleStart(w.path, n.state, |w.stack|) == Exec(w.path, Origin(n), |w.path|))
  {
    if Dirty(w) {
      AgreeIsSound(w, n, depth);
      DirtyTestStart(w, test, depth);
      var r, n' := RunTest(w, test, depth).starts, NaiveTest(n, test).starts;
      assert r[|n.starts|] == StaleStart(w.path, n.state, |w.stack|);
      assert n'[|n.starts|] == Exec(w.path, Origin(n), |w.path|);
    } else {
      TestAgrees(w, n, test, depth);
    }
  }

  // ----- Forests sandboxed from the first hook on

  /** Every path from the given hooks to a test begins with a sandbox. */
  ghost predicate SuiteSandboxed<S>(hooks: seq<Hook<S>>, s: Suite<S>)
    decreases s, 1
  {
    var inner := hooks + s.hooks;
    (s.tests != [] ==> inner != [] && inner[0].Sandbox?) && SuitesSandboxed(inner, s.children)
  }

  ghost predicate SuitesSandboxed<S>(hooks: seq<Hook<S>>, suites: seq<Suite<S>>)
    decreases suites, 0
  {
    suites != [] ==> SuiteSandboxed(hooks, suites[0]) && SuitesSandboxed(hooks, suites[1..])
  }

  /** Only consumed ids are left on the stack, and the chain and its snapshots are as they were. */
  ghost predicate Untouched<S>(w: World<S>, chain: Chain<S>, depth: nat) {
    && Balanced(w) && w.chain.Valid() && Consumed(w.chain, w.stack, 0)
    && w.chain.state == chain.state && w.chain.snapshots == chain.snapshots
    && forall i :: 0 <= i < |w.depths| ==> 0 < w.depths[i] <= depth
  }

  lemma {:induction false} SandboxedTestsLeaveNoTrace<S>(
    w: World<S>, chain: Chain<S>, tests: seq<S -> S>, depth: nat)
    requires Untouched(w, chain, depth) && (tests != [] ==> w.path != [] && w.path[0].Sandbox?)
    ensures Untouched(RunTests(w, tests, depth), chain, depth)
    decreases |tests|
  {
    hide RunTest, Tracks;
    if tests != [] {
      assert FirstSandbox(w.path) == 0;
      ShieldedTest(w, tests[0], depth);
      RunTestBalanced(w, tests[0], depth);
      SandboxedTestsLeaveNoTrace(RunTest(w, tests[0], depth), chain, tests[1..], depth);
    }
  }

  lemma UntouchedShape<S>(w: World<S>, chain: Chain<S>, depth: nat)
    requires Untouched(w, chain, depth)
    ensures w.Shaped() && forall i :: 0 <= i < |w.depths| ==> 0 < w.depths[i] <= depth
  {
  }

  lemma EnterUntouched<S>(w: World<S>, chain: Chain<S>, hooks: seq<Hook<S>>, depth: nat)
    requires Untouched(w, chain, depth)
    ensures var r := Enter(w, hooks, depth + 1);
            && Untouched(r, chain, depth + 1) && r.path == w.path + hooks
            && |w.depths| <= |r.depths| && r.depths[..|w.depths|] == w.depths
  {
    hide Tracks;
    EnterBalanced(w, hooks, depth + 1);
  }

  lemma LeaveUntouched<S>(
    w: World<S>, chain: Chain<S>, outer: seq<Hook<S>>, inner: seq<Hook<S>>, depths: seq<nat>, depth: nat)
    requires Untouched(w, chain, depth + 1) && w.path == outer + inner
    requires |depths| == |outer| && w.depths[..|outer|] == depths
    requires forall i :: 0 <= i < |depths| ==> 0 < depths[i] <= depth
    ensures Untouched(Leave(w, |outer|), chain, depth)
  {
    hide Tracks;
    LeaveBalanced(w, outer, inner);
  }

  lemma {:induction false} SandboxedSuiteLeavesNoTrace<S>(w: World<S>, chain: Chain<S>, s: Suite<S>, depth: nat)
    requires Untouched(w, chain, depth) && SuiteSandboxed(w.path, s)
    ensures Untouched(RunSuite(w, s, depth), chain, depth)
    decreases s, 1
  {
    hide Enter, Leave, Untouched;
    EnterUntouched(w, chain, s.hooks, depth);
    UntouchedShape(w, chain, depth);
    var entered := Enter(w, s.hooks, depth + 1);
    SandboxedTestsLeaveNoTrace(entered, chain, s.tests, depth + 1);
    var tested := RunTests(entered, s.tests, depth + 1);
    SandboxedSuitesLeaveNoTrace(tested, chain, s.children, depth + 1);
    LeaveUntouched(RunSuites(tested, s.children, depth + 1), chain, w.path, s.hooks, w.depths, depth);
  }

  lemma {:induction false} SandboxedSuitesLeaveNoTrace<S>(
    w: World<S>, chain: Chain<S>, suites: seq<Suite<S>>, depth: nat)
    requires Untouched(w, chain, depth) && SuitesSandboxed(w.path, suites)
    ensures Untouched(RunSuites(w, suites, depth), chain, depth)
    decreases suites, 0
  {
    hide Tracks, Enter, Leave;
    if suites != [] {
      SandboxedSuiteLeavesNoTrace(w, chain, suites[0], depth);
      SandboxedSuitesLeaveNoTrace(RunSuite(w, suites[0], depth), chain, suites[1..], depth);
    }
  }

  /** Over every forest whose paths all begin with a sandbox, whatever the hooks below it, the run leaves the
      chain state and the snapshots as it found them. */
  lemma SandboxedForestIsInvisible<S>(chain: Chain<S>, suites: seq<Suite<S>>)
    requires chain.Valid() && SuitesSandboxed([], suites)
    ensures var r := RunSuites(Fresh(chain), suites, 0);
            r.chain.state == chain.state && r.chain.snapshots == chain.snapshots
  {
    SandboxedSuitesLeaveNoTrace(Fresh(chain), chain, suites, 0);
  }

  // ----- A cached hook inside a sandbox

  /** cacheBeforeEach(a), addSnapshotBeforeRestoreAfterEach(), cacheBeforeEach(b), in one suite. */
  function Inside<S>(a: S -> S, b: S -> S): seq<Hook<S>> {
    [Cached(a), Sandbox, Cached(b)]
  }

  lemma ThreeHooks<S>(w: World<S>)
    requires w.Shaped() && |w.path| == 3
    ensures BeforeEach(w, 3) == RunHook(RunHook(RunHook(w, 0), 1), 2)
  {
    assert BeforeEach(w, 1) == RunHook(w, 0);
    assert BeforeEach(w, 2) == RunHook(RunHook(w, 0), 1);
  }

  lemma OneSandbox<S>(w: World<S>)
    requires w.Shaped() && |w.path| == 3 && w.depths == [1, 1, 1]
    requires !w.path[0].Sandbox? && w.path[1].Sandbox? && !w.path[2].Sandbox?
    ensures AfterEach(w, 1) == w.(chain := w.chain.Revert(w.closures[1].snapshotId))
  {
    assert AfterEachOf(w, 1, 1) == w;
    assert AfterEachOf(w, 1, 2) == w.(chain := w.chain.Revert(w.closures[1].snapshotId));
    assert AfterEachOf(w, 1, 3) == w.(chain := w.chain.Revert(w.closures[1].snapshotId));
    assert AfterEach(AfterEachOf(w, 1, 3), 0) == AfterEachOf(w, 1, 3);
  }

  lemma FoundAfterOne<S>(w: World<S>, a: S -> S, b: S -> S)
    requires w.Shaped() && w.path == Inside(a, b)
    ensures FirstSandbox(w.path) == 1 && BeforeEach(w, 1) == RunHook(w, 0)
  {
    assert BeforeEach(w, 0) == w && w.path[0].Cached? && w.path[1].Sandbox?;
  }

  /** The first test runs both initializers, but its afterEach kills the inner hook's snapshot. */
  lemma FirstTest<S>(w: World<S>, a: S -> S, b: S -> S, test: S -> S)
    requires w.Shaped() && w.path == Inside(a, b) && w.depths == [1, 1, 1]
    requires w.chain.Valid() && w.stack == []
    requires !w.closures[0].initialized && !w.closures[2].initialized
    ensures var r, s := RunTest(w, test, 1), w.chain.state;
            && r.starts == w.starts + [b(a(s))]
            && r.chain.Valid() && r.chain.state == a(s)
            && |r.stack| == 2 && r.stack[1] !in r.chain.snapshots
            && r.closures[0].initialized && r.closures[2].initialized && r.restored == w.restored
  {
    ThreeHooks(w);
    OneSandbox(Tested(w, test));
    FoundAfterOne(w, a, b);
  }

  /** The second test reverts to a consumed snapshot, which does nothing, so it starts without b; then the inner
      hook reverts past the sandbox, whose afterEach does nothing, so the test's changes stay. */
  lemma SecondTest<S>(w: World<S>, a: S -> S, b: S -> S, test: S -> S)
    requires w.Shaped() && w.path == Inside(a, b) && w.depths == [1, 1, 1]
    requires w.chain.Valid() && |w.stack| == 2 && w.stack[1] !in w.chain.snapshots
    requires w.closures[0].initialized && w.closures[2].initialized
    ensures var r := RunTest(w, test, 1);
            && r.starts == w.starts + [w.chain.state] && r.stale
            && r.chain.state == test(w.chain.state)
            && (r.restored <==> w.restored && test(w.chain.state) == w.chain.state)
  {
    ThreeHooks(w);
    OneSandbox(Tested(w, test));
    FoundAfterOne(w, a, b);
  }

  /** Whatever the initializers and tests do: with a cached hook inside a sandbox that serves two tests, the
      second one starts without the inner initializer, where re-execution runs it, and leaves its changes
      behind, where the sandbox should undo them. */
  lemma InnerInitializerIsLost<S>(chain: Chain<S>, a: S -> S, b: S -> S, first: S -> S, second: S -> S)
    requires chain.Valid()
    ensures var tests, s := [first, second], chain.state;
            var r := RunTests(Enter(Fresh(chain), Inside(a, b), 1), tests, 1);
            var n := NaiveTests(Naive(s, Inside(a, b), None, []), tests);
            && r.starts == [b(a(s)), a(s)] && r.chain.state == second(a(s))
            && (r.restored <==> second(a(s)) == a(s))
            && n.starts == [b(a(s)), b(a(s))] && n.state == a(s)
  {
    hide RunTest, NaiveTests;
    var w := Enter(Fresh(chain), Inside(a, b), 1);
    assert w.path == Inside(a, b) && w.depths == [1, 1, 1];
    FirstTest(w, a, b, first);
    SecondTest(RunTest(w, first, 1), a, b, second);
    TwoTests(w, first, second);
    NaiveInside(chain.state, a, b, first, second);
  }

  lemma TwoTests<S>(w: World<S>, first: S -> S, second: S -> S)
    requires w.Shaped()
    ensures RunTests(w, [first, second], 1) == RunTest(RunTest(w, first, 1), second, 1)
  {
    hide RunTest;
    var r := RunTest(w, first, 1);
    assert [first, second][1..] == [second];
    assert RunTests(r, [second], 1) == RunTests(RunTest(r, second, 1), [], 1);
  }

  lemma NaiveInside<S>(s: S, a: S -> S, b: S -> S, first: S -> S, second: S -> S)
    ensures var n := NaiveTests(Naive(s, Inside(a, b), None, []), [first, second]);
            n.starts == [b(a(s)), b(a(s))] && n.state == a(s)
  {
    var hooks := Inside(a, b);
    assert Exec(hooks, s, 1) == a(s);
    assert Exec(hooks, s, 2) == a(s);
    assert Exec(hooks, s, 3) == b(a(s));
    assert FirstSandbox(hooks) == 1;
    assert Count(hooks, 1) == 1 && HasCached(hooks) by { CountMono(hooks, 0, 3); }
    var n := Naive(s, hooks, None, []);
    var n1 := NaiveTest(n, first);
    assert n1.base == Some(s) && n1.starts == [b(a(s))];
    assert [first, second][1..] == [second];
    assert NaiveTests(NaiveTest(n1, second), []) == NaiveTest(n1, second);
  }
}
