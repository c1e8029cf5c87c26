/** The condition on cached hooks inside sandboxes cannot be weakened: a forest of the same shape whose
    cached hooks count tells every run that breaks it from re-execution. */
module CountingRuns {
  import opened Options
  import opened SnapshotChain
  import opened SuiteRuns
  import opened CacheProofs
  import opened TestPhases
  import opened InnerHooks
  import opened CacheTheorems

  // ----- The counting forest

  function CountingHook<S>(hook: Hook<S>): Hook<int> {
    match hook
    case Cached(_) => Cached((n: int) => n + 1)
    case Plain(_) => Plain((n: int) => n)
    case Sandbox => Sandbox
  }

  function CountingHooks<S>(hooks: seq<Hook<S>>): (r: seq<Hook<int>>)
    ensures |r| == |hooks| && forall i :: 0 <= i < |hooks| ==> r[i] == CountingHook(hooks[i])
  {
    seq(|hooks|, i requires 0 <= i < |hooks| => CountingHook(hooks[i]))
  }

  /** The suite with every cached initializer replaced by adding one, and everything else by doing nothing. */
  function Counting<S>(s: Suite<S>): Suite<int>
    decreases s, 1
  {
    Suite(CountingHooks(s.hooks), seq(|s.tests|, _ => (n: int) => n), CountingAll(s.children))
  }

  function CountingAll<S>(suites: seq<Suite<S>>): seq<Suite<int>>
    decreases suites, 0
  {
    if suites == [] then [] else [Counting(suites[0])] + CountingAll(suites[1..])
  }

  // ----- It has the same shape

  lemma {:induction false} SameTestCount<S>(s: Suite<S>)
    ensures TestCount(Counting(s)) == TestCount(s)
    decreases s, 1
  {
    SameTestsIn(s.children);
  }

  lemma {:induction false} SameTestsIn<S>(suites: seq<Suite<S>>)
    ensures TestsIn(CountingAll(suites)) == TestsIn(suites)
    decreases suites, 0
  {
    if suites != [] {
      SameTestCount(suites[0]);
      SameTestsIn(suites[1..]);
    }
  }

  lemma CountingPath<S>(outer: seq<Hook<S>>, inner: seq<Hook<S>>)
    ensures CountingHooks(outer + inner) == CountingHooks(outer) + CountingHooks(inner)
    ensures InnerOutside(CountingHooks(outer), CountingHooks(inner)) <==> InnerOutside(outer, inner)
  {
    var hooks, counting := outer + inner, CountingHooks(outer) + CountingHooks(inner);
    assert forall i :: 0 <= i < |hooks| ==> counting[i] == CountingHook(hooks[i]);
  }

  lemma {:induction false} SameServedOnce<S>(hooks: seq<Hook<S>>, s: Suite<S>)
    ensures ServedOnce(CountingHooks(hooks), Counting(s)) <==> ServedOnce(hooks, s)
    decreases s, 1
  {
    hide InnerOutside;
    SameTestCount(s);
    CountingPath(hooks, s.hooks);
    SameAllServedOnce(hooks + s.hooks, s.children);
  }

  lemma {:induction false} SameAllServedOnce<S>(hooks: seq<Hook<S>>, suites: seq<Suite<S>>)
    ensures AllServedOnce(CountingHooks(hooks), CountingAll(suites)) <==> AllServedOnce(hooks, suites)
    decreases suites, 0
  {
    hide ServedOnce;
    if suites != [] {
      SameServedOnce(hooks, suites[0]);
      SameAllServedOnce(hooks, suites[1..]);
    }
  }

  // ----- What its hooks compute

  ghost predicate Counts(hooks: seq<Hook<int>>) {
    forall i, s :: 0 <= i < |hooks| ==> Apply(hooks[i], s) == s + (if hooks[i].Cached? then 1 else 0)
  }

  lemma {:induction false} ExecCounts(hooks: seq<Hook<int>>, s: int, i: nat)
    requires Counts(hooks) && i <= |hooks|
    ensures Exec(hooks, s, i) == s + Count(hooks, i)
    decreases i
  {
    if i > 0 {
      ExecCounts(hooks, s, i - 1);
    }
  }

  lemma {:induction false} ExecFromCounts(hooks: seq<Hook<int>>, s: int, first: nat, i: nat)
    requires Counts(hooks) && first <= i <= |hooks|
    ensures ExecFrom(hooks, s, first, i) == s + Count(hooks, i) - Count(hooks, first)
    decreases i
  {
    if first < i {
      ExecFromCounts(hooks, s, first, i - 1);
    }
  }

  /** A stale test misses one count for every initialized hook. */
  lemma StaleStartCounts(path: seq<Hook<int>>, s: int, initialized: nat)
    requires Counts(path) && 0 < initialized <= Count(path, |path|)
    ensures StaleStart(path, s, initialized) == s + Count(path, |path|) - initialized
  {
    var p, l := NthCached(path, 0, |path|), NthCached(path, initialized - 1, |path|);
    ExecCounts(path, s, p);
    ExecFromCounts(path, Exec(path, s, p), l + 1, |path|);
  }

  // ----- The counting run against re-execution

  ghost predicate Differ(a: seq<int>, b: seq<int>) {
    exists k :: 0 <= k < |a| && k < |b| && a[k] != b[k]
  }

  lemma DifferGrows(a: seq<int>, b: seq<int>, a': seq<int>, b': seq<int>)
    requires Differ(a, b) && a <= a' && b <= b'
    ensures Differ(a', b')
  {
    var k :| 0 <= k < |a| && k < |b| && a[k] != b[k];
    assert a'[k] != b'[k];
  }

  /** While nothing was stale: once a hook inside a sandbox is initialized, the chain holds the state that the
      outermost sandbox restored. */
  ghost predicate Tally(w: World<int>, n: Naive<int>, depth: nat) {
    Agree(w, n, depth) && Counts(w.path) && (Dirty(w) ==> n.state == Origin(n) + Outside(w.path))
  }

  /** The simulation goes on, or the starts are told apart for good. */
  ghost predicate Told(w: World<int>, n: Naive<int>, depth: nat) {
    if w.stale then Differ(w.starts, n.starts) else Tally(w, n, depth)
  }

  /** The test that makes the stale revert starts one count short for every initialized hook inside a sandbox. */
  lemma StaleTestTold(w: World<int>, n: Naive<int>, test: int -> int, depth: nat)
    requires Tally(w, n, depth) && Dirty(w)
    ensures var r, n' := RunTest(w, test, depth).starts, NaiveTest(n, test).starts;
            var k := |n.starts|;
            && |r| == |n'| == k + 1 && n'[k] - r[k] == |w.stack| - Outside(w.path) > 0
            && Differ(r, n')
  {
    hide RunTest;
    assert TopConsumed(w) && |w.stack| <= Count(w.path, |w.path|);
    DirtyTestStart(w, test, depth);
    StaleStartCounts(w.path, w.chain.state, |w.stack|);
    ExecCounts(w.path, Origin(n), |w.path|);
    var k := |n.starts|;
    assert RunTest(w, test, depth).starts[k] != NaiveTest(n, test).starts[k];
  }

  lemma TestTold(w: World<int>, n: Naive<int>, test: int -> int, depth: nat)
    requires Tally(w, n, depth)
    ensures Told(RunTest(w, test, depth), NaiveTest(n, test), depth)
  {
    hide RunTest, Agree;
    TestAgrees(w, n, test, depth);
    AgreeBalanced(w, n, depth);
    if RunTest(w, test, depth).stale {
      StaleTestTold(w, n, test, depth);
    } else {
      CleanAfterTest(w, n, test, depth);
    }
  }

  lemma CleanAfterTest(w: World<int>, n: Naive<int>, test: int -> int, depth: nat)
    requires Tally(w, n, depth) && Agree(RunTest(w, test, depth), NaiveTest(n, test), depth)
    ensures Tally(RunTest(w, test, depth), NaiveTest(n, test), depth)
  {
    hide RunTest;
    var r, f := RunTest(w, test, depth), FirstSandbox(w.path);
    ExecCounts(w.path, Origin(n), f);
    OrderedByCount(w.path);
  }

  lemma {:induction false} TestsTold(w: World<int>, n: Naive<int>, tests: seq<int -> int>, depth: nat)
    requires Tally(w, n, depth)
    ensures Told(RunTests(w, tests, depth), NaiveTests(n, tests), depth)
    decreases |tests|
  {
    hide RunTest, NaiveTest, Agree, Tally, Differ;
    TallyShape(w, n, depth);
    if tests != [] {
      TestTold(w, n, tests[0], depth);
      var r, n' := RunTest(w, tests[0], depth), NaiveTest(n, tests[0]);
      if r.stale {
        DifferGrows(r.starts, n'.starts, RunTests(r, tests[1..], depth).starts, NaiveTests(n', tests[1..]).starts);
      } else {
        TestsTold(r, n', tests[1..], depth);
      }
    }
  }

  lemma TallyShape(w: World<int>, n: Naive<int>, depth: nat)
    requires Tally(w, n, depth)
    ensures w.Shaped() && w.path == n.hooks && !w.stale && Agree(w, n, depth)
    ensures forall i :: 0 <= i < |w.depths| ==> 0 < w.depths[i] <= depth
  {
  }

  lemma EnterTally(w: World<int>, n: Naive<int>, inner: seq<Hook<int>>, depth: nat)
    requires Tally(w, n, depth) && Counts(inner)
    ensures Tally(Enter(w, inner, depth + 1), n.(hooks := n.hooks + inner), depth + 1)
  {
    hide Agree;
    AgreeBalanced(w, n, depth);
    EnterAgrees(w, n, inner, depth);
    EnterDirty(w, inner, depth + 1);
    OutsideInner(w.path, inner, n.state);
  }

  lemma LeaveTally(w: World<int>, n: Naive<int>, outer: seq<Hook<int>>, inner: seq<Hook<int>>, depth: nat)
    requires Tally(w, n, depth + 1) && w.path == outer + inner
    requires forall i :: 0 <= i < |outer| ==> 0 < w.depths[i] <= depth
    ensures Tally(
              Leave(w, |outer|), n.(hooks := outer, base := if HasCached(outer) then n.base else None), depth)
  {
    hide Agree, Leave;
    AgreeBalanced(w, n, depth + 1);
    LeaveAgrees(w, n, outer, inner, depth);
    LeaveBalanced(w, outer, inner);
    OutsideInner(outer, inner, n.state);
    assert forall i :: 0 <= i < |outer| ==> w.path[i] == outer[i];
  }

  lemma {:induction false} SuiteTold<S>(w: World<int>, n: Naive<int>, s: Suite<S>, depth: nat)
    requires Tally(w, n, depth)
    ensures Told(RunSuite(w, Counting(s), depth), NaiveSuite(n, Counting(s)), depth)
    decreases s, 1
  {
    hide Enter, Leave, Tally, Differ, Agree;
    var c := Counting(s);
    TallyShape(w, n, depth);
    EnterTally(w, n, c.hooks, depth);
    EnterShape(w, c.hooks, depth + 1);
    var entered, inside := Enter(w, c.hooks, depth + 1), n.(hooks := n.hooks + c.hooks);
    TestsTold(entered, inside, c.tests, depth + 1);
    var tested, n' := RunTests(entered, c.tests, depth + 1), NaiveTests(inside, c.tests);
    var nested, n'' := RunSuites(tested, c.children, depth + 1), NaiveSuites(n', c.children);
    if tested.stale {
      DifferGrows(tested.starts, n'.starts, nested.starts, n''.starts);
    } else {
      SuitesTold(tested, n', s.children, depth + 1);
    }
    if !nested.stale {
      assert forall i :: 0 <= i < |w.depths| ==> nested.depths[i] == nested.depths[..|w.depths|][i];
      LeaveTally(nested, n'', w.path, c.hooks, depth);
    }
  }

  lemma {:induction false} SuitesTold<S>(w: World<int>, n: Naive<int>, suites: seq<Suite<S>>, depth: nat)
    requires Tally(w, n, depth)
    ensures Told(RunSuites(w, CountingAll(suites), depth), NaiveSuites(n, CountingAll(suites)), depth)
    decreases suites, 0
  {
    hide Tally, Differ, Agree;
    TallyShape(w, n, depth);
    if suites != [] {
      SuiteTold(w, n, suites[0], depth);
      var r, n' := RunSuite(w, Counting(suites[0]), depth), NaiveSuite(n, Counting(suites[0]));
      var rest := CountingAll(suites[1..]);
      if r.stale {
        DifferGrows(r.starts, n'.starts, RunSuites(r, rest, depth).starts, NaiveSuites(n', rest).starts);
      } else {
        SuitesTold(r, n', suites[1..], depth);
      }
    }
  }

  // ----- The main result

  /** The cache starts every test as re-execution does and leaves the same state. */
  ghost predicate Refines<S>(chain: Chain<S>, suites: seq<Suite<S>>) {
    var r, n := RunSuites(Fresh(chain), suites, 0), NaiveSuites(Naive(chain.state, [], None, []), suites);
    r.starts == n.starts && r.chain.state == n.state
  }

  /** Exactly when a shape of forest is safe, whatever its hooks and tests do: its counting version refines
      re-execution iff no cached hook inside a sandbox serves more than one test, and then, by
      CacheRefinesReExecution, so does the forest itself. */
  lemma ServedOnceIsExact<S>(chain: Chain<S>, start: Chain<int>, suites: seq<Suite<S>>)
    requires chain.Valid() && start.Valid()
    ensures Refines(start, CountingAll(suites)) <==> AllServedOnce([], suites)
    ensures Refines(start, CountingAll(suites)) ==> Refines(chain, suites)
  {
    hide AllServedOnce, Agree;
    var n := Naive(start.state, [], None, []);
    SameAllServedOnce([], suites);
    assert CountingHooks<S>([]) == [];
    StaleIffServedTwice(start, CountingAll(suites));
    FreshAgrees(start);
    SuitesTold(Fresh(start), n, suites, 0);
    if AllServedOnce([], suites) {
      CacheRefinesReExecution(chain, suites);
      CacheRefinesReExecution(start, CountingAll(suites));
    }
  }
}
