/** The snapshot cache against re-execution: tests, suites and whole trees of suites. */
module CacheTheorems {
  import opened Options
  import opened SnapshotChain
  import opened SuiteRuns
  import opened CacheProofs
  import opened TestPhases
  import opened InnerHooks

  // ----- The stack over whole runs, whatever the order of the hooks

  lemma RunTestBalanced<S>(w: World<S>, test: S -> S, depth: nat)
    requires Balanced(w)
    ensures var r := RunTest(w, test, depth);
            Balanced(r) && |r.stack| == Count(w.path, |w.path|)
  {
    BeforeEachBalanced(w, |w.path|);
  }

  lemma {:induction false} RunTestsBalanced<S>(w: World<S>, tests: seq<S -> S>, depth: nat)
    requires Balanced(w)
    ensures var r := RunTests(w, tests, depth);
            && Balanced(r)
            && |r.stack| == if tests == [] then |w.stack| else Count(w.path, |w.path|)
    decreases |tests|
  {
    hide RunTest;
    if tests != [] {
      RunTestBalanced(w, tests[0], depth);
      RunTestsBalanced(RunTest(w, tests[0], depth), tests[1..], depth);
    }
  }

  lemma EnterBalanced<S>(w: World<S>, inner: seq<Hook<S>>, depth: nat)
    requires Balanced(w)
    ensures Balanced(Enter(w, inner, depth))
  {
    var outer, r := w.path, Enter(w, inner, depth);
    OuterPart(outer, inner, w.chain.state, |outer|);
    CountMono(r.path, |outer|, |r.path|);
    forall i | 0 <= i < |r.path| && r.path[i].Cached?
      ensures r.closures[i].initialized <==> Count(r.path, i) < |r.stack|
    {
      if i < |outer| {
        OuterPart(outer, inner, w.chain.state, i);
      } else {
        CountMono(r.path, |outer|, i);
      }
    }
  }

  /** The after hooks of the positions from first up to i pop their own entries. */
  lemma {:induction false} AftersPop<S>(w: World<S>, first: nat, i: nat)
    requires Balanced(w) && first <= i <= |w.path|
    ensures Min(|w.stack|, Count(w.path, first)) <= Min(|w.stack|, Count(w.path, i))
    ensures Afters(w, first, i).stack ==
            w.stack[..|w.stack| - (Min(|w.stack|, Count(w.path, i)) - Min(|w.stack|, Count(w.path, first)))]
    decreases i
  {
    CountMono(w.path, first, i);
    if first < i {
      CountMono(w.path, first, i - 1);
      AftersPop(w, first, i - 1);
    }
  }

  lemma LeaveBalanced<S>(w: World<S>, outer: seq<Hook<S>>, inner: seq<Hook<S>>)
    requires Balanced(w) && w.path == outer + inner
    ensures var r := Leave(w, |outer|);
            && r.path == outer && Balanced(r)
            && r.stack == w.stack[..Min(|w.stack|, Count(outer, |outer|))]
  {
    OuterPart(outer, inner, w.chain.state, |outer|);
    AftersPop(w, |outer|, |w.path|);
    var r := Leave(w, |outer|);
    assert r.path == outer;
    forall i | 0 <= i < |outer| && outer[i].Cached?
      ensures r.closures[i].initialized <==> Count(outer, i) < |r.stack|
    {
      OuterPart(outer, inner, w.chain.state, i);
      CountMono(outer, i, |outer|);
    }
  }

  /** However suites and hooks are nested, SNAPSHOTS holds one id for each initialized cached hook of the
      path and is never popped empty. Leaving a suite that ran a test leaves exactly one id for each cached
      hook still on the path; a suite without tests leaves as many as it found. */
  lemma {:induction false} StackDiscipline<S>(w: World<S>, s: Suite<S>, depth: nat)
    requires Balanced(w)
    ensures var r := RunSuite(w, s, depth);
            && Balanced(r)
            && |r.stack| == if TestCount(s) > 0 then Count(w.path, |w.path|) else |w.stack|
    decreases s, 1
  {
    hide Enter, Leave;
    var inner, entered := w.path + s.hooks, Enter(w, s.hooks, depth + 1);
    EnterBalanced(w, s.hooks, depth + 1);
    EnterShape(w, s.hooks, depth + 1);
    RunTestsBalanced(entered, s.tests, depth + 1);
    var tested := RunTests(entered, s.tests, depth + 1);
    SuitesStackDiscipline(tested, s.children, depth + 1);
    LeaveBalanced(RunSuites(tested, s.children, depth + 1), w.path, s.hooks);
    OuterPart(w.path, s.hooks, w.chain.state, |w.path|);
    CountMono(inner, |w.path|, |inner|);
  }

  lemma EnterShape<S>(w: World<S>, hooks: seq<Hook<S>>, depth: nat)
    requires w.Shaped()
    ensures var r := Enter(w, hooks, depth);
            && r.path == w.path + hooks && r.stack == w.stack
            && r.intact == w.intact && r.restored == w.restored
            && |w.depths| <= |r.depths| && r.depths[..|w.depths|] == w.depths
  {
  }

  lemma {:induction false} SuitesStackDiscipline<S>(w: World<S>, suites: seq<Suite<S>>, depth: nat)
    requires Balanced(w)
    ensures var r := RunSuites(w, suites, depth);
            && Balanced(r)
            && |r.stack| == if TestsIn(suites) > 0 then Count(w.path, |w.path|) else |w.stack|
    decreases suites, 0
  {
    hide Enter, Leave;
    if suites != [] {
      StackDiscipline(w, suites[0], depth);
      SuitesStackDiscipline(RunSuite(w, suites[0], depth), suites[1..], depth);
    }
  }

  // ----- One test

  /** The simulation between the cached run and re-execution, at a test boundary. */
  ghost predicate Agree<S>(w: World<S>, n: Naive<S>, depth: nat) {
    && Balanced(w) && w.path == n.hooks
    && (forall i :: 0 <= i < |w.depths| ==> 0 < w.depths[i] <= depth)
    && w.chain.Valid() && !w.stale
    && w.chain.state == n.state && w.starts == n.starts
    && (w.stack != [] <==> n.base.Some?)
    && Survives(w.chain, w.stack, Values(w.path, Origin(n), |w.path|), Outside(w.path))
    && (Dirty(w) ==> !w.intact) && w.restored
  }

  lemma {:induction false} NoCachedFrom<S>(hooks: seq<Hook<S>>, f: nat, k: nat)
    requires f <= k <= |hooks| && forall j :: f <= j < k ==> !hooks[j].Cached?
    ensures Count(hooks, f) == Count(hooks, k)
    decreases k
  {
    if f < k {
      NoCachedFrom(hooks, f, k - 1);
    }
  }

  lemma OrderedByCount<S>(hooks: seq<Hook<S>>)
    ensures Outside(hooks) <= Count(hooks, |hooks|)
    ensures Ordered(hooks) <==> Outside(hooks) == Count(hooks, |hooks|)
  {
    var f := FirstSandbox(hooks);
    CountMono(hooks, f, |hooks|);
    if f < |hooks| {
      if Ordered(hooks) {
        NoCachedFrom(hooks, f, |hooks|);
      } else {
        var i, j :| 0 <= i < j < |hooks| && hooks[i].Sandbox? && hooks[j].Cached?;
        CountMono(hooks, f, j);
        CountMono(hooks, j, |hooks|);
      }
    }
  }

  /** With every initialized hook outside the sandboxes all ids are alive. */
  lemma CleanHolds<S>(c: Chain<S>, stack: seq<nat>, values: seq<S>, outside: nat)
    requires |stack| <= outside
    ensures Survives(c, stack, values, outside) <==> Holds(c, stack, values)
  {
    assert stack[..|stack|] == stack;
  }

  lemma CleanReady<S>(w: World<S>, n: Naive<S>, depth: nat)
    requires Agree(w, n, depth) && !Dirty(w)
    ensures Ready(w, Origin(n), |w.stack|, 0) && Known(w.chain, w.stack)
  {
    CleanHolds(w.chain, w.stack, Values(w.path, Origin(n), |w.path|), Outside(w.path));
  }

  /** When the hooks have run, the first sandbox holds the state re-execution reaches there, ids pushed before it
      are smaller, and ids pushed after it and ids of later sandboxes are larger. */
  ghost predicate Fenced<S>(r: World<S>, base: S) {
    var f := FirstSandbox(r.path);
    r.Shaped() && (f < |r.path| ==>
      var id := r.closures[f].snapshotId;
      && id in r.chain.snapshots && r.chain.snapshots[id] == Exec(r.path, base, f)
      && (forall j :: 0 <= j < |r.stack| ==> if j < Outside(r.path) then r.stack[j] < id else id < r.stack[j])
      && (forall k :: f < k < |r.path| && r.path[k].Sandbox? ==> id < r.closures[k].snapshotId))
  }

  lemma GuardsFence<S>(v: World<S>, r: World<S>, base: S, c: nat)
    requires v.Shaped() && c <= |v.path| && Grown(v, r, c, |v.path|) && Guards(v, r, c, |v.path|)
    requires Known(v.chain, v.stack) && |v.stack| <= Outside(v.path) && v.chain.state == Exec(v.path, base, c)
    requires SandboxFrom(v.path, c) == FirstSandbox(v.path)
    ensures Fenced(r, base)
  {
    hide Tracks, Count;
    ExecSplits(v.path, base, c, FirstSandbox(v.path));
    assert forall j :: 0 <= j < |v.stack| ==> r.stack[j] == v.stack[j];
  }

  lemma TestedFenced<S>(w: World<S>, n: Naive<S>, depth: nat)
    requires Agree(w, n, depth) && !Dirty(w)
    ensures Fenced(BeforeEach(w, |w.path|), Origin(n))
  {
    hide RunHook, Tracks, Holds, Renewed, Agree;
    AgreeBalanced(w, n, depth);
    CleanReady(w, n, depth);
    OutsideResume(w.path, |w.stack|);
    var c := Resume(w.path, |w.stack|);
    BeforeEachReady(w, Origin(n), c);
    var v := BeforeEach(w, c);
    HoldsKnown(v.chain, v.stack, Values(w.path, Origin(n), |w.path|));
    BeforeEachGrows(w, c, |w.path|);
    GuardsFence(v, BeforeEach(w, |w.path|), Origin(n), c);
  }

  lemma HoldsKnown<S>(c: Chain<S>, stack: seq<nat>, values: seq<S>)
    requires c.Valid() && Holds(c, stack, values)
    ensures Known(c, stack)
  {
  }

  /** When the test itself has run, the observed start is the re-executed one. */
  lemma TestedAgrees<S>(w: World<S>, n: Naive<S>, test: S -> S, depth: nat)
    requires Agree(w, n, depth) && !Dirty(w)
    ensures var r := Tested(w, test);
            && Balanced(r) && |r.stack| == Count(r.path, |r.path|)
            && r.chain.Valid() && !r.stale
            && Holds(r.chain, r.stack, Values(r.path, Origin(n), |r.path|))
            && Fenced(r, Origin(n))
            && r.starts == NaiveTest(n, test).starts
            && r.chain.state == test(Exec(n.hooks, Origin(n), |n.hooks|))
  {
    CleanReady(w, n, depth);
    BeforeEachReady(w, Origin(n), |w.path|);
    TestedFenced(w, n, depth);
  }

  /** Without a sandbox every id stays alive. */
  lemma OpenTestAgrees<S>(w: World<S>, n: Naive<S>, test: S -> S, depth: nat)
    requires Agree(w, n, depth) && !Dirty(w) && FirstSandbox(w.path) == |w.path|
    ensures var r := RunTest(w, test, depth);
            r.intact == w.intact && Agree(r, NaiveTest(n, test), depth)
  {
    TestedAgrees(w, n, test, depth);
    var t := Tested(w, test);
    DeadAfterEach(t, depth);
    CleanHolds(t.chain, t.stack, Values(w.path, Origin(n), |w.path|), Outside(w.path));
  }

  /** What a reverted sandbox leaves of the stack: the ids pushed before it. */
  lemma RestoredStack<S>(start: Chain<S>, c: Chain<S>, id: nat, stack: seq<nat>, values: seq<S>, outside: nat)
    requires start.Valid() && Restored(start, c, id) && Holds(start, stack, values)
    requires forall j :: 0 <= j < |stack| ==> if j < outside then stack[j] < id else id < stack[j]
    ensures c.Valid() && Survives(c, stack, values, outside)
    ensures (forall j :: 0 <= j < |stack| ==> stack[j] in c.snapshots) <==> |stack| <= outside
  {
    if outside < |stack| {
      assert stack[outside] !in c.snapshots;
    }
  }

  lemma SandboxedTestRestores<S>(w: World<S>, n: Naive<S>, test: S -> S, depth: nat)
    requires Agree(w, n, depth) && !Dirty(w) && FirstSandbox(w.path) < |w.path|
    ensures var t, f := Tested(w, test), FirstSandbox(w.path);
            Restored(t.chain, AfterEach(t, depth).chain, t.closures[f].snapshotId)
  {
    hide Holds, Tracks, Tested, FirstSandbox;
    TestedAgrees(w, n, test, depth);
    AfterEachRestores(Tested(w, test), Tested(w, test).chain, FirstSandbox(w.path), depth);
  }

  lemma CleanTrace<S>(w: World<S>, n: Naive<S>, depth: nat)
    requires Agree(w, n, depth) && !Dirty(w)
    ensures var f := FirstSandbox(w.path);
            BeforeEach(w, f).chain.state == Exec(w.path, Origin(n), f)
  {
    CleanReady(w, n, depth);
    BeforeEachReady(w, Origin(n), FirstSandbox(w.path));
  }

  /** With a sandbox the ids pushed inside it die with it. */
  lemma SandboxedTestAgrees<S>(w: World<S>, n: Naive<S>, test: S -> S, depth: nat)
    requires Agree(w, n, depth) && !Dirty(w) && FirstSandbox(w.path) < |w.path|
    ensures var r := RunTest(w, test, depth);
            && (r.intact <==> w.intact && Count(w.path, |w.path|) <= Outside(w.path))
            && Agree(r, NaiveTest(n, test), depth)
  {
    TestedAgrees(w, n, test, depth);
    SandboxedTestRestores(w, n, test, depth);
    CleanTrace(w, n, depth);
    var t, f := Tested(w, test), FirstSandbox(w.path);
    RestoredStack(
      t.chain, AfterEach(t, depth).chain, t.closures[f].snapshotId, t.stack,
      Values(w.path, Origin(n), |w.path|), Outside(w.path));
  }

  /** One test: it reverts to a consumed id exactly when some initialized cached hook runs inside a sandbox,
      and keeps the simulation otherwise. It leaves every id alive exactly when its path is ordered. */
  lemma TestAgrees<S>(w: World<S>, n: Naive<S>, test: S -> S, depth: nat)
    requires Agree(w, n, depth)
    ensures var r := RunTest(w, test, depth);
            && (r.stale <==> Dirty(w))
            && (!r.stale ==> Agree(r, NaiveTest(n, test), depth))
            && (r.intact <==> w.intact && Ordered(w.path)) && (r.stale ==> !r.intact)
  {
    OrderedByCount(w.path);
    if Dirty(w) {
      DirtyTestIsStale(w, test, depth);
    } else if FirstSandbox(w.path) == |w.path| {
      OpenTestAgrees(w, n, test, depth);
    } else {
      SandboxedTestAgrees(w, n, test, depth);
    }
  }

  // ----- All tests of a suite

  /** Whether the path can run k more tests without a stale revert: always when it is ordered; otherwise one
      test in all, and none once an inner hook is initialized. */
  ghost predicate Room<S>(w: World<S>, k: nat) {
    Ordered(w.path) || (if Dirty(w) then 1 else 0) + k <= 1
  }

  /** The room that k tests on a path leave for further ones. */
  lemma RoomAfter<S>(w: World<S>, r: World<S>, k: nat, more: nat)
    requires Balanced(w) && Balanced(r) && r.path == w.path
    requires |r.stack| == if k > 0 then Count(w.path, |w.path|) else |w.stack|
    ensures Room(w, k + more) <==> Room(w, k) && Room(r, more)
  {
    OrderedByCount(w.path);
  }

  lemma RoomForOne<S>(w: World<S>)
    requires Balanced(w)
    ensures Room(w, 0) && (Room(w, 1) <==> !Dirty(w))
  {
    OrderedByCount(w.path);
  }

  lemma OrderedIsClean<S>(w: World<S>)
    requires Balanced(w) && Ordered(w.path)
    ensures !Dirty(w)
  {
    OrderedByCount(w.path);
  }

  lemma AgreeBalanced<S>(w: World<S>, n: Naive<S>, depth: nat)
    requires Agree(w, n, depth)
    ensures Balanced(w) && w.Shaped() && w.path == n.hooks && !w.stale
    ensures forall i :: 0 <= i < |w.depths| ==> 0 < w.depths[i] <= depth
    ensures Dirty(w) ==> !w.intact && !Ordered(w.path)
  {
    if Ordered(w.path) {
      OrderedIsClean(w);
    }
  }

  lemma {:induction false} TestsAgree<S>(w: World<S>, n: Naive<S>, tests: seq<S -> S>, depth: nat)
    requires Agree(w, n, depth)
    ensures var r := RunTests(w, tests, depth);
            && (!r.stale <==> Room(w, |tests|))
            && (!r.stale ==> Agree(r, NaiveTests(n, tests), depth))
            && (r.intact <==> w.intact && (tests == [] || Ordered(w.path))) && (r.stale ==> !r.intact)
    decreases |tests|
  {
    hide RunTest, NaiveTest, Agree, Balanced, Ordered, Dirty, Room;
    AgreeBalanced(w, n, depth);
    RoomForOne(w);
    if tests != [] {
      TestAgrees(w, n, tests[0], depth);
      var r := RunTest(w, tests[0], depth);
      RunTestBalanced(w, tests[0], depth);
      RoomAfter(w, r, 1, |tests| - 1);
      if !r.stale {
        TestsAgree(r, NaiveTest(n, tests[0]), tests[1..], depth);
      }
    }
  }

  // ----- Entering and leaving suites

  lemma FirstSandboxInner<S>(outer: seq<Hook<S>>, inner: seq<Hook<S>>)
    ensures var f, g := FirstSandbox(outer), FirstSandbox(outer + inner);
            if f < |outer| then g == f else g >= |outer|
  {
    hide FirstSandbox;
    assert forall k :: 0 <= k < |outer| ==> (outer + inner)[k] == outer[k];
  }

  /** Inner hooks leave the sandboxes of the outer ones where they are. */
  lemma OutsideInner<S>(outer: seq<Hook<S>>, inner: seq<Hook<S>>, s: S)
    ensures if FirstSandbox(outer) < |outer| then Outside(outer + inner) == Outside(outer)
            else Outside(outer) == Count(outer, |outer|) <= Outside(outer + inner)
  {
    hide FirstSandbox;
    FirstSandboxInner(outer, inner);
    OuterPart(outer, inner, s, FirstSandbox(outer));
    if FirstSandbox(outer) == |outer| {
      CountMono(outer + inner, |outer|, FirstSandbox(outer + inner));
    }
  }

  /** A path is ordered when its outer part is and no inner cached hook runs inside a sandbox. */
  lemma OrderedInner<S>(outer: seq<Hook<S>>, inner: seq<Hook<S>>)
    ensures Ordered(outer + inner) <==> Ordered(outer) && InnerOutside(outer, inner)
  {
    var hooks := outer + inner;
    assert forall i :: 0 <= i < |outer| ==> hooks[i] == outer[i];
  }

  /** The recorded states of the outer hooks are a prefix of those of the whole path. */
  lemma OuterValues<S>(outer: seq<Hook<S>>, inner: seq<Hook<S>>, s: S)
    ensures Values(outer, s, |outer|) <= Values(outer + inner, s, |outer + inner|)
  {
    OuterPart(outer, inner, s, |outer|);
    ValuesPrefix(outer + inner, s, |outer|, |outer + inner|);
  }

  lemma EnterDirty<S>(w: World<S>, inner: seq<Hook<S>>, depth: nat)
    requires Balanced(w)
    ensures Dirty(Enter(w, inner, depth)) <==> Dirty(w)
  {
    OutsideInner(w.path, inner, w.chain.state);
  }

  /** Inside a suite there is room for its k tests exactly when there is room outside, and either at most one
      test or no inner cached hook inside a sandbox. */
  lemma EnterRoom<S>(w: World<S>, inner: seq<Hook<S>>, depth: nat, k: nat)
    requires Balanced(w)
    ensures Room(Enter(w, inner, depth), k) <==> Room(w, k) && (k <= 1 || InnerOutside(w.path, inner))
  {
    hide Ordered, InnerOutside, Dirty;
    EnterDirty(w, inner, depth);
    OrderedInner(w.path, inner);
    if Dirty(w) {
      DirtyNotOrdered(w);
    }
  }

  lemma DirtyNotOrdered<S>(w: World<S>)
    requires Balanced(w) && Dirty(w)
    ensures !Ordered(w.path)
  {
    OrderedByCount(w.path);
  }

  lemma SurvivesInner<S>(
    c: Chain<S>, stack: seq<nat>, values: seq<S>, values': seq<S>, outside: nat, outside': nat)
    requires Survives(c, stack, values, outside) && values <= values'
    requires outside' == outside || (|stack| <= outside <= outside')
    ensures Survives(c, stack, values', outside')
  {
  }

  lemma EnterAgrees<S>(w: World<S>, n: Naive<S>, inner: seq<Hook<S>>, depth: nat)
    requires Agree(w, n, depth)
    ensures Agree(Enter(w, inner, depth + 1), n.(hooks := n.hooks + inner), depth + 1)
  {
    hide Tracks, Survives, Dirty, Outside;
    EnterBalanced(w, inner, depth + 1);
    EnterDirty(w, inner, depth + 1);
    OuterValues(w.path, inner, Origin(n));
    OutsideInner(w.path, inner, Origin(n));
    SurvivesInner(
      w.chain, w.stack, Values(w.path, Origin(n), |w.path|),
      Values(w.path + inner, Origin(n), |w.path + inner|), Outside(w.path), Outside(w.path + inner));
  }

  /** A shorter stack, against the records of the outer hooks only. */
  lemma SurvivesOuter<S>(
    c: Chain<S>, stack: seq<nat>, stack': seq<nat>, values: seq<S>, values': seq<S>, outside: nat, outside': nat)
    requires Survives(c, stack, values, outside) && stack' <= stack && values' <= values && |stack'| <= |values'|
    requires outside' == outside || (|stack'| <= outside' <= outside)
    ensures Survives(c, stack', values', outside')
  {
  }

  lemma LeaveAgrees<S>(w: World<S>, n: Naive<S>, outer: seq<Hook<S>>, inner: seq<Hook<S>>, depth: nat)
    requires Agree(w, n, depth + 1) && w.path == outer + inner
    requires forall i :: 0 <= i < |outer| ==> 0 < w.depths[i] <= depth
    ensures Agree(
              Leave(w, |outer|), n.(hooks := outer, base := if HasCached(outer) then n.base else None), depth)
  {
    hide Tracks, Survives, Outside;
    var r := Leave(w, |outer|);
    LeaveBalanced(w, outer, inner);
    OuterValues(outer, inner, Origin(n));
    OutsideInner(outer, inner, Origin(n));
    if r.stack == [] {
      SurvivesEmpty(r.chain, Values(outer, n.state, |outer|), Outside(outer));
    } else {
      SurvivesOuter(
        w.chain, w.stack, r.stack, Values(w.path, Origin(n), |w.path|), Values(outer, Origin(n), |outer|),
        Outside(w.path), Outside(outer));
    }
  }

  lemma SurvivesEmpty<S>(c: Chain<S>, values: seq<S>, outside: nat)
    ensures Survives(c, [], values, outside)
  {
  }

  // ----- Trees

  /** The simulation over a suite's tests and child suites, once its hooks are on the path. */
  lemma {:induction false} InsideAgrees<S>(w: World<S>, n: Naive<S>, s: Suite<S>, depth: nat)
    requires Agree(w, n, depth)
    ensures var r := RunSuites(RunTests(w, s.tests, depth), s.children, depth);
            && (!r.stale <==> AllServedOnce(w.path, s.children) && Room(w, TestCount(s)))
            && (!r.stale ==> Agree(r, NaiveSuites(NaiveTests(n, s.tests), s.children), depth))
            && (r.intact <==> w.intact && (s.tests == [] || Ordered(w.path)) && SuitesOrdered(w.path, s.children))
            && (r.stale ==> !r.intact)
    decreases s, 0
  {
    hide Agree, Balanced, Ordered, Dirty, Room, AllServedOnce, SuitesOrdered;
    hide RunTests, RunSuites, NaiveTests, NaiveSuites;
    AgreeBalanced(w, n, depth);
    TestsAgree(w, n, s.tests, depth);
    RunTestsBalanced(w, s.tests, depth);
    var tested := RunTests(w, s.tests, depth);
    RoomAfter(w, tested, |s.tests|, TestsIn(s.children));
    if !tested.stale {
      SuitesAgree(tested, NaiveTests(n, s.tests), s.children, depth);
    }
  }

  /** The simulation over a suite. Below a clean path it is kept exactly when every cached hook inside a
      sandbox serves at most one test; the tests of a path that already has such a hook share that one. */
  lemma {:induction false} SuiteAgrees<S>(w: World<S>, n: Naive<S>, s: Suite<S>, depth: nat)
    requires Agree(w, n, depth)
    ensures var r := RunSuite(w, s, depth);
            && (!r.stale <==> ServedOnce(w.path, s) && Room(w, TestCount(s)))
            && (!r.stale ==> Agree(r, NaiveSuite(n, s), depth))
            && (r.intact <==> w.intact && SuiteOrdered(w.path, s)) && (r.stale ==> !r.intact)
    decreases s, 1
  {
    hide Enter, Leave, Agree, Balanced, Ordered, Dirty, InnerOutside, Room, AllServedOnce, SuitesOrdered;
    hide RunTests, RunSuites, NaiveTests, NaiveSuites;
    AgreeBalanced(w, n, depth);
    EnterShape(w, s.hooks, depth + 1);
    EnterAgrees(w, n, s.hooks, depth);
    EnterRoom(w, s.hooks, depth + 1, TestCount(s));
    var entered, inside := Enter(w, s.hooks, depth + 1), n.(hooks := n.hooks + s.hooks);
    InsideAgrees(entered, inside, s, depth + 1);
    var nested := RunSuites(RunTests(entered, s.tests, depth + 1), s.children, depth + 1);
    if !nested.stale {
      assert forall i :: 0 <= i < |w.depths| ==> nested.depths[i] == nested.depths[..|w.depths|][i];
      LeaveAgrees(nested, NaiveSuites(NaiveTests(inside, s.tests), s.children), w.path, s.hooks, depth);
    }
  }

  lemma {:induction false} SuitesAgree<S>(w: World<S>, n: Naive<S>, suites: seq<Suite<S>>, depth: nat)
    requires Agree(w, n, depth)
    ensures var r := RunSuites(w, suites, depth);
            && (!r.stale <==> AllServedOnce(w.path, suites) && Room(w, TestsIn(suites)))
            && (!r.stale ==> Agree(r, NaiveSuites(n, suites), depth))
            && (r.intact <==> w.intact && SuitesOrdered(w.path, suites)) && (r.stale ==> !r.intact)
    decreases suites, 0
  {
    hide Agree, Ordered, Dirty, ServedOnce, SuiteOrdered, Room, RunSuite, NaiveSuite, Count;
    AgreeBalanced(w, n, depth);
    RoomForOne(w);
    if suites != [] {
      SuiteAgrees(w, n, suites[0], depth);
      var r := RunSuite(w, suites[0], depth);
      StackDiscipline(w, suites[0], depth);
      RoomAfter(w, r, TestCount(suites[0]), TestsIn(suites[1..]));
      if !r.stale {
        SuitesAgree(r, NaiveSuite(n, suites[0]), suites[1..], depth);
      }
    }
  }

  // ----- The main results

  /** The start of a test run: no snapshot pushed, no hook registered on the path. */
  function Fresh<S>(chain: Chain<S>): World<S> {
    World(chain, [], [], [], [], [], false, false, true, true)
  }

  lemma FreshAgrees<S>(chain: Chain<S>)
    requires chain.Valid()
    ensures Agree(Fresh(chain), Naive(chain.state, [], None, []), 0)
    ensures Ordered<S>([])
  {
  }

  /** Exactly when: a run reverts to a consumed snapshot iff some cached hook inside a sandbox serves more
      than one test. */
  lemma StaleIffServedTwice<S>(chain: Chain<S>, suites: seq<Suite<S>>)
    requires chain.Valid()
    ensures RunSuites(Fresh(chain), suites, 0).stale <==> !AllServedOnce([], suites)
  {
    FreshAgrees(chain);
    SuitesAgree(Fresh(chain), Naive(chain.state, [], None, []), suites, 0);
  }

  /** The cache refines re-execution: over every forest in which no cached hook inside a sandbox serves more
      than one test, every test starts in the state re-execution gives it, the chain ends in the same state,
      every sandboxed test leaves the state its outermost sandbox found, no pop finds the stack empty, no hook
      reverts to a consumed snapshot, and SNAPSHOTS ends empty. */
  lemma CacheRefinesReExecution<S>(chain: Chain<S>, suites: seq<Suite<S>>)
    requires chain.Valid() && AllServedOnce([], suites)
    ensures var r, n := RunSuites(Fresh(chain), suites, 0), NaiveSuites(Naive(chain.state, [], None, []), suites);
            && r.starts == n.starts && r.chain.state == n.state
            && r.restored && !r.underflow && !r.stale && r.stack == []
  {
    FreshAgrees(chain);
    SuitesAgree(Fresh(chain), Naive(chain.state, [], None, []), suites, 0);
  }

  /** Every id on the stack survives every test iff no cached hook runs inside a sandbox. */
  lemma IntactIffOrdered<S>(chain: Chain<S>, suites: seq<Suite<S>>)
    requires chain.Valid()
    ensures RunSuites(Fresh(chain), suites, 0).intact <==> SuitesOrdered([], suites)
  {
    FreshAgrees(chain);
    SuitesAgree(Fresh(chain), Naive(chain.state, [], None, []), suites, 0);
  }

  /** Whatever the forest, SNAPSHOTS is never popped empty and ends empty. */
  lemma SnapshotsNeverUnderflow<S>(chain: Chain<S>, suites: seq<Suite<S>>)
    ensures var r := RunSuites(Fresh(chain), suites, 0); !r.underflow && r.stack == []
  {
    SuitesStackDiscipline(Fresh(chain), suites, 0);
  }
}
