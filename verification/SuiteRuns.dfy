/** Nested test suites as the test runner executes them. Before each test the beforeEach hooks on the path
    run outermost first, after it the afterEach hooks innermost first; a suite's tests run before its child
    suites, and its after hooks run last. */
module SuiteRuns {
  import opened Options
  import opened SnapshotChain
  import opened TestingUtils

  /** A beforeEach hook: cacheBeforeEach(initializer), an ordinary one, or the snapshot half of
      addSnapshotBeforeRestoreAfterEach. */
  datatype Hook<!S> = Cached(initializer: S -> S) | Plain(action: S -> S) | Sandbox

  datatype Suite<!S> = Suite(hooks: seq<Hook<S>>, tests: seq<S -> S>, children: seq<Suite<S>>)

  /** What the closure of a hook remembers: the `initialized` flag of a cached hook, the `_snapshotId` of a
      sandbox. */
  datatype Closure = Closure(initialized: bool, snapshotId: nat)

  /** The run so far. stack is SNAPSHOTS; path holds the beforeEach hooks of the suites being run, outermost
      first, with the depth of each hook's suite and its closure beside it. The last fields only observe:
      the state each test started in, whether a pop found the stack empty or a cached hook reverted to a
      consumed snapshot, whether every id on the stack was alive after every test so far, and whether every
      sandboxed test so far left the state that its outermost sandbox hook found. */
  datatype World<!S> = World(
    chain: Chain<S>, stack: seq<nat>,
    path: seq<Hook<S>>, depths: seq<nat>, closures: seq<Closure>,
    starts: seq<S>, underflow: bool, stale: bool, intact: bool, restored: bool)
  {
    predicate Shaped() {
      |depths| == |path| == |closures|
    }
  }

  // ----- Running hooks

  /** Only entering and leaving a suite changes the path. */
  ghost predicate SamePath<S>(v: World<S>, w: World<S>) {
    v.path == w.path && v.depths == w.depths && v.Shaped() && w.Shaped()
  }

  ghost function RunHook<S>(w: World<S>, i: nat): (r: World<S>)
    requires w.Shaped() && i < |w.path|
    ensures SamePath(w, r)
    ensures r.intact == w.intact && r.restored == w.restored && r.starts == w.starts && (w.stale ==> r.stale)
  {
    match w.path[i]
    case Plain(action) => w.(chain := w.chain.Act(action))
    case Sandbox =>
      w.(chain := w.chain.Snapshot(), closures := w.closures[i := w.closures[i].(snapshotId := w.chain.nextId)])
    case Cached(initializer) =>
      var c := CachedBeforeEach(
                 Cache(w.chain, w.stack, w.closures[i].initialized, w.underflow, w.stale), initializer);
      w.(chain := c.chain, stack := c.stack,
      closures := w.closures[i := w.closures[i].(initialized := c.initialized)],
      underflow := c.underflow, stale := c.stale)
  }

  /** The world after the first i beforeEach hooks of the path. */
  ghost function BeforeEach<S>(w: World<S>, i: nat): (r: World<S>)
    requires w.Shaped() && i <= |w.path|
    ensures SamePath(w, r)
    ensures r.intact == w.intact && r.restored == w.restored && r.starts == w.starts && (w.stale ==> r.stale)
  {
    if i == 0 then w else RunHook(BeforeEach(w, i - 1), i - 1)
  }

  /** The sandboxes among the first i hooks that belong to the suite at the given depth revert. */
  ghost function AfterEachOf<S>(w: World<S>, depth: nat, i: nat): (r: World<S>)
    requires w.Shaped() && i <= |w.path|
    ensures r == w.(chain := r.chain)
  {
    if i == 0 then w
    else
      var v := AfterEachOf(w, depth, i - 1);
      if w.path[i - 1].Sandbox? && w.depths[i - 1] == depth then
        v.(chain := v.chain.Revert(w.closures[i - 1].snapshotId))
      else v
  }

  /** The suites' afterEach hooks, from the given depth outward. */
  ghost function AfterEach<S>(w: World<S>, depth: nat): (r: World<S>)
    requires w.Shaped()
    ensures r == w.(chain := r.chain)
    decreases depth
  {
    if depth == 0 then w else AfterEach(AfterEachOf(w, depth, |w.path|), depth - 1)
  }

  /** The position of the first sandbox from i on, or the number of hooks. */
  function SandboxFrom<S>(hooks: seq<Hook<S>>, i: nat): (f: nat)
    requires i <= |hooks|
    ensures i <= f <= |hooks|
    ensures f < |hooks| ==> hooks[f].Sandbox?
    ensures forall k :: i <= k < f ==> !hooks[k].Sandbox?
    decreases |hooks| - i
  {
    if i == |hooks| || hooks[i].Sandbox? then i else SandboxFrom(hooks, i + 1)
  }

  function FirstSandbox<S>(hooks: seq<Hook<S>>): (f: nat)
    ensures f <= |hooks|
    ensures f < |hooks| ==> hooks[f].Sandbox?
    ensures forall k :: 0 <= k < f ==> !hooks[k].Sandbox?
  {
    SandboxFrom(hooks, 0)
  }

  ghost predicate AllLive<S>(w: World<S>) {
    forall j :: 0 <= j < |w.stack| ==> w.stack[j] in w.chain.snapshots
  }

  /** The beforeEach hooks and the test itself. */
  ghost function Tested<S>(w: World<S>, test: S -> S): (r: World<S>)
    requires w.Shaped()
    ensures SamePath(w, r) && r.intact == w.intact && r.restored == w.restored && (w.stale ==> r.stale)
  {
    var ready := BeforeEach(w, |w.path|);
    ready.(starts := ready.starts + [ready.chain.state], chain := ready.chain.Act(test))
  }

  ghost function RunTest<S>(w: World<S>, test: S -> S, depth: nat): (r: World<S>)
    requires w.Shaped()
    ensures SamePath(w, r) && (r.intact ==> w.intact) && (w.stale ==> r.stale) && w.starts <= r.starts
  {
    var r, f := AfterEach(Tested(w, test), depth), FirstSandbox(w.path);
    r.(intact := r.intact && AllLive(r),
    restored := r.restored && (f < |w.path| ==> r.chain.state == BeforeEach(w, f).chain.state))
  }

  ghost function RunTests<S>(w: World<S>, tests: seq<S -> S>, depth: nat): (r: World<S>)
    requires w.Shaped()
    ensures SamePath(w, r) && (r.intact ==> w.intact) && (w.stale ==> r.stale) && w.starts <= r.starts
    decreases |tests|
  {
    if tests == [] then w else RunTests(RunTest(w, tests[0], depth), tests[1..], depth)
  }

  // ----- Running suites

  ghost function Enter<S>(w: World<S>, hooks: seq<Hook<S>>, depth: nat): (r: World<S>)
    requires w.Shaped()
    ensures r.Shaped()
  {
    w.(path := w.path + hooks,
    depths := w.depths + seq(|hooks|, _ => depth),
    closures := w.closures + seq(|hooks|, _ => Closure(false, 0)))
  }

  /** The after hooks of the cached hooks at positions first up to i. */
  ghost function Afters<S>(w: World<S>, first: nat, i: nat): (r: World<S>)
    requires w.Shaped() && first <= i <= |w.path|
    ensures r == w.(stack := r.stack)
  {
    if i == first then w
    else
      var v := Afters(w, first, i - 1);
      if w.path[i - 1].Cached? then v.(stack := CachedAfter(v.stack, w.closures[i - 1].initialized)) else v
  }

  ghost function Leave<S>(w: World<S>, outer: nat): (r: World<S>)
    requires w.Shaped() && outer <= |w.path|
    ensures r.Shaped() && r.path == w.path[..outer] && r.depths == w.depths[..outer]
    ensures r.intact == w.intact && r.stale == w.stale && r.restored == w.restored
    ensures r.chain == w.chain && r.starts == w.starts
  {
    var r := Afters(w, outer, |w.path|);
    r.(path := w.path[..outer], depths := w.depths[..outer], closures := w.closures[..outer])
  }

  /** Runs a suite whose parent has the given depth. */
  ghost function RunSuite<S>(w: World<S>, s: Suite<S>, depth: nat): (r: World<S>)
    requires w.Shaped()
    ensures SamePath(w, r) && (r.intact ==> w.intact) && (w.stale ==> r.stale) && w.starts <= r.starts
    decreases s, 1
  {
    var tested := RunTests(Enter(w, s.hooks, depth + 1), s.tests, depth + 1);
    Leave(RunSuites(tested, s.children, depth + 1), |w.path|)
  }

  ghost function RunSuites<S>(w: World<S>, suites: seq<Suite<S>>, depth: nat): (r: World<S>)
    requires w.Shaped()
    ensures SamePath(w, r) && (r.intact ==> w.intact) && (w.stale ==> r.stale) && w.starts <= r.starts
    decreases suites, 0
  {
    if suites == [] then w else RunSuites(RunSuite(w, suites[0], depth), suites[1..], depth)
  }

  // ----- Re-execution: the specification

  function Apply<S>(hook: Hook<S>, s: S): S {
    match hook
    case Cached(initializer) => initializer(s)
    case Plain(action) => action(s)
    case Sandbox => s
  }

  /** The first i hooks run one after the other. */
  function Exec<S>(hooks: seq<Hook<S>>, s: S, i: nat): S
    requires i <= |hooks|
  {
    if i == 0 then s else Apply(hooks[i - 1], Exec(hooks, s, i - 1))
  }

  /** The hooks from position first up to i run one after the other. */
  function ExecFrom<S>(hooks: seq<Hook<S>>, s: S, first: nat, i: nat): S
    requires first <= i <= |hooks|
    decreases i
  {
    if i == first then s else Apply(hooks[i - 1], ExecFrom(hooks, s, first, i - 1))
  }

  /** How many of the first i hooks are cached. */
  function Count<S>(hooks: seq<Hook<S>>, i: nat): (n: nat)
    requires i <= |hooks|
    ensures n <= i
  {
    if i == 0 then 0 else Count(hooks, i - 1) + (if hooks[i - 1].Cached? then 1 else 0)
  }

  function HasCached<S>(hooks: seq<Hook<S>>): bool {
    Count(hooks, |hooks|) > 0
  }

  /** No snapshots at all: a test below a cached hook starts from the state in which the first such test
      found the chain, with every hook on the path run again. A sandbox makes the test leave the state its
      first sandbox hook found. */
  datatype Naive<!S> = Naive(state: S, hooks: seq<Hook<S>>, base: Option<S>, starts: seq<S>)

  ghost function Origin<S>(n: Naive<S>): S {
    if n.base.Some? then n.base.value else n.state
  }

  ghost function NaiveTest<S>(n: Naive<S>, test: S -> S): Naive<S> {
    var start := Exec(n.hooks, Origin(n), |n.hooks|);
    var sandbox := FirstSandbox(n.hooks);
    n.(state := if sandbox < |n.hooks| then Exec(n.hooks, Origin(n), sandbox) else test(start),
    base := if HasCached(n.hooks) then Some(Origin(n)) else None,
    starts := n.starts + [start])
  }

  ghost function NaiveTests<S>(n: Naive<S>, tests: seq<S -> S>): (r: Naive<S>)
    ensures r.hooks == n.hooks && n.starts <= r.starts
    decreases |tests|
  {
    if tests == [] then n else NaiveTests(NaiveTest(n, tests[0]), tests[1..])
  }

  ghost function NaiveSuite<S>(n: Naive<S>, s: Suite<S>): (r: Naive<S>)
    ensures r.hooks == n.hooks && n.starts <= r.starts
    decreases s, 1
  {
    var inner := NaiveSuites(NaiveTests(n.(hooks := n.hooks + s.hooks), s.tests), s.children);
    inner.(hooks := n.hooks, base := if HasCached(n.hooks) then inner.base else None)
  }

  ghost function NaiveSuites<S>(n: Naive<S>, suites: seq<Suite<S>>): (r: Naive<S>)
    ensures r.hooks == n.hooks && n.starts <= r.starts
    decreases suites, 0
  {
    if suites == [] then n else NaiveSuites(NaiveSuite(n, suites[0]), suites[1..])
  }

  /** The states just after each cached hook among the first i. */
  function Values<S>(hooks: seq<Hook<S>>, s: S, i: nat): (values: seq<S>)
    requires i <= |hooks|
    ensures |values| == Count(hooks, i)
  {
    if i == 0 then []
    else Values(hooks, s, i - 1) + (if hooks[i - 1].Cached? then [Exec(hooks, s, i)] else [])
  }

  // ----- Conditions on the forest

  /** No cached hook runs inside a sandbox. */
  ghost predicate Ordered<S>(hooks: seq<Hook<S>>) {
    forall i, j :: 0 <= i < j < |hooks| && hooks[i].Sandbox? ==> !hooks[j].Cached?
  }

  /** Every path from the given hooks to a test is ordered. */
  ghost predicate SuiteOrdered<S>(hooks: seq<Hook<S>>, s: Suite<S>)
    decreases s, 1
  {
    && (s.tests != [] ==> Ordered(hooks + s.hooks))
    && SuitesOrdered(hooks + s.hooks, s.children)
  }

  ghost predicate SuitesOrdered<S>(hooks: seq<Hook<S>>, suites: seq<Suite<S>>)
    decreases suites, 0
  {
    suites != [] ==> SuiteOrdered(hooks, suites[0]) && SuitesOrdered(hooks, suites[1..])
  }

  /** The tests of a suite and of the suites below it. */
  ghost function TestCount<S>(s: Suite<S>): nat
    decreases s, 1
  {
    |s.tests| + TestsIn(s.children)
  }

  ghost function TestsIn<S>(suites: seq<Suite<S>>): nat
    decreases suites, 0
  {
    if suites == [] then 0 else TestCount(suites[0]) + TestsIn(suites[1..])
  }

  /** None of the inner hooks is a cached one registered after a sandbox. */
  ghost predicate InnerOutside<S>(outer: seq<Hook<S>>, inner: seq<Hook<S>>) {
    var hooks := outer + inner;
    forall i, j :: 0 <= i < j < |hooks| && |outer| <= j && hooks[i].Sandbox? ==> !hooks[j].Cached?
  }

  /** Every cached hook registered after a sandbox on its path serves at most one test, counting the tests
      of its suite and of the suites below. */
  ghost predicate ServedOnce<S>(hooks: seq<Hook<S>>, s: Suite<S>)
    decreases s, 1
  {
    && (TestCount(s) <= 1 || InnerOutside(hooks, s.hooks))
    && AllServedOnce(hooks + s.hooks, s.children)
  }

  ghost predicate AllServedOnce<S>(hooks: seq<Hook<S>>, suites: seq<Suite<S>>)
    decreases suites, 0
  {
    suites != [] ==> ServedOnce(hooks, suites[0]) && AllServedOnce(hooks, suites[1..])
  }
}
