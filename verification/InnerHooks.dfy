/** Cached hooks inside a sandbox. Their snapshots die with the first test, so a second test on the path
    reverts to a consumed id: what that test sees, and the sandboxes that shield it all the same. */
module InnerHooks {
  import opened SnapshotChain
  import opened SuiteRuns
  import opened TestingUtils
  import opened CacheProofs
  import opened TestPhases

  /** Some initialized cached hook of the path runs inside a sandbox. */
  ghost predicate Dirty<S>(w: World<S>) {
    |w.stack| > Outside(w.path)
  }

  /** The innermost id on the stack is consumed. */
  ghost predicate TopConsumed<S>(w: World<S>) {
    w.stack != [] && Known(w.chain, w.stack) && Top(w.stack) !in w.chain.snapshots
  }

  lemma DirtyTestIsStale<S>(w: World<S>, test: S -> S, depth: nat)
    requires Balanced(w) && w.chain.Valid() && TopConsumed(w)
    ensures RunTest(w, test, depth).stale
  {
    var p := NthCached(w.path, 0, |w.path|);
    FirstCachedRecalls(w, p);
    StaleStays(w, p + 1, |w.path|);
  }

  // ----- What the test sees

  /** The start of a test on a dirty path: the state as the last test left it, the hooks before the first
      cached one run on it, everything from there to the last initialized hook skipped, the rest run. */
  function StaleStart<S>(path: seq<Hook<S>>, s: S, initialized: nat): S
    requires 0 < initialized <= Count(path, |path|)
  {
    ExecFrom(path, Exec(path, s, NthCached(path, 0, |path|)), Resume(path, initialized), |path|)
  }

  lemma DirtyTestStart<S>(w: World<S>, test: S -> S, depth: nat)
    requires Balanced(w) && w.chain.Valid() && TopConsumed(w)
    ensures RunTest(w, test, depth).starts == w.starts + [StaleStart(w.path, w.chain.state, |w.stack|)]
  {
    TestStart(w, test, depth);
  }

  // ----- The sandbox on a path without outer cached hooks

  /** The snapshot id is alive and holds s, nothing older changed, and every other id that is alive on the
      stack is larger. */
  ghost predicate Shielded<S>(start: Chain<S>, c: Chain<S>, stack: seq<nat>, id: nat, s: S) {
    && c.Valid() && id < c.nextId && SameBelow(start, c, id)
    && id in c.snapshots && c.snapshots[id] == s
    && forall j :: 0 <= j < |stack| ==> stack[j] < c.nextId && (stack[j] !in c.snapshots || id < stack[j])
  }

  lemma CachedKeepsShield<S>(start: Chain<S>, c: Cache<S>, initializer: S -> S, id: nat, s: S)
    requires Shielded(start, c.chain, c.stack, id, s) && (c.initialized ==> c.stack != [])
    ensures var r := CachedBeforeEach(c, initializer);
            Shielded(start, r.chain, r.stack, id, s)
  {
  }

  lemma SnapshotKeepsShield<S>(start: Chain<S>, c: Chain<S>, stack: seq<nat>, id: nat, s: S)
    requires Shielded(start, c, stack, id, s)
    ensures Shielded(start, c.Snapshot(), stack, id, s) && id < c.nextId
  {
  }

  lemma ActKeepsShield<S>(start: Chain<S>, c: Chain<S>, stack: seq<nat>, id: nat, s: S, action: S -> S)
    requires Shielded(start, c, stack, id, s)
    ensures Shielded(start, c.Act(action), stack, id, s)
  {
  }

  /** After the first sandbox hook, at position f: its id is the next one to be handed out at the start of the
      test, it shields the state found there, and the ids of later sandboxes are larger. */
  ghost predicate Guarded<S>(w: World<S>, r: World<S>, f: nat, i: nat)
    requires f < i <= |r.path| == |r.closures| && |w.path| == |r.path|
  {
    && Shielded(w.chain, r.chain, r.stack, w.chain.nextId, Exec(w.path, w.chain.state, f))
    && r.closures[f].snapshotId == w.chain.nextId
    && (forall k :: f < k < i && r.path[k].Sandbox? ==> w.chain.nextId < r.closures[k].snapshotId)
  }

  lemma RunHookGuarded<S>(w: World<S>, r: World<S>, f: nat, i: nat)
    requires f < i < |r.path| && Balanced(r) && |r.stack| >= Count(r.path, i)
    requires |w.path| == |r.path| && Guarded(w, r, f, i)
    ensures Guarded(w, RunHook(r, i), f, i + 1)
  {
    hide Shielded;
    var id, s := w.chain.nextId, Exec(w.path, w.chain.state, f);
    match r.path[i]
    case Plain(action) =>
      ActKeepsShield(w.chain, r.chain, r.stack, id, s, action);
    case Sandbox =>
      SnapshotKeepsShield(w.chain, r.chain, r.stack, id, s);
    case Cached(initializer) =>
      assert r.closures[i].initialized ==> r.stack != [];
      hide CachedBeforeEach;
      CachedKeepsShield(
        w.chain, Cache(r.chain, r.stack, r.closures[i].initialized, r.underflow, r.stale), initializer, id, s);
  }

  /** Hooks before the first sandbox take no snapshot when none of them is cached. */
  lemma {:induction false} NoSnapshotBefore<S>(w: World<S>, i: nat)
    requires Balanced(w) && i <= |w.path|
    requires forall k :: 0 <= k < i ==> w.path[k].Plain?
    ensures BeforeEach(w, i) == w.(chain := w.chain.(state := Exec(w.path, w.chain.state, i)))
    decreases i
  {
    if i > 0 {
      NoSnapshotBefore(w, i - 1);
    }
  }

  lemma NothingCachedBefore<S>(path: seq<Hook<S>>, i: nat, k: nat)
    requires k < i <= |path| && Count(path, i) == 0
    ensures !path[k].Cached?
  {
    CountMono(path, k, i);
  }

  lemma SnapshotShields<S>(start: Chain<S>, c: Chain<S>, stack: seq<nat>)
    requires c.Valid() && Consumed(c, stack, 0) && c.snapshots == start.snapshots
    ensures Shielded(start, c.Snapshot(), stack, c.nextId, c.state)
  {
  }

  lemma FirstSandboxGuards<S>(w: World<S>, f: nat)
    requires Balanced(w) && w.chain.Valid() && Consumed(w.chain, w.stack, 0)
    requires f < |w.path| && w.path[f].Sandbox? && Count(w.path, f) == 0
    requires forall k :: 0 <= k < f ==> !w.path[k].Sandbox?
    ensures Guarded(w, BeforeEach(w, f + 1), f, f + 1)
  {
    forall k | 0 <= k < f
      ensures w.path[k].Plain?
    {
      NothingCachedBefore(w.path, f, k);
    }
    NoSnapshotBefore(w, f);
    SnapshotShields(w.chain, BeforeEach(w, f).chain, w.stack);
    hide Shielded;
    assert BeforeEach(w, f + 1) == RunHook(BeforeEach(w, f), f);
  }

  lemma {:induction false} BeforeEachGuarded<S>(w: World<S>, i: nat)
    requires Balanced(w) && w.chain.Valid() && Consumed(w.chain, w.stack, 0)
    requires FirstSandbox(w.path) < i <= |w.path| && Outside(w.path) == 0
    ensures Guarded(w, BeforeEach(w, i), FirstSandbox(w.path), i)
    decreases i
  {
    hide RunHook, Tracks, Guarded;
    var f := FirstSandbox(w.path);
    if i == f + 1 {
      FirstSandboxGuards(w, f);
    } else {
      BeforeEachBalanced(w, i - 1);
      BeforeEachGuarded(w, i - 1);
      RunHookGuarded(w, BeforeEach(w, i - 1), f, i - 1);
    }
  }

  /** A test on a path with no cached hook outside its sandboxes, starting from consumed ids only, leaves the
      state its outermost sandbox found, the snapshots as they were, and consumed ids only. */
  lemma ShieldedTest<S>(w: World<S>, test: S -> S, depth: nat)
    requires Balanced(w) && w.chain.Valid() && Consumed(w.chain, w.stack, 0)
    requires FirstSandbox(w.path) < |w.path| && Outside(w.path) == 0
    requires forall i :: 0 <= i < |w.depths| ==> 0 < w.depths[i] <= depth
    ensures var r := RunTest(w, test, depth);
            && r.chain.Valid() && Consumed(r.chain, r.stack, 0)
            && r.chain.state == Exec(w.path, w.chain.state, FirstSandbox(w.path))
            && r.chain.snapshots == w.chain.snapshots
  {
    var f, t := FirstSandbox(w.path), Tested(w, test);
    BeforeEachGuarded(w, |w.path|);
    GuardedRestores(w, t, f, depth);
  }

  lemma GuardedRestores<S>(w: World<S>, t: World<S>, f: nat, depth: nat)
    requires w.chain.Valid() && t.Shaped() && |w.path| == |t.path| && f == FirstSandbox(t.path) < |t.path|
    requires Guarded(w, t, f, |t.path|)
    requires forall i :: 0 <= i < |t.depths| ==> 0 < t.depths[i] <= depth
    ensures var r := AfterEach(t, depth);
            && r.chain.Valid() && Consumed(r.chain, r.stack, 0)
            && r.chain.state == Exec(w.path, w.chain.state, f)
            && r.chain.snapshots == w.chain.snapshots
  {
    AfterEachRestores(t, t.chain, f, depth);
    var r := AfterEach(t, depth);
    assert Restored(t.chain, r.chain, w.chain.nextId);
  }
}
