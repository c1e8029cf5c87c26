/** The snapshot cache against re-execution: the hooks of one test. */
module CacheProofs {
  import opened SnapshotChain
  import opened SuiteRuns
  import opened TestingUtils

  function Max(a: nat, b: nat): nat {
    if a < b then b else a
  }

  // ----- Prefixes of the path

  lemma {:induction false} CountMono<S>(hooks: seq<Hook<S>>, i: nat, k: nat)
    requires i <= k <= |hooks|
    ensures Count(hooks, i) <= Count(hooks, k)
    ensures i < k && hooks[i].Cached? ==> Count(hooks, i) < Count(hooks, k)
    decreases k
  {
    if i < k {
      CountMono(hooks, i, k - 1);
    }
  }

  lemma {:induction false} ValuesPrefix<S>(hooks: seq<Hook<S>>, s: S, i: nat, k: nat)
    requires i <= k <= |hooks|
    ensures Values(hooks, s, i) <= Values(hooks, s, k)
    decreases k
  {
    if i < k {
      ValuesPrefix(hooks, s, i, k - 1);
    }
  }

  /** The value recorded for a cached hook is the state just after it. */
  lemma ValueAfter<S>(hooks: seq<Hook<S>>, s: S, i: nat)
    requires i < |hooks| && hooks[i].Cached?
    ensures Count(hooks, i) < Count(hooks, |hooks|)
    ensures Values(hooks, s, |hooks|)[Count(hooks, i)] == Exec(hooks, s, i + 1)
  {
    CountMono(hooks, i, |hooks|);
    ValuesPrefix(hooks, s, i + 1, |hooks|);
    assert Values(hooks, s, i + 1)[Count(hooks, i)] == Exec(hooks, s, i + 1);
  }

  /** Adding inner hooks leaves the outer ones' history alone. */
  lemma {:induction false} OuterPart<S>(outer: seq<Hook<S>>, inner: seq<Hook<S>>, s: S, i: nat)
    requires i <= |outer|
    ensures Count(outer + inner, i) == Count(outer, i)
    ensures Exec(outer + inner, s, i) == Exec(outer, s, i)
    ensures Values(outer + inner, s, i) == Values(outer, s, i)
    decreases i
  {
    if i > 0 {
      OuterPart(outer, inner, s, i - 1);
    }
  }

  // ----- The stack, whatever the order of the hooks

  /** The first m cached hooks of the path are the initialized ones. */
  ghost predicate Tracks(path: seq<Hook>, closures: seq<Closure>, m: nat) {
    && |path| == |closures|
    && forall i {:trigger closures[i]} :: 0 <= i < |path| && path[i].Cached? ==>
         (closures[i].initialized <==> Count(path, i) < m)
  }

  /** One entry per initialized cached hook, and no pop found the stack empty. */
  ghost predicate Balanced<S>(w: World<S>) {
    && w.Shaped()
    && Tracks(w.path, w.closures, |w.stack|)
    && |w.stack| <= Count(w.path, |w.path|)
    && !w.underflow
  }

  lemma CachedBeforeEachStack<S>(c: Cache<S>, initializer: S -> S)
    requires c.initialized ==> c.stack != []
    ensures var r := CachedBeforeEach(c, initializer);
            && r.initialized && r.underflow == c.underflow
            && |r.stack| == if c.initialized then |c.stack| else |c.stack| + 1
  {
  }

  /** Initializing the next cached hook in path order. */
  lemma TracksNext<S>(path: seq<Hook<S>>, closures: seq<Closure>, i: nat)
    requires i < |path| && path[i].Cached? && Tracks(path, closures, Count(path, i))
    ensures Tracks(path, closures[i := closures[i].(initialized := true)], Count(path, i) + 1)
  {
    var closures' := closures[i := closures[i].(initialized := true)];
    forall k | 0 <= k < |path| && path[k].Cached?
      ensures closures'[k].initialized <==> Count(path, k) < Count(path, i) + 1
    {
      if k < i {
        CountMono(path, k, i);
      } else if i < k {
        CountMono(path, i, k);
      }
    }
  }

  lemma RunHookBalanced<S>(w: World<S>, i: nat)
    requires Balanced(w) && i < |w.path| && |w.stack| >= Count(w.path, i)
    ensures var r := RunHook(w, i);
            Balanced(r) && |r.stack| == Max(|w.stack|, Count(w.path, i + 1))
  {
    hide CachedBeforeEach;
    CountMono(w.path, i + 1, |w.path|);
    match w.path[i]
    case Plain(_) =>
    case Sandbox =>
    case Cached(initializer) =>
      var closure := w.closures[i];
      CachedBeforeEachStack(Cache(w.chain, w.stack, closure.initialized, w.underflow, w.stale), initializer);
      if closure.initialized {
        assert RunHook(w, i).closures == w.closures;
      } else {
        TracksNext(w.path, w.closures, i);
      }
  }

  lemma {:induction false} BeforeEachBalanced<S>(w: World<S>, i: nat)
    requires Balanced(w) && i <= |w.path|
    ensures var r := BeforeEach(w, i);
            Balanced(r) && |r.stack| == Max(|w.stack|, Count(w.path, i))
    decreases i
  {
    hide RunHook;
    if i > 0 {
      BeforeEachBalanced(w, i - 1);
      RunHookBalanced(BeforeEach(w, i - 1), i - 1);
    }
  }

  // ----- The contents of the snapshots

  /** Every id on the stack is alive and holds the state recorded for its hook; later ids are larger. */
  ghost predicate Holds<S>(c: Chain<S>, stack: seq<nat>, values: seq<S>) {
    && |stack| <= |values|
    && (forall j :: 0 <= j < |stack| ==> stack[j] in c.snapshots && c.snapshots[stack[j]] == values[j])
    && (forall i, j :: 0 <= i < j < |stack| ==> stack[i] < stack[j])
  }

  /** An initialized cached hook goes back to the innermost state and renews its id. */
  lemma RevertRenews<S>(c: Cache<S>, initializer: S -> S, values: seq<S>)
    requires c.initialized && c.stack != [] && c.chain.Valid() && Holds(c.chain, c.stack, values)
    ensures var r := CachedBeforeEach(c, initializer);
            && r.chain.Valid() && Holds(r.chain, r.stack, values)
            && |r.stack| == |c.stack| && r.chain.state == values[|c.stack| - 1]
            && r.stale == c.stale
  {
  }

  /** A new cached hook runs its initializer and pushes an id for the result. */
  lemma InitializePushes<S>(c: Cache<S>, initializer: S -> S, values: seq<S>)
    requires !c.initialized && c.chain.Valid() && Holds(c.chain, c.stack, values)
    requires |c.stack| < |values| && initializer(c.chain.state) == values[|c.stack|]
    ensures var r := CachedBeforeEach(c, initializer);
            && r.chain.Valid() && Holds(r.chain, r.stack, values)
            && r.stack == c.stack + [c.chain.nextId] && r.chain.state == values[|c.stack|]
            && r.stale == c.stale
  {
  }

  lemma SnapshotKeeps<S>(c: Chain<S>, stack: seq<nat>, values: seq<S>)
    requires c.Valid() && Holds(c, stack, values)
    ensures c.Snapshot().Valid() && Holds(c.Snapshot(), stack, values)
  {
  }

  /** The invariant while the beforeEach hooks of a test run that started with m initialized hooks. Once
      these have run, the state is the one re-execution reaches. */
  ghost predicate Ready<S>(r: World<S>, base: S, m: nat, i: nat) {
    && Balanced(r) && i <= |r.path| && |r.stack| == Max(m, Count(r.path, i))
    && r.chain.Valid()
    && Holds(r.chain, r.stack, Values(r.path, base, |r.path|))
    && (m <= Count(r.path, i) ==> r.chain.state == Exec(r.path, base, i))
    && !r.stale
  }

  lemma RunHookReady<S>(w: World<S>, base: S, m: nat, i: nat)
    requires i < |w.path| && Ready(w, base, m, i)
    ensures Ready(RunHook(w, i), base, m, i + 1)
  {
    hide CachedBeforeEach;
    RunHookBalanced(w, i);
    var values := Values(w.path, base, |w.path|);
    match w.path[i]
    case Plain(_) =>
    case Sandbox =>
      SnapshotKeeps(w.chain, w.stack, values);
    case Cached(initializer) =>
      ValueAfter(w.path, base, i);
      var c := Cache(w.chain, w.stack, w.closures[i].initialized, w.underflow, w.stale);
      if c.initialized {
        RevertRenews(c, initializer, values);
      } else {
        InitializePushes(c, initializer, values);
      }
  }

  lemma {:induction false} BeforeEachReady<S>(w: World<S>, base: S, i: nat)
    requires i <= |w.path| && Ready(w, base, |w.stack|, 0)
    ensures Ready(BeforeEach(w, i), base, |w.stack|, i)
    decreases i
  {
    hide RunHook;
    if i > 0 {
      BeforeEachReady(w, base, i - 1);
      RunHookReady(BeforeEach(w, i - 1), base, |w.stack|, i - 1);
    }
  }

  // ----- Sandboxes

  function Min(a: nat, b: nat): nat {
    if a < b then a else b
  }

  /** Consumed ids: not alive, and never to be handed out again. */
  ghost predicate Consumed<S>(c: Chain<S>, stack: seq<nat>, k: nat) {
    forall j :: k <= j < |stack| ==> stack[j] < c.nextId && stack[j] !in c.snapshots
  }

  /** At a test boundary: the ids pushed outside every sandbox are alive, with the states recorded for their
      hooks, and those pushed inside one are consumed. */
  ghost predicate Survives<S>(c: Chain<S>, stack: seq<nat>, values: seq<S>, outside: nat) {
    var k := Min(|stack|, outside);
    Holds(c, stack[..k], values) && Consumed(c, stack, k)
  }

  /** How many cached hooks come before the first sandbox. */
  function Outside<S>(path: seq<Hook<S>>): nat {
    Count(path, FirstSandbox(path))
  }

  /** Before that sandbox reverts nothing at or below its id is touched. */
  ghost predicate Pending<S>(start: Chain<S>, c: Chain<S>, id: nat) {
    SameBelow(start, c, id + 1)
  }

  /** Afterwards the chain is back where that sandbox found it, with only older snapshots left. */
  ghost predicate Restored<S>(start: Chain<S>, c: Chain<S>, id: nat) {
    && id in start.snapshots && c.state == start.snapshots[id]
    && c.nextId == start.nextId
    && SameBelow(start, c, id)
    && forall k :: k in c.snapshots ==> k < id
  }

  lemma RevertProgress<S>(start: Chain<S>, c: Chain<S>, id: nat, k: nat)
    requires id in start.snapshots && (id <= k || k !in start.snapshots) && c.nextId == start.nextId
    requires Pending(start, c, id) || Restored(start, c, id)
    ensures var r := c.Revert(k);
            && r.nextId == start.nextId
            && (Restored(start, c, id) || k == id ==> Restored(start, r, id))
            && (Pending(start, r, id) || Restored(start, r, id))
  {
  }

  /** Sandbox f holds the smallest id of those that are alive. */
  ghost predicate Outermost<S>(w: World<S>, start: Chain<S>, f: nat) {
    && w.Shaped() && f < |w.path| && w.path[f].Sandbox?
    && forall k :: 0 <= k < |w.path| && w.path[k].Sandbox? ==>
         w.closures[f].snapshotId <= w.closures[k].snapshotId || w.closures[k].snapshotId !in start.snapshots
  }

  ghost predicate Underway<S>(w: World<S>, start: Chain<S>, f: nat)
    requires Outermost(w, start, f)
  {
    var id := w.closures[f].snapshotId;
    && id in start.snapshots && w.chain.nextId == start.nextId
    && (Pending(start, w.chain, id) || Restored(start, w.chain, id))
  }

  /** The afterEach hooks of one suite. */
  lemma {:induction false} AfterEachOfRestores<S>(w: World<S>, start: Chain<S>, f: nat, depth: nat, i: nat)
    requires Outermost(w, start, f) && i <= |w.path| && Underway(w, start, f)
    ensures var id, r := w.closures[f].snapshotId, AfterEachOf(w, depth, i);
            && Underway(r, start, f)
            && (Restored(start, w.chain, id) || (f < i && w.depths[f] == depth) ==> Restored(start, r.chain, id))
    decreases i
  {
    if i > 0 {
      AfterEachOfRestores(w, start, f, depth, i - 1);
      if w.path[i - 1].Sandbox? && w.depths[i - 1] == depth {
        RevertProgress(
          start, AfterEachOf(w, depth, i - 1).chain, w.closures[f].snapshotId, w.closures[i - 1].snapshotId);
      }
    }
  }

  /** The afterEach hooks of the whole path end with the outermost sandbox that is alive restored. */
  lemma {:induction false} AfterEachRestores<S>(w: World<S>, start: Chain<S>, f: nat, depth: nat)
    requires Outermost(w, start, f) && Underway(w, start, f)
    requires 0 < w.depths[f] <= depth || Restored(start, w.chain, w.closures[f].snapshotId)
    ensures Restored(start, AfterEach(w, depth).chain, w.closures[f].snapshotId)
    decreases depth
  {
    if depth > 0 {
      AfterEachOfRestores(w, start, f, depth, |w.path|);
      AfterEachRestores(AfterEachOf(w, depth, |w.path|), start, f, depth - 1);
    }
  }

  /** Sandboxes whose snapshots are consumed restore nothing. */
  lemma {:induction false} DeadAfterEachOf<S>(w: World<S>, depth: nat, i: nat)
    requires w.Shaped() && i <= |w.path|
    requires forall k :: 0 <= k < |w.path| && w.path[k].Sandbox? ==> w.closures[k].snapshotId !in w.chain.snapshots
    ensures AfterEachOf(w, depth, i) == w
    decreases i
  {
    if i > 0 {
      DeadAfterEachOf(w, depth, i - 1);
    }
  }

  lemma {:induction false} DeadAfterEach<S>(w: World<S>, depth: nat)
    requires w.Shaped()
    requires forall k :: 0 <= k < |w.path| && w.path[k].Sandbox? ==> w.closures[k].snapshotId !in w.chain.snapshots
    ensures AfterEach(w, depth) == w
    decreases depth
  {
    if depth > 0 {
      DeadAfterEachOf(w, depth, |w.path|);
      DeadAfterEach(w, depth - 1);
    }
  }
}
