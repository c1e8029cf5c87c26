/** One test over whatever snapshots earlier tests left. The initialized cached hooks only renew the innermost
    id, and the hooks after the last of them only add to the chain and its snapshots. */
module TestPhases {
  import opened SnapshotChain
  import opened SuiteRuns
  import opened TestingUtils
  import opened CacheProofs

  /** The position of the cached hook that k others precede, among the first i hooks. */
  function NthCached<S>(path: seq<Hook<S>>, k: nat, i: nat): (p: nat)
    requires i <= |path| && k < Count(path, i)
    ensures p < i && path[p].Cached? && Count(path, p) == k
    decreases i
  {
    if k < Count(path, i - 1) then NthCached(path, k, i - 1) else i - 1
  }

  function Top(stack: seq<nat>): nat
    requires stack != []
  {
    stack[|stack| - 1]
  }

  // ----- The first cached hook of the path reverts to a consumed id

  /** Hooks before it only add snapshots. */
  lemma {:induction false} BeforeFirstCached<S>(w: World<S>, i: nat)
    requires Balanced(w) && w.chain.Valid() && i <= |w.path| && Count(w.path, i) == 0
    ensures var r := BeforeEach(w, i);
            && Balanced(r) && r.chain.Valid() && r.stack == w.stack && r.stale == w.stale
            && r.chain.state == Exec(w.path, w.chain.state, i)
            && w.chain.nextId <= r.chain.nextId && SameBelow(w.chain, r.chain, w.chain.nextId)
    decreases i
  {
    if i > 0 {
      BeforeFirstCached(w, i - 1);
      BeforeEachBalanced(w, i);
    }
  }

  lemma {:induction false} StaleStays<S>(w: World<S>, i: nat, k: nat)
    requires w.Shaped() && i <= k <= |w.path| && BeforeEach(w, i).stale
    ensures BeforeEach(w, k).stale
    decreases k
  {
    hide RunHook;
    if i < k {
      StaleStays(w, i, k - 1);
    }
  }

  /** The hooks up to position c and then those from there on. */
  lemma {:induction false} ExecSplits<S>(path: seq<Hook<S>>, s: S, c: nat, i: nat)
    requires c <= i <= |path|
    ensures ExecFrom(path, Exec(path, s, c), c, i) == Exec(path, s, i)
    decreases i
  {
    if c < i {
      ExecSplits(path, s, c, i - 1);
    }
  }

  /** The state that the first cached hook goes back to: that of the innermost id if it is alive, otherwise the
      one it finds. */
  ghost function Recalled<S>(w: World<S>): S
    requires w.stack != [] && 0 < Count(w.path, |w.path|)
  {
    if Top(w.stack) in w.chain.snapshots then w.chain.snapshots[Top(w.stack)]
    else Exec(w.path, w.chain.state, NthCached(w.path, 0, |w.path|))
  }

  /** Every id was handed out before. */
  ghost predicate Known<S>(c: Chain<S>, stack: seq<nat>) {
    forall j :: 0 <= j < |stack| ==> stack[j] < c.nextId
  }

  /** The ids below this one are out of a test's reach. */
  ghost function Reach<S>(c: Chain<S>, stack: seq<nat>): nat {
    if stack != [] && Top(stack) in c.snapshots then Top(stack) else c.nextId
  }

  // ----- While initialized hooks run

  /** The innermost id is new, alive and holds s; older ids and snapshots are as they were. */
  ghost predicate Renewed<S>(c: Chain<S>, stack: seq<nat>, d: Chain<S>, stack': seq<nat>, s: S) {
    && d.Valid() && stack != [] && |stack'| == |stack| && stack'[..|stack| - 1] == stack[..|stack| - 1]
    && c.nextId <= Top(stack') < d.nextId && Top(stack') in d.snapshots && d.snapshots[Top(stack')] == s
    && SameBelow(c, d, Reach(c, stack))
  }

  /** An initialized hook that finds the innermost id consumed, or alive. */
  lemma CachedRecalls<S>(c: Cache<S>, initializer: S -> S)
    requires c.initialized && c.stack != [] && c.chain.Valid()
    ensures var r, id := CachedBeforeEach(c, initializer), Top(c.stack);
            var s := if id in c.chain.snapshots then c.chain.snapshots[id] else c.chain.state;
            && Renewed(c.chain, c.stack, r.chain, r.stack, s) && r.chain.state == s
            && (r.stale <==> c.stale || id !in c.chain.snapshots)
            && (forall k :: id <= k < c.chain.nextId && id in c.chain.snapshots ==> k !in r.chain.snapshots)
            && (forall k :: k < c.chain.nextId && k in r.chain.snapshots ==> k in c.chain.snapshots)
  {
  }

  lemma RenewedTwice<S>(
    c: Chain<S>, stack: seq<nat>, d: Chain<S>, stack': seq<nat>, e: Chain<S>, stack'': seq<nat>, s: S)
    requires Renewed(c, stack, d, stack', s) && Renewed(d, stack', e, stack'', s)
    requires Reach(c, stack) <= c.nextId
    ensures Renewed(c, stack, e, stack'', s)
  {
  }

  lemma RenewedGrows<S>(c: Chain<S>, stack: seq<nat>, d: Chain<S>, stack': seq<nat>, e: Chain<S>, s: S)
    requires Renewed(c, stack, d, stack', s)
    requires e.Valid() && d.nextId <= e.nextId && SameBelow(d, e, d.nextId) && Reach(c, stack) <= d.nextId
    ensures Renewed(c, stack, e, stack', s)
  {
  }

  /** The last cached hook among the first i. */
  function LastCached<S>(path: seq<Hook<S>>, i: nat): (l: nat)
    requires i <= |path| && 0 < Count(path, i)
    ensures l < i && path[l].Cached? && Count(path, l) == Count(path, i) - 1
  {
    NthCached(path, Count(path, i) - 1, i)
  }

  lemma CountNext<S>(path: seq<Hook<S>>, i: nat)
    requires i < |path| && path[i].Cached?
    ensures Count(path, i + 1) == Count(path, i) + 1
  {
  }

  lemma LastCachedIs<S>(path: seq<Hook<S>>, i: nat)
    requires 0 < i <= |path| && path[i - 1].Cached?
    ensures 0 < Count(path, i) && LastCached(path, i) == i - 1
  {
    CountMono(path, i - 1, i);
  }

  /** Between the first cached hook and the end of the initialized ones: the state is s with the hooks since
      the last cached one run. */
  ghost predicate Rewound<S>(w: World<S>, r: World<S>, s: S, i: nat)
    requires i <= |w.path|
  {
    && Balanced(r) && r.path == w.path
    && 0 < Count(w.path, i) <= |w.stack|
    && Renewed(w.chain, w.stack, r.chain, r.stack, s)
    && r.chain.state == ExecFrom(w.path, s, LastCached(w.path, i) + 1, i)
  }

  /** A sandbox with a cached hook before and another after it has lost its snapshot; one after the last cached
      hook so far holds a larger id than the innermost one. */
  ghost predicate Swept<S>(r: World<S>, i: nat)
    requires i <= |r.path| == |r.closures|
  {
    r.stack != [] &&
    forall k {:trigger r.closures[k]} :: 0 <= k < i && r.path[k].Sandbox? && 0 < Count(r.path, k) ==>
      && r.closures[k].snapshotId < r.chain.nextId
      && if Count(r.path, k) == Count(r.path, i) then Top(r.stack) < r.closures[k].snapshotId
         else r.closures[k].snapshotId !in r.chain.snapshots
  }

  lemma FirstCachedRecalls<S>(w: World<S>, p: nat)
    requires Balanced(w) && w.chain.Valid() && w.stack != [] && Known(w.chain, w.stack)
    requires p < |w.path| && w.path[p].Cached? && Count(w.path, p) == 0 && p == NthCached(w.path, 0, |w.path|)
    ensures var r := BeforeEach(w, p + 1);
            && Rewound(w, r, Recalled(w), p + 1)
            && (r.stale <==> w.stale || Top(w.stack) !in w.chain.snapshots)
  {
    hide RunHook, Renewed, Balanced, Rewound, SameBelow, Exec;
    BeforeFirstCached(w, p);
    BeforeEachBalanced(w, p + 1);
    FirstHookRecalls(w, BeforeEach(w, p), p);
    RewoundAtFirst(w, BeforeEach(w, p + 1), p);
  }

  lemma RewoundAtFirst<S>(w: World<S>, r: World<S>, p: nat)
    requires p < |w.path| && w.path[p].Cached? && Count(w.path, p) == 0 && w.stack != []
    requires Balanced(r) && r.path == w.path && 0 < Count(w.path, |w.path|)
    requires Renewed(w.chain, w.stack, r.chain, r.stack, Recalled(w)) && r.chain.state == Recalled(w)
    ensures Rewound(w, r, Recalled(w), p + 1)
  {
    hide Renewed, Recalled, Balanced;
    LastCachedIs(w.path, p + 1);
    CountNext(w.path, p);
  }

  /** The step of that hook alone. */
  lemma FirstHookRecalls<S>(w: World<S>, v: World<S>, p: nat)
    requires Balanced(w) && w.stack != [] && Known(w.chain, w.stack) && p < |w.path|
    requires w.path[p].Cached? && Count(w.path, p) == 0
    requires Balanced(v) && v.path == w.path && v.chain.Valid() && v.stack == w.stack
    requires w.chain.nextId <= v.chain.nextId && SameBelow(w.chain, v.chain, w.chain.nextId)
    ensures var r, id := RunHook(v, p), Top(w.stack);
            var s := if id in w.chain.snapshots then w.chain.snapshots[id] else v.chain.state;
            && Renewed(w.chain, w.stack, r.chain, r.stack, s) && r.chain.state == s
            && (r.stale <==> v.stale || id !in w.chain.snapshots)
  {
    hide CachedBeforeEach;
    assert v.closures[p].initialized;
    CachedRecalls(Cache(v.chain, v.stack, true, v.underflow, v.stale), w.path[p].initializer);
  }

  lemma RunHookRewound<S>(w: World<S>, r: World<S>, s: S, i: nat)
    requires i < |w.path| && Rewound(w, r, s, i) && Known(w.chain, w.stack) && Count(w.path, i + 1) <= |w.stack|
    ensures Rewound(w, RunHook(r, i), s, i + 1)
  {
    RunHookBalanced(r, i);
    ReachKnown(w.chain, w.stack);
    match w.path[i]
    case Plain(action) =>
      RenewedGrows(w.chain, w.stack, r.chain, r.stack, r.chain.Act(action), s);
    case Sandbox =>
      RenewedGrows(w.chain, w.stack, r.chain, r.stack, r.chain.Snapshot(), s);
    case Cached(initializer) =>
      hide CachedBeforeEach, Renewed;
      assert r.closures[i].initialized;
      RenewedTop(w.chain, w.stack, r.chain, r.stack, s);
      CachedRecalls(Cache(r.chain, r.stack, true, r.underflow, r.stale), initializer);
      RenewedTwice(w.chain, w.stack, r.chain, r.stack, RunHook(r, i).chain, RunHook(r, i).stack, s);
  }

  lemma ReachKnown<S>(c: Chain<S>, stack: seq<nat>)
    requires Known(c, stack)
    ensures Reach(c, stack) <= c.nextId
  {
  }

  lemma RenewedTop<S>(c: Chain<S>, stack: seq<nat>, d: Chain<S>, stack': seq<nat>, s: S)
    requires Renewed(c, stack, d, stack', s)
    ensures d.Valid() && stack' != [] && Top(stack') in d.snapshots && d.snapshots[Top(stack')] == s
  {
  }

  lemma RunHookSwept<S>(w: World<S>, r: World<S>, s: S, i: nat)
    requires i < |w.path| && Rewound(w, r, s, i) && Swept(r, i) && Count(w.path, i + 1) <= |w.stack|
    ensures Swept(RunHook(r, i), i + 1)
  {
    RenewedTop(w.chain, w.stack, r.chain, r.stack, s);
    match w.path[i]
    case Plain(_) =>
    case Sandbox =>
    case Cached(initializer) =>
      hide CachedBeforeEach, Renewed;
      assert r.closures[i].initialized;
      CachedRecalls(Cache(r.chain, r.stack, true, r.underflow, r.stale), initializer);
      SweptByHook(r, RunHook(r, i), i);
  }

  lemma SweptByHook<S>(r: World<S>, r': World<S>, i: nat)
    requires i < |r.path| && r.path[i].Cached? && r.Shaped() && Swept(r, i)
    requires SamePath(r, r') && r'.stack != [] && r.chain.nextId <= r'.chain.nextId
    requires forall k :: 0 <= k < i ==> r'.closures[k] == r.closures[k]
    requires forall k :: Top(r.stack) <= k < r.chain.nextId ==> k !in r'.chain.snapshots
    requires forall k :: k < r.chain.nextId && k in r'.chain.snapshots ==> k in r.chain.snapshots
    ensures Swept(r', i + 1)
  {
    forall k {:trigger r'.closures[k]} | 0 <= k < i && r.path[k].Sandbox? && 0 < Count(r.path, k)
      ensures r'.closures[k].snapshotId !in r'.chain.snapshots && Count(r.path, k) < Count(r.path, i + 1)
    {
      CountMono(r.path, k, i);
      assert r'.closures[k] == r.closures[k];
    }
  }

  /** While the initialized hooks run, up to position i. */
  lemma {:induction false} BeforeEachRewinds<S>(w: World<S>, i: nat)
    requires Balanced(w) && w.chain.Valid() && w.stack != [] && Known(w.chain, w.stack)
    requires i <= |w.path| && 0 < Count(w.path, i) <= |w.stack|
    ensures var r := BeforeEach(w, i); Rewound(w, r, Recalled(w), i) && Swept(r, i)
    decreases i
  {
    hide RunHook, Rewound, Swept;
    var p := NthCached(w.path, 0, |w.path|);
    if i <= p {
      CountMono(w.path, i, p);
    } else if i == p + 1 {
      FirstCachedRecalls(w, p);
      SweptFirst(w, BeforeEach(w, i), Recalled(w), p);
    } else {
      CountMono(w.path, p, i - 1);
      CountMono(w.path, i - 1, i);
      BeforeEachRewinds(w, i - 1);
      RunHookRewound(w, BeforeEach(w, i - 1), Recalled(w), i - 1);
      RunHookSwept(w, BeforeEach(w, i - 1), Recalled(w), i - 1);
    }
  }

  lemma SweptFirst<S>(w: World<S>, r: World<S>, s: S, p: nat)
    requires p < |w.path| && w.path[p].Cached? && Count(w.path, p) == 0 && Rewound(w, r, s, p + 1)
    ensures Swept(r, p + 1)
  {
    hide Tracks;
    forall k | 0 <= k < p
      ensures Count(w.path, k) == 0
    {
      CountMono(w.path, k, p);
    }
    RenewedTop(w.chain, w.stack, r.chain, r.stack, s);
  }

  // ----- Once they have run

  /** Where the hooks that are not initialized yet begin, when m cached hooks are. */
  function Resume<S>(path: seq<Hook<S>>, m: nat): (c: nat)
    requires m <= Count(path, |path|)
    ensures c <= |path| && Count(path, c) == m
    ensures 0 < m ==> 0 < c && path[c - 1].Cached?
  {
    if m == 0 then 0 else NthCached(path, m - 1, |path|) + 1
  }

  /** The last of the m initialized hooks is outside when there are at most that many. */
  lemma OutsideResume<S>(path: seq<Hook<S>>, m: nat)
    requires m <= Outside(path)
    ensures m <= Count(path, |path|) && Resume(path, m) <= FirstSandbox(path)
    ensures SandboxFrom(path, Resume(path, m)) == FirstSandbox(path)
  {
    var f := FirstSandbox(path);
    CountMono(path, f, |path|);
    if 0 < m && f < Resume(path, m) {
      CountMono(path, f, Resume(path, m) - 1);
    }
  }

  /** Nothing reverted: new snapshots beside the old ones, new ids above the old ones. */
  ghost predicate Extends<S>(c: Chain<S>, stack: seq<nat>, d: Chain<S>, stack': seq<nat>) {
    && d.Valid() && stack <= stack' && c.nextId <= d.nextId && SameBelow(c, d, c.nextId)
    && (forall j :: |stack| <= j < |stack'| ==> c.nextId <= stack'[j] && stack'[j] in d.snapshots)
    && (forall j, k :: |stack| <= j < k < |stack'| ==> stack'[j] < stack'[k])
  }

  lemma ExtendsFurther<S>(c: Chain<S>, stack: seq<nat>, d: Chain<S>, stack': seq<nat>, action: S -> S)
    requires Extends(c, stack, d, stack')
    ensures Extends(c, stack, d.Act(action), stack') && Extends(c, stack, d.Snapshot(), stack')
    ensures d.Valid() && Extends(c, stack, d.Act(action).Snapshot(), stack' + [d.nextId])
  {
  }

  /** From position c on: new ids and snapshots beside the old ones, and the hooks' actions on the state. */
  ghost predicate Grown<S>(v: World<S>, r: World<S>, c: nat, i: nat)
    requires c <= i <= |v.path|
  {
    && Balanced(r) && r.path == v.path && |r.stack| == Count(v.path, i)
    && Extends(v.chain, v.stack, r.chain, r.stack)
    && r.chain.state == ExecFrom(v.path, v.chain.state, c, i)
  }

  /** The sandbox's id is alive and holds s; of the ids pushed from position first on, those below position
      inner are smaller, the others larger. */
  ghost predicate Guarding<S>(c: Chain<S>, stack: seq<nat>, first: nat, inner: nat, id: nat, s: S) {
    && c.Valid() && id in c.snapshots && c.snapshots[id] == s
    && (forall j :: first <= j < |stack| ==> if j < inner then stack[j] < id else id < stack[j])
  }

  lemma GuardingGrows<S>(c: Chain<S>, stack: seq<nat>, first: nat, inner: nat, id: nat, s: S, action: S -> S)
    requires Guarding(c, stack, first, inner, id, s)
    ensures Guarding(c.Act(action), stack, first, inner, id, s)
    ensures Guarding(c.Snapshot(), stack, first, inner, id, s) && id < c.nextId
    ensures inner <= |stack| ==> Guarding(c.Act(action).Snapshot(), stack + [c.nextId], first, inner, id, s)
  {
  }

  lemma GuardingStarts<S>(c: Chain<S>, stack: seq<nat>, first: nat)
    requires c.Valid() && forall j :: first <= j < |stack| ==> stack[j] in c.snapshots
    ensures Guarding(c.Snapshot(), stack, first, |stack|, c.nextId, c.state)
  {
  }

  /** The first sandbox from c on holds the state it found, and later sandboxes have larger ids. */
  ghost predicate Guards<S>(v: World<S>, r: World<S>, c: nat, i: nat)
    requires c <= i <= |v.path| == |r.closures| == |v.closures| && r.path == v.path
  {
    var g := SandboxFrom(v.path, c);
    && (forall k :: 0 <= k < c ==> r.closures[k].snapshotId == v.closures[k].snapshotId)
    && (g < i ==>
          var id := r.closures[g].snapshotId;
          && v.chain.nextId <= id
          && Guarding(
               r.chain, r.stack, |v.stack|, Count(v.path, g), id, ExecFrom(v.path, v.chain.state, c, g))
          && (forall k :: g < k < i && r.path[k].Sandbox? ==> id < r.closures[k].snapshotId))
  }

  /** A hook without an id of its own only adds to the snapshots. */
  lemma CachedInitializes<S>(c: Cache<S>, initializer: S -> S)
    requires !c.initialized && c.chain.Valid()
    ensures var r := CachedBeforeEach(c, initializer);
            && r.chain == c.chain.Act(initializer).Snapshot()
            && r.stack == c.stack + [c.chain.nextId] && r.chain.Valid()
  {
  }

  lemma RunHookGrown<S>(v: World<S>, r: World<S>, c: nat, i: nat)
    requires c <= i < |v.path| && Grown(v, r, c, i)
    ensures Grown(v, RunHook(r, i), c, i + 1)
  {
    hide CachedBeforeEach, Extends;
    RunHookBalanced(r, i);
    match v.path[i]
    case Plain(action) =>
      ExtendsFurther(v.chain, v.stack, r.chain, r.stack, action);
    case Sandbox =>
      ExtendsFurther(v.chain, v.stack, r.chain, r.stack, (s: S) => s);
    case Cached(initializer) =>
      assert !r.closures[i].initialized;
      ExtendsFurther(v.chain, v.stack, r.chain, r.stack, initializer);
      CachedInitializes(Cache(r.chain, r.stack, false, r.underflow, r.stale), initializer);
  }

  lemma RunHookGuards<S>(v: World<S>, r: World<S>, c: nat, i: nat)
    requires v.Shaped() && c <= i < |v.path| && Grown(v, r, c, i) && Guards(v, r, c, i)
    ensures Guards(v, RunHook(r, i), c, i + 1)
  {
    hide Guarding, Tracks, Extends, CachedBeforeEach;
    var g := SandboxFrom(v.path, c);
    ExtendsParts(v.chain, v.stack, r.chain, r.stack);
    if g < i {
      CountMono(v.path, g, i);
      GuardedHook(
        r, i, |v.stack|, Count(v.path, g), r.closures[g].snapshotId, ExecFrom(v.path, v.chain.state, c, g));
    } else if g == i {
      GuardingStarts(r.chain, r.stack, |v.stack|);
    }
  }

  lemma ExtendsParts<S>(c: Chain<S>, stack: seq<nat>, d: Chain<S>, stack': seq<nat>)
    requires Extends(c, stack, d, stack')
    ensures d.Valid() && c.nextId <= d.nextId
    ensures forall j :: |stack| <= j < |stack'| ==> stack'[j] in d.snapshots
  {
  }

  lemma GuardedHook<S>(r: World<S>, i: nat, first: nat, inner: nat, id: nat, s: S)
    requires Balanced(r) && i < |r.path| && |r.stack| == Count(r.path, i) && inner <= |r.stack|
    requires Guarding(r.chain, r.stack, first, inner, id, s)
    ensures var r' := RunHook(r, i);
            && Guarding(r'.chain, r'.stack, first, inner, id, s)
            && (r.path[i].Sandbox? ==> id < r'.closures[i].snapshotId)
  {
    hide Guarding, CachedBeforeEach;
    match r.path[i]
    case Plain(action) =>
      GuardingGrows(r.chain, r.stack, first, inner, id, s, action);
    case Sandbox =>
      GuardingGrows(r.chain, r.stack, first, inner, id, s, (x: S) => x);
    case Cached(initializer) =>
      assert !r.closures[i].initialized && r.chain.Valid() by {
        GuardingValid(r.chain, r.stack, first, inner, id, s);
      }
      CachedInitializes(Cache(r.chain, r.stack, false, r.underflow, r.stale), initializer);
      GuardingGrows(r.chain, r.stack, first, inner, id, s, initializer);
  }

  lemma GuardingValid<S>(c: Chain<S>, stack: seq<nat>, first: nat, inner: nat, id: nat, s: S)
    requires Guarding(c, stack, first, inner, id, s)
    ensures c.Valid()
  {
  }

  lemma GrowsFromHere<S>(v: World<S>, c: nat)
    requires c <= |v.path| && Balanced(v) && v.chain.Valid() && |v.stack| == Count(v.path, c)
    ensures Grown(v, v, c, c) && Guards(v, v, c, c)
  {
  }

  lemma GrownShape<S>(v: World<S>, r: World<S>, c: nat, i: nat)
    requires c <= i <= |v.path| && Grown(v, r, c, i)
    ensures r.chain.Valid() && r.path == v.path && r.chain.state == ExecFrom(v.path, v.chain.state, c, i)
  {
  }

  lemma {:induction false} BeforeEachGrows<S>(w: World<S>, c: nat, i: nat)
    requires w.Shaped() && c <= i <= |w.path|
    requires var v := BeforeEach(w, c); Balanced(v) && v.chain.Valid() && |v.stack| == Count(w.path, c)
    ensures var v, r := BeforeEach(w, c), BeforeEach(w, i); Grown(v, r, c, i) && Guards(v, r, c, i)
    decreases i
  {
    hide RunHook, Grown, Guards, Balanced;
    if i == c {
      GrowsFromHere(BeforeEach(w, c), c);
    } else {
      BeforeEachGrows(w, c, i - 1);
      RunHookGrown(BeforeEach(w, c), BeforeEach(w, i - 1), c, i - 1);
      RunHookGuards(BeforeEach(w, c), BeforeEach(w, i - 1), c, i - 1);
    }
  }

  // ----- Both together

  /** What the hooks from Resume on start from. */
  ghost function Base<S>(w: World<S>): S
    requires w.stack == [] || 0 < Count(w.path, |w.path|)
  {
    if w.stack == [] then w.chain.state else Recalled(w)
  }

  /** The world in which the hooks that are not initialized yet begin. Sandboxes with a cached hook before them
      are lost. */
  ghost predicate Resumed<S>(w: World<S>, v: World<S>) {
    var m := |w.stack|;
    && Balanced(v) && v.path == w.path && v.chain.Valid() && |v.stack| == m <= Count(w.path, |w.path|)
    && v.chain.state == Base(w)
    && (m == 0 ==> v == w)
    && (m > 0 ==> Renewed(w.chain, w.stack, v.chain, v.stack, Base(w)))
    && forall k {:trigger v.closures[k]} ::
         0 <= k < Resume(w.path, m) && w.path[k].Sandbox? && 0 < Count(w.path, k) ==>
           v.closures[k].snapshotId < v.chain.nextId && v.closures[k].snapshotId !in v.chain.snapshots
  }

  lemma Resumes<S>(w: World<S>)
    requires Balanced(w) && w.chain.Valid() && Known(w.chain, w.stack)
    ensures Resumed(w, BeforeEach(w, Resume(w.path, |w.stack|)))
  {
    hide RunHook, Tracks;
    var m, c := |w.stack|, Resume(w.path, |w.stack|);
    if m > 0 {
      BeforeEachRewinds(w, c);
      LastCachedIs(w.path, c);
      var v := BeforeEach(w, c);
      forall k {:trigger v.closures[k]} | 0 <= k < c && w.path[k].Sandbox? && 0 < Count(w.path, k)
        ensures v.closures[k].snapshotId < v.chain.nextId && v.closures[k].snapshotId !in v.chain.snapshots
      {
        CountMono(w.path, k, c - 1);
      }
    }
  }

  lemma ResumedBalanced<S>(w: World<S>, v: World<S>)
    requires Resumed(w, v)
    ensures Balanced(v) && v.chain.Valid() && |v.stack| == |w.stack| && v.chain.state == Base(w)
  {
  }

  /** Where a test starts, over any snapshots. */
  lemma TestStart<S>(w: World<S>, test: S -> S, depth: nat)
    requires Balanced(w) && w.chain.Valid() && Known(w.chain, w.stack)
    ensures RunTest(w, test, depth).starts ==
            w.starts + [ExecFrom(w.path, Base(w), Resume(w.path, |w.stack|), |w.path|)]
  {
    hide RunHook, Tracks, AfterEach, Resumed, Base;
    var c := Resume(w.path, |w.stack|);
    Resumes(w);
    ResumedBalanced(w, BeforeEach(w, c));
    BeforeEachGrows(w, c, |w.path|);
  }
}
