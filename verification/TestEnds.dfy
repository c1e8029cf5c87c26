/** What a test leaves behind, over any snapshots that earlier tests may have left. */
module TestEnds {
  import opened SnapshotChain
  import opened SuiteRuns
  import opened CacheProofs
  import opened TestPhases
  import opened InnerHooks

  /** The ids pushed outside every sandbox are alive, and an id that is alive is larger than those below it. */
  ghost predicate Kept<S>(c: Chain<S>, stack: seq<nat>, outside: nat) {
    && Known(c, stack)
    && (forall j :: 0 <= j < |stack| && j < outside ==> stack[j] in c.snapshots)
    && (forall i, j :: 0 <= i < j < |stack| && stack[j] in c.snapshots ==> stack[i] < stack[j])
  }

  /** What holds at every test boundary of every run. */
  ghost predicate Sound<S>(w: World<S>, depth: nat) {
    && Balanced(w) && w.chain.Valid() && Kept(w.chain, w.stack, Outside(w.path))
    && (Outside(w.path) == 0 ==> Consumed(w.chain, w.stack, 0))
    && (forall i :: 0 <= i < |w.depths| ==> 0 < w.depths[i] <= depth)
  }

  // ----- The ids of the stack

  lemma RenewedKeeps<S>(c: Chain<S>, stack: seq<nat>, d: Chain<S>, stack': seq<nat>, s: S, outside: nat)
    requires Kept(c, stack, outside) && Renewed(c, stack, d, stack', s)
    ensures Kept(d, stack', outside)
  {
    forall j | 0 <= j < |stack| - 1
      ensures stack'[j] == stack[j] && stack[j] < c.nextId
      ensures stack[j] in d.snapshots <==> stack[j] in c.snapshots
    {
      assert stack'[..|stack| - 1][j] == stack[..|stack| - 1][j];
    }
  }

  lemma ResumedKeeps<S>(w: World<S>, v: World<S>, outside: nat)
    requires Kept(w.chain, w.stack, outside) && Resumed(w, v)
    ensures Kept(v.chain, v.stack, outside)
  {
    if w.stack != [] {
      RenewedKeeps(w.chain, w.stack, v.chain, v.stack, Base(w), outside);
    }
  }

  lemma GrownKeeps<S>(v: World<S>, r: World<S>, c: nat, i: nat, outside: nat)
    requires c <= i <= |v.path| && Kept(v.chain, v.stack, outside) && Grown(v, r, c, i)
    ensures Kept(r.chain, r.stack, outside)
  {
    hide Balanced;
    forall j | 0 <= j < |v.stack|
      ensures r.stack[j] == v.stack[j] && (v.stack[j] in r.chain.snapshots <==> v.stack[j] in v.chain.snapshots)
    {
    }
  }

  lemma RestoredKeeps<S>(start: Chain<S>, c: Chain<S>, id: nat, stack: seq<nat>, outside: nat)
    requires Kept(start, stack, outside) && Restored(start, c, id)
    requires forall j :: 0 <= j < |stack| && j < outside ==> stack[j] < id
    ensures Kept(c, stack, outside)
  {
  }

  // ----- The afterEach hooks

  /** The sandboxes of a path when a test has run: those before position c are lost, the first one from there on
      guards the state it found. */
  lemma SandboxesOfTest<S>(t: World<S>, g: nat, c: nat, depth: nat)
    requires t.Shaped() && c <= |t.path| && g == SandboxFrom(t.path, c)
    requires forall k :: 0 <= k < c && t.path[k].Sandbox? ==> t.closures[k].snapshotId !in t.chain.snapshots
    requires forall i :: 0 <= i < |t.depths| ==> 0 < t.depths[i] <= depth
    requires g < |t.path| ==> t.closures[g].snapshotId in t.chain.snapshots
    requires forall k :: g < k < |t.path| && t.path[k].Sandbox? ==>
                           t.closures[g].snapshotId < t.closures[k].snapshotId
    ensures if g < |t.path| then Restored(t.chain, AfterEach(t, depth).chain, t.closures[g].snapshotId)
            else AfterEach(t, depth) == t
  {
    if g < |t.path| {
      AfterEachRestores(t, t.chain, g, depth);
    } else {
      DeadAfterEach(t, depth);
    }
  }

  // ----- One test

  /** The state in which a test ends when the path has cached hooks outside its sandboxes or no sandbox: the
      first sandbox after the last initialized cached hook undoes it, if there is one. */
  ghost function EndState<S>(w: World<S>, test: S -> S): S
    requires |w.stack| <= Count(w.path, |w.path|)
  {
    var c := Resume(w.path, |w.stack|);
    var g := SandboxFrom(w.path, c);
    var s := ExecFrom(w.path, Base(w), c, g);
    if g < |w.path| then s else test(s)
  }

  /** The hooks of a test, up to the test itself. */
  lemma TestRuns<S>(w: World<S>, depth: nat)
    requires Sound(w, depth)
    ensures |w.stack| <= Count(w.path, |w.path|)
    ensures var v, r := BeforeEach(w, Resume(w.path, |w.stack|)), BeforeEach(w, |w.path|);
            && Resumed(w, v) && Kept(v.chain, v.stack, Outside(w.path))
            && Grown(v, r, Resume(w.path, |w.stack|), |w.path|) && Guards(v, r, Resume(w.path, |w.stack|), |w.path|)
            && Kept(r.chain, r.stack, Outside(w.path))
  {
    hide RunHook, Balanced, Kept, Resumed, Grown, Guards, Outside;
    SoundParts(w, depth);
    var c := Resume(w.path, |w.stack|);
    Resumes(w);
    var v := BeforeEach(w, c);
    ResumedBalanced(w, v);
    ResumedKeeps(w, v, Outside(w.path));
    BeforeEachGrows(w, c, |w.path|);
    GrownKeeps(v, BeforeEach(w, |w.path|), c, |w.path|, Outside(w.path));
  }

  lemma SoundParts<S>(w: World<S>, depth: nat)
    requires Sound(w, depth)
    ensures Balanced(w) && w.chain.Valid() && Known(w.chain, w.stack) && Kept(w.chain, w.stack, Outside(w.path))
    ensures w.Shaped() && |w.stack| <= Count(w.path, |w.path|)
    ensures forall i :: 0 <= i < |w.depths| ==> 0 < w.depths[i] <= depth
  {
  }

  /** Sandboxes before the last initialized hook are lost. */
  lemma InnerSandboxesLost<S>(w: World<S>, v: World<S>, r: World<S>)
    requires w.path == v.path && |w.stack| <= Count(w.path, |w.path|)
    requires w.stack == [] || 0 < Outside(w.path)
    requires Resumed(w, v) && Grown(v, r, Resume(w.path, |w.stack|), |w.path|)
    requires Guards(v, r, Resume(w.path, |w.stack|), |w.path|)
    ensures forall k :: 0 <= k < Resume(w.path, |w.stack|) && w.path[k].Sandbox? ==>
                          r.closures[k].snapshotId !in r.chain.snapshots
  {
    hide Tracks;
    forall k | 0 <= k < Resume(w.path, |w.stack|) && w.path[k].Sandbox?
      ensures r.closures[k].snapshotId !in r.chain.snapshots
    {
      CountMono(w.path, FirstSandbox(w.path), k);
      assert v.closures[k].snapshotId !in v.chain.snapshots;
    }
  }

  /** The first sandbox from position c on holds the state it found, and is younger than the ids outside. */
  lemma GuardHolds<S>(v: World<S>, r: World<S>, c: nat, outside: nat)
    requires v.Shaped() && c <= |v.path| && Grown(v, r, c, |v.path|) && Guards(v, r, c, |v.path|)
    requires Known(v.chain, v.stack) && outside <= Count(v.path, SandboxFrom(v.path, c))
    requires SandboxFrom(v.path, c) < |v.path|
    ensures var g := SandboxFrom(v.path, c);
            var id := r.closures[g].snapshotId;
            && id in r.chain.snapshots && r.chain.snapshots[id] == ExecFrom(v.path, v.chain.state, c, g)
            && (forall j :: 0 <= j < |r.stack| && j < outside ==> r.stack[j] < id)
            && (forall k :: g < k < |r.path| && r.path[k].Sandbox? ==> id < r.closures[k].snapshotId)
  {
    hide Tracks;
    assert forall j :: 0 <= j < |v.stack| ==> r.stack[j] == v.stack[j];
  }

  /** When the hooks have run: sandboxes before position c are lost, and the first one from there on, if any,
      guards the state it found. */
  ghost predicate Finished<S>(r: World<S>, base: S, c: nat, outside: nat)
    requires r.Shaped() && c <= |r.path|
  {
    var g := SandboxFrom(r.path, c);
    && r.chain.Valid() && Kept(r.chain, r.stack, outside)
    && (forall k :: 0 <= k < c && r.path[k].Sandbox? ==> r.closures[k].snapshotId !in r.chain.snapshots)
    && (g < |r.path| ==>
          var id := r.closures[g].snapshotId;
          && id in r.chain.snapshots && r.chain.snapshots[id] == ExecFrom(r.path, base, c, g)
          && (forall j :: 0 <= j < |r.stack| && j < outside ==> r.stack[j] < id)
          && (forall k :: g < k < |r.path| && r.path[k].Sandbox? ==> id < r.closures[k].snapshotId))
  }

  lemma HooksFinish<S>(w: World<S>, depth: nat)
    requires Sound(w, depth) && (w.stack == [] || 0 < Outside(w.path))
    ensures |w.stack| <= Count(w.path, |w.path|)
    ensures var r, c := BeforeEach(w, |w.path|), Resume(w.path, |w.stack|);
            Finished(r, Base(w), c, Outside(w.path)) && r.chain.state == ExecFrom(w.path, Base(w), c, |w.path|)
  {
    hide RunHook, Tracks, Kept, Resumed, Grown, Guards, Base, Count, ExecFrom, Resume, SandboxFrom, FirstSandbox;
    SoundParts(w, depth);
    var c := Resume(w.path, |w.stack|);
    var v, r, g := BeforeEach(w, c), BeforeEach(w, |w.path|), SandboxFrom(w.path, c);
    TestRuns(w, depth);
    ResumedBalanced(w, v);
    GrownShape(v, r, c, |w.path|);
    InnerSandboxesLost(w, v, r);
    if g < |w.path| {
      CountMono(w.path, FirstSandbox(w.path), g);
      KeptKnown(v.chain, v.stack, Outside(w.path));
      GuardHolds(v, r, c, Outside(w.path));
    }
  }

  lemma KeptKnown<S>(c: Chain<S>, stack: seq<nat>, outside: nat)
    requires Kept(c, stack, outside)
    ensures Known(c, stack)
  {
  }

  lemma FinishedEnds<S>(r: World<S>, base: S, c: nat, outside: nat, test: S -> S, depth: nat)
    requires r.Shaped() && c <= |r.path| && Finished(r, base, c, outside)
    requires forall i :: 0 <= i < |r.depths| ==> 0 < r.depths[i] <= depth
    ensures var g, t := SandboxFrom(r.path, c), r.(starts := r.starts + [r.chain.state], chain := r.chain.Act(test));
            var e := AfterEach(t, depth);
            && e.chain.state == (if g < |r.path| then ExecFrom(r.path, base, c, g) else test(r.chain.state))
            && e.chain.Valid() && Kept(e.chain, e.stack, outside)
  {
    hide AfterEach;
    var g, t := SandboxFrom(r.path, c), r.(starts := r.starts + [r.chain.state], chain := r.chain.Act(test));
    SandboxesOfTest(t, g, c, depth);
    if g < |r.path| {
      RestoredKeeps(t.chain, AfterEach(t, depth).chain, t.closures[g].snapshotId, t.stack, outside);
    }
  }

  /** Where a test ends, and what it leaves of the stack. */
  lemma TestEnd<S>(w: World<S>, test: S -> S, depth: nat)
    requires Sound(w, depth) && (w.stack == [] || 0 < Outside(w.path))
    ensures var r := RunTest(w, test, depth);
            && r.chain.state == EndState(w, test)
            && r.chain.Valid() && Kept(r.chain, r.stack, Outside(w.path))
  {
    hide RunHook, Tracks, Kept, Finished, AfterEach, Base, Outside;
    SoundParts(w, depth);
    HooksFinish(w, depth);
    FinishedEnds(
      BeforeEach(w, |w.path|), Base(w), Resume(w.path, |w.stack|), Outside(w.path), test, depth);
  }

  /** A path whose first sandbox precedes every cached hook. */
  lemma ShieldedEnd<S>(w: World<S>, test: S -> S, depth: nat)
    requires Sound(w, depth) && Outside(w.path) == 0 && FirstSandbox(w.path) < |w.path|
    ensures var r := RunTest(w, test, depth);
            && r.chain.state == Exec(w.path, w.chain.state, FirstSandbox(w.path))
            && r.chain.Valid() && Consumed(r.chain, r.stack, 0)
  {
    ShieldedTest(w, test, depth);
  }

  lemma AnySandbox<S>(path: seq<Hook<S>>)
    ensures Outside(path) == 0 < Count(path, |path|) ==> FirstSandbox(path) < |path|
  {
  }

  lemma ConsumedKept<S>(c: Chain<S>, stack: seq<nat>)
    requires Consumed(c, stack, 0)
    ensures Kept(c, stack, 0)
  {
  }

  lemma TestKeepsSound<S>(w: World<S>, test: S -> S, depth: nat)
    requires Sound(w, depth)
    ensures Sound(RunTest(w, test, depth), depth)
  {
    hide RunHook, Tracks, Kept, Outside;
    SoundParts(w, depth);
    BeforeEachBalanced(w, |w.path|);
    var r := RunTest(w, test, depth);
    if 0 < Outside(w.path) {
      TestEnd(w, test, depth);
    } else if FirstSandbox(w.path) < |w.path| {
      ShieldedEnd(w, test, depth);
      ConsumedKept(r.chain, r.stack);
    } else {
      AnySandbox(w.path);
      TestEnd(w, test, depth);
    }
  }

  /** The changes of a test on the path are undone with m cached hooks initialized: a sandbox precedes every cached
      hook, or follows the last initialized one. */
  ghost predicate Contained<S>(path: seq<Hook<S>>, m: nat)
    requires m <= Count(path, |path|)
  {
    (Outside(path) == 0 && FirstSandbox(path) < |path|) || SandboxFrom(path, Resume(path, m)) < |path|
  }

  /** Otherwise everything the test does stays. */
  lemma ChangesStay<S>(w: World<S>, test: S -> S, depth: nat)
    requires Sound(w, depth) && |w.stack| <= Count(w.path, |w.path|) && !Contained(w.path, |w.stack|)
    ensures RunTest(w, test, depth).chain.state ==
            test(ExecFrom(w.path, Base(w), Resume(w.path, |w.stack|), |w.path|))
  {
    hide RunTest, Sound;
    SoundParts(w, depth);
    AnySandbox(w.path);
    TestEnd(w, test, depth);
  }

  /** Exactly when a test leaves no trace, in every world that a run reaches: whatever it does, it ends in the same
      state. */
  lemma LeavesNoTraceIff<S>(w: World<S>, depth: nat, x: S, y: S)
    requires Sound(w, depth) && x != y
    ensures |w.stack| <= Count(w.path, |w.path|)
    ensures (forall test: S -> S, other: S -> S ::
               RunTest(w, test, depth).chain.state == RunTest(w, other, depth).chain.state)
            <==> Contained(w.path, |w.stack|)
  {
    hide RunTest, Sound, Outside;
    SoundParts(w, depth);
    if Outside(w.path) == 0 && FirstSandbox(w.path) < |w.path| {
      forall test: S -> S
        ensures RunTest(w, test, depth).chain.state == Exec(w.path, w.chain.state, FirstSandbox(w.path))
      {
        ShieldedEnd(w, test, depth);
      }
    } else {
      AnySandbox(w.path);
      forall test: S -> S
        ensures RunTest(w, test, depth).chain.state == EndState(w, test)
      {
        TestEnd(w, test, depth);
      }
      if !Contained(w.path, |w.stack|) {
        ChangesStay(w, (s: S) => x, depth);
        ChangesStay(w, (s: S) => y, depth);
      }
    }
  }
}
