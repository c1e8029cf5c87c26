/** The test sandboxing of utils/test/testingUtils.ts: cacheBeforeEach with its stack SNAPSHOTS, and
    addSnapshotBeforeRestoreAfterEach. Each hook is a class holding what the closure captures, proved
    against a function on the values it sees. */
module TestingUtils {
  import opened SnapshotChain
  import opened Blockchains

  /** What one cached hook sees and changes: the chain, SNAPSHOTS and its own flag. The last two fields
      observe whether a pop found the stack empty and whether a revert named a consumed snapshot. */
  datatype Cache<!S> = Cache(chain: Chain<S>, stack: seq<nat>, initialized: bool, underflow: bool, stale: bool)

  /** The body of the cached beforeEach. Popping an empty stack gives no id to revert to and fails the hook. */
  function CachedBeforeEach<S>(c: Cache<S>, initializer: S -> S): Cache<S> {
    if !c.initialized then
      var chain := c.chain.Act(initializer);
      c.(chain := chain.Snapshot(), stack := c.stack + [chain.nextId], initialized := true)
    else if c.stack == [] then
      c.(underflow := true)
    else
      var id := c.stack[|c.stack| - 1];
      var chain := c.chain.Revert(id);
      c.(chain := chain.Snapshot(),
      stack := c.stack[..|c.stack| - 1] + [chain.nextId],
      stale := c.stale || id !in c.chain.snapshots)
  }

  /** The after hook that cacheBeforeEach registers. */
  function CachedAfter(stack: seq<nat>, initialized: bool): seq<nat> {
    if initialized && stack != [] then stack[..|stack| - 1] else stack
  }

  /** SNAPSHOTS, shared by every cached hook of a test process. */
  class SnapshotStack {
    var ids: seq<nat>

    constructor ()
      ensures ids == []
    {
      ids := [];
    }

    method Push(id: nat)
      modifies this
      ensures ids == old(ids) + [id]
    {
      ids := ids + [id];
    }

    /** Popping an empty array answers undefined and leaves it empty. */
    method Pop() returns (defined: bool, id: nat)
      modifies this
      ensures defined <==> old(ids) != []
      ensures ids == CachedAfter(old(ids), true)
      ensures defined ==> id == old(ids)[|old(ids)| - 1]
    {
      defined, id := ids != [], 0;
      if defined {
        id := ids[|ids| - 1];
        ids := ids[..|ids| - 1];
      }
    }
  }

  class CachedHook<S> {
    const initializer: S -> S
    const blockchain: Blockchain<S>
    const snapshots: SnapshotStack
    var initialized: bool

    constructor (initializer: S -> S, blockchain: Blockchain<S>, snapshots: SnapshotStack)
      ensures this.initializer == initializer && this.blockchain == blockchain && this.snapshots == snapshots
      ensures !initialized
    {
      this.initializer, this.blockchain, this.snapshots := initializer, blockchain, snapshots;
      initialized := false;
    }

    ghost function View(): Cache<S>
      reads this, blockchain, blockchain.provider, snapshots
    {
      Cache(blockchain.provider.Value(), snapshots.ids, initialized, false, false)
    }

    /** Answers whether the hook failed, and whether its revert named a consumed snapshot (which the source
        does not notice). */
    method BeforeEach() returns (failed: bool, stale: bool)
      modifies this, blockchain, blockchain.provider, snapshots
      ensures View().(underflow := failed, stale := stale) == CachedBeforeEach(old(View()), initializer)
      ensures failed <==> old(initialized && snapshots.ids == [])
      ensures stale <==> old(initialized && snapshots.ids != []
                             && snapshots.ids[|snapshots.ids| - 1] !in blockchain.provider.Value().snapshots)
    {
      failed, stale := false, false;
      if !initialized {
        blockchain.provider.Transact(initializer);
        var id := blockchain.SaveSnapshot();
        snapshots.Push(id);
        initialized := true;
      } else {
        var defined, snapshotId := snapshots.Pop();
        if !defined {
          return true, false;
        }
        var reverted := blockchain.RevertById(snapshotId);
        stale := !reverted;
        var id := blockchain.SaveSnapshot();
        snapshots.Push(id);
      }
    }

    method After()
      modifies snapshots
      ensures snapshots.ids == CachedAfter(old(snapshots.ids), initialized)
    {
      if initialized {
        var _, _ := snapshots.Pop();
      }
    }
  }

  class SandboxHook<S> {
    const blockchain: Blockchain<S>

    constructor (blockchain: Blockchain<S>)
      ensures this.blockchain == blockchain
    {
      this.blockchain := blockchain;
    }

    method BeforeEach()
      modifies blockchain, blockchain.provider
      ensures blockchain.provider.Value() == old(blockchain.provider.Value()).Snapshot()
      ensures blockchain.snapshotId == old(blockchain.provider.nextId)
    {
      var _ := blockchain.SaveSnapshot();
    }

    method AfterEach()
      modifies blockchain.provider
      ensures blockchain.provider.Value() == old(blockchain.provider.Value()).Revert(blockchain.snapshotId)
    {
      var _ := blockchain.Revert();
    }

    /** One sandboxed test: the chain state and the older snapshots come back. */
    method Around(test: S -> S)
      requires blockchain.provider.Value().Valid()
      modifies blockchain, blockchain.provider
      ensures blockchain.provider.state == old(blockchain.provider.state)
      ensures blockchain.provider.snapshots == old(blockchain.provider.snapshots)
    {
      ghost var before := blockchain.provider.Value();
      BeforeEach();
      blockchain.provider.Transact(test);
      SnapshotThenRevert(before, blockchain.provider.Value());
      AfterEach();
    }
  }
}
