/** The snapshot half of class Blockchain (utils/common/blockchainUtils.ts) over the test node it talks to. */
module Blockchains {
  import opened SnapshotChain

  /** The node behind the provider, reduced to its chain state and its snapshots. */
  class Provider<S> {
    var state: S
    var nextId: nat
    var snapshots: map<nat, S>

    constructor (state: S)
      ensures Value() == Chain(state, 1, map[]) && Value().Valid()
    {
      this.state, nextId, snapshots := state, 1, map[];
    }

    ghost function Value(): Chain<S>
      reads this
    {
      Chain(state, nextId, snapshots)
    }

    method EvmSnapshot() returns (id: nat)
      modifies this
      ensures id == old(nextId) && Value() == old(Value()).Snapshot()
    {
      id := nextId;
      snapshots := snapshots[id := state];
      nextId := nextId + 1;
    }

    method EvmRevert(id: nat) returns (reverted: bool)
      modifies this
      ensures reverted <==> id in old(snapshots)
      ensures Value() == old(Value()).Revert(id)
    {
      reverted := id in snapshots;
      if reverted {
        state := snapshots[id];
        snapshots := map k | k in snapshots && k < id :: snapshots[k];
      }
    }

    /** Transactions: whatever a hook or a test does to the chain. */
    method Transact(action: S -> S)
      modifies this
      ensures Value() == old(Value()).Act(action)
    {
      state := action(state);
    }
  }

  class Blockchain<S> {
    const provider: Provider<S>
    var snapshotId: nat

    constructor (provider: Provider<S>)
      ensures this.provider == provider && snapshotId == 0
    {
      this.provider := provider;
      snapshotId := 0;
    }

    method SaveSnapshot() returns (response: nat)
      modifies this, provider
      ensures response == snapshotId == old(provider.nextId)
      ensures provider.Value() == old(provider.Value()).Snapshot()
    {
      response := provider.EvmSnapshot();
      snapshotId := response;
    }

    /** The answer of the node is the caller's only way to see that nothing was reverted. */
    method Revert() returns (reverted: bool)
      modifies provider
      ensures reverted <==> snapshotId in old(provider.snapshots)
      ensures provider.Value() == old(provider.Value()).Revert(snapshotId)
    {
      reverted := provider.EvmRevert(snapshotId);
    }

    method RevertById(id: nat) returns (reverted: bool)
      modifies provider
      ensures reverted <==> id in old(provider.snapshots)
      ensures provider.Value() == old(provider.Value()).Revert(id)
    {
      reverted := provider.EvmRevert(id);
    }
  }
}
