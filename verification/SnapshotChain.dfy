/** What the test node answers to evm_snapshot and evm_revert, over an arbitrary chain state. */
module SnapshotChain {

  /** Identifiers are handed out in increasing order and never reused. */
  datatype Chain<S> = Chain(state: S, nextId: nat, snapshots: map<nat, S>) {

    predicate Valid() {
      && nextId > 0
      && forall id :: id in snapshots ==> 0 < id < nextId
    }

    /** The identifier of the snapshot is the old nextId. */
    function Snapshot(): Chain<S> {
      Chain(state, nextId + 1, snapshots[nextId := state])
    }

    /** Reverting consumes the snapshot and every later one. A consumed or unknown identifier changes
        nothing: the node answers false and the source ignores the answer. */
    function Revert(id: nat): Chain<S> {
      if id in snapshots then
        Chain(snapshots[id], nextId, map k | k in snapshots && k < id :: snapshots[k])
      else this
    }

    function Act(action: S -> S): Chain<S> {
      Chain(action(state), nextId, snapshots)
    }
  }

  /** Below the given identifier the two tables agree. */
  ghost predicate SameBelow<S>(c: Chain<S>, d: Chain<S>, bound: nat) {
    forall id :: id < bound ==>
      && (id in c.snapshots <==> id in d.snapshots)
      && (id in c.snapshots ==> c.snapshots[id] == d.snapshots[id])
  }

  /** A snapshot brings its state back however the chain moved on, as long as nothing older was reverted. */
  lemma SnapshotThenRevert<S>(c: Chain<S>, later: Chain<S>)
    requires c.Valid()
    requires SameBelow(c.Snapshot(), later, c.nextId + 1)
    ensures var back := later.Revert(c.nextId); back.state == c.state && back.snapshots == c.snapshots
  {
  }
}
