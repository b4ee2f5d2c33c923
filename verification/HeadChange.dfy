/** A change of head as the pool sees it: what to reinject, then the reset itself. */
module HeadChanges {
  import opened Types
  import opened Blocks
  import opened HeaderChains
  import opened BlockChains
  import opened TxPools
  import opened PoolReset
  import opened Reinjects
  import Accounts
  import PoolAdd

  /**
   Moves the pool from one head of the chain to another. `state` is the state at the new head,
   if it can be opened. The pool is left alone when the walk over the two branches gives up or
   when there is no state. Otherwise `brought` is what the abandoned branch had and the new one
   has not, and an account whose pending nonces were a run is in order afterwards if its state
   nonce did not fall or nothing of it was brought back. When the new head descends from the old
   one, or is too far from it for anything to be brought back, that is every such account.
   */
  method ChangeHead(chain: BlockChain, pool: TxPool, oldHead: Block, newHead: Block, state: Option<ChainState>,
                    magma: bool, gasPrice: nat)
    returns (moved: bool, panicked: bool, ghost brought: seq<Tx>)
    requires Keyed(chain.headers) && chain.GetBlock(newHead.Hash(), newHead.number).Some?
    requires Linked(oldHead, chain.genesis) && Linked(newHead, chain.genesis) && pool.Valid()
    modifies pool, pool.all, pool.priced
    ensures pool.Valid()
    ensures Shallow(oldHead, newHead) && chain.GetBlock(oldHead.Hash(), oldHead.number).Some? ==>
              exists fork: nat :: Fork(oldHead, newHead, chain.genesis, fork)
                                  && (moved <==> state.Some? && Walkable(chain, oldHead, newHead, fork))
                                  && (moved ==> IsDifference(brought, oldHead, newHead, chain.genesis, fork))
    ensures Shallow(oldHead, newHead) && chain.GetBlock(oldHead.Hash(), oldHead.number).None? ==>
              (moved <==> state.Some? && newHead.number < oldHead.number) && (moved ==> brought == [])
    ensures !Shallow(oldHead, newHead) ==> (moved <==> state.Some?)
    ensures if moved then state.Some? && pool.state == state.value
            else pool.state == old(pool.state) && pool.pending == old(pool.pending) && pool.queue == old(pool.queue)
                 && pool.pendingNonce == old(pool.pendingNonce) && !panicked
    ensures moved && !panicked ==>
              forall a :: old(pool.RunAt(a)) && Calm(old(pool.state.nonces), pool.state.nonces, brought, a) ==>
                pool.OrderAt(a)
    ensures moved && (!Shallow(oldHead, newHead) || Descends(newHead, oldHead, chain.genesis)) ==>
              brought == [] && !panicked && forall a :: old(pool.RunAt(a)) ==> pool.OrderAt(a)
  {
    hide TxPool.Valid, Linked, Ancestor, Fork, Walkable, IsDifference, Accounts.InRun, Accounts.InOrder;
    hide PoolAdd.AddStep;
    hide Reinjected, Rebuilt, ResetOne;
    brought := [];
    var reinject := Reinject(chain, oldHead, newHead);
    if reinject.None? || state.None? {
      return false, false, brought;
    }
    brought := reinject.value;
    ghost var s;
    panicked, s := Reset(pool, state.value, reinject.value, magma, gasPrice);
    moved := true;
  }
}
