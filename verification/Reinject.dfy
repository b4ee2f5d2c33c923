/** Which transactions the pool takes back when its head moves to another chain. */
module Reinjects {
  import opened Types
  import opened Blocks
  import opened Lookups
  import opened HeaderChains
  import opened BlockChains

  const MAX_REORG_DEPTH: nat := 64

  /** Every block of a chain below its top, down to number `k`, can be found. */
  ghost predicate StoredDown(chain: BlockChain, top: Block, k: nat)
    requires Linked(top, chain.genesis)
    reads chain
  {
    forall n: nat :: k <= n < top.number ==> chain.GetBlock(Ancestor(top, chain.genesis, n).Hash(), n).Some?
  }

  /**
   What is found as the parent of an ancestor is the next ancestor; whether it is found decides
   how far down all are.
   */
  lemma {:induction false} NextDown(chain: BlockChain, top: Block, at: Block)
    requires Keyed(chain.headers) && Linked(top, chain.genesis) && Descends(top, at, chain.genesis) && 0 < at.number
    ensures var p := chain.GetBlock(at.parentHash, at.number - 1);
            && (p.Some? ==> p.value == Ancestor(top, chain.genesis, at.number - 1))
            && (p.Some? && StoredDown(chain, top, at.number) ==> StoredDown(chain, top, at.number - 1))
            && (p.None? ==> forall k: nat :: k < at.number ==> !StoredDown(chain, top, k))
  {
    hide Linked, Ancestor;
    AncestorParent(top, chain.genesis, at.number);
    if chain.GetBlock(at.parentHash, at.number - 1).None? {
      forall k: nat | k < at.number ensures !StoredDown(chain, top, k) {
        assert k <= at.number - 1 < top.number;
      }
    }
  }

  /** Any two chains on one genesis block fork somewhere, at the genesis block at the latest. */
  lemma {:induction false} ForkOf(b: Block, c: Block, genesis: Block) returns (k: nat)
    requires Linked(b, genesis) && Linked(c, genesis)
    ensures Fork(b, c, genesis, k)
  {
    hide Linked, Ancestor;
    GenesisIsAncestor(b, genesis);
    GenesisIsAncestor(c, genesis);
    k := if b.number < c.number then b.number else c.number;
    while Ancestor(b, genesis, k) != Ancestor(c, genesis, k)
      invariant k <= b.number && k <= c.number
      invariant forall n: nat :: k < n <= b.number && n <= c.number ==>
                  Ancestor(b, genesis, n) != Ancestor(c, genesis, n)
      decreases k
    {
      k := k - 1;
    }
  }

  /** Walks a chain down to a number, collecting its transactions; stops at a missing block. */
  method WalkDown(chain: BlockChain, top: Block, target: nat) returns (at: Option<Block>, txs: seq<Tx>)
    requires Keyed(chain.headers) && Linked(top, chain.genesis) && target <= top.number
    ensures at.Some? ==> at.value == Ancestor(top, chain.genesis, target)
    ensures at.Some? ==> HashesOf(txs) == EntriesAbove(top, chain.genesis, target).Keys
    ensures at.Some? ==> StoredDown(chain, top, target)
    ensures at.None? ==> forall k: nat :: k <= target ==> !StoredDown(chain, top, k)
  {
    hide Linked, Ancestor, HashesOf, EntriesAbove, Entries, StoredDown;
    var b := top;
    txs := [];
    SelfAncestor(top, chain.genesis);
    NothingAbove(top, chain.genesis);
    NothingBelow(chain, top);
    while b.number > target
      invariant target <= b.number && Descends(top, b, chain.genesis) && StoredDown(chain, top, b.number)
      invariant HashesOf(txs) == EntriesAbove(top, chain.genesis, b.number).Keys
      decreases b.number
    {
      HashesOfConcat(txs, b.txs);
      OneLower(top, chain.genesis, b.number);
      NextDown(chain, top, b);
      txs := txs + b.txs;
      var p := chain.GetBlock(b.parentHash, b.number - 1);
      if p.None? {
        return None, txs;
      }
      b := p.value;
    }
    at := Some(b);
  }

  lemma {:induction false} NothingBelow(chain: BlockChain, top: Block)
    requires Linked(top, chain.genesis)
    ensures StoredDown(chain, top, top.number)
  {
  }

  /** Walks both chains down from the same number to their fork, collecting the transactions of each. */
  method WalkBoth(chain: BlockChain, oldTop: Block, newTop: Block, oldAt: Block, newAt: Block,
                  dropped: seq<Tx>, taken: seq<Tx>, ghost fork: nat)
    returns (found: bool, discarded: seq<Tx>, included: seq<Tx>)
    requires Keyed(chain.headers) && Linked(oldTop, chain.genesis) && Linked(newTop, chain.genesis)
    requires Descends(oldTop, oldAt, chain.genesis) && Descends(newTop, newAt, chain.genesis)
    requires oldAt.number == newAt.number && Fork(oldTop, newTop, chain.genesis, fork) && fork <= oldAt.number
    requires StoredDown(chain, oldTop, oldAt.number) && StoredDown(chain, newTop, newAt.number)
    requires HashesOf(dropped) == EntriesAbove(oldTop, chain.genesis, oldAt.number).Keys
    requires HashesOf(taken) == EntriesAbove(newTop, chain.genesis, newAt.number).Keys
    ensures found <==> StoredDown(chain, oldTop, fork) && StoredDown(chain, newTop, fork)
    ensures found ==>
              && HashesOf(discarded) == EntriesAbove(oldTop, chain.genesis, fork).Keys
              && HashesOf(included) == EntriesAbove(newTop, chain.genesis, fork).Keys
  {
    hide Linked, Ancestor, HashesOf, EntriesAbove, Entries, StoredDown;
    var g := chain.genesis;
    var rem, add := oldAt, newAt;
    discarded, included := dropped, taken;
    while rem.Hash() != add.Hash()
      invariant rem.number == add.number && Descends(oldTop, rem, g) && Descends(newTop, add, g) && fork <= rem.number
      invariant StoredDown(chain, oldTop, rem.number) && StoredDown(chain, newTop, add.number)
      invariant HashesOf(discarded) == EntriesAbove(oldTop, g, rem.number).Keys
      invariant HashesOf(included) == EntriesAbove(newTop, g, add.number).Keys
      decreases rem.number
    {
      HashesOfConcat(discarded, rem.txs);
      HashesOfConcat(included, add.txs);
      OneLower(oldTop, g, rem.number);
      OneLower(newTop, g, add.number);
      NextDown(chain, oldTop, rem);
      NextDown(chain, newTop, add);
      discarded := discarded + rem.txs;
      var p := chain.GetBlock(rem.parentHash, rem.number - 1);
      if p.None? {
        return false, discarded, included;
      }
      included := included + add.txs;
      var q := chain.GetBlock(add.parentHash, add.number - 1);
      if q.None? {
        return false, discarded, included;
      }
      rem, add := p.value, q.value;
    }
    found := true;
  }

  /** `txs` are the transactions of the branch to `oldTop` that the branch to `newTop` does not include. */
  ghost predicate IsDifference(txs: seq<Tx>, oldTop: Block, newTop: Block, genesis: Block, fork: nat)
    requires Linked(oldTop, genesis) && Linked(newTop, genesis)
  {
    && Fork(oldTop, newTop, genesis, fork)
    && HashesOf(txs) == EntriesAbove(oldTop, genesis, fork).Keys - EntriesAbove(newTop, genesis, fork).Keys
  }

  /** Whether both chains can be walked down to their fork. */
  ghost predicate Walkable(chain: BlockChain, oldTop: Block, newTop: Block, fork: nat)
    requires Linked(oldTop, chain.genesis) && Linked(newTop, chain.genesis)
    reads chain
  {
    StoredDown(chain, oldTop, fork) && StoredDown(chain, newTop, fork)
  }

  method CollectDifference(chain: BlockChain, oldTop: Block, newTop: Block)
    returns (txs: Option<seq<Tx>>, ghost fork: nat)
    requires Keyed(chain.headers) && Linked(oldTop, chain.genesis) && Linked(newTop, chain.genesis)
    ensures Fork(oldTop, newTop, chain.genesis, fork)
    ensures txs.Some? <==> Walkable(chain, oldTop, newTop, fork)
    ensures txs.Some? ==> IsDifference(txs.value, oldTop, newTop, chain.genesis, fork)
  {
    hide Linked, Ancestor, HashesOf, StoredDown;
    fork := ForkOf(oldTop, newTop, chain.genesis);
    var low := if oldTop.number < newTop.number then oldTop.number else newTop.number;
    var rem, dropped := WalkDown(chain, oldTop, low);
    if rem.None? {
      return None, fork;
    }
    var add, taken := WalkDown(chain, newTop, low);
    if add.None? {
      return None, fork;
    }
    var found, discarded, included := WalkBoth(chain, oldTop, newTop, rem.value, add.value, dropped, taken, fork);
    if !found {
      return None, fork;
    }
    var keep := TxDifference(discarded, included);
    txs := Some(keep);
  }

  /** On a chain that is only extended there is nothing to reinject. */
  lemma {:induction false} NothingAbandoned(txs: seq<Tx>, oldTop: Block, newTop: Block, genesis: Block, fork: nat)
    requires Linked(oldTop, genesis) && Linked(newTop, genesis) && Descends(newTop, oldTop, genesis)
    requires IsDifference(txs, oldTop, newTop, genesis, fork)
    ensures txs == []
  {
    SelfAncestor(oldTop, genesis);
    assert fork == oldTop.number;
    NothingAbove(oldTop, genesis);
    SomeTxSomeHash(txs);
  }

  lemma {:induction false} SomeTxSomeHash(txs: seq<Tx>)
    ensures txs != [] ==> HashesOf(txs) != {}
  {
    if txs != [] {
      assert txs[0].Hash() in HashesOf(txs);
    }
  }

  /** Whether the pool looks at the two branches at all. */
  predicate Shallow(oldHead: Block, newHead: Block) {
    && oldHead.Hash() != newHead.parentHash
    && oldHead.number <= newHead.number + MAX_REORG_DEPTH && newHead.number <= oldHead.number + MAX_REORG_DEPTH
  }

  /**
   The transactions to reinject when the head moves from `oldHead` to `newHead`: those of the
   abandoned branch that the new branch does not include. `None` when the reset gives up: the
   old head is missing although the new one is not lower, or a block of either branch, down to
   where they fork, is missing.
   */
  method Reinject(chain: BlockChain, oldHead: Block, newHead: Block) returns (r: Option<seq<Tx>>)
    requires Keyed(chain.headers) && chain.GetBlock(newHead.Hash(), newHead.number).Some?
    requires Linked(oldHead, chain.genesis) && Linked(newHead, chain.genesis)
    ensures !Shallow(oldHead, newHead) ==> r == Some([])
    ensures Shallow(oldHead, newHead) && chain.GetBlock(oldHead.Hash(), oldHead.number).None? ==>
              r == if newHead.number >= oldHead.number then None else Some([])
    ensures Shallow(oldHead, newHead) && chain.GetBlock(oldHead.Hash(), oldHead.number).Some? ==>
              exists fork: nat ::
                && Fork(oldHead, newHead, chain.genesis, fork)
                && (r.Some? <==> Walkable(chain, oldHead, newHead, fork))
                && (r.Some? ==> IsDifference(r.value, oldHead, newHead, chain.genesis, fork))
    ensures r.Some? && Descends(newHead, oldHead, chain.genesis) ==> r.value == []
  {
    hide Linked, Ancestor, IsDifference, Walkable, Fork;
    if oldHead.Hash() == newHead.parentHash {
      return Some([]);
    }
    var depth := if oldHead.number > newHead.number then oldHead.number - newHead.number
                 else newHead.number - oldHead.number;
    if depth > MAX_REORG_DEPTH {
      return Some([]);
    }
    SelfAncestor(oldHead, chain.genesis);
    var rem := chain.GetBlock(oldHead.Hash(), oldHead.number);
    if rem.None? {
      return if newHead.number >= oldHead.number then None else Some([]);
    }
    ghost var fork;
    r, fork := CollectDifference(chain, oldHead, newHead);
    if r.Some? && Descends(newHead, oldHead, chain.genesis) {
      NothingAbandoned(r.value, oldHead, newHead, chain.genesis, fork);
    }
  }
}
