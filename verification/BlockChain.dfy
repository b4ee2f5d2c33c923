/**
 The block chain: choosing between forks by total score, reorganising onto the
 heavier one and keeping the transaction index on the chain of the head.
 */
module BlockChains {
  import opened Types
  import opened Blocks
  import opened Lookups
  import opened HeaderChains

  datatype WriteResult = NoAncestor | KnownBlock | StateFailed | ReorgFailed | Canon | Side

  ghost predicate AllUnique(store: Store, genesis: Block) {
    forall h :: h in store ==> Linked(store[h], genesis) && NoRepeats(store[h], genesis)
  }

  /** Blocks of `chain` are the ancestors of `b` from `b` itself downwards. */
  ghost predicate FromTop(chain: seq<Block>, b: Block, genesis: Block)
    requires Linked(b, genesis)
  {
    |chain| <= b.number && forall i :: 0 <= i < |chain| ==> chain[i] == Ancestor(b, genesis, b.number - i)
  }

  /** The chains of `b` and `c` share their ancestors up to `k` and none above. */
  ghost predicate Fork(b: Block, c: Block, genesis: Block, k: nat)
    requires Linked(b, genesis) && Linked(c, genesis)
  {
    && k <= b.number && k <= c.number && Ancestor(b, genesis, k) == Ancestor(c, genesis, k)
    && forall n: nat :: k < n <= b.number && n <= c.number ==> Ancestor(b, genesis, n) != Ancestor(c, genesis, n)
  }

  /** No canonical entry, above the head or not, names a block heavier than the head. */
  ghost predicate NoneHeavier(canonical: Canonical, head: Block, genesis: Block)
    requires Linked(head, genesis)
  {
    forall n: nat :: n in canonical ==>
      && canonical[n].HashOf? && Linked(canonical[n].block, genesis)
      && TotalScore(canonical[n].block, genesis) <= TotalScore(head, genesis)
  }

  /** The canonical entries above number `k` are the same in both. */
  ghost predicate SameAbove(was: Canonical, now: Canonical, k: nat) {
    forall n: nat :: k < n ==> (n in now <==> n in was) && (n in now ==> now[n] == was[n])
  }

  class BlockChain {
    const genesis: Block
    var headers: Store
    /** The hashes whose block body is stored. */
    var bodies: set<Hash>
    var scores: Scores
    var canonical: Canonical
    var index: TxIndex
    /** The roots whose state is available. */
    var states: set<nat>
    var currentBlock: Block
    var currentHeader: Block

    ghost predicate Stored()
      reads this`headers, this`bodies, this`scores
    {
      && Grounded(headers, genesis) && Scored(headers, scores, genesis)
      && bodies == headers.Keys && AllUnique(headers, genesis)
    }

    /** Both heads are on the canonical chain, all of which is stored. */
    ghost predicate OnChain()
      reads this`headers, this`canonical, this`currentBlock, this`currentHeader
    {
      && Linked(currentBlock, genesis) && Linked(currentHeader, genesis)
      && ChainStored(headers, currentBlock, genesis) && ChainStored(headers, currentHeader, genesis)
      && Follows(canonical, currentBlock, genesis) && Follows(canonical, currentHeader, genesis)
    }

    /** What every run of writes and rewinds keeps. */
    ghost predicate Sound()
      reads this
    {
      Stored() && OnChain() && Finds(index, currentBlock, genesis)
    }

    /** The head header is on top of the head block, with nothing canonical heavier than that. */
    ghost predicate Aligned()
      reads this`canonical, this`currentBlock, this`currentHeader
    {
      && Linked(currentHeader, genesis) && Linked(currentBlock, genesis)
      && Descends(currentHeader, currentBlock, genesis) && NoneHeavier(canonical, currentBlock, genesis)
    }

    /** What every run of writes alone keeps. */
    ghost predicate Valid()
      reads this
    {
      Sound() && Rooted(headers, genesis) && index == IndexOf(currentBlock, genesis) && Aligned()
    }

    constructor (genesis: Block)
      requires genesis.number == 0 && genesis.txs == []
      ensures Valid() && this.genesis == genesis && currentBlock == genesis && currentHeader == genesis
      ensures Exactly(canonical, genesis, genesis) && headers == map[genesis.Hash() := genesis]
              && states == {genesis.root}
    {
      this.genesis := genesis;
      headers := map[genesis.Hash() := genesis];
      bodies := {genesis.Hash()};
      scores := map[genesis.Hash() := genesis.score];
      canonical := map[0 := genesis.Hash()];
      index := map[];
      states := {genesis.root};
      currentBlock, currentHeader := genesis, genesis;
      new;
      SelfAncestor(genesis, genesis);
    }

    /** A block is found when both its header and its body are. */
    function GetBlock(hash: Hash, number: int): Option<Block>
      reads this`headers, this`bodies
    {
      if hash in bodies then Find(headers, hash, number) else None
    }

    /** Makes a block the canonical one of its number and the head. */
    method Insert(b: Block)
      modifies this`canonical, this`currentBlock, this`currentHeader
      ensures canonical == old(canonical)[b.number := b.Hash()] && currentBlock == b
      ensures currentHeader == if CanonicalAt(old(canonical), b.number) != b.Hash() then b else old(currentHeader)
    {
      var updateHeads := CanonicalAt(canonical, b.number) != b.Hash();
      canonical := canonical[b.number := b.Hash()];
      currentBlock := b;
      if updateHeads {
        currentHeader := b;
      }
    }

    // ---------- Reorganisation ----------

    /** What is found as the parent of an ancestor is the next ancestor, if that is stored. */
    lemma {:induction false} NextDown(b: Block, top: Block)
      requires Stored() && Linked(top, genesis) && Descends(top, b, genesis) && 0 < b.number
      ensures var p := Ancestor(top, genesis, b.number - 1);
              GetBlock(b.parentHash, b.number - 1) == if p.Hash() in headers then Some(p) else None
    {
      hide Scored, AllUnique, Linked, Ancestor;
      AncestorParent(top, genesis, b.number);
    }

    /** Walks the old chain, all of which is stored, down to a number, collecting the transactions it drops. */
    method ReduceOld(top: Block, target: nat) returns (at: Block, deleted: seq<Tx>)
      requires Stored() && Linked(top, genesis) && ChainStored(headers, top, genesis) && target <= top.number
      ensures at == Ancestor(top, genesis, target)
      ensures HashesOf(deleted) == EntriesAbove(top, genesis, target).Keys
    {
      hide Stored, Linked, Ancestor, HashesOf;
      at, deleted := top, [];
      SelfAncestor(top, genesis);
      NothingAbove(top, genesis);
      while at.number != target
        invariant target <= at.number <= top.number && at == Ancestor(top, genesis, at.number)
        invariant HashesOf(deleted) == EntriesAbove(top, genesis, at.number).Keys
        decreases at.number
      {
        HashesOfConcat(deleted, at.txs);
        OneLower(top, genesis, at.number);
        NextDown(at, top);
        deleted := deleted + at.txs;
        at := GetBlock(at.parentHash, at.number - 1).value;
      }
    }

    /** The blocks of a chain from number `n` up are stored. */
    ghost predicate StoredFrom(top: Block, n: nat)
      requires Linked(top, genesis)
      reads this`headers
    {
      forall k: nat :: n <= k <= top.number ==> Ancestor(top, genesis, k).Hash() in headers
    }

    /** Walks the new chain down to a number, collecting the blocks to insert; fails at a missing block. */
    method ReduceNew(top: Block, target: nat) returns (at: Option<Block>, chain: seq<Block>)
      requires Stored() && top.Hash() in headers && Linked(top, genesis) && target <= top.number
      ensures at.Some? <==> StoredFrom(top, target)
      ensures at.Some? ==> at.value == Ancestor(top, genesis, target)
      ensures at.Some? ==> FromTop(chain, top, genesis) && |chain| == top.number - target
    {
      hide Stored, Linked, Ancestor;
      at, chain := Some(top), [];
      SelfAncestor(top, genesis);
      while at.value.number != target
        invariant at.Some? && target <= at.value.number <= top.number
        invariant at.value == Ancestor(top, genesis, at.value.number) && StoredFrom(top, at.value.number)
        invariant FromTop(chain, top, genesis) && |chain| == top.number - at.value.number
        decreases at.value.number
      {
        NextDown(at.value, top);
        chain := chain + [at.value];
        at := GetBlock(at.value.parentHash, at.value.number - 1);
        if at.None? {
          return;
        }
      }
    }

    /**
     Walks both chains down from the same number to the block where they fork. Fails exactly if a
     block of the new chain is missing.
     */
    method FindFork(oldTop: Block, newTop: Block, oldAt: Block, newAt: Block, chain: seq<Block>, deleted: seq<Tx>)
      returns (common: Option<Block>, newChain: seq<Block>, deletedTxs: seq<Tx>)
      requires Stored() && Linked(oldTop, genesis) && Linked(newTop, genesis)
      requires ChainStored(headers, oldTop, genesis) && StoredFrom(newTop, newAt.number)
      requires Descends(oldTop, oldAt, genesis) && Descends(newTop, newAt, genesis) && oldAt.number == newAt.number
      requires oldAt.number == oldTop.number || newAt.number == newTop.number
      requires FromTop(chain, newTop, genesis) && |chain| == newTop.number - newAt.number
      requires HashesOf(deleted) == EntriesAbove(oldTop, genesis, oldAt.number).Keys
      ensures common.Some? <==> ChainStored(headers, newTop, genesis)
      ensures common.Some? ==>
                var k := common.value.number;
                && Fork(oldTop, newTop, genesis, k) && common.value == Ancestor(newTop, genesis, k)
                && FromTop(newChain, newTop, genesis) && |newChain| == newTop.number - k
                && HashesOf(deletedTxs) == EntriesAbove(oldTop, genesis, k).Keys
    {
      hide Stored, Linked, Ancestor, HashesOf, EntriesAbove, Entries;
      var o, n := oldAt, newAt;
      newChain, deletedTxs := chain, deleted;
      GenesisIsAncestor(oldTop, genesis);
      GenesisIsAncestor(newTop, genesis);
      while o.Hash() != n.Hash()
        invariant o.number == n.number && Descends(oldTop, o, genesis) && Descends(newTop, n, genesis)
        invariant forall m: nat :: o.number < m <= oldTop.number && m <= newTop.number ==>
                    Ancestor(oldTop, genesis, m) != Ancestor(newTop, genesis, m)
        invariant FromTop(newChain, newTop, genesis) && |newChain| == newTop.number - n.number
        invariant HashesOf(deletedTxs) == EntriesAbove(oldTop, genesis, o.number).Keys
        invariant StoredFrom(newTop, n.number)
        decreases o.number
      {
        HashesOfConcat(deletedTxs, o.txs);
        OneLower(oldTop, genesis, o.number);
        NextDown(o, oldTop);
        NextDown(n, newTop);
        newChain := newChain + [n];
        deletedTxs := deletedTxs + o.txs;
        var next := GetBlock(n.parentHash, n.number - 1);
        if next.None? {
          return None, newChain, deletedTxs;
        }
        o, n := GetBlock(o.parentHash, o.number - 1).value, next.value;
      }
      RestIsShared(oldTop, newTop, o.number);
      common := Some(o);
    }

    /** Below where two chains meet, one is stored as far as the other is. */
    lemma {:induction false} RestIsShared(oldTop: Block, newTop: Block, k: nat)
      requires Linked(oldTop, genesis) && Linked(newTop, genesis) && k <= oldTop.number && k <= newTop.number
      requires Ancestor(oldTop, genesis, k) == Ancestor(newTop, genesis, k)
      requires ChainStored(headers, oldTop, genesis) && StoredFrom(newTop, k)
      ensures ChainStored(headers, newTop, genesis)
    {
      hide Linked, Ancestor;
      forall n: nat | n <= newTop.number ensures Ancestor(newTop, genesis, n).Hash() in headers {
        if n < k {
          MeetAndAgree(oldTop, newTop, genesis, k, n);
        }
      }
    }

    /** Inserts the blocks of the new branch, lowest first, with their index entries. */
    method InsertBranch(top: Block, chain: seq<Block>, ghost k: nat) returns (added: seq<Tx>)
      requires Linked(top, genesis) && FromTop(chain, top, genesis) && k <= top.number && |chain| == top.number - k
      requires Follows(canonical, Ancestor(top, genesis, k), genesis)
      requires Linked(currentHeader, genesis) && Follows(canonical, currentHeader, genesis)
      modifies this`canonical, this`currentBlock, this`currentHeader, this`index
      ensures Follows(canonical, top, genesis) && SameAbove(old(canonical), canonical, top.number)
      ensures Linked(currentHeader, genesis) && Follows(canonical, currentHeader, genesis)
      ensures currentHeader == old(currentHeader) || Descends(top, currentHeader, genesis)
      ensures index == old(index) + EntriesAbove(top, genesis, k)
      ensures HashesOf(added) == EntriesAbove(top, genesis, k).Keys
      ensures k == top.number ==> canonical == old(canonical) && currentHeader == old(currentHeader)
      ensures k < top.number && CanonicalAt(old(canonical), top.number) != top.Hash() ==> currentHeader == top
    {
      hide Ancestor, HashesOf, Entries, Follows, Linked;
      added := [];
      var i := |chain|;
      ghost var at := Ancestor(top, genesis, k);
      NothingAbove(at, genesis);
      SelfAncestor(top, genesis);
      while 0 < i
        invariant 0 <= i <= |chain| && at == Ancestor(top, genesis, top.number - i)
        invariant Follows(canonical, at, genesis)
        invariant Linked(currentHeader, genesis) && Follows(canonical, currentHeader, genesis)
        invariant currentHeader == old(currentHeader) || Descends(top, currentHeader, genesis)
        invariant index == old(index) + EntriesAbove(at, genesis, k)
        invariant HashesOf(added) == EntriesAbove(at, genesis, k).Keys
        invariant SameAbove(old(canonical), canonical, at.number)
        invariant i == |chain| ==> canonical == old(canonical) && currentHeader == old(currentHeader)
        invariant i == 0 < |chain| && CanonicalAt(old(canonical), top.number) != top.Hash() ==> currentHeader == top
      {
        i := i - 1;
        var b := chain[i];
        AncestorParent(top, genesis, b.number);
        assert b.parentHash == at.Hash();
        OneHigher(canonical, at, b, genesis, k);
        HashesOfConcat(added, b.txs);
        SameEntry(canonical, b);
        Insert(b);
        index := index + Entries(b);
        added := added + b.txs;
        at := b;
      }
    }

    /** The index after a reorganisation that forks at `k`. */
    ghost function Moved(index: TxIndex, was: Block, now: Block, k: nat): TxIndex
      requires Linked(was, genesis) && Linked(now, genesis)
    {
      Rewritten(index, EntriesAbove(was, genesis, k), EntriesAbove(now, genesis, k))
    }

    /**
     Moves the canonical chain and the index from the current head to another stored block. Fails,
     with nothing changed, exactly if a block of that one's chain is missing.
     */
    method Reorg(newBlock: Block) returns (ok: bool, ghost fork: nat)
      requires Sound() && newBlock.Hash() in headers && Linked(newBlock, genesis)
      modifies this`canonical, this`currentBlock, this`currentHeader, this`index
      ensures ok <==> ChainStored(headers, newBlock, genesis)
      ensures !ok ==> && canonical == old(canonical) && index == old(index)
                      && currentBlock == old(currentBlock) && currentHeader == old(currentHeader)
      ensures ok ==>
                && Linked(old(currentBlock), genesis) && Fork(old(currentBlock), newBlock, genesis, fork)
                && Follows(canonical, newBlock, genesis) && SameAbove(old(canonical), canonical, newBlock.number)
                && Linked(currentHeader, genesis) && Follows(canonical, currentHeader, genesis)
                && (currentHeader == old(currentHeader) || Descends(newBlock, currentHeader, genesis))
                && index == Moved(old(index), old(currentBlock), newBlock, fork)
                && (fork == newBlock.number ==> canonical == old(canonical) && currentHeader == old(currentHeader))
                && (fork < newBlock.number && CanonicalAt(old(canonical), newBlock.number) != newBlock.Hash() ==>
                      currentHeader == newBlock)
    {
      hide Stored, Linked, Ancestor, HashesOf, Follows, SameAbove, ChainStored, Finds, EntriesAbove;
      var oldBlock := currentBlock;
      SelfAncestor(oldBlock, genesis);
      SelfAncestor(newBlock, genesis);
      NothingAbove(oldBlock, genesis);
      fork := 0;
      var oldAt, newAt, chain: seq<Block>, deleted := oldBlock, Some(newBlock), [], [];
      if oldBlock.number > newBlock.number {
        oldAt, deleted := ReduceOld(oldBlock, newBlock.number);
      } else {
        newAt, chain := ReduceNew(newBlock, oldBlock.number);
      }
      StoredParts(newBlock, oldBlock.number);
      if newAt.None? {
        return false, 0;
      }
      var common;
      common, chain, deleted := FindFork(oldBlock, newBlock, oldAt, newAt.value, chain, deleted);
      if common.None? {
        return false, 0;
      }
      fork := common.value.number;
      FollowsLower(canonical, oldBlock, genesis, fork);
      var added := InsertBranch(newBlock, chain, fork);
      var diff := TxDifference(deleted, added);
      index := index - HashesOf(diff);
      ok := true;
    }

    lemma {:induction false} StoredParts(top: Block, n: nat)
      requires Linked(top, genesis) && top.Hash() in headers
      ensures StoredFrom(top, top.number) && (ChainStored(headers, top, genesis) ==> StoredFrom(top, n))
    {
      SelfAncestor(top, genesis);
    }

    // ---------- Writing blocks ----------

    /** Whether the chain moves to the new block; `coin` decides between equals. */
    static predicate ReorgRequired(localScore: nat, externScore: nat, current: Block, b: Block, coin: bool) {
      || externScore > localScore
      || (externScore == localScore && (b.number < current.number || (b.number == current.number && coin)))
    }

    /**
     Whether a write takes the head block back to an ancestor: one that has no state yet and is as
     heavy as the head.
     */
    ghost predicate Readopts(b: Block, stateOk: bool)
      requires Linked(currentBlock, genesis)
      reads this`currentBlock, this`states
    {
      && stateOk && 0 < b.number < currentBlock.number && Descends(currentBlock, b, genesis) && b.root !in states
      && Linked(b, genesis) && TotalScore(b, genesis) == TotalScore(currentBlock, genesis)
    }

    lemma {:induction false} AncestorKnown(b: Block)
      requires Sound() && Descends(currentBlock, b, genesis)
      ensures Linked(b, genesis) && b.Hash() in headers && TotalScore(b, genesis) <= TotalScore(currentBlock, genesis)
      ensures 0 < b.number ==> b.parentHash in headers && headers[b.parentHash].number == b.number - 1
      ensures b.number <= currentBlock.number && (b.number == currentBlock.number ==> b == currentBlock)
      ensures ChainStored(headers, b, genesis)
    {
      hide Scored, AllUnique, Follows, TotalScore, Entries, Finds, Linked, Ancestor;
      AncestorIsLighter(currentBlock, genesis, b.number);
      SelfAncestor(currentBlock, genesis);
      StoredLower(currentBlock, b.number);
      if 0 < b.number {
        AncestorParent(currentBlock, genesis, b.number);
      }
    }

    lemma {:induction false} StoredLower(top: Block, k: nat)
      requires Linked(top, genesis) && k <= top.number && ChainStored(headers, top, genesis)
      ensures ChainStored(headers, Ancestor(top, genesis, k), genesis)
    {
      hide Linked, Ancestor;
      forall n: nat | n <= k ensures Ancestor(Ancestor(top, genesis, k), genesis, n).Hash() in headers {
        AncestorOfAncestor(top, genesis, k, n);
      }
    }

    /**
     Stores a block whose parent has a score and moves the head to it if that chain is to
     be preferred. `stateOk` is whether its state could be written.
     */
    method WriteBlock(b: Block, stateOk: bool, coin: bool) returns (r: WriteResult)
      requires Sound() && (Linked(b, genesis) ==> NoRepeats(b, genesis))
      modifies this
      ensures Sound() && (old(Valid()) ==> Valid() && !r.ReorgFailed?)
      ensures r.NoAncestor? <==>
                !(0 < b.number && b.parentHash in old(headers) && old(headers)[b.parentHash].number == b.number - 1)
      ensures r.KnownBlock? <==>
                !r.NoAncestor? && b.Hash() in old(headers) && b.root in old(states)
                && b.number <= old(currentBlock).number
      ensures r.StateFailed? <==> !r.NoAncestor? && !r.KnownBlock? && !stateOk
      ensures r.NoAncestor? || r.KnownBlock? ==> headers == old(headers)
      ensures !r.NoAncestor? && !r.KnownBlock? ==> headers == old(headers)[b.Hash() := b]
      ensures states == if r.Canon? || r.Side? || r.ReorgFailed? then old(states) + {b.root} else old(states)
      ensures Linked(currentBlock, genesis) && currentBlock == if r.Canon? then b else old(currentBlock)
      ensures r.Canon? || r.Side? || r.ReorgFailed? ==>
                && Linked(b, genesis)
                && (!r.Side? <==> ReorgRequired(TotalScore(old(currentBlock), genesis), TotalScore(b, genesis),
                                                old(currentBlock), b, coin))
                && (!r.Side? ==> (r.Canon? <==> ChainStored(headers, b, genesis)))
      ensures TotalScore(old(currentBlock), genesis) <= TotalScore(currentBlock, genesis)
      ensures !r.Canon? ==> canonical == old(canonical) && index == old(index) && currentHeader == old(currentHeader)
      ensures SameAbove(old(canonical), canonical, currentBlock.number)
      ensures old(Valid()) ==>
                currentHeader == if r.Canon? && !Descends(old(currentBlock), b, genesis) then b else old(currentHeader)
      ensures old(Valid() && currentHeader == currentBlock) ==>
                (currentHeader != currentBlock <==> old(Readopts(b, stateOk)))
    {
      hide Rooted, Grounded, Scored, AllUnique, Linked, Follows, TotalScore, NoRepeats, Entries, Ancestor, Aligned;
      hide ChainStored, Finds, IndexOf;
      if Descends(currentBlock, b, genesis) {
        AncestorKnown(b);
      }
      ParentKnown(headers, scores, genesis, b);
      FindStored(headers, genesis, b);
      var parentScore := FindScore(scores, b.parentHash, b.number - 1);
      if parentScore.None? {
        return NoAncestor;
      }
      if GetBlock(b.Hash(), b.number).Some? && b.root in states && currentBlock.number >= b.number {
        return KnownBlock;
      }
      HeadStored();
      HeadScore(headers, scores, genesis, currentBlock);
      var localScore := FindScore(scores, currentBlock.Hash(), currentBlock.number).value;
      var externScore := b.score + parentScore.value;
      StoreBlock(b, parentScore.value);
      if !stateOk {
        return StateFailed;
      }
      states := states + {b.root};
      if ReorgRequired(localScore, externScore, currentBlock, b, coin) {
        var ok := AdoptBlock(b);
        r := if ok then Canon else ReorgFailed;
      } else {
        r := Side;
      }
    }

    lemma {:induction false} HeadStored()
      requires Sound()
      ensures currentBlock.Hash() in headers
    {
      SelfAncestor(currentBlock, genesis);
      assert Ancestor(currentBlock, genesis, currentBlock.number) == currentBlock;
    }

    /** Writes score, header and body. */
    method StoreBlock(b: Block, parentScore: nat)
      requires Sound() && FindScore(scores, b.parentHash, b.number - 1) == Some(parentScore)
      requires Linked(b, genesis) ==> NoRepeats(b, genesis)
      modifies this`headers, this`bodies, this`scores
      ensures Sound() && headers == old(headers)[b.Hash() := b] && (old(Valid()) ==> Valid())
      ensures Linked(b, genesis) && TotalScore(b, genesis) == parentScore + b.score && 0 < b.number
    {
      hide Rooted, Grounded, Scored, AllUnique, Linked, NoRepeats, Follows, TotalScore, IndexOf, ChainStored, Finds;
      ParentKnown(headers, scores, genesis, b);
      StoreHeader(headers, scores, genesis, b, parentScore);
      StoreUnique(headers, genesis, b);
      MoreStored(headers, b, currentBlock, genesis);
      MoreStored(headers, b, currentHeader, genesis);
      scores := scores[b.Hash() := b.score + parentScore];
      headers := headers[b.Hash() := b];
      bodies := bodies + {b.Hash()};
    }

    /** Makes a stored block the head, reorganising unless it extends the current head. */
    method AdoptBlock(b: Block) returns (ok: bool)
      requires Sound() && b.Hash() in headers && Linked(b, genesis) && 0 < b.number
      modifies this`canonical, this`currentBlock, this`currentHeader, this`index
      ensures Sound() && (ok <==> ChainStored(headers, b, genesis))
      ensures if ok then currentBlock == b && SameAbove(old(canonical), canonical, b.number)
              else && canonical == old(canonical) && index == old(index)
                   && currentBlock == old(currentBlock) && currentHeader == old(currentHeader)
      ensures Linked(old(currentBlock), genesis)
      ensures old(Valid()) && Preferred(b, old(currentBlock), genesis) ==>
                && ok && Valid()
                && currentHeader == if Descends(old(currentBlock), b, genesis) then old(currentHeader) else b
    {
      hide Rooted, Grounded, Scored, AllUnique, Entries, TotalScore, Linked, Ancestor, Follows, NoneHeavier, Aligned;
      hide SameAbove, Descends, ChainStored, Finds, IndexOf, Stored, Preferred;
      ghost var was, head, top, valid := canonical, currentBlock, currentHeader, Valid() && Preferred(b,
          currentBlock, genesis);
      if valid {
        AlignedParts();
        NewEntry(was, head, b, genesis);
        RootedIsStored(b);
      }
      ok := MoveHeads(b);
      if valid {
        StillNoneHeavier(was, canonical, head, b, genesis);
        if Descends(head, b, genesis) {
          DescendsFurther(top, head, b, genesis);
        }
        AlignedFrom(b);
      }
    }

    lemma {:induction false} RootedIsStored(b: Block)
      requires Rooted(headers, genesis) && b.Hash() in headers && Linked(b, genesis)
      ensures ChainStored(headers, b, genesis)
    {
      forall n: nat | n <= b.number ensures Ancestor(b, genesis, n).Hash() in headers {
        AncestorStored(headers, genesis, b, n);
      }
    }

    lemma {:induction false} ValidIsSound()
      requires Valid()
      ensures Sound()
    {
    }

    lemma {:induction false} AlignedParts()
      requires Aligned()
      ensures Linked(currentHeader, genesis) && Linked(currentBlock, genesis)
      ensures Descends(currentHeader, currentBlock, genesis) && NoneHeavier(canonical, currentBlock, genesis)
    {
    }

    lemma {:induction false} AlignedFrom(b: Block)
      requires Linked(b, genesis) && currentBlock == b && Linked(currentHeader, genesis)
      requires currentHeader == b || Descends(currentHeader, b, genesis)
      requires NoneHeavier(canonical, b, genesis)
      ensures Aligned()
    {
      SelfAncestor(b, genesis);
    }

    /**
     The moves themselves: the numbers and the index go to the chain of `b`, the head header only
     if `b` was not canonical.
     */
    method MoveHeads(b: Block) returns (ok: bool)
      requires Sound() && b.Hash() in headers && Linked(b, genesis) && 0 < b.number
      modifies this`canonical, this`currentBlock, this`currentHeader, this`index
      ensures Sound() && (ok <==> ChainStored(headers, b, genesis)) && Linked(old(currentBlock), genesis)
      ensures if ok then currentBlock == b && SameAbove(old(canonical), canonical, b.number)
              else && canonical == old(canonical) && index == old(index)
                   && currentBlock == old(currentBlock) && currentHeader == old(currentHeader)
      ensures ok && old(index) == IndexOf(old(currentBlock), genesis) ==> index == IndexOf(b, genesis)
      ensures ok && (CanonicalAt(old(canonical), b.number) == b.Hash() <==> Descends(old(currentBlock), b, genesis)) ==>
                if Descends(old(currentBlock), b, genesis)
                then canonical == old(canonical) && currentHeader == old(currentHeader)
                else currentHeader == b
    {
      hide Stored, Follows, Entries, Finds, ChainStored, IndexOf, NoRepeats, EntriesAbove, Linked, Ancestor;
      ghost var was, header := currentBlock, currentHeader;
      SelfAncestor(b, genesis);
      SelfAncestor(was, genesis);
      HeadStored();
      UniqueBoth(b, was);
      AncestorParent(b, genesis, b.number);
      if b.parentHash != currentBlock.Hash() {
        ghost var fork;
        ok, fork := Reorg(b);
        if !ok {
          return;
        }
        ReorgFinds(old(index), was, b, genesis, fork);
        if old(index) == IndexOf(was, genesis) {
          ReorgIndex(was, b, genesis, fork);
        }
        FollowsLower(canonical, b, genesis, b.number - 1);
        SameTop(canonical, b, genesis);
        ForkedBelow(was, b, genesis, fork);
      } else {
        ExtendsStored(headers, b, was, genesis);
        NotBelow(was, b, genesis);
      }
      ok := true;
      HeaderStored(headers, b, header, currentHeader, genesis);
      OneHigher(canonical, Ancestor(b, genesis, b.number - 1), b, genesis, b.number - 1);
      FindsMore(index, b, genesis);
      EntriesTwice(b, genesis, index);
      SameEntry(canonical, b);
      index := index + Entries(b);
      Insert(b);
    }

    lemma {:induction false} UniqueBoth(b: Block, c: Block)
      requires Stored() && b.Hash() in headers && c.Hash() in headers
      ensures Linked(b, genesis) && NoRepeats(b, genesis) && Linked(c, genesis) && NoRepeats(c, genesis)
    {
      UniqueChains(headers, genesis, b);
      UniqueChains(headers, genesis, c);
    }

    /**
     Every run of block writes keeps the chain valid, and the head's score never falls. The head
     header stays on the head block unless it has a score of zero.
     */
    method WriteBlocks(blocks: seq<(Block, bool, bool)>)
      requires Valid()
      requires forall i :: 0 <= i < |blocks| && Linked(blocks[i].0, genesis) ==> NoRepeats(blocks[i].0, genesis)
      modifies this
      ensures Valid() && TotalScore(old(currentBlock), genesis) <= TotalScore(currentBlock, genesis)
      ensures currentHeader == currentBlock || (currentHeader.score == 0 && 0 < currentHeader.number)
    {
      hide Stored, Follows, TotalScore, NoRepeats, Aligned, Rooted, Finds, ChainStored;
      for i := 0 to |blocks|
        invariant Valid() && TotalScore(old(currentBlock), genesis) <= TotalScore(currentBlock, genesis)
      {
        var r := WriteBlock(blocks[i].0, blocks[i].1, blocks[i].2);
      }
      HeadsPart();
    }

    /** The two heads part only over blocks of score zero: the head header is as heavy as the head block. */
    lemma {:induction false} HeadsPart()
      requires Valid()
      ensures currentHeader == currentBlock || (currentHeader.score == 0 && 0 < currentHeader.number)
    {
      AlignedParts();
      hide Ancestor, Aligned, Stored;
      if currentHeader != currentBlock {
        SelfAncestor(currentHeader, genesis);
        AncestorParent(currentHeader, genesis, currentHeader.number);
        AncestorOfAncestor(currentHeader, genesis, currentHeader.number - 1, currentBlock.number);
        AncestorIsLighter(currentHeader.parentHash.block, genesis, currentBlock.number);
        assert canonical[currentHeader.number] == currentHeader.Hash();
      }
    }
  }

  /** Writing an entry that is there already changes nothing. */
  lemma {:induction false} SameEntry(canonical: Canonical, b: Block)
    ensures CanonicalAt(canonical, b.number) == b.Hash() ==> canonical[b.number := b.Hash()] == canonical
  {
  }

  lemma {:induction false} SameTop(canonical: Canonical, b: Block, genesis: Block)
    requires Linked(b, genesis) && Follows(canonical, b, genesis)
    ensures CanonicalAt(canonical, b.number) == b.Hash()
  {
    SelfAncestor(b, genesis);
    assert b.number in canonical && canonical[b.number] == b.Hash();
  }

  /** The fork lies at the block itself exactly if that is an ancestor. */
  lemma {:induction false} ForkedBelow(was: Block, b: Block, genesis: Block, fork: nat)
    requires Linked(was, genesis) && Linked(b, genesis) && Fork(was, b, genesis, fork)
    ensures fork == b.number <==> Descends(was, b, genesis)
  {
    hide Ancestor, Linked;
    SelfAncestor(b, genesis);
  }

  lemma {:induction false} NotBelow(was: Block, b: Block, genesis: Block)
    requires Linked(was, genesis) && Linked(b, genesis) && 0 < b.number && b.parentHash == was.Hash()
    ensures !Descends(was, b, genesis) && Ancestor(b, genesis, b.number - 1) == was
  {
    SelfAncestor(was, genesis);
  }

  lemma {:induction false} ExtendsStored(store: Store, b: Block, was: Block, genesis: Block)
    requires Linked(was, genesis) && Linked(b, genesis) && 0 < b.number && b.parentHash == was.Hash()
    requires ChainStored(store, was, genesis) && b.Hash() in store
    ensures ChainStored(store, b, genesis)
  {
    forall n: nat | n <= b.number ensures Ancestor(b, genesis, n).Hash() in store {
      if n < b.number {
        assert Ancestor(b, genesis, n) == Ancestor(was, genesis, n);
      }
    }
  }

  lemma {:induction false} MoreStored(store: Store, b: Block, head: Block, genesis: Block)
    requires Linked(head, genesis) && ChainStored(store, head, genesis)
    ensures ChainStored(store[b.Hash() := b], head, genesis)
  {
    hide Linked, Ancestor;
  }

  /** A head header that stayed, or is on the chain of the new head block, has its chain stored. */
  lemma {:induction false} HeaderStored(store: Store, b: Block, was: Block, now: Block, genesis: Block)
    requires Linked(b, genesis) && ChainStored(store, b, genesis) && Linked(was, genesis)
             && ChainStored(store, was, genesis)
    requires now == was || Descends(b, now, genesis)
    ensures Linked(now, genesis) && ChainStored(store, now, genesis)
  {
    hide Linked, Ancestor;
    if now != was {
      forall n: nat | n <= now.number ensures Ancestor(now, genesis, n).Hash() in store {
        AncestorOfAncestor(b, genesis, now.number, n);
      }
    }
  }

  lemma {:induction false} FindsMore(index: TxIndex, b: Block, genesis: Block)
    requires Linked(b, genesis) && 0 < b.number
    requires Finds(index, b, genesis) || Finds(index, Ancestor(b, genesis, b.number - 1), genesis)
    ensures Finds(index + Entries(b), b, genesis)
  {
    hide Entries;
    assert IndexOf(b, genesis) == IndexOf(b.parentHash.block, genesis) + Entries(b);
    SelfAncestor(b.parentHash.block, genesis);
  }

  /** Fork choice: a heavier block, or one as heavy that is not higher. */
  ghost predicate Preferred(b: Block, head: Block, genesis: Block)
    requires Linked(b, genesis) && Linked(head, genesis)
  {
    || TotalScore(b, genesis) > TotalScore(head, genesis)
    || (TotalScore(b, genesis) == TotalScore(head, genesis) && b.number <= head.number)
  }

  /** A preferred block is already canonical exactly if it is the head or one of its ancestors. */
  lemma {:induction false} NewEntry(canonical: Canonical, head: Block, b: Block, genesis: Block)
    requires Linked(head, genesis) && Linked(b, genesis) && Preferred(b, head, genesis)
    requires Follows(canonical, head, genesis) && NoneHeavier(canonical, head, genesis)
    ensures CanonicalAt(canonical, b.number) == b.Hash() <==> Descends(head, b, genesis)
  {
    hide TotalScore, Linked, Ancestor;
    if b.number <= head.number {
      assert b.number in canonical && canonical[b.number] == Ancestor(head, genesis, b.number).Hash();
    }
  }

  lemma {:induction false} DescendsFurther(top: Block, mid: Block, b: Block, genesis: Block)
    requires Linked(top, genesis) && Linked(mid, genesis) && Descends(top, mid, genesis) && Descends(mid, b, genesis)
    ensures Descends(top, b, genesis)
  {
    AncestorOfAncestor(top, genesis, mid.number, b.number);
  }

  lemma {:induction false} AncestorIsLighter(b: Block, genesis: Block, n: nat)
    requires Linked(b, genesis) && n <= b.number
    ensures TotalScore(Ancestor(b, genesis, n), genesis) <= TotalScore(b, genesis)
    decreases b
  {
    if n < b.number { AncestorIsLighter(b.parentHash.block, genesis, n); }
  }

  /** A chain followed up to a preferred block, with old entries above, has nothing heavier than that block. */
  lemma {:induction false} StillNoneHeavier(was: Canonical, now: Canonical, head: Block, b: Block, genesis: Block)
    requires Linked(head, genesis) && Linked(b, genesis) && Preferred(b, head, genesis)
    requires NoneHeavier(was, head, genesis) && Follows(now, b, genesis) && SameAbove(was, now, b.number)
    ensures NoneHeavier(now, b, genesis)
  {
    hide TotalScore, Linked, Ancestor;
    forall n: nat | n in now
      ensures now[n].HashOf? && Linked(now[n].block, genesis)
              && TotalScore(now[n].block, genesis) <= TotalScore(b, genesis)
    {
      if n <= b.number {
        AncestorIsLighter(b, genesis, n);
        assert now[n] == Ancestor(b, genesis, n).Hash();
      } else {
        assert n in was && now[n] == was[n];
      }
    }
  }

  /**
   Canonical numbers that ended at the old head end at the new one after it was adopted exactly
   if the new head is not lower: entries above it are left in place.
   */
  lemma {:induction false} ExactUnlessShorter(was: Canonical, now: Canonical, head: Block, b: Block, genesis: Block)
    requires Linked(head, genesis) && Linked(b, genesis) && Exactly(was, head, genesis)
    requires Follows(now, b, genesis) && SameAbove(was, now, b.number)
    ensures Exactly(now, b, genesis) <==> head.number <= b.number
  {
    hide Ancestor, Linked;
    if b.number < head.number {
      assert head.number in was;
      assert head.number in now;
    }
  }

  lemma {:induction false} FindStored(store: Store, genesis: Block, b: Block)
    requires Grounded(store, genesis)
    ensures Find(store, b.Hash(), b.number).Some? <==> b.Hash() in store
  {
    if b.Hash() in store {
      assert store[b.Hash()].Hash() == b.Hash();
    }
  }

  lemma {:induction false} StoreUnique(store: Store, genesis: Block, b: Block)
    requires AllUnique(store, genesis) && Linked(b, genesis) && NoRepeats(b, genesis)
    ensures AllUnique(store[b.Hash() := b], genesis)
  {
  }

  lemma {:induction false} UniqueChains(store: Store, genesis: Block, b: Block)
    requires Grounded(store, genesis) && AllUnique(store, genesis) && b.Hash() in store
    ensures Linked(b, genesis) && NoRepeats(b, genesis)
  {
    assert store[b.Hash()] == b;
  }

  /** Following a head is following each of its ancestors. */
  lemma {:induction false} FollowsLower(canonical: Canonical, head: Block, genesis: Block, k: nat)
    requires Linked(head, genesis) && k <= head.number && Follows(canonical, head, genesis)
    ensures Follows(canonical, Ancestor(head, genesis, k), genesis)
  {
    forall n: nat | n <= k
      ensures n in canonical && canonical[n] == Ancestor(Ancestor(head, genesis, k), genesis, n).Hash()
    {
      AncestorOfAncestor(head, genesis, k, n);
    }
  }

  /** One more canonical block on top of a followed one. */
  lemma {:induction false} OneHigher(canonical: Canonical, p: Block, b: Block, genesis: Block, k: nat)
    requires Linked(p, genesis) && Linked(b, genesis) && 0 < b.number && b.parentHash == p.Hash() && k <= p.number
    requires Follows(canonical, p, genesis)
    ensures Follows(canonical[b.number := b.Hash()], b, genesis)
    ensures EntriesAbove(b, genesis, k) == EntriesAbove(p, genesis, k) + Entries(b)
  {
  }

  /** Writing the entries of a block on top of its parent's index, or again on its own, gives its index. */
  lemma {:induction false} EntriesTwice(b: Block, genesis: Block, index: TxIndex)
    requires Linked(b, genesis) && 0 < b.number
    ensures index == IndexOf(b, genesis) || index == IndexOf(Ancestor(b, genesis, b.number - 1), genesis) ==>
              index + Entries(b) == IndexOf(b, genesis)
  {
    SelfAncestor(b.parentHash.block, genesis);
  }

  lemma {:induction false} NothingAbove(b: Block, genesis: Block)
    requires Linked(b, genesis)
    ensures EntriesAbove(b, genesis, b.number) == map[] && HashesOf([]) == {}
  {
  }
}
