/** What a rewind leaves for the writes that come after it. */
module Resumes {
  import opened Types
  import opened Blocks
  import opened Lookups
  import opened HeaderChains
  import opened BlockChains
  import opened Rewinds

  /**
   The transaction index is not touched by a rewind: it is that of the lower head exactly if the
   blocks given up had no transactions.
   */
  lemma {:induction false} IndexBelow(top: Block, genesis: Block, k: nat)
    requires Linked(top, genesis) && NoRepeats(top, genesis) && k <= top.number
    ensures IndexOf(top, genesis) == IndexOf(Ancestor(top, genesis, k), genesis) <==>
              EntriesAbove(top, genesis, k) == map[]
  {
    hide NoRepeats, Linked, Ancestor, EntriesAbove;
    var low, above := IndexOf(Ancestor(top, genesis, k), genesis), EntriesAbove(top, genesis, k);
    SplitIndex(top, genesis, k);
    PartsDisjoint(top, genesis, k);
    if above == map[] {
      assert low + above == low;
    } else {
      var h :| h in above;
      assert h in low + above;
    }
  }

  /**
   What decides, before a rewind that will end at number `n`, whether blocks can be written after it
   as after any run of writes: no header that stays is a child of one that goes, the blocks given
   up have no transactions, and no number left canonical above the old head is heavier than the new one.
   */
  ghost predicate Clean(headers: Store, canonical: Canonical, head: Block, block: Block, genesis: Block, n: nat)
    requires Linked(head, genesis) && Linked(block, genesis) && n <= head.number
  {
    && (forall h :: h in headers && 0 < headers[h].number && !AboveOn(h, head, genesis, n) ==>
          !AboveOn(headers[h].parentHash, head, genesis, n))
    && EntriesAbove(block, genesis, n) == map[]
    && (forall k: nat :: k in canonical && head.number < k ==>
          NotHeavier(canonical[k], Ancestor(head, genesis, n), genesis))
  }

  ghost predicate NotHeavier(h: Hash, b: Block, genesis: Block)
    requires Linked(b, genesis)
  {
    h.HashOf? && Linked(h.block, genesis) ==> TotalScore(h.block, genesis) <= TotalScore(b, genesis)
  }

  /**
   The numbers left after a rewind have nothing heavier than the new head exactly if those above the old head do
   not.
   */
  lemma {:induction false} NoneHeavierExactly(was: Canonical, now: Canonical, head: Block, block: Block, genesis: Block,
                                              n: nat)
    requires Linked(head, genesis) && Linked(block, genesis) && n <= head.number && NoneHeavier(was, block, genesis)
    requires Follows(was, head, genesis) && NumbersCut(was, now, n, head.number)
    ensures Linked(Ancestor(head, genesis, n), genesis)
    ensures NoneHeavier(now, Ancestor(head, genesis, n), genesis) <==>
              forall k: nat :: k in was && head.number < k ==> NotHeavier(was[k], Ancestor(head, genesis, n), genesis)
  {
    hide Linked, TotalScore, Ancestor;
    var low := Ancestor(head, genesis, n);
    forall k: nat | k <= n ensures Linked(Ancestor(head, genesis, k), genesis)
      && TotalScore(Ancestor(head, genesis, k), genesis) <= TotalScore(low, genesis)
    {
      AncestorOfAncestor(head, genesis, n, k);
      AncestorIsLighter(low, genesis, k);
    }
    forall k: nat | k in now && k <= n ensures now[k] == Ancestor(head, genesis, k).Hash() {
      assert k in was;
    }
    forall k: nat ensures head.number < k && k in was ==> k in now && now[k] == was[k] {
    }
  }

  // ---------- Rewinds keep what every run keeps ----------

  /** All that a chain held before a rewind. */
  datatype Before = Before(
    headers: Store,
    bodies: set<Hash>,
    scores: Scores,
    canonical: Canonical,
    head: Block,
    block: Block)

  ghost predicate WasSound(w: Before, index: TxIndex, genesis: Block) {
    && Grounded(w.headers, genesis) && Scored(w.headers, w.scores, genesis)
    && w.bodies == w.headers.Keys && AllUnique(w.headers, genesis)
    && Linked(w.block, genesis) && Linked(w.head, genesis)
    && ChainStored(w.headers, w.block, genesis) && ChainStored(w.headers, w.head, genesis)
    && Follows(w.canonical, w.block, genesis) && Follows(w.canonical, w.head, genesis)
    && Finds(index, w.block, genesis)
  }

  ghost function BeforeOf(chain: BlockChain): Before
    reads chain
  {
    Before(chain.headers, chain.bodies, chain.scores, chain.canonical, chain.currentHeader, chain.currentBlock)
  }

  lemma {:induction false} SoundBefore(chain: BlockChain)
    requires chain.Sound()
    ensures WasSound(BeforeOf(chain), chain.index, chain.genesis)
  {
    hide Linked, Ancestor, Follows, Grounded, Scored, AllUnique, ChainStored, Finds;
  }

  /** The stores after a rewind: headers, bodies and scores are still those of the same blocks. */
  lemma {:induction false} StoredAfter(chain: BlockChain, w: Before, n: nat)
    requires WasSound(w, chain.index, chain.genesis)
    requires Deleted(w.headers, w.bodies, w.scores, w.canonical, chain, w.head, n)
    ensures chain.Stored()
  {
    hide Linked, Ancestor, Follows, ChainStored, Finds, NumbersCut, NoRepeats, TotalScore;
    assert chain.headers.Keys == chain.scores.Keys && chain.bodies == chain.headers.Keys;
  }

  /** What is at or below the number a rewind has come down to stays stored. */
  lemma {:induction false} ChainStays(was: Store, now: Store, head: Block, genesis: Block, n: nat, b: Block)
    requires Linked(head, genesis) && Linked(b, genesis) && CutAbove(was, now, head, genesis, n)
    requires ChainStored(was, b, genesis) && (b.number <= n || n == head.number)
    ensures ChainStored(now, b, genesis)
  {
    hide Linked, Ancestor;
  }

  /** The numbers that a rewind leaves are those from before. */
  lemma {:induction false} FollowedBefore(was: Canonical, now: Canonical, b: Block, genesis: Block, n: nat, top: nat)
    requires Linked(b, genesis) && Follows(now, b, genesis) && NumbersCut(was, now, n, top)
    ensures Follows(was, b, genesis)
  {
    hide Linked, Ancestor;
  }

  /** The head block has come down its own chain, and everything on that is found. */
  lemma {:induction false} StillFinds(chain: BlockChain, w: Before, n: nat)
    requires WasSound(w, chain.index, chain.genesis) && Rewindable(chain)
    requires NumbersCut(w.canonical, chain.canonical, n, w.head.number) && chain.currentBlock.number <= w.block.number
    ensures Descends(w.block, chain.currentBlock, chain.genesis)
            && Finds(chain.index, chain.currentBlock, chain.genesis)
  {
    hide Linked, Ancestor, Grounded, Scored, AllUnique, ChainStored, Finds, NumbersCut, Follows, NoRepeats;
    FollowedBefore(w.canonical, chain.canonical, chain.currentBlock, chain.genesis, n, w.head.number);
    OnLine(w.canonical, w.block, chain.currentBlock, chain.genesis);
    TopIsStored(w.headers, w.block, chain.genesis);
    UniqueChains(w.headers, chain.genesis, w.block);
    FindsLower(chain.index, w.block, chain.genesis, chain.currentBlock.number);
  }

  lemma {:induction false} TopIsStored(store: Store, b: Block, genesis: Block)
    requires Linked(b, genesis) && ChainStored(store, b, genesis)
    ensures b.Hash() in store
  {
    SelfAncestor(b, genesis);
    assert Ancestor(b, genesis, b.number) == b;
  }

  lemma {:induction false} SoundAfter(chain: BlockChain, w: Before)
    requires WasSound(w, chain.index, chain.genesis) && Rewindable(chain)
    requires Descends(w.head, chain.currentHeader, chain.genesis) && chain.currentBlock.number <= w.block.number
    requires || Descends(chain.currentHeader, chain.currentBlock, chain.genesis)
             || (chain.currentHeader == w.head && chain.currentBlock == w.block)
    requires Deleted(w.headers, w.bodies, w.scores, w.canonical, chain, w.head, chain.currentHeader.number)
    ensures chain.Sound()
  {
    hide Linked, Ancestor, Grounded, Scored, AllUnique, Finds, NumbersCut, Follows, CutAbove, BlockChain.Stored;
    hide ChainStored;
    var n, genesis := chain.currentHeader.number, chain.genesis;
    StoredAfter(chain, w, n);
    StillFinds(chain, w, n);
    HeaderStored(w.headers, w.head, w.head, chain.currentHeader, genesis);
    HeaderStored(w.headers, w.block, w.block, chain.currentBlock, genesis);
    ChainStays(w.headers, chain.headers, w.head, genesis, n, chain.currentHeader);
    ChainStays(w.headers, chain.headers, w.head, genesis, n, chain.currentBlock);
  }

  // ---------- Every run ----------

  /** A rewind, from any point of any run. */
  method Rewind(chain: BlockChain, target: nat, root: Option<nat>) returns (failure: Option<Outcome>)
    requires chain.Sound()
    modifies chain`headers, chain`bodies, chain`scores, chain`canonical, chain`currentHeader, chain`currentBlock
    ensures chain.Sound() && chain.currentBlock.number <= old(chain.currentBlock).number
    ensures Linked(old(chain.currentHeader), chain.genesis) && Linked(old(chain.currentBlock), chain.genesis)
    ensures Descends(old(chain.currentHeader), chain.currentHeader, chain.genesis)
    ensures old(chain.currentHeader).number > target ==>
              var top := if target < old(chain.currentBlock).number then target else old(chain.currentBlock).number;
              (failure.None? <==>
                 !NoState(Accepted(chain.states, root), old(chain.currentHeader), chain.genesis, 0, top))
    ensures failure.None? && old(chain.currentHeader).number > target ==>
              && chain.currentHeader == chain.currentBlock && 0 < chain.currentBlock.number <= target
              && (old(chain.Valid()) ==>
                    (chain.Valid() <==>
                       Clean(old(chain.headers), old(chain.canonical), old(chain.currentHeader),
                             old(chain.currentBlock), chain.genesis, chain.currentBlock.number)))
    ensures old(chain.currentHeader).number <= target ==> failure.None? && (old(chain.Valid()) ==> chain.Valid())
  {
    hide Linked, Ancestor, BlockChain.Stored, Follows, Deleted, NoState, Complete, Clean, Rooted, ChainStored, Finds;
    hide BlockChain.Aligned, IndexOf, Accepted;
    ghost var w, valid := BeforeOf(chain), chain.Valid();
    SoundBefore(chain);
    SoundIsRewindable(chain);
    if valid {
      ValidBefore(chain);
    }
    failure := SetHead(chain, target, root);
    SoundAfter(chain, w);
    if valid && failure.None? && target < w.head.number {
      ValidExactly(chain, w);
    }
  }

  /** A repair, from any point of any run. */
  method Mend(chain: BlockChain, root: Option<nat>) returns (r: Outcome)
    requires chain.Sound()
    modifies chain`currentBlock
    ensures chain.Sound() && Linked(old(chain.currentBlock), chain.genesis)
    ensures r.Moved? ==> Descends(old(chain.currentBlock), chain.currentBlock, chain.genesis)
    ensures !r.Moved? ==> chain.currentBlock == old(chain.currentBlock)
  {
    hide Linked, Ancestor, BlockChain.Stored, Follows, NoState, Complete, Sought, ChainStored, Finds;
    ghost var w := BeforeOf(chain);
    SoundBefore(chain);
    SoundIsRewindable(chain);
    var passed;
    r, passed := Repair(chain, root);
    if r.Moved? {
      NothingNumbered(chain.canonical, w.head.number);
      StillFinds(chain, w, w.head.number);
      HeaderStored(w.headers, w.block, w.block, chain.currentBlock, chain.genesis);
    }
  }

  lemma {:induction false} NothingNumbered(canonical: Canonical, n: nat)
    ensures NumbersCut(canonical, canonical, n, n)
  {
  }

  datatype Op =
    | Write(block: Block, stateOk: bool, coin: bool)
    | SetBack(target: nat, root: Option<nat>)
    | Fix(root: Option<nat>)

  /**
   Every run of writes, rewinds and repairs in any order: both heads stay on the canonical chain, all
   of it is stored, scores are the sums along the ancestry, and every transaction of the head's chain
   is found where it is.
   */
  method Run(chain: BlockChain, ops: seq<Op>)
    requires chain.Sound()
    requires forall op :: op in ops && op.Write? && Linked(op.block, chain.genesis) ==>
               NoRepeats(op.block, chain.genesis)
    modifies chain
    ensures chain.Sound()
  {
    hide BlockChain.Sound, BlockChain.Valid, Linked, NoRepeats, TotalScore, NoState, Clean, Accepted;
    for i := 0 to |ops|
      invariant chain.Sound()
    {
      assert ops[i] in ops;
      match ops[i]
      case Write(b, stateOk, coin) =>
        var result := chain.WriteBlock(b, stateOk, coin);
      case SetBack(target, root) =>
        var failure := Rewind(chain, target, root);
      case Fix(root) =>
        var outcome := Mend(chain, root);
    }
  }

  // ---------- When writes can go on as if nothing had been rewound ----------

  ghost predicate WasValid(w: Before, index: TxIndex, genesis: Block) {
    && WasSound(w, index, genesis) && Rooted(w.headers, genesis) && index == IndexOf(w.block, genesis)
    && Descends(w.head, w.block, genesis) && NoneHeavier(w.canonical, w.block, genesis)
  }

  lemma {:induction false} ValidBefore(chain: BlockChain)
    requires chain.Valid()
    ensures WasValid(BeforeOf(chain), chain.index, chain.genesis)
  {
    hide Linked, Ancestor, NoneHeavier, Follows, Rooted, BlockChain.Sound, WasSound, IndexOf;
    chain.ValidIsSound();
    chain.AlignedParts();
    SoundBefore(chain);
  }

  /** No header that stays has lost its parent exactly if none was a child of one that goes. */
  lemma {:induction false} RootedExactly(chain: BlockChain, w: Before, n: nat)
    requires WasValid(w, chain.index, chain.genesis)
    requires Deleted(w.headers, w.bodies, w.scores, w.canonical, chain, w.head, n)
    ensures Rooted(chain.headers, chain.genesis) <==>
              forall h :: h in w.headers && 0 < w.headers[h].number && !AboveOn(h, w.head, chain.genesis, n) ==>
                !AboveOn(w.headers[h].parentHash, w.head, chain.genesis, n)
  {
    hide Linked, Ancestor, AboveOn, Rooted, Grounded, Scored, AllUnique, NoneHeavier, Follows, NumbersCut, Finds;
    hide IndexOf;
    hide ChainStored;
    RootedUnlessOrphaned(w.headers, chain.headers, w.head, chain.genesis, n);
  }

  lemma {:induction false} ValidExactly(chain: BlockChain, w: Before)
    requires WasValid(w, chain.index, chain.genesis) && chain.currentHeader == chain.currentBlock && chain.Sound()
    requires Descends(w.head, chain.currentBlock, chain.genesis) && chain.currentBlock.number <= w.block.number
    requires Deleted(w.headers, w.bodies, w.scores, w.canonical, chain, w.head, chain.currentBlock.number)
    ensures chain.Valid() <==>
              Clean(w.headers, w.canonical, w.head, w.block, chain.genesis, chain.currentBlock.number)
  {
    hide Linked, Ancestor, AboveOn, BlockChain.Stored, Rooted, Grounded, Scored, AllUnique, NoneHeavier, CutAbove;
    hide TotalScore, IndexOf, EntriesAbove, Follows, NoRepeats, NumbersCut, ChainStored, Finds;
    var n, genesis := chain.currentBlock.number, chain.genesis;
    RootedExactly(chain, w, n);
    TopIsStored(w.headers, w.block, genesis);
    UniqueChains(w.headers, genesis, w.block);
    AncestorOfAncestor(w.head, genesis, w.block.number, n);
    IndexBelow(w.block, genesis, n);
    NoneHeavierExactly(w.canonical, chain.canonical, w.head, w.block, genesis, n);
    SelfAncestor(chain.currentBlock, genesis);
  }
}
