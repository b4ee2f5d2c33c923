/**
 Short runs of block writes on top of any genesis block that show where the general claims
 about forks have to stop.
 */
module ForkRuns {
  import opened Types
  import opened Blocks
  import opened Lookups
  import opened HeaderChains
  import opened BlockChains
  import opened Rewinds
  import Resumes

  /** A block without transactions on top of another. */
  function Child(p: Block, score: nat, root: nat): Block {
    Block(p.Hash(), p.number + 1, score, root, [], 0)
  }

  lemma {:induction false} ChildIsLinked(p: Block, score: nat, root: nat, genesis: Block)
    requires Linked(p, genesis) && NoRepeats(p, genesis)
    ensures var b := Child(p, score, root);
            && Linked(b, genesis) && NoRepeats(b, genesis)
            && TotalScore(b, genesis) == TotalScore(p, genesis) + score
            && Ancestor(b, genesis, p.number) == p
  {
    SelfAncestor(p, genesis);
    assert HashesOf([]) == {};
  }

  lemma {:induction false} GenesisStarts(genesis: Block)
    requires genesis.number == 0 && genesis.txs == []
    ensures Linked(genesis, genesis) && NoRepeats(genesis, genesis) && TotalScore(genesis, genesis) == genesis.score
  {
  }

  /**
   Two blocks of score 1 and then a block of score 3 next to the first: the chain moves to the
   shorter branch and the canonical entry of number 2 stays behind.
   */
  method ShorterFork(genesis: Block) returns (chain: BlockChain)
    requires genesis.number == 0 && genesis.txs == []
    ensures fresh(chain) && chain.Valid() && chain.genesis == genesis
    ensures chain.currentBlock == Child(genesis, 3, 0) && !Exactly(chain.canonical, chain.currentBlock, genesis)
  {
    hide BlockChain.Valid, BlockChain.Readopts, Linked, NoRepeats, TotalScore, Ancestor, Follows, ChainStored;
    var a1 := Child(genesis, 1, 0);
    var a2 := Child(a1, 1, 0);
    var b1 := Child(genesis, 3, 0);
    GenesisStarts(genesis);
    ChildIsLinked(genesis, 1, 0, genesis);
    ChildIsLinked(a1, 1, 0, genesis);
    ChildIsLinked(genesis, 3, 0, genesis);
    chain := new BlockChain(genesis);
    var r1 := chain.WriteBlock(a1, true, false);
    assert r1.Canon?;
    var r2 := chain.WriteBlock(a2, true, false);
    assert r2.Canon?;
    HeadIsCanonical(chain);
    ghost var was := chain.canonical;
    var r3 := chain.WriteBlock(b1, true, false);
    assert r3.Canon?;
    assert 2 in was && 2 in chain.canonical;
  }

  lemma {:induction false} HeadIsCanonical(chain: BlockChain)
    requires chain.Valid()
    ensures chain.currentBlock.number in chain.canonical
  {
  }

  /**
   A block whose state could not be written, a block of score zero on top of it, and the first
   one again, now with its state: the head block goes back to it and the head header does not.
   */
  method HeadsCanPart(genesis: Block) returns (chain: BlockChain)
    requires genesis.number == 0 && genesis.txs == []
    ensures fresh(chain) && chain.Valid() && chain.genesis == genesis
    ensures var b := Child(genesis, 1, genesis.root + 1);
            chain.currentBlock == b && chain.currentHeader == Child(b, 0, genesis.root)
  {
    hide BlockChain.Valid, Linked, NoRepeats, TotalScore, Ancestor, Follows;
    var b := Child(genesis, 1, genesis.root + 1);
    var c := Child(b, 0, genesis.root);
    GenesisStarts(genesis);
    ChildIsLinked(genesis, 1, genesis.root + 1, genesis);
    ChildIsLinked(b, 0, genesis.root, genesis);
    chain := new BlockChain(genesis);
    var r1 := chain.WriteBlock(b, false, false);
    assert r1.StateFailed?;
    var r2 := chain.WriteBlock(c, true, false);
    assert r2.Canon?;
    var r3 := chain.WriteBlock(b, true, false);
  }

  /** Three blocks on top of one another. */
  lemma {:induction false} ThreeUp(genesis: Block, a1: Block, a2: Block, a3: Block)
    requires Linked(a3, genesis) && Linked(a2, genesis) && Linked(a1, genesis)
    requires a1.number == 1 && a2.number == 2 && a3.number == 3
    requires a3.parentHash == a2.Hash() && a2.parentHash == a1.Hash()
    ensures Ancestor(a3, genesis, 1) == a1 && Ancestor(a3, genesis, 2) == a2
  {
    SelfAncestor(a1, genesis);
    SelfAncestor(a2, genesis);
    assert Ancestor(a2, genesis, 1) == a1;
  }

  function First(genesis: Block): Block { Child(genesis, 1, 0) }

  function Second(genesis: Block): Block { Child(First(genesis), 1, 0) }

  function Third(genesis: Block): Block { Child(Second(genesis), 1, 0) }

  function Side(genesis: Block): Block { Child(Second(genesis), 0, 0) }

  lemma {:induction false} BranchesLinked(genesis: Block)
    requires genesis.number == 0 && genesis.txs == []
    ensures var a1, a2, a3, side := First(genesis), Second(genesis), Third(genesis), Side(genesis);
            && Linked(genesis, genesis) && NoRepeats(genesis, genesis) && Linked(a1, genesis) && NoRepeats(a1, genesis)
            && Linked(a2, genesis) && NoRepeats(a2, genesis) && Linked(a3, genesis) && NoRepeats(a3, genesis)
            && Linked(side, genesis) && NoRepeats(side, genesis)
            && TotalScore(genesis, genesis) < TotalScore(a1, genesis) < TotalScore(a2, genesis)
            && TotalScore(side, genesis) == TotalScore(a2, genesis) < TotalScore(a3, genesis)
            && Ancestor(a3, genesis, 1) == a1 && Ancestor(a3, genesis, 2) == a2
  {
    hide Linked, NoRepeats, TotalScore, Ancestor;
    GenesisStarts(genesis);
    ChildIsLinked(genesis, 1, 0, genesis);
    ChildIsLinked(First(genesis), 1, 0, genesis);
    ChildIsLinked(Second(genesis), 1, 0, genesis);
    ChildIsLinked(Second(genesis), 0, 0, genesis);
    ThreeUp(genesis, First(genesis), Second(genesis), Third(genesis));
  }

  method ThreeBlocks(genesis: Block) returns (chain: BlockChain)
    requires genesis.number == 0 && genesis.txs == []
    ensures fresh(chain) && chain.Valid() && chain.genesis == genesis
    ensures chain.currentBlock == chain.currentHeader == Third(genesis) && 0 in chain.states
    ensures Second(genesis).Hash() in chain.headers && chain.headers[Second(genesis).Hash()].number == 2
    ensures Side(genesis).Hash() !in chain.headers
  {
    hide BlockChain.Valid, Linked, NoRepeats, TotalScore, Ancestor, Follows, BlockChain.Sound, BlockChain.Readopts;
    hide ChainStored, SameAbove;
    BranchesLinked(genesis);
    chain := new BlockChain(genesis);
    chain.ValidIsSound();
    var r1 := chain.WriteBlock(First(genesis), true, false);
    assert r1.Canon?;
    var r2 := chain.WriteBlock(Second(genesis), true, false);
    assert r2.Canon?;
    var r3 := chain.WriteBlock(Third(genesis), true, false);
    assert r3.Canon?;
  }

  /** Three blocks, and a lighter one next to the third. */
  method Branches(genesis: Block) returns (chain: BlockChain)
    requires genesis.number == 0 && genesis.txs == []
    ensures fresh(chain) && chain.Valid() && chain.genesis == genesis
    ensures chain.currentBlock == chain.currentHeader == Third(genesis) && 0 in chain.states
    ensures Second(genesis).Hash() in chain.headers && Side(genesis).Hash() in chain.headers
  {
    hide BlockChain.Valid, Linked, NoRepeats, TotalScore, Ancestor, Follows, BlockChain.Sound, BlockChain.Readopts;
    hide ChainStored, SameAbove;
    BranchesLinked(genesis);
    chain := ThreeBlocks(genesis);
    chain.ValidIsSound();
    var r := chain.WriteBlock(Side(genesis), true, false);
    assert r.Side?;
  }

  /** Rewound to number 1, the second block is gone and its child on the side branch has lost its parent. */
  method OrphanedBranch(genesis: Block) returns (chain: BlockChain)
    requires genesis.number == 0 && genesis.txs == []
    ensures fresh(chain) && chain.Sound() && chain.genesis == genesis
    ensures chain.currentBlock == First(genesis) && !Rooted(chain.headers, genesis)
    ensures Side(genesis).Hash() in chain.headers && Second(genesis).Hash() !in chain.headers
  {
    hide BlockChain.Valid, Linked, NoRepeats, TotalScore, Ancestor, Follows, Rewindable, Complete, NumbersCut;
    hide BlockChain.Stored, ChainStored, Finds;
    BranchesLinked(genesis);
    chain := Branches(genesis);
    chain.ValidIsSound();
    Resumes.SoundBefore(chain);
    SoundIsRewindable(chain);
    ghost var w := Resumes.BeforeOf(chain);
    FirstHasState(chain);
    var failure := SetHead(chain, 1, None);
    Resumes.SoundAfter(chain, w);
    ghost var a2, side := Second(genesis), Side(genesis);
    SideIsOff(genesis);
    assert side.Hash() in chain.headers && a2.Hash() !in chain.headers;
    Orphan(chain.headers, side, genesis);
  }

  /** A heavy block on that side branch is stored, but the reorganisation to it fails and the head stays. */
  method FailedReorg(genesis: Block) returns (chain: BlockChain, r: WriteResult)
    requires genesis.number == 0 && genesis.txs == []
    ensures fresh(chain) && chain.Sound() && chain.genesis == genesis
    ensures r == ReorgFailed && chain.currentBlock == First(genesis)
    ensures Child(Side(genesis), 1, 0).Hash() in chain.headers
  {
    hide BlockChain.Valid, Linked, NoRepeats, TotalScore, Ancestor, Follows, BlockChain.Stored, ChainStored, Finds;
    BranchesLinked(genesis);
    ChildIsLinked(Side(genesis), 1, 0, genesis);
    chain := OrphanedBranch(genesis);
    SideKeyed(chain);
    r := chain.WriteBlock(Child(Side(genesis), 1, 0), true, false);
    MissingBelow(chain.headers, genesis);
  }

  lemma {:induction false} SideKeyed(chain: BlockChain)
    requires chain.Sound() && Side(chain.genesis).Hash() in chain.headers
    ensures chain.headers[Side(chain.genesis).Hash()] == Side(chain.genesis)
  {
    hide Linked, Ancestor, Scored, AllUnique, Follows, Finds, ChainStored;
    assert chain.headers[Side(chain.genesis).Hash()].Hash() == Side(chain.genesis).Hash();
  }

  lemma {:induction false} MissingBelow(store: Store, genesis: Block)
    requires genesis.number == 0 && genesis.txs == [] && Second(genesis).Hash() !in store
    ensures var b := Child(Side(genesis), 1, 0); Linked(b, genesis) && !ChainStored(store, b, genesis)
  {
    hide NoRepeats;
    BranchesLinked(genesis);
    ChildIsLinked(Side(genesis), 1, 0, genesis);
    ChildIsLinked(Second(genesis), 0, 0, genesis);
    var b := Child(Side(genesis), 1, 0);
    AncestorOfAncestor(b, genesis, 3, 2);
    assert Ancestor(b, genesis, 2) == Second(genesis);
  }

  lemma {:induction false} FirstHasState(chain: BlockChain)
    requires chain.genesis.number == 0 && chain.genesis.txs == [] && 0 in chain.states
    ensures Linked(Third(chain.genesis), chain.genesis)
    ensures !NoState(chain.states, Third(chain.genesis), chain.genesis, 0, 1)
  {
    hide Linked, Ancestor, NoRepeats;
    BranchesLinked(chain.genesis);
    assert Ancestor(Third(chain.genesis), chain.genesis, 1).root in chain.states;
  }

  lemma {:induction false} SideIsOff(genesis: Block)
    requires genesis.number == 0 && genesis.txs == []
    ensures Linked(Third(genesis), genesis)
    ensures AboveOn(Second(genesis).Hash(), Third(genesis), genesis, 1)
    ensures !AboveOn(Side(genesis).Hash(), Third(genesis), genesis, 1)
  {
    BranchesLinked(genesis);
    SelfAncestor(Third(genesis), genesis);
  }

  lemma {:induction false} Orphan(store: Store, b: Block, genesis: Block)
    requires b.Hash() in store && 0 < b.number && b.parentHash !in store
    ensures !Rooted(store, genesis)
  {
    hide Linked;
    if store[b.Hash()].Hash() == b.Hash() {
      assert store[b.Hash()] == b;
    }
  }

  // ---------- A stale index ----------

  /** The second block, with one transaction. */
  function Carrier(genesis: Block, tx: Tx): Block {
    Block(First(genesis).Hash(), 2, 1, 0, [tx], 0)
  }

  lemma {:induction false} CarrierIsLinked(genesis: Block, tx: Tx)
    requires genesis.number == 0 && genesis.txs == []
    ensures var a1, a2 := First(genesis), Carrier(genesis, tx);
            && Linked(genesis, genesis) && NoRepeats(genesis, genesis)
            && Linked(a1, genesis) && NoRepeats(a1, genesis) && Linked(a2, genesis) && NoRepeats(a2, genesis)
            && TotalScore(genesis, genesis) < TotalScore(a1, genesis) < TotalScore(a2, genesis)
            && Ancestor(a2, genesis, 1) == a1
            && tx.Hash() in IndexOf(a2, genesis) && tx.Hash() !in IndexOf(a1, genesis)
  {
    var a1, a2 := First(genesis), Carrier(genesis, tx);
    GenesisStarts(genesis);
    ChildIsLinked(genesis, 1, 0, genesis);
    SelfAncestor(a1, genesis);
    assert IndexOf(genesis, genesis) == map[] && IndexOf(a1, genesis) == map[] by { assert HashesOf([]) == {}; }
    assert [tx][0].Hash() in HashesOf([tx]);
  }

  /** Rewound to number 1, the chain has no transaction, and the index still finds one. */
  method StaleIndex(genesis: Block, tx: Tx) returns (chain: BlockChain)
    requires genesis.number == 0 && genesis.txs == []
    ensures fresh(chain) && chain.genesis == genesis && chain.currentBlock == First(genesis)
    ensures Linked(First(genesis), genesis) && tx.Hash() in chain.index
            && tx.Hash() !in IndexOf(First(genesis), genesis)
  {
    hide BlockChain.Stored, Linked, NoRepeats, TotalScore, Ancestor, Follows, Rewindable, Complete, NumbersCut, IndexOf;
    CarrierIsLinked(genesis, tx);
    chain := new BlockChain(genesis);
    var r1 := chain.WriteBlock(First(genesis), true, false);
    assert r1.Canon?;
    var r2 := chain.WriteBlock(Carrier(genesis, tx), true, false);
    assert r2.Canon?;
    chain.ValidIsSound();
    SoundIsRewindable(chain);
    HasState(chain.states, Carrier(genesis, tx), genesis);
    var failure := SetHead(chain, 1, None);
  }

  lemma {:induction false} HasState(states: set<nat>, head: Block, genesis: Block)
    requires Linked(head, genesis) && 1 <= head.number && Ancestor(head, genesis, 1).root in states
    ensures !NoState(states, head, genesis, 0, 1)
  {
  }
}
