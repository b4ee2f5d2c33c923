/**
 Rewinding the chain to a lower head. Headers are deleted from the top down; a
 callback moves the head block along, further down still where state is missing,
 and so lowers the target while the loop is running.
 */
module Rewinds {
  import opened Types
  import opened Blocks
  import opened HeaderChains
  import opened BlockChains

  /**
   Both heads are on the canonical chain, either of them above the other. Which headers and bodies
   are stored, and what side chains there are, is left open: earlier rewinds may have orphaned or
   removed them.
   */
  ghost predicate Rewindable(chain: BlockChain)
    reads chain
  {
    && chain.genesis.number == 0 && Keyed(chain.headers)
    && Linked(chain.currentHeader, chain.genesis) && Linked(chain.currentBlock, chain.genesis)
    && Follows(chain.canonical, chain.currentHeader, chain.genesis)
    && Follows(chain.canonical, chain.currentBlock, chain.genesis)
  }

  /** Of two blocks on the canonical chain the lower is an ancestor of the higher. */
  lemma {:induction false} OnLine(canonical: Canonical, head: Block, b: Block, genesis: Block)
    requires Linked(head, genesis) && Linked(b, genesis) && b.number <= head.number
    requires Follows(canonical, head, genesis) && Follows(canonical, b, genesis)
    ensures Descends(head, b, genesis)
  {
    hide Linked, Ancestor;
    SelfAncestor(b, genesis);
    assert canonical[b.number] == Ancestor(head, genesis, b.number).Hash();
  }

  lemma {:induction false} LineBelow(canonical: Canonical, head: Block, b: Block, genesis: Block)
    requires Linked(head, genesis) && Follows(canonical, head, genesis) && Descends(head, b, genesis)
    ensures Linked(b, genesis) && Follows(canonical, b, genesis)
  {
    FollowsLower(canonical, head, genesis, b.number);
  }

  /** `ZeroReached`: no state found above the genesis block. `Gap`: the code follows a parent that is not there. */
  datatype Outcome = Moved(number: nat) | ZeroReached | Gap

  /** What is left of a keyed store when the blocks of a chain above number `n` are deleted. */
  ghost predicate CutAbove<T>(was: map<Hash, T>, now: map<Hash, T>, head: Block, genesis: Block, n: nat)
    requires Linked(head, genesis)
  {
    && (forall h :: h in now ==> h in was && now[h] == was[h])
    && (forall h :: h in was ==> (h in now <==> !AboveOn(h, head, genesis, n)))
  }

  /** `h` is the hash of a block of the chain of `head` above number `n`. */
  ghost predicate AboveOn(h: Hash, head: Block, genesis: Block, n: nat)
    requires Linked(head, genesis)
  {
    h.HashOf? && n < h.block.number <= head.number && Ancestor(head, genesis, h.block.number) == h.block
  }

  /** All blocks of a chain are stored, header and body. */
  ghost predicate Complete(store: Store, bodies: set<Hash>, head: Block, genesis: Block)
    requires Linked(head, genesis)
  {
    forall n: nat :: n <= head.number ==>
      Ancestor(head, genesis, n).Hash() in store && Ancestor(head, genesis, n).Hash() in bodies
  }

  /** No block of a chain above number `lo`, up to `hi`, has its state. */
  ghost predicate NoState(states: set<nat>, head: Block, genesis: Block, lo: nat, hi: nat)
    requires Linked(head, genesis)
  {
    forall n: nat :: lo < n <= hi && n <= head.number ==> Ancestor(head, genesis, n).root !in states
  }

  lemma {:induction false} ParentFound(chain: BlockChain, head: Block, at: Block)
    requires Keyed(chain.headers) && Linked(head, chain.genesis) && Descends(head, at, chain.genesis) && 0 < at.number
    requires Complete(chain.headers, chain.bodies, head, chain.genesis)
    ensures chain.GetBlock(at.parentHash, at.number - 1) == Some(Ancestor(head, chain.genesis, at.number - 1))
  {
    AncestorParent(head, chain.genesis, at.number);
  }

  lemma {:induction false} ZeroIsGenesis(head: Block, at: Block, genesis: Block)
    requires Linked(head, genesis) && Descends(head, at, genesis) && at.number == 0
    ensures at == genesis
  {
    GenesisIsAncestor(head, genesis);
  }

  /** The roots a head block may end on: those with state, or only the one asked for if that has state. */
  function Accepted(states: set<nat>, root: Option<nat>): set<nat> {
    if root.None? then states else states * {root.value}
  }

  /** `p` is the highest number up to `head` with the given root. */
  ghost predicate RootAt(head: Block, genesis: Block, root: nat, p: nat)
    requires Linked(head, genesis)
  {
    && p <= head.number && Ancestor(head, genesis, p).root == root
    && forall n: nat :: p < n <= head.number ==> Ancestor(head, genesis, n).root != root
  }

  /** Where the search stands at `at`: the root asked for was passed at `passed`, or not met yet. */
  ghost predicate Sought(states: set<nat>, from: Block, genesis: Block, root: Option<nat>, passed: Option<nat>, at: nat)
    requires Linked(from, genesis)
  {
    match root
    case None => NoState(states, from, genesis, at, from.number)
    case Some(r) =>
      match passed
      case None => forall n: nat :: at < n <= from.number ==> Ancestor(from, genesis, n).root != r
      case Some(p) => RootAt(from, genesis, r, p) && at <= p && NoState(states, from, genesis, at, p)
  }

  /** The nearest block at or below `from` on its chain that the head block may rest on. */
  method SeekState(chain: BlockChain, from: Block, root: Option<nat>) returns (at: Block, gap: bool,
                   passed: Option<nat>)
    requires chain.genesis.number == 0 && Keyed(chain.headers) && Linked(from, chain.genesis)
    ensures !gap ==> Descends(from, at, chain.genesis) && (at.number == 0 || at.root in chain.states)
    ensures !gap && 0 < at.number && root.Some? ==>
              passed.Some? && at.number <= passed.value && RootAt(from, chain.genesis, root.value, passed.value)
    ensures from.number == 0 ==> !gap && at.number == 0
    ensures Complete(chain.headers, chain.bodies, from, chain.genesis) ==>
              !gap && Sought(chain.states, from, chain.genesis, root, passed, at.number)
  {
    hide Linked, Ancestor, Complete, Keyed;
    at, gap, passed := from, false, None;
    SelfAncestor(from, chain.genesis);
    GenesisIsAncestor(from, chain.genesis);
    while true
      invariant Descends(from, at, chain.genesis) && !gap
      invariant Sought(chain.states, from, chain.genesis, root, passed, at.number)
      decreases at.number
    {
      if Complete(chain.headers, chain.bodies, from, chain.genesis) {
        if 0 < at.number { ParentFound(chain, from, at); } else { ZeroIsGenesis(from, at, chain.genesis); }
      }
      if root.Some? && passed.None? && at.root == root.value {
        passed := Some(at.number);
      }
      if at.root !in chain.states {
        var parent := chain.GetBlock(at.parentHash, at.number - 1);
        if parent.Some? {
          ParentOnChain(chain.headers, from, at, chain.genesis, parent.value);
          at := parent.value;
          continue;
        }
        at := chain.genesis;
      }
      if root.None? || passed.Some? || at.number == 0 {
        return;
      }
      var parent := chain.GetBlock(at.parentHash, at.number - 1);
      if parent.None? {
        return at, true, passed;
      }
      ParentOnChain(chain.headers, from, at, chain.genesis, parent.value);
      at := parent.value;
    }
  }

  /** What was sought and found rests on an accepted root, or nothing down to it does. */
  lemma {:induction false} SoughtAccepted(states: set<nat>, from: Block, genesis: Block, root: Option<nat>,
                                          passed: Option<nat>, at: Block)
    requires Linked(from, genesis) && Descends(from, at, genesis) && (at.number == 0 || at.root in states)
    requires Sought(states, from, genesis, root, passed, at.number)
    ensures NoState(Accepted(states, root), from, genesis, at.number, from.number)
  {
  }

  lemma {:induction false} ParentOnChain(store: Store, head: Block, at: Block, genesis: Block, p: Block)
    requires Keyed(store) && Linked(head, genesis) && Descends(head, at, genesis)
    requires Find(store, at.parentHash, at.number - 1) == Some(p)
    ensures 0 < at.number && p.number < at.number && Descends(head, p, genesis)
  {
    assert 0 <= at.number - 1;
    AncestorParent(head, genesis, at.number);
    assert p.Hash() == at.parentHash;
  }

  /**
   The callback: moves the head block to or below a header, never to the genesis block. With a root
   asked for it is to be passed first; `passed` is where.
   */
  method UpdateHead(chain: BlockChain, header: Block, root: Option<nat>) returns (r: Outcome, passed: Option<nat>)
    requires chain.genesis.number == 0 && Keyed(chain.headers) && Linked(header, chain.genesis)
    modifies chain`currentBlock
    ensures header.number == 0 ==> r.ZeroReached?
    ensures if r.Moved? then r.number == chain.currentBlock.number else chain.currentBlock == old(chain.currentBlock)
    ensures header.number > old(chain.currentBlock).number ==>
              r == Moved(old(chain.currentBlock).number) && chain.currentBlock == old(chain.currentBlock)
    ensures header.number <= old(chain.currentBlock).number && r.Moved? ==>
              && Descends(header, chain.currentBlock, chain.genesis)
              && 0 < chain.currentBlock.number && chain.currentBlock.root in chain.states
              && (root.Some? ==> && passed.Some? && chain.currentBlock.number <= passed.value
                                 && RootAt(header, chain.genesis, root.value, passed.value))
    ensures Complete(chain.headers, chain.bodies, header, chain.genesis)
            && header.number <= old(chain.currentBlock).number ==>
              && !r.Gap?
              && Sought(chain.states, header, chain.genesis, root, passed,
                        if r.Moved? then chain.currentBlock.number else 0)
  {
    hide Linked, Ancestor, RootAt, Sought, NoState;
    passed := None;
    if header.number <= chain.currentBlock.number {
      var found := chain.GetBlock(header.Hash(), header.number);
      var target := chain.genesis;
      SelfAncestor(header, chain.genesis);
      if found.Some? {
        var gap;
        target, gap, passed := SeekState(chain, header, root);
        if gap {
          return Gap, passed;
        }
      }
      if target.number == 0 {
        return ZeroReached, passed;
      }
      chain.currentBlock := target;
    }
    r := Moved(chain.currentBlock.number);
  }

  /**
   The repair mode: the header chain stays and the head block goes down to the highest block with
   state, at or below the highest one with the root asked for.
   */
  method Repair(chain: BlockChain, root: Option<nat>) returns (r: Outcome, passed: Option<nat>)
    requires Rewindable(chain)
    modifies chain`currentBlock
    ensures Rewindable(chain) && Linked(old(chain.currentBlock), chain.genesis)
    ensures if r.Moved?
            then Descends(old(chain.currentBlock), chain.currentBlock, chain.genesis)
                 && 0 < chain.currentBlock.number && chain.currentBlock.root in chain.states
            else chain.currentBlock == old(chain.currentBlock)
    ensures Complete(chain.headers, chain.bodies, old(chain.currentBlock), chain.genesis) ==>
              && !r.Gap?
              && Sought(chain.states, old(chain.currentBlock), chain.genesis, root, passed,
                        if r.Moved? then chain.currentBlock.number else 0)
  {
    hide Ancestor, RootAt, Sought, NoState, Follows, Keyed, Complete;
    var block := chain.currentBlock;
    r, passed := UpdateHead(chain, block, root);
    if r.Moved? {
      LineBelow(chain.canonical, block, chain.currentBlock, chain.genesis);
    }
  }

  /** The canonical numbers without those above `n` up to `top`. */
  ghost predicate NumbersCut(was: Canonical, now: Canonical, n: nat, top: nat) {
    forall k: nat ::
      && (k in now <==> k in was && !(n < k <= top))
      && (k in now ==> now[k] == was[k])
  }

  /** What a rewind has done to the stores when the head header has come down from `was` to `n`. */
  ghost predicate Deleted(headers: Store, bodies: set<Hash>, scores: Scores, canonical: Canonical,
                          chain: BlockChain, was: Block, n: nat)
    requires Linked(was, chain.genesis)
    reads chain`headers, chain`bodies, chain`scores, chain`canonical
  {
    && CutAbove(headers, chain.headers, was, chain.genesis, n)
    && CutAbove(scores, chain.scores, was, chain.genesis, n)
    && (forall h :: h in chain.bodies <==> h in bodies && !AboveOn(h, was, chain.genesis, n))
    && NumbersCut(canonical, chain.canonical, n, was.number)
  }

  /**
   After the first step: the target is at or below the head block, which has caught up with the
   header or lies below it.
   */
  ghost predicate Settling(chain: BlockChain, head: nat, root: Option<nat>)
    reads chain
  {
    && head <= chain.currentBlock.number
    && (|| chain.currentBlock.number < chain.currentHeader.number
        || (chain.currentBlock == chain.currentHeader && 0 < chain.currentBlock.number
            && chain.currentBlock.root in Accepted(chain.states, root)))
  }

  lemma {:induction false} CutOneMore<T>(was: map<Hash, T>, now: map<Hash, T>, head: Block, genesis: Block, n: nat)
    requires Linked(head, genesis) && 0 < n <= head.number && CutAbove(was, now, head, genesis, n)
    ensures CutAbove(was, now - {Ancestor(head, genesis, n).Hash()}, head, genesis, n - 1)
  {
    forall h | h in was ensures AboveOn(h, head, genesis, n - 1) <==>
                                AboveOn(h, head, genesis, n) || h == Ancestor(head, genesis, n).Hash() {}
  }

  lemma {:induction false} NothingCut<T>(was: map<Hash, T>, head: Block, genesis: Block)
    requires Linked(head, genesis)
    ensures CutAbove(was, was, head, genesis, head.number)
  {
  }

  /** Deletes the head header's block from every store and steps down to its parent. */
  method DeleteHead(chain: BlockChain, parent: Block, ghost headers: Store, ghost bodies: set<Hash>,
                    ghost scores: Scores, ghost canonical: Canonical, ghost was: Block)
    requires Linked(was, chain.genesis) && Descends(was, chain.currentHeader, chain.genesis)
    requires 0 < chain.currentHeader.number
    requires parent == Ancestor(was, chain.genesis, chain.currentHeader.number - 1)
    requires Deleted(headers, bodies, scores, canonical, chain, was, chain.currentHeader.number)
    requires Follows(canonical, was, chain.genesis) && Keyed(chain.headers) && parent.Hash() in chain.headers
    modifies chain`headers, chain`bodies, chain`scores, chain`canonical, chain`currentHeader
    ensures chain.currentHeader == parent
    ensures Deleted(headers, bodies, scores, canonical, chain, was, parent.number)
    ensures Follows(chain.canonical, parent, chain.genesis) && Keyed(chain.headers) && parent.Hash() in chain.headers
  {
    hide Linked, Ancestor, CutAbove, NumbersCut, AboveOn, Follows;
    var hash, num := chain.currentHeader.Hash(), chain.currentHeader.number;
    CutOneMore(headers, chain.headers, was, chain.genesis, num);
    CutOneMore(scores, chain.scores, was, chain.genesis, num);
    BodiesOneMore(bodies, chain.bodies, was, chain.genesis, num);
    NumbersOneMore(canonical, chain.canonical, num, was.number);
    chain.bodies := chain.bodies - {hash};
    chain.headers := chain.headers - {hash};
    chain.scores := chain.scores - {hash};
    chain.canonical := chain.canonical - {num};
    chain.currentHeader := parent;
    StillFollows(canonical, chain.canonical, was, chain.genesis, parent.number);
  }

  lemma {:induction false} BodiesOneMore(was: set<Hash>, now: set<Hash>, head: Block, genesis: Block, n: nat)
    requires Linked(head, genesis) && 0 < n <= head.number
    requires forall h :: h in now <==> h in was && !AboveOn(h, head, genesis, n)
    ensures forall h :: h in now - {Ancestor(head, genesis, n).Hash()} <==>
              h in was && !AboveOn(h, head, genesis, n - 1)
  {
  }

  lemma {:induction false} NumbersOneMore(was: Canonical, now: Canonical, n: nat, top: nat)
    requires 0 < n <= top && NumbersCut(was, now, n, top)
    ensures NumbersCut(was, now - {n}, n - 1, top)
  {
  }

  lemma {:induction false} StillFollows(was: Canonical, now: Canonical, head: Block, genesis: Block, n: nat)
    requires Linked(head, genesis) && n <= head.number && Follows(was, head, genesis)
    requires NumbersCut(was, now, n, head.number)
    ensures Follows(now, Ancestor(head, genesis, n), genesis)
  {
    FollowsLower(was, head, genesis, n);
  }

  /** What the callback has found rests on an accepted root if it is the header itself, and nothing above it does. */
  lemma {:induction false} CallbackAccepts(states: set<nat>, header: Block, genesis: Block, root: Option<nat>,
                                           passed: Option<nat>, block: Block, outcome: Outcome, complete: bool)
    requires Linked(header, genesis) && genesis.number == 0
    requires outcome.Moved? ==>
               && Descends(header, block, genesis) && block.root in states
               && (root.Some? ==> && passed.Some? && block.number <= passed.value
                                  && RootAt(header, genesis, root.value, passed.value))
    requires complete ==>
               Sought(states, header, genesis, root, passed, if outcome.Moved? then block.number else 0)
    ensures outcome.Moved? && block.number == header.number ==> block.root in Accepted(states, root)
    ensures complete ==>
              NoState(Accepted(states, root), header, genesis, if outcome.Moved? then block.number else 0,
                      header.number)
  {
    hide Linked, Ancestor;
    if complete {
      GenesisIsAncestor(header, genesis);
      SoughtAccepted(states, header, genesis, root, passed, if outcome.Moved? then block else genesis);
    }
  }

  /** What one step of a rewind makes of the roots accepted up to `top`: none is skipped. */
  ghost predicate SkipsNone(accepted: set<nat>, was: Block, genesis: Block, before: Block, header: Block, top: nat,
                            outcome: Outcome, block: Block)
    requires Linked(was, genesis)
  {
    (before.number < header.number || top < header.number) && NoState(accepted, was, genesis, before.number, top) ==>
      !outcome.Gap? && NoState(accepted, was, genesis, if outcome.Moved? then block.number else 0, top)
  }

  /** The first half of a step: the head block follows the header down. */
  method FollowDown(chain: BlockChain, root: Option<nat>, ghost headers: Store, ghost bodies: set<Hash>,
                    ghost scores: Scores, ghost canonical: Canonical, ghost was: Block, ghost top: nat)
    returns (outcome: Outcome, parent: Block)
    requires Rewindable(chain) && Linked(was, chain.genesis) && Descends(was, chain.currentHeader, chain.genesis)
    requires Deleted(headers, bodies, scores, canonical, chain, was, chain.currentHeader.number)
    requires 0 < chain.currentHeader.number
    modifies chain`currentBlock
    ensures outcome.Moved? ==>
              && parent == Ancestor(was, chain.genesis, chain.currentHeader.number - 1)
                && parent.Hash() in chain.headers
              && Descends(was, parent, chain.genesis) && Linked(parent, chain.genesis)
              && Descends(parent, chain.currentBlock, chain.genesis) && outcome.number == chain.currentBlock.number
              && (if old(chain.currentBlock).number < parent.number then chain.currentBlock == old(chain.currentBlock)
                  else && 0 < chain.currentBlock.number
                       && (chain.currentBlock.number == parent.number ==>
                             chain.currentBlock.root in Accepted(chain.states, root)))
    ensures !outcome.Moved? ==> chain.currentBlock == old(chain.currentBlock)
    ensures Complete(headers, bodies, was, chain.genesis) ==>
              SkipsNone(Accepted(chain.states, root), was, chain.genesis, old(chain.currentBlock),
                        chain.currentHeader, top, outcome, chain.currentBlock)
  {
    hide Linked, Ancestor, CutAbove, NumbersCut, AboveOn, Keyed, Follows, NoState, Complete, Deleted;
    hide RootAt, Sought, Accepted, Descends;
    var hdr := chain.currentHeader;
    StepDown(chain, was);
    GenesisIsLinked(chain.genesis);
    var found := Find(chain.headers, hdr.parentHash, hdr.number - 1);
    parent := if found.Some? then found.value else chain.genesis;
    ghost var accepted, block := Accepted(chain.states, root), chain.currentBlock;
    ghost var complete := Complete(headers, bodies, was, chain.genesis)
                          && (block.number < hdr.number || top < hdr.number)
                          && NoState(accepted, was, chain.genesis, block.number, top);
    if complete {
      CompleteNext(chain, was, headers, bodies, scores, canonical);
    }
    var passed;
    outcome, passed := UpdateHead(chain, parent, root);
    if parent.number <= block.number {
      CallbackAccepts(chain.states, parent, chain.genesis, root, passed, chain.currentBlock, outcome, complete);
      if complete {
        NoStateFromTop(accepted, was, chain.genesis, parent.number,
                       if outcome.Moved? then chain.currentBlock.number else 0, block.number, top);
      }
    }
  }

  /** One step of a rewind: the head block follows the header down, and the header is deleted. */
  method StepBack(chain: BlockChain, root: Option<nat>, ghost headers: Store, ghost bodies: set<Hash>,
                  ghost scores: Scores, ghost canonical: Canonical, ghost was: Block, ghost top: nat)
    returns (outcome: Outcome)
    requires Rewindable(chain) && Linked(was, chain.genesis) && Descends(was, chain.currentHeader, chain.genesis)
    requires Deleted(headers, bodies, scores, canonical, chain, was, chain.currentHeader.number)
    requires Follows(canonical, was, chain.genesis) && 0 < chain.currentHeader.number
    modifies chain`headers, chain`bodies, chain`scores, chain`canonical, chain`currentHeader, chain`currentBlock
    ensures outcome.Moved? ==>
              && Rewindable(chain) && Descends(was, chain.currentHeader, chain.genesis)
              && Descends(chain.currentHeader, chain.currentBlock, chain.genesis)
              && chain.currentHeader.number == old(chain.currentHeader).number - 1
              && chain.currentHeader.Hash() in chain.headers && outcome.number == chain.currentBlock.number
              && Deleted(headers, bodies, scores, canonical, chain, was, chain.currentHeader.number)
              && (if old(chain.currentBlock).number < chain.currentHeader.number
                  then chain.currentBlock == old(chain.currentBlock)
                  else && 0 < chain.currentBlock.number
                       && (chain.currentBlock.number == chain.currentHeader.number ==>
                             chain.currentBlock.root in Accepted(chain.states, root)))
    ensures !outcome.Moved? ==>
              && chain.headers == old(chain.headers) && chain.bodies == old(chain.bodies)
              && chain.scores == old(chain.scores) && chain.canonical == old(chain.canonical)
              && chain.currentHeader == old(chain.currentHeader) && chain.currentBlock == old(chain.currentBlock)
    ensures Complete(headers, bodies, was, chain.genesis) ==>
              SkipsNone(Accepted(chain.states, root), was, chain.genesis, old(chain.currentBlock),
                        old(chain.currentHeader), top, outcome, chain.currentBlock)
  {
    hide Linked, Ancestor, CutAbove, NumbersCut, AboveOn, Keyed, Follows, NoState, Complete, Deleted;
    hide Accepted, Descends, SkipsNone;
    var parent;
    outcome, parent := FollowDown(chain, root, headers, bodies, scores, canonical, was, top);
    if outcome.Moved? {
      DeleteHead(chain, parent, headers, bodies, scores, canonical, was);
      LineBelow(chain.canonical, parent, chain.currentBlock, chain.genesis);
    }
  }

  /**
   Rewinds to a target number. If the rewind starts above its target and succeeds, the
   head header and the head block are one and the same block of the old chain, at or below
   the target, with its state present and the root asked for, if any; and the canonical numbers up to
   it are its ancestors. Whether it succeeds or not, everything of the old chain above the head
   header is gone from every store and nothing else is.
   */
  method SetHead(chain: BlockChain, target: nat, root: Option<nat>) returns (failure: Option<Outcome>)
    requires Rewindable(chain)
    modifies chain`headers, chain`bodies, chain`scores, chain`canonical, chain`currentHeader, chain`currentBlock
    ensures Linked(old(chain.currentHeader), chain.genesis)
    ensures Rewindable(chain) && Descends(old(chain.currentHeader), chain.currentHeader, chain.genesis)
    ensures chain.currentBlock.number <= old(chain.currentBlock).number
    ensures || Descends(chain.currentHeader, chain.currentBlock, chain.genesis)
            || (chain.currentHeader == old(chain.currentHeader) && chain.currentBlock == old(chain.currentBlock))
    ensures Deleted(old(chain.headers), old(chain.bodies), old(chain.scores), old(chain.canonical),
                    chain, old(chain.currentHeader), chain.currentHeader.number)
    ensures failure.None? && old(chain.currentHeader).number > target ==>
              && chain.currentHeader == chain.currentBlock && 0 < chain.currentBlock.number <= target
              && chain.currentHeader.Hash() in chain.headers
              && chain.currentBlock.root in Accepted(chain.states, root)
    ensures Complete(old(chain.headers), old(chain.bodies), old(chain.currentHeader), chain.genesis)
            && old(chain.currentHeader).number > target ==>
              var top := if target < old(chain.currentBlock).number then target else old(chain.currentBlock).number;
              var accepted := Accepted(chain.states, root);
              && (failure.None? <==> !NoState(accepted, old(chain.currentHeader), chain.genesis, 0, top))
              && (failure.None? ==>
                    NoState(accepted, old(chain.currentHeader), chain.genesis, chain.currentBlock.number, top))
    ensures old(chain.currentHeader).number <= target ==>
              && failure.None? && chain.headers == old(chain.headers) && chain.canonical == old(chain.canonical)
              && chain.bodies == old(chain.bodies) && chain.scores == old(chain.scores)
              && chain.currentHeader == old(chain.currentHeader) && chain.currentBlock == old(chain.currentBlock)
  {
    hide Linked, Ancestor, CutAbove, NumbersCut, AboveOn, Keyed, Follows, NoState, Complete, Deleted;
    var head: nat := target;
    ghost var was := chain.currentHeader;
    ghost var top := if target < chain.currentBlock.number then target else chain.currentBlock.number;
    SelfAncestor(was, chain.genesis);
    GenesisIsLinked(chain.genesis);
    NothingDeleted(chain);
    ghost var accepted := Accepted(chain.states, root);
    ghost var complete := Complete(chain.headers, chain.bodies, was, chain.genesis);
    NoStateInNothing(accepted, was, chain.genesis, chain.currentBlock.number, top);
    while chain.currentHeader.number > head
      invariant Rewindable(chain) && head <= target
      invariant Linked(was, chain.genesis) && Descends(was, chain.currentHeader, chain.genesis)
      invariant || Descends(chain.currentHeader, chain.currentBlock, chain.genesis)
                || (chain.currentHeader == was && chain.currentBlock == old(chain.currentBlock))
      invariant Deleted(old(chain.headers), old(chain.bodies), old(chain.scores), old(chain.canonical),
                        chain, was, chain.currentHeader.number)
      invariant (chain.currentHeader == was && head == target && chain.currentBlock == old(chain.currentBlock)
                 && chain.headers == old(chain.headers) && chain.canonical == old(chain.canonical)
                 && chain.bodies == old(chain.bodies) && chain.scores == old(chain.scores))
                || (Settling(chain, head, root) && was.number > target && chain.currentHeader.Hash() in chain.headers)
      invariant chain.currentBlock.number <= old(chain.currentBlock).number
      invariant head == target || head == chain.currentBlock.number
      invariant complete ==> NoState(accepted, was, chain.genesis, chain.currentBlock.number, top)
      decreases chain.currentHeader.number
    {
      var outcome := StepBack(chain, root, old(chain.headers), old(chain.bodies), old(chain.scores),
                              old(chain.canonical), was, top);
      if !outcome.Moved? {
        return Some(outcome);
      }
      SelfAncestor(chain.currentHeader, chain.genesis);
      if outcome.number < head {
        head := outcome.number;
      }
    }
    if was.number > target {
      StateFound(accepted, was, chain.genesis, chain.currentBlock, top);
    }
    failure := None;
  }

  lemma {:induction false} NoStateInNothing(states: set<nat>, head: Block, genesis: Block, lo: nat, hi: nat)
    requires Linked(head, genesis) && hi <= lo
    ensures NoState(states, head, genesis, lo, hi)
  {
  }

  lemma {:induction false} StateFound(states: set<nat>, head: Block, genesis: Block, b: Block, hi: nat)
    requires Linked(head, genesis) && Descends(head, b, genesis) && 0 < b.number <= hi && b.root in states
    ensures !NoState(states, head, genesis, 0, hi)
  {
  }

  lemma {:induction false} CompleteBelow(store: Store, bodies: set<Hash>, head: Block, genesis: Block, m: nat, n: nat)
    requires Linked(head, genesis) && n <= m <= head.number
    requires Complete(store, bodies, Ancestor(head, genesis, m), genesis)
    ensures Complete(store, bodies, Ancestor(head, genesis, n), genesis)
  {
    forall k: nat | k <= n
      ensures var a := Ancestor(Ancestor(head, genesis, n), genesis, k); a.Hash() in store && a.Hash() in bodies
    {
      AncestorOfAncestor(head, genesis, m, k);
      AncestorOfAncestor(head, genesis, n, k);
    }
  }

  lemma {:induction false} GenesisIsLinked(genesis: Block)
    requires genesis.number == 0
    ensures Linked(genesis, genesis)
  {
  }

  /** What is left of a complete chain is complete. */
  lemma {:induction false} StillComplete(was: Store, wasBodies: set<Hash>, now: Store, bodies: set<Hash>,
                                         head: Block, genesis: Block, n: nat)
    requires Linked(head, genesis) && n <= head.number && Complete(was, wasBodies, head, genesis)
    requires forall h :: h in bodies <==> h in wasBodies && !AboveOn(h, head, genesis, n)
    requires CutAbove(was, now, head, genesis, n)
    ensures Complete(now, bodies, Ancestor(head, genesis, n), genesis)
  {
    forall k: nat | k <= n
      ensures var a := Ancestor(Ancestor(head, genesis, n), genesis, k); a.Hash() in now && a.Hash() in bodies
    {
      AncestorOfAncestor(head, genesis, n, k);
    }
  }

  /** A stretch without state seen from an ancestor is one seen from the top; it joins the one above it. */
  lemma {:induction false} NoStateFromTop(states: set<nat>, head: Block, genesis: Block, k: nat, lo: nat, mid: nat,
                                          hi: nat)
    requires Linked(head, genesis) && k <= head.number && (mid <= k || hi <= k)
    requires NoState(states, Ancestor(head, genesis, k), genesis, lo, k)
    requires NoState(states, head, genesis, mid, hi)
    ensures NoState(states, head, genesis, lo, hi)
  {
    forall n: nat | lo < n <= hi && n <= head.number ensures Ancestor(head, genesis, n).root !in states {
      if n <= k { AncestorOfAncestor(head, genesis, k, n); }
    }
  }

  lemma {:induction false} NothingDeleted(chain: BlockChain)
    requires Linked(chain.currentHeader, chain.genesis)
    ensures Deleted(chain.headers, chain.bodies, chain.scores, chain.canonical, chain,
                    chain.currentHeader, chain.currentHeader.number)
  {
  }

  /** The parent of the head header, if it is found, is the next ancestor down. */
  lemma {:induction false} StepDown(chain: BlockChain, was: Block)
    requires Rewindable(chain) && Linked(was, chain.genesis) && 0 < chain.currentHeader.number
    requires Descends(was, chain.currentHeader, chain.genesis)
    ensures var p := Ancestor(was, chain.genesis, chain.currentHeader.number - 1);
            var found := Find(chain.headers, chain.currentHeader.parentHash, chain.currentHeader.number - 1);
            && (found.Some? ==> found.value == p && p.Hash() in chain.headers)
            && Descends(was, p, chain.genesis) && chain.currentHeader.number <= was.number
            && (chain.currentBlock.number <= p.number ==> Descends(p, chain.currentBlock, chain.genesis))
  {
    var hdr, g := chain.currentHeader, chain.genesis;
    var p := Ancestor(was, g, hdr.number - 1);
    if chain.currentBlock.number <= hdr.number {
      OnLine(chain.canonical, hdr, chain.currentBlock, g);
    }
    AncestorOfAncestor(was, g, hdr.number, hdr.number - 1);
    AncestorParent(was, g, hdr.number);
    forall k: nat | k <= p.number ensures Ancestor(hdr, g, k) == Ancestor(p, g, k) {
      AncestorOfAncestor(hdr, g, p.number, k);
    }
  }

  /** On a chain that was complete the parent of the head header is found, with a complete chain of its own. */
  lemma {:induction false} CompleteNext(chain: BlockChain, was: Block, headers: Store, bodies: set<Hash>,
                                        scores: Scores, canonical: Canonical)
    requires Keyed(chain.headers) && Linked(was, chain.genesis) && Complete(headers, bodies, was, chain.genesis)
    requires Linked(chain.currentHeader, chain.genesis) && Descends(was, chain.currentHeader, chain.genesis)
    requires 0 < chain.currentHeader.number
    requires Deleted(headers, bodies, scores, canonical, chain, was, chain.currentHeader.number)
    ensures Find(chain.headers, chain.currentHeader.parentHash, chain.currentHeader.number - 1).Some?
    ensures Complete(chain.headers, chain.bodies, Ancestor(was, chain.genesis, chain.currentHeader.number - 1),
                     chain.genesis)
  {
    hide Linked, Ancestor, Complete, CutAbove, AboveOn, NumbersCut;
    var n := chain.currentHeader.number;
    StillComplete(headers, bodies, chain.headers, chain.bodies, was, chain.genesis, n);
    ParentStored(chain, was);
    CompleteBelow(chain.headers, chain.bodies, was, chain.genesis, n, n - 1);
  }

  lemma {:induction false} ParentStored(chain: BlockChain, was: Block)
    requires Keyed(chain.headers) && Linked(was, chain.genesis) && 0 < chain.currentHeader.number
    requires Linked(chain.currentHeader, chain.genesis)
    requires Complete(chain.headers, chain.bodies, chain.currentHeader, chain.genesis)
    ensures Find(chain.headers, chain.currentHeader.parentHash, chain.currentHeader.number - 1).Some?
  {
    SelfAncestor(chain.currentHeader, chain.genesis);
    AncestorParent(chain.currentHeader, chain.genesis, chain.currentHeader.number);
  }

  /** After every run of writes and rewinds the chain can be rewound, and all of its blocks are stored. */
  lemma {:induction false} SoundIsRewindable(chain: BlockChain)
    requires chain.Sound()
    ensures Rewindable(chain) && Complete(chain.headers, chain.bodies, chain.currentHeader, chain.genesis)
    ensures Complete(chain.headers, chain.bodies, chain.currentBlock, chain.genesis)
  {
    hide Linked, Ancestor, Follows, Scored, AllUnique;
  }

  /**
   A rewind leaves every stored header with a stored parent exactly if none of those left was
   a child of a block that was deleted.
   */
  lemma {:induction false} RootedUnlessOrphaned(was: Store, now: Store, head: Block, genesis: Block, n: nat)
    requires Linked(head, genesis) && Rooted(was, genesis) && CutAbove(was, now, head, genesis, n)
    ensures Rooted(now, genesis) <==>
              forall h :: h in now && 0 < now[h].number ==> !AboveOn(now[h].parentHash, head, genesis, n)
  {
    hide Ancestor, Linked;
  }

  /** Where the canonical numbers ended at the old head, they end at the new one after a rewind. */
  lemma {:induction false} RewindStaysExact(was: Canonical, now: Canonical, top: Block, head: Block, genesis: Block)
    requires Linked(top, genesis) && Exactly(was, top, genesis) && Descends(top, head, genesis)
    requires Linked(head, genesis) && NumbersCut(was, now, head.number, top.number)
    ensures Exactly(now, head, genesis)
  {
    StillFollows(was, now, top, genesis, head.number);
  }
}
