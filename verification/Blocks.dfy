/** Blocks, their hashes and the chain of ancestors each one names. */
module Blocks {
  import opened Types

  /** `Zero` is the empty hash; every other hash names exactly one block. */
  datatype Hash = Zero | HashOf(block: Block)

  /** `extra` stands for header content that no modelled rule looks at. */
  datatype Block = Block(
    parentHash: Hash,
    number: nat,
    score: nat,
    root: nat,
    txs: seq<Tx>,
    extra: nat)
  {
    function Hash(): Hash { HashOf(this) }
  }

  /** A block whose parents, counting down by one, end in the genesis block. */
  ghost predicate Linked(b: Block, genesis: Block) {
    if b.number == 0 then b == genesis
    else b.parentHash.HashOf? && b.parentHash.block.number == b.number - 1 && Linked(b.parentHash.block, genesis)
  }

  /** The ancestor with number `n`; the block itself for its own number. */
  ghost function Ancestor(b: Block, genesis: Block, n: nat): (a: Block)
    requires Linked(b, genesis) && n <= b.number
    ensures a.number == n && Linked(a, genesis)
  {
    if n == b.number then b else Ancestor(b.parentHash.block, genesis, n)
  }

  /** The sum of scores along the ancestry. */
  ghost function TotalScore(b: Block, genesis: Block): nat
    requires Linked(b, genesis)
  {
    if b.number == 0 then b.score else TotalScore(b.parentHash.block, genesis) + b.score
  }

  /** `a` is `b` or one of its ancestors. */
  ghost predicate Descends(b: Block, a: Block, genesis: Block)
    requires Linked(b, genesis)
  {
    a.number <= b.number && Ancestor(b, genesis, a.number) == a
  }

  lemma {:induction false} AncestorOfAncestor(b: Block, genesis: Block, m: nat, n: nat)
    requires Linked(b, genesis) && n <= m <= b.number
    ensures Ancestor(Ancestor(b, genesis, m), genesis, n) == Ancestor(b, genesis, n)
    decreases b
  {
    if m < b.number {
      AncestorOfAncestor(b.parentHash.block, genesis, m, n);
    }
  }

  /** The parent of an ancestor is the ancestor one below. */
  lemma {:induction false} AncestorParent(b: Block, genesis: Block, n: nat)
    requires Linked(b, genesis) && 0 < n <= b.number
    ensures Ancestor(b, genesis, n).parentHash == Ancestor(b, genesis, n - 1).Hash()
  {
    AncestorOfAncestor(b, genesis, n, n - 1);
  }

  /** Two chains that meet agree from there down. */
  lemma {:induction false} MeetAndAgree(b: Block, c: Block, genesis: Block, m: nat, n: nat)
    requires Linked(b, genesis) && Linked(c, genesis) && n <= m <= b.number && m <= c.number
    requires Ancestor(b, genesis, m) == Ancestor(c, genesis, m)
    ensures Ancestor(b, genesis, n) == Ancestor(c, genesis, n)
  {
    AncestorOfAncestor(b, genesis, m, n);
    AncestorOfAncestor(c, genesis, m, n);
  }

  lemma {:induction false} GenesisIsAncestor(b: Block, genesis: Block)
    requires Linked(b, genesis)
    ensures Ancestor(b, genesis, 0) == genesis
    decreases b
  {
    if 0 < b.number {
      GenesisIsAncestor(b.parentHash.block, genesis);
    }
  }

  // ---------- Canonical numbers ----------

  type Canonical = map<nat, Hash>

  /** Up to the head, the canonical hash of every number is that of the head's ancestor. */
  ghost predicate Follows(canonical: Canonical, head: Block, genesis: Block)
    requires Linked(head, genesis)
  {
    forall n: nat :: n <= head.number ==> n in canonical && canonical[n] == Ancestor(head, genesis, n).Hash()
  }

  /** Follows the head, with no entry above it. */
  ghost predicate Exactly(canonical: Canonical, head: Block, genesis: Block)
    requires Linked(head, genesis)
  {
    Follows(canonical, head, genesis) && forall n :: n in canonical ==> n <= head.number
  }
}
