/** Where the transactions of a chain are found, and how a reorganisation moves them. */
module Lookups {
  import opened Types
  import opened Blocks

  datatype Location = Location(blockHash: Hash, number: nat, index: nat)

  type TxIndex = map<TxHash, Location>

  ghost predicate DistinctTxs(txs: seq<Tx>) {
    forall i, j :: 0 <= i < j < |txs| ==> txs[i] != txs[j]
  }

  function HashesOf(txs: seq<Tx>): set<TxHash> {
    set i | 0 <= i < |txs| :: txs[i].Hash()
  }

  /** The last position of a transaction in a list. */
  function PositionOf(txs: seq<Tx>, h: TxHash): (i: nat)
    requires h in HashesOf(txs)
    ensures i < |txs| && txs[i].Hash() == h
  {
    if txs[|txs| - 1].Hash() == h then |txs| - 1
    else
      assert h in HashesOf(txs[..|txs| - 1]) by {
        var k :| 0 <= k < |txs| && txs[k].Hash() == h;
        assert txs[..|txs| - 1][k].Hash() == h;
      }
      PositionOf(txs[..|txs| - 1], h)
  }

  /** The entries of one block. */
  function Entries(b: Block): (m: TxIndex)
    ensures m.Keys == HashesOf(b.txs)
  {
    map h | h in HashesOf(b.txs) :: Location(b.Hash(), b.number, PositionOf(b.txs, h))
  }

  /** The entries of the blocks above number `k` on the chain of `b`. */
  ghost function EntriesAbove(b: Block, genesis: Block, k: int): TxIndex
    requires Linked(b, genesis) && -1 <= k
  {
    if b.number <= k then map[]
    else if b.number == 0 then Entries(b)
    else EntriesAbove(b.parentHash.block, genesis, k) + Entries(b)
  }

  /** The entries of a whole chain. */
  ghost function IndexOf(b: Block, genesis: Block): TxIndex
    requires Linked(b, genesis)
  {
    EntriesAbove(b, genesis, -1)
  }

  /** No transaction occurs twice along the chain of `b`. */
  ghost predicate NoRepeats(b: Block, genesis: Block)
    requires Linked(b, genesis)
  {
    && DistinctTxs(b.txs)
    && (0 < b.number ==>
          && HashesOf(b.txs) !! IndexOf(b.parentHash.block, genesis).Keys
          && NoRepeats(b.parentHash.block, genesis))
  }

  lemma {:induction false} MergeAssociates(x: TxIndex, y: TxIndex, z: TxIndex)
    ensures x + y + z == x + (y + z)
  {
  }

  lemma {:induction false} SplitIndex(b: Block, genesis: Block, k: nat)
    requires Linked(b, genesis) && k <= b.number
    ensures IndexOf(b, genesis) == IndexOf(Ancestor(b, genesis, k), genesis) + EntriesAbove(b, genesis, k)
    decreases b
  {
    hide Entries;
    var low, above := IndexOf(Ancestor(b, genesis, k), genesis), EntriesAbove(b, genesis, k);
    if k == b.number {
      assert above == map[] && low + above == low;
    } else {
      var p := b.parentHash.block;
      SplitIndex(p, genesis, k);
      MergeAssociates(low, EntriesAbove(p, genesis, k), Entries(b));
    }
  }

  /** The part of a chain above a block shares no transaction with the part up to it. */
  lemma {:induction false} PartsDisjoint(b: Block, genesis: Block, k: nat)
    requires Linked(b, genesis) && k <= b.number && NoRepeats(b, genesis)
    ensures IndexOf(Ancestor(b, genesis, k), genesis).Keys !! EntriesAbove(b, genesis, k).Keys
    decreases b
  {
    if k < b.number {
      var p := b.parentHash.block;
      PartsDisjoint(p, genesis, k);
      SplitIndex(p, genesis, k);
    }
  }

  /** Going one block further down adds that block's entries. */
  lemma {:induction false} OneLower(b: Block, genesis: Block, k: nat)
    requires Linked(b, genesis) && 0 < k <= b.number
    ensures EntriesAbove(b, genesis, k - 1) == Entries(Ancestor(b, genesis, k)) + EntriesAbove(b, genesis, k)
    decreases b
  {
    hide Entries;
    var p := b.parentHash.block;
    if k == b.number {
      assert EntriesAbove(p, genesis, k - 1) == map[];
      assert EntriesAbove(b, genesis, k) == map[];
    } else {
      OneLower(p, genesis, k);
      MergeAssociates(Entries(Ancestor(b, genesis, k)), EntriesAbove(p, genesis, k), Entries(b));
    }
  }

  /** An index after writing `added` over it and deleting what was dropped and not added again. */
  ghost function Rewritten(index: TxIndex, dropped: TxIndex, added: TxIndex): TxIndex {
    (index + added) - (dropped.Keys - added.Keys)
  }

  lemma {:induction false} RewriteBranch(common: TxIndex, dropped: TxIndex, added: TxIndex)
    requires common.Keys !! dropped.Keys && common.Keys !! added.Keys
    ensures Rewritten(common + dropped, dropped, added) == common + added
  {
    var r := Rewritten(common + dropped, dropped, added);
    assert r.Keys == (common + added).Keys;
  }

  /**
   A reorganisation at a common ancestor: writing the new branch over the old index and
   deleting what was dropped and not added again gives the index of the new chain.
   */
  lemma {:induction false} ReorgIndex(was: Block, now: Block, genesis: Block, k: nat)
    requires Linked(was, genesis) && Linked(now, genesis) && k <= was.number && k <= now.number
    requires NoRepeats(was, genesis) && NoRepeats(now, genesis)
    requires Ancestor(was, genesis, k) == Ancestor(now, genesis, k)
    ensures Rewritten(IndexOf(was, genesis), EntriesAbove(was, genesis, k), EntriesAbove(now, genesis, k))
            == IndexOf(now, genesis)
  {
    SplitIndex(was, genesis, k);
    SplitIndex(now, genesis, k);
    PartsDisjoint(was, genesis, k);
    PartsDisjoint(now, genesis, k);
    RewriteBranch(IndexOf(Ancestor(was, genesis, k), genesis),
                  EntriesAbove(was, genesis, k), EntriesAbove(now, genesis, k));
  }

  /** Every transaction of a chain is found where it is. */
  ghost predicate Finds(index: TxIndex, b: Block, genesis: Block)
    requires Linked(b, genesis)
  {
    forall h :: h in IndexOf(b, genesis) ==> h in index && index[h] == IndexOf(b, genesis)[h]
  }

  /** What finds a chain finds each of its ancestors' chains. */
  lemma {:induction false} FindsLower(index: TxIndex, b: Block, genesis: Block, k: nat)
    requires Linked(b, genesis) && NoRepeats(b, genesis) && k <= b.number && Finds(index, b, genesis)
    ensures Finds(index, Ancestor(b, genesis, k), genesis)
  {
    hide EntriesAbove, NoRepeats, Linked, Ancestor, IndexOf;
    SplitIndex(b, genesis, k);
    PartsDisjoint(b, genesis, k);
  }

  /** A reorganisation keeps every transaction of the chain found, whatever else the index held. */
  lemma {:induction false} ReorgFinds(index: TxIndex, was: Block, now: Block, genesis: Block, k: nat)
    requires Linked(was, genesis) && Linked(now, genesis) && k <= was.number && k <= now.number
    requires NoRepeats(was, genesis) && NoRepeats(now, genesis)
    requires Ancestor(was, genesis, k) == Ancestor(now, genesis, k) && Finds(index, was, genesis)
    ensures Finds(Rewritten(index, EntriesAbove(was, genesis, k), EntriesAbove(now, genesis, k)), now, genesis)
  {
    hide EntriesAbove, NoRepeats, Linked, Ancestor, IndexOf;
    SplitIndex(was, genesis, k);
    SplitIndex(now, genesis, k);
    PartsDisjoint(was, genesis, k);
    PartsDisjoint(now, genesis, k);
  }

  /** What is in `a` and not in `b`, in the order of `a`. */
  method TxDifference(a: seq<Tx>, b: seq<Tx>) returns (keep: seq<Tx>)
    ensures HashesOf(keep) == HashesOf(a) - HashesOf(b)
    ensures forall tx :: tx in keep ==> tx in a
  {
    keep := [];
    var remove := HashesOf(b);
    for i := 0 to |a|
      invariant HashesOf(keep) == HashesOf(a[..i]) - remove
      invariant forall tx :: tx in keep ==> tx in a
    {
      HashesOfAppend(a[..i], a[i]);
      assert a[..i + 1] == a[..i] + [a[i]];
      if a[i].Hash() !in remove {
        HashesOfAppend(keep, a[i]);
        keep := keep + [a[i]];
      }
    }
    assert a[..|a|] == a;
  }

  lemma {:induction false} HashesOfAppend(txs: seq<Tx>, tx: Tx)
    ensures HashesOf(txs + [tx]) == HashesOf(txs) + {tx.Hash()}
  {
    HashesOfConcat(txs, [tx]);
    assert HashesOf([tx]) == {tx.Hash()} by { assert [tx][0].Hash() in HashesOf([tx]); }
  }

  lemma {:induction false} HashesOfConcat(s: seq<Tx>, t: seq<Tx>)
    ensures HashesOf(s + t) == HashesOf(s) + HashesOf(t)
  {
    forall h | h in HashesOf(s) + HashesOf(t) ensures h in HashesOf(s + t) {
      if h in HashesOf(s) {
        var i :| 0 <= i < |s| && s[i].Hash() == h;
        assert (s + t)[i].Hash() == h;
      } else {
        var i :| 0 <= i < |t| && t[i].Hash() == h;
        assert (s + t)[|s| + i].Hash() == h;
      }
    }
  }
}
