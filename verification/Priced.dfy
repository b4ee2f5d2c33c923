/**
 The pool's hash lookup with its slot counter, and the price heap that is
 cleaned lazily: entries of transactions that left the lookup stay in the heap
 until they surface or until enough of them trigger a rebuild.
 */
module Priced {
  import opened Types
  import Heaps

  type Lookup = map<TxHash, Tx>

  ghost predicate KeyedByHash(txs: Lookup) {
    forall h :: h in txs ==> txs[h].Hash() == h
  }

  ghost function SlotSum(txs: Lookup): nat
    decreases |txs|
  {
    if txs == map[] then 0 else
      var h :| h in txs;
      NumSlots(txs[h]) + SlotSum(txs - {h})
  }

  lemma {:induction false} SlotSumWithout(txs: Lookup, h: TxHash)
    requires h in txs
    ensures SlotSum(txs) == NumSlots(txs[h]) + SlotSum(txs - {h})
    decreases |txs|
  {
    var g :| g in txs && SlotSum(txs) == NumSlots(txs[g]) + SlotSum(txs - {g});
    if g != h {
      SlotSumWithout(txs - {g}, h);
      SlotSumWithout(txs - {h}, g);
      assert txs - {g} - {h} == txs - {h} - {g};
    }
  }

  lemma {:induction false} SlotSumWith(txs: Lookup, tx: Tx)
    requires tx.Hash() !in txs
    ensures SlotSum(txs[tx.Hash() := tx]) == SlotSum(txs) + NumSlots(tx)
  {
    var more := txs[tx.Hash() := tx];
    SlotSumWithout(more, tx.Hash());
    assert more - {tx.Hash()} == txs;
  }

  /** Every transaction takes at least one slot. */
  lemma {:induction false} CountAtMostSlots(txs: Lookup)
    ensures |txs| <= SlotSum(txs)
    decreases |txs|
  {
    if txs != map[] {
      var h :| h in txs;
      SlotSumWithout(txs, h);
      CountAtMostSlots(txs - {h});
    }
  }

  class TxLookup {
    var txs: Lookup
    var slots: int

    ghost predicate Valid()
      reads this
    {
      KeyedByHash(txs) && slots == SlotSum(txs)
    }

    constructor ()
      ensures Valid() && txs == map[]
    {
      txs, slots := map[], 0;
    }

    method Add(tx: Tx)
      requires Valid() && tx.Hash() !in txs
      modifies this
      ensures Valid() && txs == old(txs)[tx.Hash() := tx]
    {
      SlotSumWith(txs, tx);
      slots := slots + NumSlots(tx);
      txs := txs[tx.Hash() := tx];
    }

    method Remove(hash: TxHash)
      requires Valid() && hash in txs
      modifies this
      ensures Valid() && txs == old(txs) - {hash}
    {
      SlotSumWithout(txs, hash);
      slots := slots - NumSlots(txs[hash]);
      txs := txs - {hash};
    }
  }

  /** Heap order: cheaper first, and among equal prices the higher nonce first. */
  predicate PriceLe(a: Tx, b: Tx) {
    a.price < b.price || (a.price == b.price && b.nonce <= a.nonce)
  }

  ghost predicate Live(txs: Lookup, tx: Tx) {
    tx.Hash() in txs && txs[tx.Hash()] == tx
  }

  /** Every live transaction has an entry. */
  ghost predicate Covers(items: seq<Tx>, txs: Lookup) {
    forall tx :: Live(txs, tx) ==> tx in items
  }

  /** Covering survives a removal from the lookup. */
  lemma {:induction false} CoversWithout(items: seq<Tx>, txs: Lookup, h: TxHash)
    requires Covers(items, txs)
    ensures Covers(items, txs - {h})
  {
    forall tx | Live(txs - {h}, tx) ensures tx in items { assert Live(txs, tx); }
  }

  /** Covering survives an addition to both. */
  lemma {:induction false} CoversWith(items: seq<Tx>, txs: Lookup, more: seq<Tx>, tx: Tx)
    requires Covers(items, txs) && forall t :: t in more <==> t in items || t == tx
    ensures Covers(more, txs[tx.Hash() := tx])
  {
    forall t | Live(txs[tx.Hash() := tx], t) ensures t in more {
      assert t == tx || Live(txs, t);
    }
  }

  ghost function SeqSlots(txs: seq<Tx>): nat {
    if txs == [] then 0 else SeqSlots(txs[..|txs| - 1]) + NumSlots(txs[|txs| - 1])
  }

  lemma {:induction false} PartContents(s: seq<Tx>, r: seq<Tx>, x: Tx)
    requires multiset(s) == multiset(r) + multiset{x}
    ensures forall tx :: tx in s <==> tx in r || tx == x
  {
    forall tx ensures tx in s <==> tx in r || tx == x {
      assert tx in s <==> tx in multiset(s);
      assert tx in r <==> tx in multiset(r);
    }
  }

  lemma {:induction false} SameContents(s: seq<Tx>, r: seq<Tx>)
    requires multiset(s) == multiset(r)
    ensures forall tx :: tx in s <==> tx in r
  {
    forall tx ensures tx in s <==> tx in r {
      assert tx in s <==> tx in multiset(s);
      assert tx in r <==> tx in multiset(r);
    }
  }

  /**
   Every entry of a live remote transaction was discarded or is still there, and the cheapest were
   discarded, in order.
   */
  ghost predicate EntriesShared(txs: Lookup, locals: set<Address>, was: seq<Tx>, now: seq<Tx>, drop: seq<Tx>) {
    && (forall t :: Live(txs, t) && t.sender !in locals ==> multiset(now)[t] + multiset(drop)[t] == multiset(was)[t])
    && (forall d, t :: d in drop && t in now && Live(txs, t) && t.sender !in locals ==> PriceLe(d, t))
    && (forall i, j :: 0 <= i < j < |drop| ==> PriceLe(drop[i], drop[j]))
  }

  /** Where discarding stands: what was taken, what was set aside for local senders, and what is left. */
  ghost predicate Discarding(txs: Lookup, locals: set<Address>, was: seq<Tx>, items: seq<Tx>, drop: seq<Tx>,
                             save: seq<Tx>) {
    && (forall d :: d in drop ==> Live(txs, d) && d.sender !in locals)
    && (forall t :: t in save ==> t.sender in locals)
    && (forall t :: Live(txs, t) ==> t in items || t in drop || t in save)
    && (forall d, t :: d in drop && t in items ==> PriceLe(d, t))
    && (forall i, j :: 0 <= i < j < |drop| ==> PriceLe(drop[i], drop[j]))
    && (forall t :: Live(txs, t) && t.sender !in locals ==> multiset(items)[t] + multiset(drop)[t] == multiset(was)[t])
  }

  lemma {:induction false} DiscardStart(txs: Lookup, locals: set<Address>, items: seq<Tx>)
    requires Covers(items, txs)
    ensures Discarding(txs, locals, items, items, [], []) && EntriesShared(txs, locals, items, items, [])
  {
  }

  lemma {:induction false} DiscardNext(txs: Lookup, locals: set<Address>, was: seq<Tx>, items: seq<Tx>, rest: seq<Tx>,
                                       drop: seq<Tx>, save: seq<Tx>, tx: Tx)
    requires KeyedByHash(txs) && Discarding(txs, locals, was, items, drop, save)
    requires multiset(items) == multiset(rest) + multiset{tx}
    requires (forall t :: t in items <==> t in rest || t == tx) && forall t :: t in rest ==> PriceLe(tx, t)
    ensures tx.Hash() !in txs ==> Discarding(txs, locals, was, rest, drop, save)
    ensures tx.Hash() in txs && tx.sender in locals ==> Discarding(txs, locals, was, rest, drop, save + [tx])
    ensures tx.Hash() in txs && tx.sender !in locals ==> Discarding(txs, locals, was, rest, drop + [tx], save)
  {
    hide PriceLe;
    if tx.Hash() in txs {
      assert txs[tx.Hash()].Hash() == tx.Hash();
    }
  }

  lemma {:induction false} DiscardEnd(txs: Lookup, locals: set<Address>, was: seq<Tx>, left: seq<Tx>, items: seq<Tx>,
                                      drop: seq<Tx>, save: seq<Tx>)
    requires Discarding(txs, locals, was, left, drop, save)
    requires (forall t :: t in items <==> t in left || t in save) && multiset(items) == multiset(left) + multiset(save)
    ensures forall d :: d in drop ==> Live(txs, d) && d.sender !in locals
    ensures forall t :: Live(txs, t) && t !in drop ==> t in items
    ensures forall d, t :: d in drop && t !in drop && Live(txs, t) && t.sender !in locals ==> PriceLe(d, t)
    ensures left == [] ==> forall t :: Live(txs, t) && t.sender !in locals ==> t in drop && t !in items
    ensures EntriesShared(txs, locals, was, items, drop)
  {
    hide PriceLe;
    assert forall t: Tx :: t.sender !in locals ==> t !in save && multiset(save)[t] == 0;
  }

  class TxPricedList {
    const all: TxLookup
    var items: seq<Tx>
    var stales: int

    ghost predicate Valid()
      reads this
    {
      Heaps.IsHeap(items, PriceLe)
    }

    constructor (all: TxLookup)
      ensures this.all == all && Valid() && items == [] && stales == 0
    {
      this.all := all;
      items, stales := [], 0;
    }

    method Put(tx: Tx)
      requires Valid()
      modifies this`items
      ensures Valid() && forall t :: t in items <==> t in old(items) || t == tx
      ensures multiset(items) == multiset(old(items)) + multiset{tx} && |items| == |old(items)| + 1
    {
      items := Heaps.Push(items, PriceLe, tx);
      PartContents(items, old(items), tx);
    }

    /** Removes the cheapest entry. */
    method PopCheapest() returns (tx: Tx)
      requires Valid() && items != []
      modifies this`items
      ensures Valid() && |items| == |old(items)| - 1 && multiset(old(items)) == multiset(items) + multiset{tx}
      ensures tx == old(items)[0] && forall t :: t in old(items) <==> t in items || t == tx
      ensures forall t :: t in items ==> PriceLe(tx, t)
    {
      tx, items := Heaps.Pop(items, PriceLe);
      PartContents(old(items), items, tx);
    }

    /** Counts a stale entry; past a quarter of the heap, rebuilds it from the lookup. */
    method Removed()
      requires Valid() && all.Valid()
      modifies this
      ensures Valid()
      ensures old(Covers(items, all.txs)) ==> Covers(items, all.txs)
      ensures old(stales) + 1 <= |old(items)| / 4 ==> items == old(items) && stales == old(stales) + 1
      ensures old(stales) + 1 > |old(items)| / 4 ==>
                stales == 0 && forall tx :: tx in items <==> Live(all.txs, tx)
    {
      stales := stales + 1;
      if stales <= |items| / 4 {
        return;
      }
      var reheap: seq<Tx> := [];
      var todo := all.txs.Keys;
      while todo != {}
        invariant todo <= all.txs.Keys && items == old(items)
        invariant forall tx :: tx in reheap <==> Live(all.txs, tx) && tx.Hash() !in todo
        decreases todo
      {
        var h :| h in todo;
        reheap := reheap + [all.txs[h]];
        todo := todo - {h};
      }
      stales := 0;
      items := Heaps.Heapify(reheap, PriceLe);
      SameContents(items, reheap);
    }

    /**
     With every live transaction covered, a transaction from a non-local sender is
     underpriced exactly when no live transaction is cheaper, and the pool is not empty.
     */
    method Underpriced(tx: Tx, locals: set<Address>) returns (under: bool)
      requires Valid() && KeyedByHash(all.txs) && Covers(items, all.txs)
      modifies this
      ensures Valid() && Covers(items, all.txs)
      ensures under <==>
                && tx.sender !in locals
                && all.txs != map[]
                && forall t :: Live(all.txs, t) ==> tx.price <= t.price
    {
      if tx.sender in locals {
        return false;
      }
      while items != [] && items[0].Hash() !in all.txs
        invariant Valid() && Covers(items, all.txs)
        decreases |items|
      {
        stales := stales - 1;
        var stale := PopCheapest();
      }
      if items == [] {
        NothingLive(items, all.txs);
        return false;
      }
      var cheapest := items[0];
      assert Live(all.txs, cheapest) by { assert all.txs[cheapest.Hash()].Hash() == cheapest.Hash(); }
      forall t | Live(all.txs, t) ensures cheapest.price <= t.price {
        var i :| 0 <= i < |items| && items[i] == t;
        Heaps.RootIsLeast(items, PriceLe, i);
      }
      under := cheapest.price >= tx.price;
    }

    /**
     Takes the cheapest live non-local transactions until the requested slots are
     freed. Local ones are put back. The request is the capacity of the result, so a negative
     one panics.
     */
    method Discard(slots: int, locals: set<Address>) returns (panicked: bool, drop: seq<Tx>)
      requires Valid() && KeyedByHash(all.txs) && Covers(items, all.txs)
      modifies this
      ensures Valid() && (panicked <==> slots < 0) && (panicked ==> unchanged(this) && drop == [])
      ensures forall d :: d in drop ==> Live(all.txs, d) && d.sender !in locals
      ensures forall t :: Live(all.txs, t) && t !in drop ==> t in items
      ensures forall d, t :: d in drop && t !in drop && Live(all.txs, t) && t.sender !in locals ==> PriceLe(d, t)
      ensures SeqSlots(drop) >= slots || forall t :: Live(all.txs, t) && t.sender !in locals ==> t in drop
      ensures drop != [] ==> SeqSlots(drop[..|drop| - 1]) < slots
      ensures EntriesShared(all.txs, locals, old(items), items, drop)
      ensures SeqSlots(drop) >= slots || forall t :: t in items && Live(all.txs, t) ==> t.sender in locals
    {
      hide Heaps.IsHeap, Discarding, EntriesShared, PriceLe, KeyedByHash;
      panicked, drop := slots < 0, [];
      DiscardStart(all.txs, locals, items);
      if panicked {
        return;
      }
      var save: seq<Tx> := [];
      var wanted := slots;
      while items != [] && wanted > 0
        invariant Valid() && Discarding(all.txs, locals, old(items), items, drop, save)
        invariant wanted == slots - SeqSlots(drop)
        invariant drop != [] ==> SeqSlots(drop[..|drop| - 1]) < slots
        decreases |items|
      {
        ghost var before := items;
        var tx := PopCheapest();
        DiscardNext(all.txs, locals, old(items), before, items, drop, save, tx);
        if tx.Hash() !in all.txs {
          stales := stales - 1;
        } else if tx.sender in locals {
          save := save + [tx];
        } else {
          assert (drop + [tx])[..|drop|] == drop;
          drop := drop + [tx];
          wanted := wanted - NumSlots(tx);
        }
      }
      ghost var left := items;
      PutBack(save);
      DiscardEnd(all.txs, locals, old(items), left, items, drop, save);
    }

    method PutBack(save: seq<Tx>)
      requires Valid()
      modifies this
      ensures Valid() && forall t :: t in items <==> t in old(items) || t in save
      ensures multiset(items) == multiset(old(items)) + multiset(save)
    {
      for i := 0 to |save|
        invariant Valid() && forall t :: t in items <==> t in old(items) || t in save[..i]
        invariant multiset(items) == multiset(old(items)) + multiset(save[..i])
      {
        assert save[..i + 1] == save[..i] + [save[i]];
        Put(save[i]);
      }
      assert save[..|save|] == save;
    }
  }

  lemma {:induction false} NothingLive(items: seq<Tx>, txs: Lookup)
    requires items == [] && Covers(items, txs) && KeyedByHash(txs)
    ensures txs == map[]
  {
    if txs != map[] {
      var h :| h in txs;
      assert Live(txs, txs[h]);
    }
  }
}
