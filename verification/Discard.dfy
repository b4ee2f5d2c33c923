/** What discarding frees: the heap may hold a transaction twice. */
module Discards {
  import opened Types
  import Heaps
  import opened Priced

  ghost predicate Distinct(s: seq<Tx>) {
    forall i, j :: 0 <= i < j < |s| ==> s[i] != s[j]
  }

  ghost function Without(txs: Lookup, drop: seq<Tx>): Lookup {
    map h | h in txs && h.tx !in drop :: txs[h]
  }

  /**
   Discarding counts heap entries. That is the slots which leave the lookup exactly if no
   transaction was discarded twice.
   */
  lemma {:induction false} FreedExactly(txs: Lookup, drop: seq<Tx>)
    requires KeyedByHash(txs) && forall d :: d in drop ==> Live(txs, d)
    ensures SlotSum(txs) <= SlotSum(Without(txs, drop)) + SeqSlots(drop)
    ensures SlotSum(txs) == SlotSum(Without(txs, drop)) + SeqSlots(drop) <==> Distinct(drop)
  {
    if drop == [] {
      assert Without(txs, []) == txs;
    } else {
      var less, last := drop[..|drop| - 1], drop[|drop| - 1];
      assert drop == less + [last];
      FreedExactly(txs, less);
      if last in less {
        var i :| 0 <= i < |less| && less[i] == last;
        assert drop[i] == drop[|less|];
        assert Without(txs, drop) == Without(txs, less);
      } else {
        assert Live(txs, last) && Without(txs, less)[last.Hash()] == last;
        assert Without(txs, drop) == Without(txs, less) - {last.Hash()};
        SlotSumWithout(Without(txs, less), last.Hash());
      }
    }
  }

  /** Nothing is discarded twice that the heap does not hold twice. */
  lemma {:induction false} OnceIsDistinct(items: seq<Tx>, drop: seq<Tx>)
    requires forall d :: d in drop ==> multiset(drop)[d] <= multiset(items)[d] <= 1
    ensures Distinct(drop)
  {
    forall i, j | 0 <= i < j < |drop| ensures drop[i] != drop[j] {
      assert drop[i] in drop;
      if drop[i] == drop[j] {
        TwiceCounted(drop, i, j);
        assert false;
      }
    }
  }

  lemma {:induction false} TwiceCounted(s: seq<Tx>, i: nat, j: nat)
    requires i < j < |s| && s[i] == s[j]
    ensures multiset(s)[s[i]] >= 2
  {
    assert s == s[..j] + [s[j]] + s[j + 1..];
    assert s[..j][i] == s[i] && s[i] in multiset(s[..j]);
  }

  lemma {:induction false} OneSlotEach(s: seq<Tx>)
    ensures |s| <= SeqSlots(s)
    ensures (forall t :: t in s ==> NumSlots(t) == 1) ==> SeqSlots(s) == |s|
  {
    if s != [] {
      var less := s[..|s| - 1];
      OneSlotEach(less);
      assert s[|s| - 1] in s && forall t :: t in less ==> t in s;
    }
  }

  /** A cheapest live transaction of one slot that stands in the heap twice: asking for two slots discards it twice. */
  lemma {:induction false} BothCopies(txs: Lookup, before: seq<Tx>, items: seq<Tx>, drop: seq<Tx>, x: Tx, y: Tx)
    requires Live(txs, x) && Live(txs, y) && x != y && multiset(before)[x] == 2 && NumSlots(x) == 1
    requires forall t :: Live(txs, t) && t != x ==> !PriceLe(t, x)
    requires forall d :: d in drop ==> Live(txs, d)
    requires SeqSlots(drop) >= 2 || forall t :: Live(txs, t) ==> t in drop
    requires drop != [] ==> SeqSlots(drop[..|drop| - 1]) < 2
    requires EntriesShared(txs, {}, before, items, drop)
    ensures drop == [x, x]
  {
    hide SeqSlots, PriceLe;
    OneSlotEach(drop);
    assert drop != [] by { OneSlotEach([]); }
    OneSlotEach(drop[..|drop| - 1]);
    assert |drop| <= 2;
    forall d | d in drop ensures d == x {
      if d != x {
        assert x !in items;
        var i :| 0 <= i < |drop| && drop[i] == d;
        OthersFit(drop, i, x);
      }
    }
    assert drop[0] in drop && y !in drop;
    assert |drop| == 2 && drop[1] in drop;
  }

  lemma {:induction false} OthersFit(s: seq<Tx>, i: nat, x: Tx)
    requires i < |s| <= 2 && s[i] != x
    ensures multiset(s)[x] < 2
  {
    if |s| == 2 {
      assert s == [s[0], s[1]];
    } else {
      assert s == [s[0]];
    }
  }

  function PricedAt(a: Address, nonce: nat): Tx {
    Tx(a, nonce, nonce, 0, 0, 1, BySender, false, 0)
  }

  /** The cheapest of `i` transactions stands in the heap `n` times and every other one once. */
  ghost predicate Entries(a: Address, txs: Lookup, items: seq<Tx>, i: nat, n: nat) {
    && (forall h :: h in txs <==> h == PricedAt(a, h.tx.nonce).Hash() && h.tx.nonce < i)
    && (forall k: nat :: multiset(items)[PricedAt(a, k)] == if i <= k then 0 else if k == 0 then n else 1)
  }

  method FourEntries(a: Address) returns (all: TxLookup, list: TxPricedList)
    ensures fresh(all) && fresh(list) && list.all == all && all.Valid() && list.Valid() && list.stales == 0
    ensures |list.items| == 4 && Entries(a, all.txs, list.items, 4, 1)
  {
    all := new TxLookup();
    list := new TxPricedList(all);
    for i := 0 to 4
      invariant fresh(all) && fresh(list) && list.all == all && all.Valid() && list.Valid() && list.stales == 0
      invariant |list.items| == i && Entries(a, all.txs, list.items, i, 1)
    {
      all.Add(PricedAt(a, i));
      list.Put(PricedAt(a, i));
    }
  }

  lemma {:induction false} EntriesCover(a: Address, txs: Lookup, items: seq<Tx>)
    requires KeyedByHash(txs) && Entries(a, txs, items, 4, 2)
    ensures Covers(items, txs) && Live(txs, PricedAt(a, 0)) && Live(txs, PricedAt(a, 1))
    ensures multiset(items)[PricedAt(a, 0)] == 2
    ensures forall t :: Live(txs, t) && t != PricedAt(a, 0) ==> !PriceLe(t, PricedAt(a, 0))
  {
    forall t | Live(txs, t) ensures t == PricedAt(a, t.nonce) && t in items {
      assert t.Hash() in txs;
      assert multiset(items)[PricedAt(a, t.nonce)] >= 1;
    }
    assert PricedAt(a, 0).Hash() in txs && PricedAt(a, 1).Hash() in txs;
    assert txs[PricedAt(a, 0).Hash()].Hash() == PricedAt(a, 0).Hash();
    assert txs[PricedAt(a, 1).Hash()].Hash() == PricedAt(a, 1).Hash();
  }

  lemma {:induction false} OneFreed(txs: Lookup, x: Tx)
    requires Live(txs, x) && NumSlots(x) == 1 && KeyedByHash(txs)
    ensures SlotSum(txs) == SlotSum(Without(txs, [x, x])) + 1
  {
    assert Without(txs, [x, x]) == txs - {x.Hash()};
    SlotSumWithout(txs, x.Hash());
  }

  /**
   A transaction leaves a pool of four and comes back, so that it stands in the heap twice. Two slots
   are asked for; it is discarded twice, and one slot is freed.
   */
  method DiscardsTwice(a: Address) returns (all: TxLookup, drop: seq<Tx>)
    ensures all.Valid() && drop == [PricedAt(a, 0), PricedAt(a, 0)] && SeqSlots(drop) == 2
    ensures SlotSum(all.txs) == SlotSum(Without(all.txs, drop)) + 1
  {
    hide SlotSum, KeyedByHash, Entries, Covers, PriceLe, SeqSlots, Without, EntriesShared, Heaps.IsHeap;
    var list;
    var cheap := PricedAt(a, 0);
    all, list := FourEntries(a);
    ghost var txs, items := all.txs, list.items;
    KeysOf(a, txs, items, 4);
    all.Remove(cheap.Hash());
    list.Removed();
    all.Add(cheap);
    list.Put(cheap);
    BackAgain(a, txs, all.txs, items, list.items);
    EntriesCover(a, all.txs, list.items);
    ghost var before := list.items;
    var panicked;
    panicked, drop := list.Discard(2, {});
    BothCopies(all.txs, before, list.items, drop, cheap, PricedAt(a, 1));
    OneSlotEach(drop);
    OneFreed(all.txs, cheap);
  }

  lemma {:induction false} KeysOf(a: Address, txs: Lookup, items: seq<Tx>, i: nat)
    requires Entries(a, txs, items, i, 1) && 0 < i
    ensures PricedAt(a, 0).Hash() in txs
  {
  }

  lemma {:induction false} BackAgain(a: Address, was: Lookup, now: Lookup, items: seq<Tx>, more: seq<Tx>)
    requires Entries(a, was, items, 4, 1) && now.Keys == was.Keys
    requires multiset(more) == multiset(items) + multiset{PricedAt(a, 0)}
    ensures Entries(a, now, more, 4, 2)
  {
  }

  // ---------- When something is discarded twice ----------

  /** A live transaction of a remote sender that is strictly cheaper. */
  ghost predicate Cheaper(txs: Lookup, locals: set<Address>, u: Tx, t: Tx) {
    Live(txs, u) && u.sender !in locals && !PriceLe(t, u)
  }

  /** The slots of all entries that are cheaper. */
  ghost function SlotsBelow(txs: Lookup, locals: set<Address>, items: seq<Tx>, t: Tx): nat {
    if items == [] then 0
    else
      var last := items[|items| - 1];
      SlotsBelow(txs, locals, items[..|items| - 1], t) + if Cheaper(txs, locals, last, t) then NumSlots(last) else 0
  }

  /** Taking one entry out takes out its slots. */
  lemma {:induction false} BelowWithout(txs: Lookup, locals: set<Address>, s: seq<Tx>, t: Tx, k: nat)
    requires k < |s|
    ensures SlotsBelow(txs, locals, s, t) ==
              SlotsBelow(txs, locals, s[..k] + s[k + 1..], t)
              + if Cheaper(txs, locals, s[k], t) then NumSlots(s[k]) else 0
  {
    var less := s[..|s| - 1];
    if k < |less| {
      BelowWithout(txs, locals, less, t, k);
      var rest := s[..k] + s[k + 1..];
      assert rest[..|rest| - 1] == less[..k] + less[k + 1..];
    } else {
      assert s[..k] + s[k + 1..] == less;
    }
  }

  /** Only how often each cheaper entry occurs counts. */
  lemma {:induction false} BelowByCount(txs: Lookup, locals: set<Address>, s: seq<Tx>, r: seq<Tx>, t: Tx)
    requires forall u :: Cheaper(txs, locals, u, t) ==> multiset(s)[u] == multiset(r)[u]
    ensures SlotsBelow(txs, locals, s, t) == SlotsBelow(txs, locals, r, t)
    decreases |s| + |r|
  {
    hide SlotsBelow, Cheaper;
    if s != [] {
      var u := s[|s| - 1];
      var less := s[..|s| - 1];
      BelowWithout(txs, locals, s, t, |s| - 1);
      assert s[..|s| - 1] + s[|s| - 1 + 1..] == less && s == less + [u];
      if Cheaper(txs, locals, u, t) {
        assert u in multiset(r);
        var k :| 0 <= k < |r| && r[k] == u;
        BelowWithout(txs, locals, r, t, k);
        assert r == r[..k] + [u] + r[k + 1..];
        BelowByCount(txs, locals, less, r[..k] + r[k + 1..], t);
      } else {
        BelowByCount(txs, locals, less, r, t);
      }
    } else if r != [] {
      var u := r[|r| - 1];
      assert u in multiset(r) && !Cheaper(txs, locals, u, t);
      BelowWithout(txs, locals, r, t, |r| - 1);
      assert r[..|r| - 1] + r[|r| - 1 + 1..] == r[..|r| - 1] && r == r[..|r| - 1] + [u];
      BelowByCount(txs, locals, s, r[..|r| - 1], t);
    }
  }

  /** No two live remote transactions have the same price and nonce. */
  ghost predicate NoTies(txs: Lookup, locals: set<Address>) {
    forall t, u ::
      (&& Live(txs, t) && Live(txs, u) && t.sender !in locals && u.sender !in locals
       && PriceLe(t, u) && PriceLe(u, t)) ==> t == u
  }

  /** What `Discard` promises of what it takes. */
  ghost predicate Taken(txs: Lookup, locals: set<Address>, was: seq<Tx>, now: seq<Tx>, drop: seq<Tx>, request: int) {
    && EntriesShared(txs, locals, was, now, drop)
    && (forall d :: d in drop ==> Live(txs, d) && d.sender !in locals)
    && (SeqSlots(drop) >= request || forall t :: t in now && Live(txs, t) ==> t.sender in locals)
    && (drop != [] ==> SeqSlots(drop[..|drop| - 1]) < request)
  }

  /** A live remote transaction stands in the heap twice, and the request goes beyond it and all that is cheaper. */
  ghost predicate ReachedTwice(txs: Lookup, locals: set<Address>, was: seq<Tx>, request: int, t: Tx) {
    && Live(txs, t) && t.sender !in locals && multiset(was)[t] >= 2
    && SlotsBelow(txs, locals, was, t) + NumSlots(t) < request
  }

  /** Everything cheaper than something discarded is discarded. */
  lemma {:induction false} CheaperAreTaken(txs: Lookup, locals: set<Address>, was: seq<Tx>, now: seq<Tx>, drop: seq<Tx>,
                                           t: Tx)
    requires EntriesShared(txs, locals, was, now, drop) && t in drop
    ensures SlotsBelow(txs, locals, drop, t) == SlotsBelow(txs, locals, was, t)
  {
    hide SlotsBelow;
    forall u | Cheaper(txs, locals, u, t) ensures multiset(drop)[u] == multiset(was)[u] {
      assert u !in now;
    }
    BelowByCount(txs, locals, drop, was, t);
  }

  lemma {:induction false} BelowAtMost(txs: Lookup, locals: set<Address>, s: seq<Tx>, t: Tx)
    ensures SlotsBelow(txs, locals, s, t) <= SeqSlots(s)
  {
    if s != [] { BelowAtMost(txs, locals, s[..|s| - 1], t); }
  }

  /** Nothing from `i` on is cheaper than `t`, so all that is cheaper stands before. */
  lemma {:induction false} BelowEndsAt(txs: Lookup, locals: set<Address>, s: seq<Tx>, t: Tx, i: nat)
    requires i <= |s| && forall k :: i <= k < |s| ==> PriceLe(t, s[k])
    ensures SlotsBelow(txs, locals, s, t) == SlotsBelow(txs, locals, s[..i], t)
  {
    if i < |s| {
      var less := s[..|s| - 1];
      BelowEndsAt(txs, locals, less, t, i);
      assert less[..i] == s[..i];
    } else {
      assert s[..i] == s;
    }
  }

  lemma {:induction false} SlotsGrow(s: seq<Tx>, i: nat, j: nat)
    requires i <= j <= |s|
    ensures SeqSlots(s[..i]) <= SeqSlots(s[..j]) && (i < j ==> SeqSlots(s[..i]) + NumSlots(s[i]) <= SeqSlots(s[..j]))
  {
    if i < j {
      SlotsGrow(s, i, j - 1);
      assert s[..j][..j - 1] == s[..j - 1];
    }
  }

  /**
   If all of a list is cheaper than `t` or `t` itself, at most once, its slots are those below `t` and once its
   own.
   */
  lemma {:induction false} SlotsOfCheaper(txs: Lookup, locals: set<Address>, s: seq<Tx>, t: Tx)
    requires forall d :: d in s ==> d == t || Cheaper(txs, locals, d, t)
    requires multiset(s)[t] <= 1
    ensures SeqSlots(s) <= SlotsBelow(txs, locals, s, t) + if t in s then NumSlots(t) else 0
  {
    if s != [] {
      var less, last := s[..|s| - 1], s[|s| - 1];
      assert s == less + [last];
      assert last in s && forall d :: d in less ==> d in s;
      SlotsOfCheaper(txs, locals, less, t);
    }
  }

  /**
   Something is discarded twice, and so fewer slots are freed than counted, exactly if the heap holds
   it twice and the request goes beyond it.
   */
  lemma {:induction false} TwiceExactly(txs: Lookup, locals: set<Address>, was: seq<Tx>, now: seq<Tx>, drop: seq<Tx>,
                                        request: int)
    requires Taken(txs, locals, was, now, drop, request) && NoTies(txs, locals)
    ensures !Distinct(drop) <==> exists t :: ReachedTwice(txs, locals, was, request, t)
  {
    hide EntriesShared, SlotsBelow, SeqSlots, PriceLe;
    if !Distinct(drop) {
      var i, j :| 0 <= i < j < |drop| && drop[i] == drop[j];
      TwiceTaken(txs, locals, was, now, drop, request, i, j);
      assert ReachedTwice(txs, locals, was, request, drop[i]);
    }
    if t :| ReachedTwice(txs, locals, was, request, t) {
      TakenTwice(txs, locals, was, now, drop, request, t);
      if Distinct(drop) {
        OnceEach(drop, t);
      }
    }
  }

  /** The slots counted are the slots freed exactly if there is no such transaction. */
  lemma {:induction false} FreedUnlessTwice(txs: Lookup, locals: set<Address>, was: seq<Tx>, now: seq<Tx>,
                                            drop: seq<Tx>,
                                            request: int)
    requires KeyedByHash(txs) && Taken(txs, locals, was, now, drop, request) && NoTies(txs, locals)
    ensures SlotSum(txs) == SlotSum(Without(txs, drop)) + SeqSlots(drop) <==>
              !exists t :: ReachedTwice(txs, locals, was, request, t)
  {
    hide EntriesShared, SlotsBelow, SeqSlots, SlotSum, Without, ReachedTwice, NoTies;
    FreedExactly(txs, drop);
    TwiceExactly(txs, locals, was, now, drop, request);
  }

  lemma {:induction false} OnceEach(s: seq<Tx>, t: Tx)
    requires Distinct(s)
    ensures multiset(s)[t] <= 1
  {
    if s != [] {
      var less := s[..|s| - 1];
      OnceEach(less, t);
      assert s == less + [s[|s| - 1]];
      assert s[|s| - 1] !in less;
    }
  }

  lemma {:induction false} TwiceTaken(txs: Lookup, locals: set<Address>, was: seq<Tx>, now: seq<Tx>, drop: seq<Tx>,
                                      request: int, i: nat, j: nat)
    requires Taken(txs, locals, was, now, drop, request) && i < j < |drop| && drop[i] == drop[j]
    ensures ReachedTwice(txs, locals, was, request, drop[i])
  {
    hide SlotsBelow, SeqSlots;
    var t := drop[i];
    TwiceCounted(drop, i, j);
    CheaperAreTaken(txs, locals, was, now, drop, t);
    assert PriceLe(t, t);
    BelowEndsAt(txs, locals, drop, t, i);
    BelowAtMost(txs, locals, drop[..i], t);
    SlotsGrow(drop, i, j);
    SlotsGrow(drop, j, |drop| - 1);
  }

  lemma {:induction false} TakenTwice(txs: Lookup, locals: set<Address>, was: seq<Tx>, now: seq<Tx>, drop: seq<Tx>,
                                      request: int, t: Tx)
    requires Taken(txs, locals, was, now, drop, request) && NoTies(txs, locals)
             && ReachedTwice(txs, locals, was, request, t)
    ensures multiset(drop)[t] >= 2
  {
    hide SlotsBelow, SeqSlots;
    if multiset(drop)[t] <= 1 {
      assert t in now;
      SlotsOfCheaper(txs, locals, drop, t);
      BelowInPart(txs, locals, drop, was, now, t);
      assert false;
    }
  }

  lemma {:induction false} BelowInPart(txs: Lookup, locals: set<Address>, s: seq<Tx>, was: seq<Tx>, now: seq<Tx>, t: Tx)
    requires forall u :: Live(txs, u) && u.sender !in locals ==> multiset(now)[u] + multiset(s)[u] == multiset(was)[u]
    ensures SlotsBelow(txs, locals, s, t) <= SlotsBelow(txs, locals, was, t)
  {
    hide SlotsBelow;
    BelowByCount(txs, locals, s + now, was, t);
    BelowGrows(txs, locals, s, now, t);
  }

  lemma {:induction false} BelowGrows(txs: Lookup, locals: set<Address>, s: seq<Tx>, more: seq<Tx>, t: Tx)
    ensures SlotsBelow(txs, locals, s, t) <= SlotsBelow(txs, locals, s + more, t)
  {
    if more == [] {
      assert s + more == s;
    } else {
      BelowGrows(txs, locals, s, more[..|more| - 1], t);
      assert (s + more)[..|s + more| - 1] == s + more[..|more| - 1];
    }
  }
}
