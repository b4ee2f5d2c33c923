/**
 The heap-indexed, cached transaction map and the list built on it. Every
 operation is proved to refine the plain map operation of `TxLists`, keeping
 the index a heap that holds each nonce once and the cache, when there is
 one, exactly the contents in nonce order.
 */
module SortedMap {
  import opened Types
  import TxLists
  import Heaps

  type TxMap = TxLists.TxMap

  predicate NonceLe(a: nat, b: nat) { a <= b }

  predicate TxNonceLe(a: Tx, b: Tx) { a.nonce <= b.nonce }

  /** A min-heap holding each key exactly once. */
  ghost predicate Indexes(index: seq<nat>, keys: set<nat>) {
    Heaps.IsHeap(index, NonceLe) && multiset(index) == multiset(keys)
  }

  lemma {:induction false} IndexContents(index: seq<nat>, keys: set<nat>)
    requires multiset(index) == multiset(keys)
    ensures |index| == |keys|
    ensures forall n :: n in index <==> n in keys
  {
    assert |multiset(index)| == |multiset(keys)|;
    forall n ensures n in index <==> n in keys {
      assert n in index <==> n in multiset(index);
      assert n in keys <==> n in multiset(keys);
    }
  }

  /** The head of the index is the lowest nonce. */
  lemma {:induction false} IndexHead(index: seq<nat>, keys: set<nat>)
    requires Indexes(index, keys)
    ensures index == [] <==> keys == {}
    ensures index != [] ==> index[0] == TxLists.MinKey(keys)
  {
    IndexContents(index, keys);
    if index != [] {
      forall n | n in keys ensures index[0] <= n {
        var i :| 0 <= i < |index| && index[i] == n;
        Heaps.RootIsLeast(index, NonceLe, i);
      }
      TxLists.KeyIsMin(keys, index[0]);
    }
  }

  lemma {:induction false} MultisetWithout(keys: set<nat>, k: nat)
    requires k in keys
    ensures multiset(keys) == multiset(keys - {k}) + multiset{k}
  {
  }

  method PopIndex(index: seq<nat>, ghost keys: set<nat>) returns (nonce: nat, rest: seq<nat>)
    requires Indexes(index, keys) && index != []
    ensures keys != {} && nonce == TxLists.MinKey(keys) == index[0]
    ensures Indexes(rest, keys - {nonce})
  {
    IndexHead(index, keys);
    nonce, rest := Heaps.Pop(index, NonceLe);
    MultisetWithout(keys, nonce);
    assert multiset(rest) == multiset(index) - multiset{nonce};
  }

  /** Searches the index for a nonce and removes it there. */
  method RemoveFromIndex(index: seq<nat>, ghost keys: set<nat>, nonce: nat) returns (rest: seq<nat>)
    requires Indexes(index, keys) && nonce in keys
    ensures Indexes(rest, keys - {nonce})
  {
    IndexContents(index, keys);
    var i: nat := 0;
    while index[i] != nonce
      invariant i < |index| && nonce in index[i..]
      decreases |index| - i
    {
      assert index[i..] == [index[i]] + index[i + 1..];
      i := i + 1;
    }
    hide Heaps.IsHeap;
    var x;
    x, rest := Heaps.RemoveAt(index, NonceLe, i);
    MultisetWithout(keys, nonce);
    assert multiset(rest) == multiset(index) - multiset{nonce};
  }

  /** Lists the elements of a finite set in an order nothing depends on. */
  method Enumerate(keys: set<nat>) returns (s: seq<nat>)
    ensures multiset(s) == multiset(keys)
  {
    s := [];
    var todo := keys;
    while todo != {}
      invariant todo <= keys && multiset(s) == multiset(keys - todo)
      decreases todo
    {
      var k :| k in todo;
      s := s + [k];
      MultisetWithout(keys - (todo - {k}), k);
      assert keys - (todo - {k}) - {k} == keys - todo;
      todo := todo - {k};
    }
    assert keys - {} == keys;
  }

  ghost predicate Increasing(s: seq<nat>) {
    forall i, j :: 0 <= i < j < |s| ==> s[i] < s[j]
  }

  /** `rest` is `items` on the first `size` nonces of `sorted`. */
  ghost predicate KeyedByPrefix(items: TxMap, rest: TxMap, sorted: seq<nat>, size: nat) {
    && |rest| == size <= |sorted|
    && (forall n :: n in rest ==> n in items && rest[n] == items[n])
    && (forall i :: 0 <= i < |sorted| ==> (sorted[i] in rest <==> i < size))
  }

  /** The loop of `Cap`: deletes from the back of the sorted nonces. */
  method DropHighest(items: TxMap, sorted: seq<nat>, threshold: nat) returns (rest: TxMap, drops: seq<Tx>)
    requires TxLists.WellKeyed(items) && Increasing(sorted)
    requires threshold <= |items| && KeyedByPrefix(items, items, sorted, |items|) && |items| == |sorted|
    ensures KeyedByPrefix(items, rest, sorted, threshold)
    ensures TxLists.Lists(drops, items, rest) && TxLists.StrictlyFalling(drops)
  {
    drops, rest := [], items;
    var size := |items|;
    while size > threshold
      invariant threshold <= size && KeyedByPrefix(items, rest, sorted, size)
      invariant TxLists.Lists(drops, items, rest) && TxLists.StrictlyFalling(drops)
      invariant forall i, k :: 0 <= i < size && 0 <= k < |drops| ==> sorted[i] < drops[k].nonce
    {
      size := size - 1;
      DropStep(items, rest, sorted, size, drops);
      drops := drops + [rest[sorted[size]]];
      rest := rest - {sorted[size]};
    }
  }

  lemma {:induction false} DropStep(items: TxMap, rest: TxMap, sorted: seq<nat>, size: nat, drops: seq<Tx>)
    requires TxLists.WellKeyed(items) && Increasing(sorted) && size < |sorted|
    requires KeyedByPrefix(items, rest, sorted, size + 1) && TxLists.Lists(drops, items, rest)
    ensures sorted[size] in rest && rest[sorted[size]].nonce == sorted[size]
    ensures KeyedByPrefix(items, rest - {sorted[size]}, sorted, size)
    ensures TxLists.Lists(drops + [rest[sorted[size]]], items, rest - {sorted[size]})
  {
    var n := sorted[size];
    var fewer := rest - {n};
    assert fewer.Keys == rest.Keys - {n};
    forall tx ensures tx in drops + [rest[n]] <==> tx in drops || tx == rest[n] {
    }
  }

  lemma {:induction false} PrefixIsCap(items: TxMap, rest: TxMap, sorted: seq<nat>, threshold: nat)
    requires Increasing(sorted) && multiset(sorted) == multiset(items.Keys)
    requires KeyedByPrefix(items, rest, sorted, threshold)
    ensures rest == TxLists.Cap(items, threshold)
    ensures multiset(sorted[..threshold]) == multiset(rest.Keys)
  {
    IndexContents(sorted, items.Keys);
    PrefixIsBelow(items, rest, sorted, threshold);
    TxLists.CapUnique(items, rest, threshold);
    PrefixIsIndex(items, rest, sorted, threshold);
  }

  lemma {:induction false} PrefixIsIndex(items: TxMap, rest: TxMap, sorted: seq<nat>, threshold: nat)
    requires Increasing(sorted) && multiset(sorted) == multiset(items.Keys)
    requires KeyedByPrefix(items, rest, sorted, threshold)
    ensures multiset(sorted[..threshold]) == multiset(rest.Keys)
  {
    hide Increasing;
    forall n ensures multiset(sorted[..threshold])[n] == multiset(rest.Keys)[n] {
      PrefixCount(sorted, threshold, n);
      PrefixKeys(items, rest, sorted, threshold, n);
    }
  }

  lemma {:induction false} PrefixIsBelow(items: TxMap, rest: TxMap, sorted: seq<nat>, threshold: nat)
    requires Increasing(sorted) && KeyedByPrefix(items, rest, sorted, threshold)
    requires forall n :: n in sorted <==> n in items.Keys
    ensures forall n, x :: n in rest && x in items && x !in rest ==> n < x
  {
    forall n, x | n in rest && x in items && x !in rest ensures n < x {
      var i :| 0 <= i < |sorted| && sorted[i] == n;
      var j :| 0 <= j < |sorted| && sorted[j] == x;
    }
  }

  lemma {:induction false} PrefixKeys(items: TxMap, rest: TxMap, sorted: seq<nat>, threshold: nat, n: nat)
    requires multiset(sorted) == multiset(items.Keys) && KeyedByPrefix(items, rest, sorted, threshold)
    ensures n in sorted[..threshold] <==> n in rest.Keys
  {
    if n in rest {
      IndexContents(sorted, items.Keys);
      var i :| 0 <= i < |sorted| && sorted[i] == n;
      assert sorted[..threshold][i] == n;
    }
  }

  lemma {:induction false} PrefixCount(sorted: seq<nat>, k: nat, n: nat)
    requires Increasing(sorted) && k <= |sorted|
    ensures multiset(sorted[..k])[n] == if n in sorted[..k] then 1 else 0
  {
    var s := sorted[..k];
    if n in s {
      var i :| 0 <= i < |s| && s[i] == n;
      assert s == s[..i] + [n] + s[i + 1..];
      assert n !in s[..i] && n !in s[i + 1..];
    }
  }

  /** Sorting the index gives the nonces in increasing order. */
  lemma {:induction false} SortedIndex(sorted: seq<nat>, keys: set<nat>)
    requires Heaps.Sorted(sorted, NonceLe) && multiset(sorted) == multiset(keys)
    ensures Increasing(sorted)
  {
    NoRepeats(sorted, keys);
    forall i, j | 0 <= i < j < |sorted| ensures sorted[i] < sorted[j] {
      assert NonceLe(sorted[i], sorted[j]);
    }
  }

  /** Sorts the index, drops from its back and rebuilds the heap. */
  method CapParts(items: TxMap, index: seq<nat>, threshold: nat)
    returns (rest: TxMap, heap: seq<nat>, drops: seq<Tx>)
    requires TxLists.WellKeyed(items) && Indexes(index, items.Keys) && threshold < |items|
    ensures rest == TxLists.Cap(items, threshold) && TxLists.WellKeyed(rest)
    ensures Indexes(heap, rest.Keys)
    ensures TxLists.Lists(drops, items, rest) && TxLists.StrictlyFalling(drops)
    ensures |drops| == |items| - threshold
  {
    var sorted := Heaps.Sort(index, NonceLe);
    IndexContents(sorted, items.Keys);
    SortedIndex(sorted, items.Keys);
    rest, drops := DropHighest(items, sorted, threshold);
    PrefixIsCap(items, rest, sorted, threshold);
    DropCount(items, rest, drops);
    heap := Heaps.Heapify(sorted[..threshold], NonceLe);
  }

  class TxSortedMap {
    var items: TxMap
    var index: seq<nat>
    var cache: Option<seq<Tx>>

    ghost predicate Valid()
      reads this
    {
      && TxLists.WellKeyed(items)
      && Indexes(index, items.Keys)
      && (cache.Some? ==> cache.value == TxLists.Flatten(items))
    }

    constructor ()
      ensures Valid() && items == map[]
    {
      items, index, cache := map[], [], None;
    }

    /** A put overwrites the nonce and forgets the cache. */
    method Put(tx: Tx)
      requires Valid()
      modifies this
      ensures Valid() && items == old(items)[tx.nonce := tx]
    {
      if tx.nonce !in items {
        index := Heaps.Push(index, NonceLe, tx.nonce);
        assert items[tx.nonce := tx].Keys == items.Keys + {tx.nonce};
        MultisetWithout(items.Keys + {tx.nonce}, tx.nonce);
        assert items.Keys + {tx.nonce} - {tx.nonce} == items.Keys;
      } else {
        assert items[tx.nonce := tx].Keys == items.Keys;
      }
      items, cache := items[tx.nonce := tx], None;
    }

    /** Pops the index and deletes the item: what `Forward` and `Ready` do in their loops. */
    method PopLowest() returns (tx: Tx)
      requires TxLists.WellKeyed(items) && Indexes(index, items.Keys) && index != []
      modifies this`items, this`index
      ensures TxLists.WellKeyed(items) && Indexes(index, items.Keys)
      ensures old(index)[0] in old(items) && items == old(items) - {old(index)[0]} && |items| < |old(items)|
      ensures tx == old(items)[old(index)[0]]
      ensures [tx] + TxLists.Flatten(items) == TxLists.Flatten(old(items))
    {
      var nonce, rest := PopIndex(index, items.Keys);
      assert items.Keys - {nonce} == (items - {nonce}).Keys;
      tx := items[nonce];
      items, index := items - {nonce}, rest;
    }

    /** Returns, in nonce order, what `TxLists.Forward` drops. */
    method Forward(threshold: nat) returns (removed: seq<Tx>)
      requires Valid()
      modifies this
      ensures Valid() && items == TxLists.Forward(old(items), threshold)
      ensures removed + TxLists.Flatten(items) == TxLists.Flatten(old(items))
    {
      hide TxLists.Flatten, Indexes;
      removed := [];
      while index != [] && index[0] < threshold
        invariant TxLists.WellKeyed(items) && Indexes(index, items.Keys) && cache == old(cache)
        invariant TxLists.Forward(items, threshold) == TxLists.Forward(old(items), threshold)
        invariant removed + TxLists.Flatten(items) == TxLists.Flatten(old(items))
        decreases |items|
      {
        var tx := PopLowest();
        assert removed + ([tx] + TxLists.Flatten(items)) == removed + [tx] + TxLists.Flatten(items);
        removed := removed + [tx];
      }
      IndexHead(index, items.Keys);
      assert TxLists.Forward(items, threshold) == items;
      if cache.Some? {
        cache := Some(cache.value[|removed|..]);
      }
    }

    /** Removes, in some order, every transaction the predicate holds of. */
    method Filter(drop: Tx -> bool) returns (removed: seq<Tx>)
      requires Valid()
      modifies this
      ensures Valid() && items == TxLists.Filter(old(items), drop)
      ensures forall tx :: tx in removed <==> tx.nonce in old(items) && old(items)[tx.nonce] == tx && drop(tx)
    {
      removed := [];
      ghost var before := items;
      var todo := items.Keys;
      while todo != {}
        invariant todo <= items.Keys && index == old(index) && cache == old(cache)
        invariant items == map n | n in before && (n in todo || !drop(before[n])) :: before[n]
        invariant forall tx :: tx in removed <==>
                    tx.nonce in before && tx.nonce !in todo && before[tx.nonce] == tx && drop(tx)
        invariant removed == [] ==> items == before
        decreases todo
      {
        var n :| n in todo;
        todo := todo - {n};
        if drop(items[n]) {
          removed := removed + [items[n]];
          items := items - {n};
        }
      }
      assert items == TxLists.Filter(before, drop);
      if removed != [] {
        index := Enumerate(items.Keys);
        index := Heaps.Heapify(index, NonceLe);
        cache := None;
      }
    }

    /** Drops the highest nonces beyond the limit, highest first. */
    method Cap(threshold: nat) returns (drops: seq<Tx>)
      requires Valid()
      modifies this
      ensures Valid() && items == TxLists.Cap(old(items), threshold)
      ensures TxLists.Lists(drops, old(items), items) && TxLists.StrictlyFalling(drops)
    {
      drops := [];
      if |items| <= threshold {
        return;
      }
      items, index, drops := CapParts(items, index, threshold);
      if cache.Some? {
        TxLists.FlattenCap(old(items), threshold);
        cache := Some(cache.value[..|cache.value| - |drops|]);
      }
    }

    method Remove(nonce: nat) returns (found: bool)
      requires Valid()
      modifies this
      ensures Valid() && found == (nonce in old(items)) && items == old(items) - {nonce}
    {
      found := nonce in items;
      if !found {
        assert items - {nonce} == items;
        return;
      }
      index := RemoveFromIndex(index, items.Keys, nonce);
      assert items.Keys - {nonce} == (items - {nonce}).Keys;
      items, cache := items - {nonce}, None;
    }

    /** The loop of `Ready` and `ReadyWithGasPrice`; leaves the cache to them. */
    method TakeRun(start: nat, floor: Option<nat>) returns (ready: seq<Tx>)
      requires Valid()
      modifies this`items, this`index
      ensures TxLists.WellKeyed(items) && Indexes(index, items.Keys)
      ensures items == TxLists.AfterReady(old(items), start, floor)
      ensures ready + TxLists.Flatten(items) == TxLists.Flatten(old(items))
    {
      hide TxLists.Flatten, Indexes;
      ready := [];
      IndexHead(index, items.Keys);
      if index == [] || index[0] > start {
        assert items != map[] ==> TxLists.Forward(items, TxLists.MinKey(items.Keys)) == items;
        return;
      }
      var next := index[0];
      ghost var end := TxLists.RunEnd(items, next, floor);
      assert TxLists.Forward(items, next) == items;
      while index != [] && index[0] == next && TxLists.Payable(items[next], floor)
        invariant TxLists.WellKeyed(items) && Indexes(index, items.Keys)
        invariant index != [] ==> index[0] in items
        invariant TxLists.RunEnd(items, next, floor) == end
        invariant items == TxLists.Forward(old(items), next)
        invariant ready + TxLists.Flatten(items) == TxLists.Flatten(old(items))
        decreases |items|
      {
        TxLists.ForwardNext(old(items), next);
        var tx := PopLowest();
        assert ready + ([tx] + TxLists.Flatten(items)) == ready + [tx] + TxLists.Flatten(items);
        ready := ready + [tx];
        next := next + 1;
        IndexHead(index, items.Keys);
      }
      IndexHead(index, items.Keys);
      assert next == end;
    }

    /** Takes the longest consecutive run that starts at or below `start`; drops the cache. */
    method Ready(start: nat) returns (ready: seq<Tx>)
      requires Valid()
      modifies this
      ensures Valid() && items == TxLists.AfterReady(old(items), start, None)
      ensures ready + TxLists.Flatten(items) == TxLists.Flatten(old(items))
    {
      var short := index == [] || index[0] > start;
      ready := TakeRun(start, None);
      if short {
        IndexHead(old(index), old(items).Keys);
        assert old(items) != map[] ==> TxLists.Forward(old(items), TxLists.MinKey(old(items).Keys)) == old(items);
      } else {
        cache := None;
      }
    }

    /** The same run cut at the first price below the base fee; shifts the cache instead of dropping it. */
    method ReadyWithGasPrice(start: nat, baseFee: nat) returns (ready: seq<Tx>)
      requires Valid()
      modifies this
      ensures Valid() && items == TxLists.AfterReady(old(items), start, Some(baseFee))
      ensures ready + TxLists.Flatten(items) == TxLists.Flatten(old(items))
    {
      ready := TakeRun(start, Some(baseFee));
      if cache.Some? {
        cache := Some(cache.value[|ready|..]);
      }
    }

    /** Sorts the contents into the cache unless it is already there. */
    method FillCache() returns (sorted: seq<Tx>)
      requires Valid()
      modifies this`cache
      ensures Valid() && cache == Some(sorted) && sorted == TxLists.Flatten(items)
    {
      if cache.None? {
        var nonces := Enumerate(items.Keys);
        IndexContents(nonces, items.Keys);
        var txs: seq<Tx> := [];
        for i := 0 to |nonces|
          invariant |txs| == i && forall k :: 0 <= k < i ==> txs[k] == items[nonces[k]]
        {
          txs := txs + [items[nonces[i]]];
        }
        var inOrder := Heaps.Sort(txs, TxNonceLe);
        SortedContents(items, nonces, txs, inOrder);
        cache := Some(inOrder);
      }
      sorted := cache.value;
    }

    /** The lowest `count` transactions, all of them for a count of 0; a negative count panics when the copy is made. */
    method FlattenByCount(count: int) returns (txs: Option<seq<Tx>>)
      requires Valid()
      modifies this`cache
      ensures Valid() && cache.Some? && |TxLists.Flatten(items)| == |items|
      ensures txs == if count < 0 then None
                     else Some(TxLists.Flatten(items)[..if count != 0 && count < |items| then count else |items|])
    {
      TxLists.FlattenLength(items);
      var sorted := FillCache();
      var length := |sorted|;
      if count != 0 && length > count {
        length := count;
      }
      if length < 0 {
        return None;
      }
      txs := Some(sorted[..length]);
    }

    /** At most `count` of the lowest transactions; none for a count that is not positive. */
    method CachedTxsFlattenByCount(count: int) returns (txs: seq<Tx>)
      requires Valid()
      modifies this`cache
      ensures Valid() && |TxLists.Flatten(items)| == |items|
      ensures txs == TxLists.Flatten(items)[..if count <= 0 then 0 else if count < |items| then count else |items|]
    {
      TxLists.FlattenLength(items);
      if count <= 0 {
        return [];
      }
      txs := FillCache();
      if |txs| > count {
        txs := txs[..count];
      }
    }
  }

  lemma {:induction false} DropCount(m: TxMap, rest: TxMap, drops: seq<Tx>)
    requires TxLists.WellKeyed(m) && TxLists.Lists(drops, m, rest) && TxLists.StrictlyFalling(drops)
    requires forall n :: n in rest ==> n in m && rest[n] == m[n]
    ensures |drops| == |m| - |rest|
    decreases |drops|
  {
    if drops == [] {
      forall n | n in m ensures n in rest { assert m[n] !in drops; }
      assert rest == m;
    } else {
      var k := |drops| - 1;
      var tx := drops[k];
      var more := rest[tx.nonce := tx];
      assert tx in drops;
      assert drops == drops[..k] + [tx];
      DropCount(m, more, drops[..k]);
    }
  }

  /** Sorting the contents by nonce gives the flattened list. */
  lemma {:induction false} SortedContents(m: TxMap, nonces: seq<nat>, txs: seq<Tx>, sorted: seq<Tx>)
    requires TxLists.WellKeyed(m) && multiset(nonces) == multiset(m.Keys)
    requires |txs| == |nonces| && forall k :: 0 <= k < |nonces| ==> nonces[k] in m && txs[k] == m[nonces[k]]
    requires Heaps.Sorted(sorted, TxNonceLe) && multiset(sorted) == multiset(txs)
    ensures sorted == TxLists.Flatten(m)
  {
    IndexContents(nonces, m.Keys);
    NoRepeats(nonces, m.Keys);
    forall tx ensures tx in sorted <==> tx.nonce in m && m[tx.nonce] == tx {
      assert tx in sorted <==> tx in multiset(sorted);
      assert tx in txs <==> tx in multiset(txs);
      if tx.nonce in m && m[tx.nonce] == tx {
        var k :| 0 <= k < |nonces| && nonces[k] == tx.nonce;
        assert txs[k] == tx;
      }
    }
    assert TxLists.StrictlySorted(sorted) by {
      EachOnce(m, nonces, txs);
      forall i, j | 0 <= i < j < |sorted| ensures sorted[i].nonce < sorted[j].nonce {
        assert TxNonceLe(sorted[i], sorted[j]);
        if sorted[i].nonce == sorted[j].nonce {
          assert sorted[i] in sorted && sorted[j] in sorted;
          assert sorted[i] == sorted[j];
          Heaps.TwiceInSeq(sorted, i, j);
        }
      }
    }
    TxLists.FlattenUnique(m, sorted);
  }

  lemma {:induction false} NoRepeats(s: seq<nat>, keys: set<nat>)
    requires multiset(s) == multiset(keys)
    ensures forall i, j :: 0 <= i < j < |s| ==> s[i] != s[j]
  {
    forall i, j | 0 <= i < j < |s| ensures s[i] != s[j] {
      if s[i] == s[j] { Heaps.TwiceInSeq(s, i, j); }
    }
  }

  lemma {:induction false} EachOnce(m: TxMap, nonces: seq<nat>, txs: seq<Tx>)
    requires TxLists.WellKeyed(m)
    requires |txs| == |nonces| && forall k :: 0 <= k < |nonces| ==> nonces[k] in m && txs[k] == m[nonces[k]]
    requires forall i, j :: 0 <= i < j < |nonces| ==> nonces[i] != nonces[j]
    ensures forall tx :: multiset(txs)[tx] <= 1
    decreases |txs|
  {
    if txs != [] {
      var n := |txs| - 1;
      EachOnce(m, nonces[..n], txs[..n]);
      assert txs == txs[..n] + [txs[n]];
      assert txs[n] !in txs[..n];
    }
  }

  /** An account's list: strict for the pending side, loose for the queue. */
  class TxList {
    const strict: bool
    const txs: TxSortedMap

    constructor (strict: bool)
      ensures this.strict == strict && fresh(txs) && txs.Valid() && txs.items == map[]
    {
      this.strict := strict;
      txs := new TxSortedMap();
    }

    /** Inserts unless the nonce holds a transaction the new one may not replace. */
    method Add(tx: Tx, magma: bool) returns (inserted: bool, prior: Option<Tx>)
      requires txs.Valid()
      modifies txs
      ensures txs.Valid()
      ensures inserted <==> (tx.nonce in old(txs.items) ==> TxLists.Replaces(tx, old(txs.items)[tx.nonce], magma))
      ensures txs.items == if inserted then old(txs.items)[tx.nonce := tx] else old(txs.items)
      ensures prior == if inserted && tx.nonce in old(txs.items) then Some(old(txs.items)[tx.nonce]) else None
    {
      prior := None;
      if tx.nonce in txs.items {
        if !TxLists.Replaces(tx, txs.items[tx.nonce], magma) {
          return false, None;
        }
        prior := Some(txs.items[tx.nonce]);
      }
      txs.Put(tx);
      inserted := true;
    }

    /** Removes what the predicate holds of and, in a strict list, everything above the lowest removed nonce. */
    method Filter(drop: Tx -> bool) returns (removed: seq<Tx>, invalids: seq<Tx>)
      requires txs.Valid()
      modifies txs
      ensures txs.Valid()
      ensures txs.items == (if strict then TxLists.FilterStrict(old(txs.items), drop)
                            else TxLists.Filter(old(txs.items), drop))
      ensures TxLists.Lists(removed, old(txs.items), TxLists.Filter(old(txs.items), drop))
      ensures TxLists.Lists(invalids, TxLists.Filter(old(txs.items), drop), txs.items)
    {
      ghost var before := txs.items;
      removed := txs.Filter(drop);
      ghost var kept := txs.items;
      assert TxLists.Lists(removed, before, kept);
      invalids := [];
      if strict && removed != [] {
        var lowest := LowestNonce(removed);
        invalids := txs.Filter((tx: Tx) => tx.nonce > lowest);
        StrictCut(before, drop, removed, lowest);
      } else if strict {
        NothingDropped(before, drop, removed);
      }
    }

    /** Removes one nonce and, in a strict list, every higher one. */
    method Remove(tx: Tx) returns (found: bool, invalids: seq<Tx>)
      requires txs.Valid()
      modifies txs
      ensures txs.Valid() && found == (tx.nonce in old(txs.items))
      ensures txs.items == if found && strict then TxLists.Below(old(txs.items), tx.nonce)
                           else old(txs.items) - {tx.nonce}
      ensures TxLists.Lists(invalids, old(txs.items) - {tx.nonce}, txs.items)
    {
      invalids := [];
      found := txs.Remove(tx.nonce);
      if found && strict {
        var nonce := tx.nonce;
        ghost var rest := txs.items;
        invalids := txs.Filter((t: Tx) => t.nonce > nonce);
        assert txs.items == TxLists.Below(old(txs.items), nonce);
      }
    }
  }

  method LowestNonce(txs: seq<Tx>) returns (lowest: nat)
    requires txs != []
    ensures forall tx :: tx in txs ==> lowest <= tx.nonce
    ensures exists tx :: tx in txs && tx.nonce == lowest
  {
    lowest := txs[0].nonce;
    for i := 1 to |txs|
      invariant forall k :: 0 <= k < i ==> lowest <= txs[k].nonce
      invariant exists tx :: tx in txs && tx.nonce == lowest
    {
      if txs[i].nonce < lowest {
        lowest := txs[i].nonce;
        assert txs[i] in txs;
      }
    }
  }

  /** Dropping everything above the lowest filtered nonce is the strict filter. */
  lemma {:induction false} StrictCut(m: TxMap, drop: Tx -> bool, removed: seq<Tx>, lowest: nat)
    requires TxLists.WellKeyed(m) && TxLists.Lists(removed, m, TxLists.Filter(m, drop))
    requires forall tx :: tx in removed ==> lowest <= tx.nonce
    requires exists tx :: tx in removed && tx.nonce == lowest
    ensures TxLists.FilterStrict(m, drop) == TxLists.Filter(TxLists.Filter(m, drop), (tx: Tx) => tx.nonce > lowest)
  {
    DroppedAbove(m, drop, removed, lowest);
    StrictFilterCuts(m, drop, lowest);
    LooseFilterCuts(m, drop, lowest);
  }

  lemma {:induction false} StrictFilterCuts(m: TxMap, drop: Tx -> bool, lowest: nat)
    requires lowest in m && drop(m[lowest]) && forall n :: n in m && n < lowest ==> !drop(m[n])
    ensures TxLists.FilterStrict(m, drop) == TxLists.Below(m, lowest)
  {
  }

  lemma {:induction false} LooseFilterCuts(m: TxMap, drop: Tx -> bool, lowest: nat)
    requires TxLists.WellKeyed(m) && lowest in m && drop(m[lowest])
    requires forall n :: n in m && n < lowest ==> !drop(m[n])
    ensures TxLists.Filter(TxLists.Filter(m, drop), (tx: Tx) => tx.nonce > lowest) == TxLists.Below(m, lowest)
  {
  }

  /** The lowest removed nonce is the lowest one dropped. */
  lemma {:induction false} DroppedAbove(m: TxMap, drop: Tx -> bool, removed: seq<Tx>, lowest: nat)
    requires TxLists.WellKeyed(m) && TxLists.Lists(removed, m, TxLists.Filter(m, drop))
    requires forall tx :: tx in removed ==> lowest <= tx.nonce
    requires exists tx :: tx in removed && tx.nonce == lowest
    ensures lowest in m && drop(m[lowest]) && forall n :: n in m && n < lowest ==> !drop(m[n])
  {
    var first :| first in removed && first.nonce == lowest;
    forall n | n in m && n < lowest ensures !drop(m[n]) {
      assert m[n] in removed <==> drop(m[n]);
    }
  }

  lemma {:induction false} NothingDropped(m: TxMap, drop: Tx -> bool, removed: seq<Tx>)
    requires TxLists.WellKeyed(m) && removed == [] && TxLists.Lists(removed, m, TxLists.Filter(m, drop))
    ensures TxLists.FilterStrict(m, drop) == TxLists.Filter(m, drop) == m
  {
    forall n | n in m ensures !drop(m[n]) {
      assert m[n] !in removed;
    }
  }
}
