/**
 How the pool's two families of lists and its lookup fit together: the live
 transactions are split, without overlap, between the pending lists, the
 queued lists and those a running operation has taken out and not yet settled.
 */
module Partition {
  import opened Types
  import opened TxLists
  import opened Priced

  type Lists = map<Address, TxMap>

  function Of(m: Lists, a: Address): TxMap {
    if a in m then m[a] else map[]
  }

  ghost predicate Has(m: Lists, a: Address, n: nat) {
    a in m && n in m[a]
  }

  ghost predicate Holds(m: Lists, tx: Tx) {
    Has(m, tx.sender, tx.nonce) && m[tx.sender][tx.nonce] == tx
  }

  /** Stores a list, or forgets the account when the list is empty. */
  function SetList(m: Lists, a: Address, l: TxMap): Lists {
    if l == map[] then m - {a} else m[a := l]
  }

  /** Files a transaction under its sender and nonce. */
  function File(m: Lists, tx: Tx): Lists {
    m[tx.sender := Of(m, tx.sender)[tx.nonce := tx]]
  }

  ghost predicate WellFiled(m: Lists) {
    forall a, n :: Has(m, a, n) ==> m[a][n].sender == a && m[a][n].nonce == n
  }

  ghost predicate SameSlot(t: Tx, u: Tx) {
    t.sender == u.sender && t.nonce == u.nonce
  }

  /** No two of `txs` share a sender and nonce. */
  ghost predicate OnePerNonce(txs: set<Tx>) {
    forall t, u :: t in txs && u in txs && SameSlot(t, u) ==> t == u
  }

  /** Neither list has a transaction for the sender and nonce of `tx`. */
  ghost predicate Vacant(pending: Lists, queue: Lists, tx: Tx) {
    !Has(pending, tx.sender, tx.nonce) && !Has(queue, tx.sender, tx.nonce)
  }

  /**
   The pool's central invariant. `limbo` holds what an operation has taken
   out of a list and not yet dropped or filed again; it is empty between operations.
   */
  ghost predicate Split(pending: Lists, queue: Lists, txs: Lookup, limbo: set<Tx>) {
    && WellFiled(pending) && WellFiled(queue) && KeyedByHash(txs)
    && (forall a, n :: !(Has(pending, a, n) && Has(queue, a, n)))
    && OnePerNonce(limbo)
    && (forall t :: t in limbo ==> Vacant(pending, queue, t))
    && (forall t :: Live(txs, t) <==> Holds(pending, t) || Holds(queue, t) || t in limbo)
  }

  /** What is in `m` and not in `kept`. */
  function Gone(m: TxMap, kept: TxMap): set<Tx> {
    set n | n in m && n !in kept :: m[n]
  }

  function Txs(m: TxMap): set<Tx> {
    set n | n in m :: m[n]
  }

  /** What a list loses above nonce `n` when that nonce is removed from it. */
  function Above(m: TxMap, k: nat): TxMap {
    map n | n in m && k < n :: m[n]
  }

  /** Files all of `moved` in the list of `a`. */
  function FileAll(m: Lists, a: Address, moved: TxMap): Lists {
    if moved == map[] then m else m[a := Of(m, a) + moved]
  }

  /** All of `moved` is in `limbo`, filed under account `a`. */
  ghost predicate Waiting(moved: TxMap, a: Address, limbo: set<Tx>) {
    forall n :: n in moved ==> moved[n] in limbo && moved[n].sender == a && moved[n].nonce == n
  }

  ghost predicate Submap(kept: TxMap, m: TxMap) {
    forall n :: n in kept ==> n in m && kept[n] == m[n]
  }

  // ---------- Taking out ----------

  lemma {:induction false} TakePending(pending: Lists, queue: Lists, txs: Lookup, limbo: set<Tx>, a: Address,
                                       kept: TxMap)
    requires Split(pending, queue, txs, limbo) && a in pending && Submap(kept, pending[a])
    ensures Split(pending[a := kept], queue, txs, limbo + Gone(pending[a], kept))
  {
    var now, out := pending[a := kept], Gone(pending[a], kept);
    forall b, n | Has(now, b, n) ensures Has(pending, b, n) && now[b][n] == pending[b][n] {}
    forall t | t in out ensures Holds(pending, t) && t.sender == a && t.nonce !in kept {
      var n :| n in pending[a] && n !in kept && pending[a][n] == t;
      assert Has(pending, a, n);
    }
    forall t ensures Holds(pending, t) <==> Holds(now, t) || t in out {
      if Holds(pending, t) && t.sender == a && t.nonce !in kept {
        assert pending[a][t.nonce] in out;
      }
    }
  }

  lemma {:induction false} SplitSymmetric(pending: Lists, queue: Lists, txs: Lookup, limbo: set<Tx>)
    requires Split(pending, queue, txs, limbo)
    ensures Split(queue, pending, txs, limbo)
  {
  }

  lemma {:induction false} TakeQueued(pending: Lists, queue: Lists, txs: Lookup, limbo: set<Tx>, a: Address,
                                      kept: TxMap)
    requires Split(pending, queue, txs, limbo) && a in queue && Submap(kept, queue[a])
    ensures Split(pending, queue[a := kept], txs, limbo + Gone(queue[a], kept))
  {
    SplitSymmetric(pending, queue, txs, limbo);
    TakePending(queue, pending, txs, limbo, a, kept);
    SplitSymmetric(queue[a := kept], pending, txs, limbo + Gone(queue[a], kept));
  }

  // ---------- Settling ----------

  /** A transaction out of the lists can be dropped from the lookup. */
  lemma {:induction false} Drop(pending: Lists, queue: Lists, txs: Lookup, limbo: set<Tx>, tx: Tx)
    requires Split(pending, queue, txs, limbo) && tx in limbo
    ensures tx.Hash() in txs
    ensures Split(pending, queue, txs - {tx.Hash()}, limbo - {tx})
  {
    assert Live(txs, tx);
    forall t ensures Live(txs - {tx.Hash()}, t) <==> Live(txs, t) && t != tx {}
  }

  /** A transaction out of the lists can be filed as pending. */
  lemma {:induction false} FilePending(pending: Lists, queue: Lists, txs: Lookup, limbo: set<Tx>, tx: Tx)
    requires Split(pending, queue, txs, limbo) && tx in limbo
    ensures Split(File(pending, tx), queue, txs, limbo - {tx})
  {
    var now := File(pending, tx);
    assert Vacant(pending, queue, tx);
    forall b, n ensures Has(now, b, n) <==> Has(pending, b, n) || (b == tx.sender && n == tx.nonce) {}
    forall t ensures Holds(now, t) <==> Holds(pending, t) || t == tx {
      if Holds(now, t) && SameSlot(t, tx) {
        assert t == tx;
      }
    }
    forall t | t in limbo - {tx} ensures Vacant(now, queue, t) {
      assert !SameSlot(t, tx);
    }
  }

  /** A transaction out of the lists can be filed as queued. */
  lemma {:induction false} FileQueued(pending: Lists, queue: Lists, txs: Lookup, limbo: set<Tx>, tx: Tx)
    requires Split(pending, queue, txs, limbo) && tx in limbo
    ensures Split(pending, File(queue, tx), txs, limbo - {tx})
  {
    var now := File(queue, tx);
    SplitSymmetric(pending, queue, txs, limbo);
    FilePending(queue, pending, txs, limbo, tx);
    SplitSymmetric(now, pending, txs, limbo - {tx});
  }

  /** A new transaction for a vacant nonce starts outside the lists. */
  lemma {:induction false} Enter(pending: Lists, queue: Lists, txs: Lookup, limbo: set<Tx>, tx: Tx)
    requires Split(pending, queue, txs, limbo) && Vacant(pending, queue, tx)
    requires forall t :: t in limbo ==> !SameSlot(t, tx)
    ensures tx.Hash() !in txs
    ensures Split(pending, queue, txs[tx.Hash() := tx], limbo + {tx})
  {
    assert !Live(txs, tx);
    forall t ensures Live(txs[tx.Hash() := tx], t) <==> Live(txs, t) || t == tx {}
  }

  /** An account whose list is empty can be forgotten. */
  lemma {:induction false} Forget(pending: Lists, queue: Lists, txs: Lookup, limbo: set<Tx>, a: Address)
    requires Split(pending, queue, txs, limbo)
    requires a in pending ==> pending[a] == map[]
    ensures Split(pending - {a}, queue, txs, limbo)
  {
    forall b, n ensures Has(pending - {a}, b, n) <==> Has(pending, b, n) {}
    forall t ensures Holds(pending - {a}, t) <==> Holds(pending, t) {}
  }

  lemma {:induction false} ForgetQueued(pending: Lists, queue: Lists, txs: Lookup, limbo: set<Tx>, a: Address)
    requires Split(pending, queue, txs, limbo)
    requires a in queue ==> queue[a] == map[]
    ensures Split(pending, queue - {a}, txs, limbo)
  {
    SplitSymmetric(pending, queue, txs, limbo);
    Forget(queue, pending, txs, limbo, a);
    SplitSymmetric(queue - {a}, pending, txs, limbo);
  }

  /** A new transaction can go straight to a vacant nonce of the queue. */
  lemma {:induction false} AddQueued(pending: Lists, queue: Lists, txs: Lookup, limbo: set<Tx>, tx: Tx)
    requires Split(pending, queue, txs, limbo) && Vacant(pending, queue, tx)
    requires forall t :: t in limbo ==> !SameSlot(t, tx)
    ensures tx.Hash() !in txs
    ensures Split(pending, File(queue, tx), txs[tx.Hash() := tx], limbo)
  {
    Enter(pending, queue, txs, limbo, tx);
    FileQueued(pending, queue, txs[tx.Hash() := tx], limbo + {tx}, tx);
    assert limbo + {tx} - {tx} == limbo by { assert !SameSlot(tx, tx) || tx !in limbo; }
  }

  /** A new transaction can take the place of the pending one at its nonce. */
  lemma {:induction false} ReplacePending(pending: Lists, queue: Lists, txs: Lookup, limbo: set<Tx>, tx: Tx)
    requires Split(pending, queue, txs, limbo) && !Live(txs, tx)
    requires Has(pending, tx.sender, tx.nonce) && forall t :: t in limbo ==> !SameSlot(t, tx)
    ensures var prior := pending[tx.sender][tx.nonce];
            && prior.Hash() in txs && prior.Hash() != tx.Hash() && tx.Hash() !in txs
            && Split(File(pending, tx), queue,
                     (txs - {prior.Hash()})[tx.Hash() := tx], limbo)
  {
    var a, prior := tx.sender, pending[tx.sender][tx.nonce];
    assert Holds(pending, prior) && Live(txs, prior);
    var kept := pending[a] - {tx.nonce};
    TakePending(pending, queue, txs, limbo, a, kept);
    assert Gone(pending[a], kept) == {prior};
    Drop(pending[a := kept], queue, txs, limbo + {prior}, prior);
    assert limbo + {prior} - {prior} == limbo by { assert SameSlot(prior, tx); }
    Enter(pending[a := kept], queue, txs - {prior.Hash()}, limbo, tx);
    FilePending(pending[a := kept], queue, (txs - {prior.Hash()})[tx.Hash() := tx], limbo + {tx}, tx);
    assert limbo + {tx} - {tx} == limbo by { assert SameSlot(tx, tx); }
    assert kept[tx.nonce := tx] == pending[a][tx.nonce := tx];
    assert File(pending[a := kept], tx) == File(pending, tx);
    assert tx.Hash() !in txs by { assert prior != tx; assert tx.Hash() != prior.Hash(); }
  }

  /** A new transaction can take the place of the queued one at its nonce. */
  lemma {:induction false} ReplaceQueued(pending: Lists, queue: Lists, txs: Lookup, limbo: set<Tx>, tx: Tx)
    requires Split(pending, queue, txs, limbo) && !Live(txs, tx)
    requires Has(queue, tx.sender, tx.nonce) && forall t :: t in limbo ==> !SameSlot(t, tx)
    ensures var prior := queue[tx.sender][tx.nonce];
            && prior.Hash() in txs && prior.Hash() != tx.Hash() && tx.Hash() !in txs
            && Split(pending, File(queue, tx),
                     (txs - {prior.Hash()})[tx.Hash() := tx], limbo)
  {
    var now, prior := File(queue, tx), queue[tx.sender][tx.nonce];
    SplitSymmetric(pending, queue, txs, limbo);
    ReplacePending(queue, pending, txs, limbo, tx);
    SplitSymmetric(now, pending, (txs - {prior.Hash()})[tx.Hash() := tx], limbo);
  }

  /** Removing a pending transaction leaves the ones above it to be filed again. */
  lemma {:induction false} RemovePending(pending: Lists, queue: Lists, txs: Lookup, tx: Tx)
    requires Split(pending, queue, txs, {}) && Holds(pending, tx)
    ensures tx.Hash() in txs
    ensures var l := pending[tx.sender];
            && Waiting(Above(l, tx.nonce), tx.sender, Txs(Above(l, tx.nonce)))
            && Split(SetList(pending, tx.sender, Below(l, tx.nonce)), queue, txs - {tx.Hash()}, Txs(Above(l, tx.nonce)))
  {
    var a, n := tx.sender, tx.nonce;
    var l := pending[a];
    var kept, high := Below(l, n), Above(l, n);
    TakePending(pending, queue, txs, {}, a, kept);
    assert {} + Gone(l, kept) == Txs(high) + {tx} by {
      assert forall k :: k in l && k !in kept ==> k in high || k == n;
      assert forall k :: k in high ==> high[k] == l[k] && k !in kept;
      forall t | t in Txs(high) + {tx} ensures t in Gone(l, kept) {
        if t in Txs(high) {
          var k :| k in high && high[k] == t;
          assert l[k] == t;
        } else {
          assert l[n] == t && n !in kept;
        }
      }
    }
    assert forall k :: k in high ==> Has(pending, a, k);
    Drop(pending[a := kept], queue, txs, Txs(high) + {tx}, tx);
    assert Txs(high) + {tx} - {tx} == Txs(high) by {
      forall t | t in Txs(high) ensures t != tx {
        var k :| k in high && high[k] == t;
      }
    }
    if kept == map[] {
      Forget(pending[a := kept], queue, txs - {tx.Hash()}, Txs(high), a);
      assert pending[a := kept] - {a} == pending - {a};
    }
  }

  lemma {:induction false} RemoveQueued(pending: Lists, queue: Lists, txs: Lookup, tx: Tx)
    requires Split(pending, queue, txs, {}) && Holds(queue, tx)
    ensures tx.Hash() in txs
    ensures Split(pending, SetList(queue, tx.sender, queue[tx.sender] - {tx.nonce}), txs - {tx.Hash()}, {})
  {
    var a := tx.sender;
    var kept := queue[a] - {tx.nonce};
    TakeQueued(pending, queue, txs, {}, a, kept);
    assert {} + Gone(queue[a], kept) == {tx};
    Drop(pending, queue[a := kept], txs, {tx}, tx);
    assert {tx} - {tx} == {};
    if kept == map[] {
      ForgetQueued(pending, queue[a := kept], txs - {tx.Hash()}, {}, a);
      assert queue[a := kept] - {a} == queue - {a};
    }
  }

  // ---------- Consequences ----------

  lemma {:induction false} LimboIsVacant(pending: Lists, queue: Lists, txs: Lookup, limbo: set<Tx>, tx: Tx)
    requires Split(pending, queue, txs, limbo) && tx in limbo
    ensures Vacant(pending, queue, tx) && tx.Hash() in txs
  {
    assert Live(txs, tx);
  }

  /**
   The list that has the nonce of a live transaction has that transaction there, so removal by
   nonce is removal of it.
   */
  lemma {:induction false} ByNonceIsByHash(pending: Lists, queue: Lists, txs: Lookup, tx: Tx)
    requires Split(pending, queue, txs, {}) && Live(txs, tx)
    ensures Holds(pending, tx) <==> Has(pending, tx.sender, tx.nonce)
    ensures Holds(queue, tx) <==> Has(queue, tx.sender, tx.nonce)
    ensures Holds(pending, tx) <==> !Holds(queue, tx)
  {
    assert Has(pending, tx.sender, tx.nonce) ==> !Has(queue, tx.sender, tx.nonce);
  }
}
