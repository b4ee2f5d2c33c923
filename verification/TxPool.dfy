/**
 The transaction pool: adding, queueing, promoting, demoting, removing and
 resetting, over per-account lists, the lookup and the price heap.
 */
module TxPools {
  import opened Types
  import opened TxLists
  import opened Priced
  import opened Partition
  import opened Nonces
  import opened Accounts
  import opened Fees

  datatype Config = Config(
    execSlotsAccount: nat,
    execSlotsAll: nat,
    nonExecSlotsAccount: nat,
    nonExecSlotsAll: nat,
    keepLocals: bool)
  {
    function Capacity(): nat { execSlotsAll + nonExecSlotsAll }
  }

  /**
   What the pool reads from the state at the head. `staleKeys` are the transactions
   whose account keys no longer validate and `refused` those that fail a check
   the model does not spell out (type, signature, intrinsic gas and the like).
   */
  datatype ChainState = ChainState(
    nonces: map<Address, nat>,
    balances: Balances,
    staleKeys: set<TxHash>,
    refused: set<TxHash>)

  /** The test by which `Filter` drops a pooled transaction. */
  function DropTest(state: ChainState, marked: set<TxHash>): Tx -> bool {
    (tx: Tx) => tx.Hash() in marked || tx.Hash() in state.staleKeys || Unpayable(state.balances, tx)
  }

  class TxPool {
    const config: Config
    const all: TxLookup
    const priced: TxPricedList

    var state: ChainState
    var magma: bool
    var gasPrice: nat
    /** Transactions block production has marked as impossible to execute. */
    var marked: set<TxHash>
    var now: nat

    var locals: set<Address>
    var pending: Lists
    var queue: Lists
    var beats: map<Address, nat>
    var pendingNonce: map<Address, nat>

    constructor (config: Config, state: ChainState, gasPrice: nat)
      ensures Valid() && fresh(all) && fresh(priced) && pending == map[] && queue == map[]
      ensures this.config == config && this.state == state && this.gasPrice == gasPrice && !magma
      ensures pendingNonce == map[] && locals == {} && marked == {} && all.txs == map[]
      ensures forall a :: OrderAt(a)
    {
      this.config, this.state, this.gasPrice := config, state, gasPrice;
      magma, marked, now, locals := false, {}, 0, {};
      pending, queue, beats, pendingNonce := map[], map[], map[], map[];
      var lookup := new TxLookup();
      all := lookup;
      priced := new TxPricedList(lookup);
    }

    ghost predicate Consistent(limbo: set<Tx>)
      reads this, all, priced
    {
      && priced.all == all && all.Valid() && priced.Valid()
      && Split(pending, queue, all.txs, limbo)
      && |all.txs| <= config.Capacity()
    }

    ghost predicate Covered()
      reads this, all, priced
    {
      Covers(priced.items, all.txs)
    }

    /** Holds between operations. */
    ghost predicate Valid()
      reads this, all, priced
    {
      Consistent({}) && Covered()
    }

    /** The next nonce the pool expects of an account. */
    function PendingNonce(a: Address): nat
      reads this`state, this`pendingNonce
    {
      NextNonce(state.nonces, pendingNonce, a)
    }

    /** The lists and nonces on which the order of the pool depends. */
    ghost function View(): Order
      reads this`pending, this`queue, this`pendingNonce
    {
      Order(pending, queue, pendingNonce)
    }

    ghost function Share(a: Address): Account
      reads this`state, this`pending, this`queue, this`pendingNonce
    {
      Look(state.nonces, View(), a)
    }

    /** The pending nonces of an account are exactly those from its state nonce up to its pending nonce. */
    ghost predicate RunAt(a: Address)
      reads this`state, this`pending, this`queue, this`pendingNonce
    {
      InRun(Share(a), StateNonce(state.nonces, a))
    }

    /** So they are, and no queued nonce of the account is below its pending nonce. */
    ghost predicate OrderAt(a: Address)
      reads this`state, this`pending, this`queue, this`pendingNonce
    {
      InOrder(Share(a), StateNonce(state.nonces, a))
    }

    // ---------- Pending nonces ----------

    /** Remembers the state nonce for an account that has no entry or an outdated one. */
    method GetPendingNonce(a: Address) returns (n: nat)
      modifies this`pendingNonce
      ensures n == PendingNonce(a) && a in pendingNonce && pendingNonce[a] == n
      ensures SameNext(state.nonces, old(pendingNonce), pendingNonce)
    {
      if a !in pendingNonce || pendingNonce[a] < StateNonce(state.nonces, a) {
        pendingNonce := pendingNonce[a := StateNonce(state.nonces, a)];
      }
      n := pendingNonce[a];
    }

    /** Lowers the pending nonce to that of a dropped transaction. */
    method UpdatePendingNonce(a: Address, nonce: nat)
      modifies this`pendingNonce
      ensures SameElsewhere(state.nonces, old(pendingNonce), pendingNonce, a)
      ensures PendingNonce(a) == if old(PendingNonce(a)) <= nonce then old(PendingNonce(a))
                                 else if nonce < StateNonce(state.nonces, a) then StateNonce(state.nonces, a)
                                 else nonce
    {
      var n := GetPendingNonce(a);
      if n > nonce {
        pendingNonce := pendingNonce[a := nonce];
      }
    }

    // ---------- Small steps ----------

    /** Drops transactions that left the lists from the lookup, telling the price heap of each. */
    method DropAll(gone: set<Tx>, ghost limbo: set<Tx>)
      requires Consistent(limbo) && gone <= limbo
      modifies all, priced
      ensures Consistent(limbo - gone)
      ensures old(Covered()) ==> Covered()
      ensures |all.txs| <= |old(all.txs)|
    {
      hide Split, SlotSum, KeyedByHash, Covers;
      var todo := gone;
      ghost var left := limbo;
      while todo != {}
        invariant todo <= gone && left == limbo - (gone - todo) && Consistent(left)
        invariant old(Covered()) ==> Covered()
        invariant |all.txs| <= |old(all.txs)|
        decreases todo
      {
        var tx :| tx in todo;
        RemoveFromLookup(tx, left);
        priced.Removed();
        todo, left := todo - {tx}, left - {tx};
      }
      assert left == limbo - gone;
    }

    /** Takes a transaction that is in no list out of the lookup. */
    method RemoveFromLookup(tx: Tx, ghost limbo: set<Tx>)
      requires Consistent(limbo) && tx in limbo
      modifies all
      ensures Consistent(limbo - {tx})
      ensures old(Covered()) ==> Covered()
      ensures all.txs == old(all.txs) - {tx.Hash()} && |all.txs| == |old(all.txs)| - 1
    {
      hide Split, SlotSum, KeyedByHash, Covers;
      Drop(pending, queue, all.txs, limbo, tx);
      if Covered() {
        CoversWithout(priced.items, all.txs, tx.Hash());
      }
      all.Remove(tx.Hash());
    }

    /**
     Queues a transaction that is new, or one taken out of a list. A transaction
     that was in the pool always finds its nonce free: ignoring the result is safe.
     */
    method EnqueueTx(tx: Tx, ghost limbo: set<Tx>) returns (inserted: bool, replaced: bool)
      requires Consistent(limbo)
      requires tx !in limbo ==>
                 && !Live(all.txs, tx) && !Has(pending, tx.sender, tx.nonce)
                 && (forall t :: t in limbo ==> !SameSlot(t, tx))
                 && |all.txs| < config.Capacity()
      modifies this`queue, this`beats, all, priced
      ensures Consistent(limbo - {tx})
      ensures old(Covered()) ==> Covered()
      ensures inserted <==> (Has(old(queue), tx.sender, tx.nonce) ==>
                               Replaces(tx, old(queue)[tx.sender][tx.nonce], magma))
      ensures replaced <==> inserted && Has(old(queue), tx.sender, tx.nonce)
      ensures queue == if inserted then File(old(queue), tx)
                       else old(queue)
      ensures tx in limbo ==> inserted && !replaced && all.txs == old(all.txs) && priced.items == old(priced.items)
      ensures tx !in limbo ==>
                all.txs == if !inserted then old(all.txs)
                           else if replaced
                           then (old(all.txs) - {old(queue)[tx.sender][tx.nonce].Hash()})[tx.Hash() := tx]
                           else old(all.txs)[tx.Hash() := tx]
    {
      hide Split, SlotSum, KeyedByHash, Covers;
      replaced := tx.nonce in Of(queue, tx.sender);
      if tx in limbo {
        LimboIsVacant(pending, queue, all.txs, limbo, tx);
      }
      if replaced && !Replaces(tx, queue[tx.sender][tx.nonce], magma) {
        assert limbo - {tx} == limbo;
        return false, false;
      }
      inserted := true;
      if replaced {
        ReplaceQueued(pending, queue, all.txs, limbo, tx);
        if Covered() {
          CoversWithout(priced.items, all.txs, queue[tx.sender][tx.nonce].Hash());
        }
        all.Remove(queue[tx.sender][tx.nonce].Hash());
        priced.Removed();
      } else if tx in limbo {
        FileQueued(pending, queue, all.txs, limbo, tx);
      } else {
        AddQueued(pending, queue, all.txs, limbo, tx);
      }
      if tx.Hash() !in all.txs {
        AddToLookup(tx);
      }
      queue := File(queue, tx);
      assert tx !in limbo ==> limbo - {tx} == limbo;
      if tx.sender !in beats {
        beats := beats[tx.sender := now];
      }
    }

    /** Adds to the lookup and to the price heap. */
    method AddToLookup(tx: Tx)
      requires priced.all == all && all.Valid() && priced.Valid() && tx.Hash() !in all.txs
      modifies all, priced
      ensures all.Valid() && priced.Valid()
      ensures old(Covered()) ==> Covered()
      ensures all.txs == old(all.txs)[tx.Hash() := tx] && |all.txs| == |old(all.txs)| + 1
    {
      hide SlotSum, KeyedByHash, Covers;
      ghost var items := priced.items;
      all.Add(tx);
      priced.Put(tx);
      if old(Covered()) {
        CoversWith(items, old(all.txs), priced.items, tx);
      }
    }

    /** Moves transactions taken out of a list to the queue; none is ever refused. */
    method Requeue(a: Address, moved: TxMap, ghost limbo: set<Tx>)
      requires Consistent(limbo) && Waiting(moved, a, limbo)
      modifies this`queue, this`beats, all, priced
      ensures Consistent(limbo - Txs(moved))
      ensures queue == FileAll(old(queue), a, moved)
      ensures all.txs == old(all.txs) && priced.items == old(priced.items)
    {
      hide Split, SlotSum, KeyedByHash, Covers;
      var todo := moved.Keys;
      ghost var left, done := limbo, map[];
      while todo != {}
        invariant todo <= moved.Keys && done == moved - todo
        invariant left == limbo - Txs(done) && Consistent(left)
        invariant queue == FileAll(old(queue), a, done)
        invariant all.txs == old(all.txs) && priced.items == old(priced.items)
        decreases todo
      {
        var n :| n in todo;
        RequeueStep(old(queue), a, moved, done, n, limbo);
        var inserted, replaced := EnqueueTx(moved[n], left);
        todo, left, done := todo - {n}, left - {moved[n]}, done[n := moved[n]];
      }
      assert done == moved;
    }

    /** Promotes one transaction; its nonce is always free, so it is never discarded or replaced. */
    method PromoteTx(tx: Tx, ghost limbo: set<Tx>)
      requires Consistent(limbo) && tx in limbo
      modifies this`pending, this`beats, this`pendingNonce
      ensures Consistent(limbo - {tx})
      ensures pending == File(old(pending), tx)
      ensures pendingNonce == old(pendingNonce)[tx.sender := tx.nonce + 1]
    {
      hide Split, SlotSum, KeyedByHash;
      LimboIsVacant(pending, queue, all.txs, limbo, tx);
      assert tx.nonce !in Of(pending, tx.sender) && tx.Hash() in all.txs;
      FilePending(pending, queue, all.txs, limbo, tx);
      pending := File(pending, tx);
      beats := beats[tx.sender := now];
      pendingNonce := pendingNonce[tx.sender := tx.nonce + 1];
    }

    /**
     Removes one transaction by hash. A pending one sends everything above it back
     to the queue and lowers the pending nonce to its own.
     */
    method RemoveTx(hash: TxHash, outofbound: bool)
      requires Consistent({})
      modifies this`pending, this`queue, this`beats, this`pendingNonce, all, priced
      ensures Consistent({})
      ensures outofbound && old(Covered()) ==> Covered()
      ensures !outofbound ==> priced.items == old(priced.items)
      ensures all.txs == old(all.txs) - {hash}
      ensures hash in old(all.txs) && Has(old(pending), hash.tx.sender, hash.tx.nonce) ==>
                var a, n, l := hash.tx.sender, hash.tx.nonce, old(pending)[hash.tx.sender];
                pending == SetList(old(pending), a, Below(l, n)) && queue == FileAll(old(queue), a, Above(l, n))
      ensures hash in old(all.txs) && !Has(old(pending), hash.tx.sender, hash.tx.nonce) ==>
                var a, n := hash.tx.sender, hash.tx.nonce;
                && pending == old(pending) && pendingNonce == old(pendingNonce) && Has(old(queue), a, n)
                && queue == SetList(old(queue), a, old(queue)[a] - {n})
      ensures hash !in old(all.txs) ==>
                pending == old(pending) && queue == old(queue) && pendingNonce == old(pendingNonce)
      ensures AllCut(state.nonces, old(View()), View()) && Keeps(state.nonces, old(View()), View())
      ensures Shrunk(old(pending), pending) && AllCutOut(state.nonces, old(View()), View(), [hash.tx])
    {
      hide Split, SlotSum, Covers, AllCut, AllCutOut, Keeps, SetList, Below, Above, FileAll, Shrunk;
      NothingAdded(pending, hash.tx.sender, hash.tx.nonce);
      TakesOut(state.nonces, View(), all.txs, hash);
      if hash !in all.txs {
        assert all.txs - {hash} == all.txs;
        NoneCut(state.nonces, View(), View());
        KeepsItself(state.nonces, View());
        return;
      }
      var tx := all.txs[hash];
      assert Live(all.txs, tx);
      ByNonceIsByHash(pending, queue, all.txs, tx);
      if Covered() {
        CoversWithout(priced.items, all.txs, hash);
      }
      if tx.nonce in Of(pending, tx.sender) {
        RemovePending(pending, queue, all.txs, tx);
        all.Remove(hash);
        if outofbound {
          priced.Removed();
        }
        CutPending(tx);
        OneCutOut(state.nonces, old(View()), View(), tx);
      } else {
        assert Holds(queue, tx);
        RemoveQueued(pending, queue, all.txs, tx);
        all.Remove(hash);
        if outofbound {
          priced.Removed();
        }
        queue := SetList(queue, tx.sender, queue[tx.sender] - {tx.nonce});
        FewerQueued(state.nonces, old(View()), View(), tx.sender, tx.nonce);
        SameCutOut(state.nonces, old(View()), View(), [tx]);
      }
    }

    /** Cuts a pending list at a removed transaction. */
    method CutPending(tx: Tx)
      requires priced.all == all && all.Valid() && priced.Valid() && |all.txs| <= config.Capacity()
      requires Has(pending, tx.sender, tx.nonce)
      requires var l := pending[tx.sender];
               && Waiting(Above(l, tx.nonce), tx.sender, Txs(Above(l, tx.nonce)))
               && Split(SetList(pending, tx.sender, Below(l, tx.nonce)), queue, all.txs, Txs(Above(l, tx.nonce)))
      modifies this`pending, this`queue, this`beats, this`pendingNonce, all, priced
      ensures Consistent({}) && all.txs == old(all.txs) && priced.items == old(priced.items)
      ensures var l := old(pending)[tx.sender];
              && pending == SetList(old(pending), tx.sender, Below(l, tx.nonce))
              && queue == FileAll(old(queue), tx.sender, Above(l, tx.nonce))
      ensures AllCut(state.nonces, old(View()), View()) && Keeps(state.nonces, old(View()), View())
      ensures SameElsewhere(state.nonces, old(pendingNonce), pendingNonce, tx.sender)
      ensures PendingNonce(tx.sender) ==
                Lowered(StateNonce(state.nonces, tx.sender), old(PendingNonce(tx.sender)), tx.nonce)
    {
      hide Split, SlotSum, KeyedByHash, AllCut, Keeps, SetList;
      var a, l := tx.sender, pending[tx.sender];
      pending := SetList(pending, a, Below(l, tx.nonce));
      var invalids := Above(l, tx.nonce);
      Requeue(a, invalids, Txs(invalids));
      assert Txs(invalids) - Txs(invalids) == {};
      UpdatePendingNonce(a, tx.nonce);
      CutAndQueued(state.nonces, old(View()), View(), a, tx.nonce);
    }

    // ---------- Promotion ----------

    /** Under Magma only transactions that pay the base fee are promoted. */
    function Floor(): Option<nat>
      reads this`magma, this`gasPrice
    {
      if magma then Some(gasPrice) else None
    }

    /** The number of transactions an account may have queued; local ones are not limited. */
    function QueueCap(a: Address): Option<nat>
      reads this`locals
    {
      if a in locals then None else Some(config.nonExecSlotsAccount)
    }

    /** Shortens a queued list, dropping what leaves it. */
    method PruneQueue(a: Address, kept: TxMap)
      requires Consistent({}) && a in queue && Submap(kept, queue[a])
      modifies this`queue, all, priced
      ensures Consistent({})
      ensures old(Covered()) ==> Covered()
      ensures queue == old(queue)[a := kept] && |all.txs| <= |old(all.txs)|
    {
      hide Split, SlotSum, KeyedByHash, Covers;
      TakeQueued(pending, queue, all.txs, {}, a, kept);
      var gone := Gone(queue[a], kept);
      queue := queue[a := kept];
      assert {} + gone == gone;
      DropAll(gone, gone);
      assert gone - gone == {};
    }

    /** Moves the nonces below `end` of a queued list, a run from `first`, to the pending list in order. */
    method PromoteRun(a: Address, first: nat, end: nat)
      requires Consistent({}) && a in queue && Interval(Below(queue[a], end), first, end)
      modifies this`pending, this`queue, this`beats, this`pendingNonce
      ensures Consistent({})
      ensures pending == FileAll(old(pending), a, Below(old(queue)[a], end))
      ensures queue == old(queue)[a := Forward(old(queue)[a], end)]
      ensures pendingNonce == if first < end then old(pendingNonce)[a := end] else old(pendingNonce)
    {
      hide Split, SlotSum, KeyedByHash, Below, Forward, FileAll, Txs, Interval, Waiting;
      var run := Below(queue[a], end);
      ghost var limbo := Txs(run);
      TakeRun(pending, queue, all.txs, a, end);
      queue := queue[a := Forward(queue[a], end)];
      RunBounds(pending, a, run, first, end, limbo);
      for n := first to end
        invariant Consistent(limbo - Txs(Below(run, n)))
        invariant pending == FileAll(old(pending), a, Below(run, n))
        invariant queue == old(queue)[a := Forward(old(queue)[a], end)]
        invariant pendingNonce == if first < n then old(pendingNonce)[a := n] else old(pendingNonce)
      {
        RunStep(old(pending), a, run, first, end, n, limbo);
        PromoteTx(run[n], limbo - Txs(Below(run, n)));
      }
    }

    /** Promotes the ready run of a screened queue list. */
    method PromoteReady(a: Address)
      requires Consistent({}) && a in queue && forall n :: n in queue[a] ==> StateNonce(state.nonces, a) <= n
      modifies this`pending, this`queue, this`beats, this`pendingNonce
      ensures Consistent({})
      ensures var m, next := old(queue)[a], old(PendingNonce(a));
              && a in queue && queue == old(queue)[a := AfterReady(m, next, Floor())]
              && pending == (if m == map[] then old(pending)
                             else FileAll(old(pending), a, Below(m, ReadyEnd(m, next, Floor()))))
              && PendingNonce(a) == (if m == map[] || Below(m, ReadyEnd(m, next, Floor())) == map[] then next
                                     else ReadyEnd(m, next, Floor()))
      ensures SameElsewhere(state.nonces, old(pendingNonce), pendingNonce, a)
    {
      hide Split, SlotSum, KeyedByHash, Below, Forward, FileAll, Interval, ReadyEnd;
      var m := queue[a];
      var next := GetPendingNonce(a);
      if m == map[] {
        assert queue[a := m] == queue;
        return;
      }
      var first, end := MinKey(m.Keys), ReadyEnd(m, next, Floor());
      ReadyIsRun(m, next, Floor());
      PromoteRun(a, first, end);
      RunIsEmpty(m, first, end);
    }

    /** Drops outdated and unpayable transactions from a queued list. */
    method Screen(a: Address)
      requires Valid() && a in queue
      modifies this`queue, all, priced
      ensures Valid()
      ensures queue == old(queue)[a := Screened(old(queue)[a], StateNonce(state.nonces, a), DropTest(state, marked))]
    {
      hide Split, SlotSum, KeyedByHash, Covers, DropTest;
      PruneQueue(a, Forward(queue[a], StateNonce(state.nonces, a)));
      PruneQueue(a, Filter(queue[a], DropTest(state, marked)));
    }

    /**
     Promotes what has become executable for one account: the longest consecutive
     payable run of the screened queue. Keeps at most the allowed number queued.
     */
    method PromoteAccount(a: Address)
      requires Valid()
      modifies this`pending, this`queue, this`beats, this`pendingNonce, all, priced
      ensures Valid()
      ensures a !in old(queue) ==>
                pending == old(pending) && queue == old(queue) && pendingNonce == old(pendingNonce)
      ensures a in old(queue) ==>
                var m := Screened(old(queue)[a], StateNonce(state.nonces, a), DropTest(state, marked));
                var next := old(PendingNonce(a));
                var rest := AfterReady(m, next, Floor());
                && pending == (if m == map[] then old(pending)
                               else FileAll(old(pending), a, Below(m, ReadyEnd(m, next, Floor()))))
                && queue == SetList(old(queue), a, if a in locals then rest else Cap(rest, config.nonExecSlotsAccount))
      ensures Share(a) ==
                Promoted(old(Share(a)), StateNonce(state.nonces, a), DropTest(state, marked), Floor(), QueueCap(a))
      ensures SameBut(state.nonces, old(View()), View(), a)
    {
      hide Split, SlotSum, KeyedByHash, Covers, DropTest, FileAll, AfterReady, ReadyEnd, Below, Screened, SetList;
      hide Promoted, SameBut;
      if a !in queue {
        NothingToPromote(Share(a), StateNonce(state.nonces, a), DropTest(state, marked), Floor(), QueueCap(a));
        NothingElse(state.nonces, View(), a);
        return;
      }
      ghost var m := Screened(queue[a], StateNonce(state.nonces, a), DropTest(state, marked));
      ScreenedPart(queue[a], StateNonce(state.nonces, a), DropTest(state, marked));
      Screen(a);
      assert queue[a] == m;
      PromoteReady(a);
      assert queue == old(queue)[a := queue[a]];
      SetListAgain(old(queue), a, queue[a],
                   if a in locals then queue[a] else Cap(queue[a], config.nonExecSlotsAccount));
      TrimQueue(a);
      PromotedShare(state.nonces, old(View()), View(), a, DropTest(state, marked), Floor(), QueueCap(a));
    }

    /** Caps a remote account's queue and forgets an empty one. */
    method TrimQueue(a: Address)
      requires Valid() && a in queue
      modifies this`queue, all, priced
      ensures Valid() && Submap(Of(queue, a), old(queue)[a])
      ensures queue == SetList(old(queue), a, if a in locals then old(queue)[a]
                                              else Cap(old(queue)[a], config.nonExecSlotsAccount))
    {
      hide Split, SlotSum, KeyedByHash, Covers, Cap;
      if a !in locals {
        CapKeepsLowest(queue[a], config.nonExecSlotsAccount);
        PruneQueue(a, Cap(queue[a], config.nonExecSlotsAccount));
      }
      if queue[a] == map[] {
        ForgetQueued(pending, queue, all.txs, {}, a);
        queue := queue - {a};
      }
    }
  }

  lemma {:induction false} NothingAdded(m: Lists, a: Address, n: nat)
    ensures Shrunk(m, m) && (a in m ==> Shrunk(m, SetList(m, a, Below(m[a], n))))
  {
  }

  lemma {:induction false} FewerQueued(state: NonceMap, was: Order, now: Order, a: Address, n: nat)
    requires Has(was.queue, a, n) && now == was.(queue := SetList(was.queue, a, was.queue[a] - {n}))
    ensures AllCut(state, was, now) && Keeps(state, was, now)
  {
    NoneCut(state, was, now);
    forall b ensures Of(now.queue, b).Keys <= Of(was.queue, b).Keys {
      OfSetList(was.queue, a, was.queue[a] - {n}, b);
    }
    AllCutKeeps(state, was, now);
  }

  /** A live transaction is the one its hash names, pending at its own nonce only; any other is not pending. */
  lemma {:induction false} TakesOut(state: NonceMap, o: Order, txs: Lookup, hash: TxHash)
    requires Split(o.pending, o.queue, txs, {})
    ensures WellFiled(o.pending) && (hash in txs ==> txs[hash] == hash.tx)
    ensures hash in txs && Has(o.pending, hash.tx.sender, hash.tx.nonce) ==> Holds(o.pending, hash.tx)
    ensures !(hash in txs && Has(o.pending, hash.tx.sender, hash.tx.nonce)) ==> AllCutOut(state, o, o, [hash.tx])
  {
    hide AllCutOut;
    if hash in txs {
      assert txs[hash].Hash() == hash;
      assert Live(txs, hash.tx);
    }
    if !(hash in txs && Has(o.pending, hash.tx.sender, hash.tx.nonce)) {
      forall a, k | Has(o.pending, a, k) ensures o.pending[a][k] !in [hash.tx] {
        var t := o.pending[a][k];
        assert Holds(o.pending, t) && Live(txs, t);
      }
      NoneCutOut(state, o, o, [hash.tx]);
    }
  }

  lemma {:induction false} SameCutOut(state: NonceMap, was: Order, now: Order, gone: seq<Tx>)
    requires AllCutOut(state, was, was, gone) && now.pending == was.pending && now.known == was.known
    ensures AllCutOut(state, was, now, gone)
  {
    assert forall a :: CutOut(Look(state, was, a), Look(state, was, a), StateNonce(state, a), gone);
  }

  lemma {:induction false} OneCutOut(state: NonceMap, was: Order, now: Order, tx: Tx)
    requires WellFiled(was.pending) && Holds(was.pending, tx)
    requires now.pending == SetList(was.pending, tx.sender, Below(was.pending[tx.sender], tx.nonce))
    requires SameElsewhere(state, was.known, now.known, tx.sender)
    requires NextNonce(state, now.known, tx.sender) ==
               Lowered(StateNonce(state, tx.sender), NextNonce(state, was.known, tx.sender), tx.nonce)
    ensures AllCutOut(state, was, now, [tx])
  {
    forall a ensures HeldBy(Of(was.pending, a), [tx]) == if a == tx.sender then {tx.nonce} else {} {
      assert forall k :: k in Of(was.pending, a) ==> Has(was.pending, a, k);
    }
    KeyIsMin({tx.nonce}, tx.nonce);
    forall a ensures CutOut(Look(state, was, a), Look(state, now, a), StateNonce(state, a), [tx]) {
      OfSetList(was.pending, tx.sender, Below(was.pending[tx.sender], tx.nonce), a);
    }
  }

  lemma {:induction false} CutAndQueued(state: NonceMap, was: Order, now: Order, a: Address, n: nat)
    requires Has(was.pending, a, n)
    requires now.pending == SetList(was.pending, a, Below(was.pending[a], n))
    requires now.queue == FileAll(was.queue, a, Above(was.pending[a], n))
    requires SameElsewhere(state, was.known, now.known, a)
    requires NextNonce(state, now.known, a) == Lowered(StateNonce(state, a), NextNonce(state, was.known, a), n)
    ensures AllCut(state, was, now) && Keeps(state, was, now)
  {
    var x, y, k := Look(state, was, a), Look(state, now, a), StateNonce(state, a);
    OfSetList(was.pending, a, Below(was.pending[a], n), a);
    assert y.queue == x.queue + Above(x.pending, n);
    assert CutBy(x, y, k, Some(n));
    forall b | b != a ensures Look(state, now, b) == Look(state, was, b) {
      OfSetList(was.pending, a, Below(was.pending[a], n), b);
    }
    OneCut(state, was, now, a, n);
    CutToQueue(x, y, k, n);
    CutKeepsRun(x, y, k);
    KeepsBut(state, was, now, a);
  }

  lemma {:induction false} NothingToPromote(x: Account, n: nat, drop: Tx -> bool, floor: Option<nat>, cap: Option<nat>)
    requires x.queue == map[]
    ensures Promoted(x, n, drop, floor, cap) == x
  {
    assert Screened(x.queue, n, drop) == map[];
  }

  lemma {:induction false} NothingElse(state: NonceMap, o: Order, a: Address)
    ensures SameBut(state, o, o, a)
  {
  }

  /** The promotion of one account in terms of the maps and in terms of its share. */
  lemma {:induction false} PromotedShare(state: NonceMap, was: Order, now: Order, a: Address, drop: Tx -> bool,
                                         floor: Option<nat>, cap: Option<nat>)
    requires a in was.queue && SameElsewhere(state, was.known, now.known, a)
    requires var m, next := Screened(was.queue[a], StateNonce(state, a), drop), NextNonce(state, was.known, a);
             var rest := AfterReady(m, next, floor);
             && now.pending == (if m == map[] then was.pending
                                else FileAll(was.pending, a, Below(m, ReadyEnd(m, next, floor))))
             && now.queue == SetList(was.queue, a, if cap.None? then rest else Cap(rest, cap.value))
             && NextNonce(state, now.known, a) ==
                  (if m == map[] || Below(m, ReadyEnd(m, next, floor)) == map[] then next else ReadyEnd(m, next, floor))
    ensures Look(state, now, a) == Promoted(Look(state, was, a), StateNonce(state, a), drop, floor, cap)
    ensures SameBut(state, was, now, a)
  {
    hide Screened, ReadyEnd, Below, Forward;
    var m, next := Screened(was.queue[a], StateNonce(state, a), drop), NextNonce(state, was.known, a);
    var rest := AfterReady(m, next, floor);
    var left := if cap.None? then rest else Cap(rest, cap.value);
    if m != map[] {
      ReadyIsRun(m, next, floor);
      FileShare(was.pending, a, Below(m, ReadyEnd(m, next, floor)));
    }
    forall b ensures Of(now.queue, b) == if b == a then left else Of(was.queue, b) {
      OfSetList(was.queue, a, left, b);
    }
  }

  lemma {:induction false} FileShare(m: Lists, a: Address, moved: TxMap)
    ensures Of(FileAll(m, a, moved), a) == Of(m, a) + moved
    ensures forall b :: b != a ==> Of(FileAll(m, a, moved), b) == Of(m, b)
  {
    assert Of(m, a) + map[] == Of(m, a);
  }

  lemma {:induction false} SetListAgain(m: Lists, a: Address, was: TxMap, l: TxMap)
    ensures SetList(m[a := was], a, l) == SetList(m, a, l)
  {
    assert m[a := was] - {a} == m - {a};
  }

  lemma {:induction false} ScreenedPart(m: TxMap, nonce: nat, drop: Tx -> bool)
    ensures forall n :: n in Screened(m, nonce, drop) ==> n in m && nonce <= n
  {
  }

  /** The low end of a queued list can be taken out. */
  lemma {:induction false} TakeRun(pending: Lists, queue: Lists, txs: Lookup, a: Address, end: nat)
    requires Split(pending, queue, txs, {}) && a in queue
    ensures var run := Below(queue[a], end);
            && Split(pending, queue[a := Forward(queue[a], end)], txs, Txs(run))
            && Waiting(run, a, Txs(run))
  {
    var run, kept := Below(queue[a], end), Forward(queue[a], end);
    TakeQueued(pending, queue, txs, {}, a, kept);
    assert forall n :: n in run ==> Has(queue, a, n);
    assert {} + Gone(queue[a], kept) == Txs(run) by {
      forall t | t in Txs(run) ensures t in Gone(queue[a], kept) {
        var n :| n in run && run[n] == t;
        assert queue[a][n] == t && n !in kept;
      }
      forall t | t in Gone(queue[a], kept) ensures t in Txs(run) {
        var n :| n in queue[a] && n !in kept && queue[a][n] == t;
        assert run[n] == t;
      }
    }
  }

  lemma {:induction false} RunIsEmpty(m: TxMap, first: nat, end: nat)
    requires Interval(Below(m, end), first, end)
    ensures Below(m, end) == map[] <==> first == end
  {
    if first < end { assert first in Below(m, end); }
  }

  lemma {:induction false} RunBounds(pending: Lists, a: Address, run: TxMap, first: nat, end: nat, limbo: set<Tx>)
    requires Interval(run, first, end) && limbo == Txs(run)
    ensures first <= end && Below(run, end) == run && FileAll(pending, a, Below(run, first)) == pending
    ensures limbo - Txs(Below(run, first)) == limbo && limbo - Txs(Below(run, end)) == {}
  {
    assert Below(run, first) == map[];
    assert Txs(map[]) == {};
  }

  lemma {:induction false} RunStep(pending: Lists, a: Address, run: TxMap, first: nat, end: nat, n: nat, limbo: set<Tx>)
    requires Interval(run, first, end) && first <= n < end && Waiting(run, a, limbo)
    ensures n in run && run[n].sender == a && run[n].nonce == n && run[n] in limbo - Txs(Below(run, n))
    ensures limbo - Txs(Below(run, n)) - {run[n]} == limbo - Txs(Below(run, n + 1))
    ensures File(FileAll(pending, a, Below(run, n)), run[n]) == FileAll(pending, a, Below(run, n + 1))
  {
    RequeueStep(pending, a, run, Below(run, n), n, limbo);
    assert Below(run, n)[n := run[n]] == Below(run, n + 1);
  }

  lemma {:induction false} RequeueStep(queue: Lists, a: Address, moved: TxMap, done: TxMap, n: nat, limbo: set<Tx>)
    requires Waiting(moved, a, limbo) && Submap(done, moved) && n in moved && n !in done
    ensures moved[n] in limbo - Txs(done)
    ensures limbo - Txs(done) - {moved[n]} == limbo - Txs(done[n := moved[n]])
    ensures File(FileAll(queue, a, done), moved[n]) == FileAll(queue, a, done[n := moved[n]])
  {
    var more := done[n := moved[n]];
    assert Txs(more) == Txs(done) + {moved[n]} by {
      forall t | t in Txs(done) + {moved[n]} ensures t in Txs(more) {
        if t in Txs(done) {
          var k :| k in done && done[k] == t;
          assert more[k] == t;
        } else {
          assert more[n] == t;
        }
      }
    }
    assert Of(FileAll(queue, a, done), a) == Of(queue, a) + done;
    assert (Of(queue, a) + done)[n := moved[n]] == Of(queue, a) + more;
  }
}
