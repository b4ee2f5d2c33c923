/**
 Adding to the pool: validation, making room in a full pool, replacing a
 pending transaction or queueing a new one.
 */
module PoolAdd {
  import opened Types
  import opened TxLists
  import opened Priced
  import opened Partition
  import opened Nonces
  import opened Accounts
  import opened Fees
  import opened TxPools
  import Discards

  datatype AddError =
    | KnownTransaction
    | InvalidPrice
    | OversizedData
    | NegativeValue
    | Refused
    | NonceTooLow
    | Funds(error: FundsError)
    | PoolFull
    | NotMissingNonce
    | Underpriced
    | NonceExists

  /** `Panicked` is the slice allocation with a negative capacity in `Discard`. */
  datatype AddResult = Added(replaced: bool) | Rejected(error: AddError) | Panicked

  /** Validation on arrival. */
  function ValidateTx(tx: Tx, state: ChainState, magma: bool, gasPrice: nat): Option<AddError> {
    if (if magma then gasPrice > tx.price else gasPrice != tx.price) then Some(InvalidPrice)
    else if tx.size > MAX_TX_DATA_SIZE then Some(OversizedData)
    else if tx.value < 0 then Some(NegativeValue)
    else if StateNonce(state.nonces, tx.sender) > tx.nonce then Some(NonceTooLow)
    else if CheckFunds(state.balances, tx).Some? then Some(Funds(CheckFunds(state.balances, tx).value))
    else if tx.Hash() in state.refused then Some(Refused)
    else None
  }

  /**
   What was accepted is well priced and, in the state it was accepted in, not dropped by the filter's balance test.
   */
  lemma {:induction false} AcceptedIsPayable(tx: Tx, state: ChainState, magma: bool, gasPrice: nat)
    requires ValidateTx(tx, state, magma, gasPrice).None?
    ensures WellPriced(tx) && !Unpayable(state.balances, tx) && NumSlots(tx) <= 4
  {
    FilterAgreesWithCheck(state.balances, tx);
  }

  // ---------- Making room ----------

  /** The queued transaction a full pool gives up for a missing lower nonce. */
  function MaxQueued(m: TxMap, nonce: nat): Option<Tx> {
    if nonce in m || m == map[] || MaxKey(m.Keys) <= nonce then None
    else Some(m[MaxKey(m.Keys)])
  }

  /** The slots a full pool asks `Discard` to free once `given` has been removed. */
  function DiscardRequest(slots: int, capacity: nat, given: Tx, tx: Tx): int {
    slots - NumSlots(given) - capacity + NumSlots(tx)
  }

  /** What the pool judges a newcomer by. */
  datatype Rules = Rules(state: ChainState, magma: bool, gasPrice: nat, capacity: nat)

  /** What adding reads and changes. */
  datatype Seen = Seen(txs: Lookup, order: Order, locals: set<Address>)

  ghost function RulesOf(pool: TxPool): Rules
    reads pool`state, pool`magma, pool`gasPrice
  {
    Rules(pool.state, pool.magma, pool.gasPrice, pool.config.Capacity())
  }

  ghost function SeenOf(pool: TxPool): Seen
    reads pool`pending, pool`queue, pool`pendingNonce, pool`locals, pool.all
  {
    Seen(pool.all.txs, pool.View(), pool.locals)
  }

  /** Why a transaction is refused before anything is changed. */
  ghost function RefusedBecause(rules: Rules, s: Seen, tx: Tx): Option<AddError> {
    var invalid := ValidateTx(tx, rules.state, rules.magma, rules.gasPrice);
    if tx.Hash() in s.txs then Some(KnownTransaction)
    else if invalid.Some? then invalid
    else if SlotSum(s.txs) + NumSlots(tx) <= rules.capacity then None
    else if tx.sender !in s.order.queue then Some(PoolFull)
    else if MaxQueued(s.order.queue[tx.sender], tx.nonce).None? then Some(NotMissingNonce)
    else None
  }

  /** Whether adding takes the path of a full pool that gives something up. */
  ghost predicate MakesRoom(rules: Rules, s: Seen, tx: Tx) {
    && RefusedBecause(rules, s, tx).None? && SlotSum(s.txs) + NumSlots(tx) > rules.capacity
  }

  /** The transaction a full pool gives up first. */
  ghost function GivenUp(rules: Rules, s: Seen, tx: Tx): Tx
    requires MakesRoom(rules, s, tx)
  {
    MaxQueued(s.order.queue[tx.sender], tx.nonce).value
  }

  /** A newcomer from a remote sender that pays no more than anything in a pool that is not empty. */
  ghost predicate TooCheap(txs: Lookup, tx: Tx, locals: set<Address>) {
    tx.sender !in locals && txs != map[] && forall h :: h in txs ==> tx.price <= h.tx.price
  }

  /** The slots it then asks for. */
  ghost function Request(rules: Rules, s: Seen, tx: Tx): int
    requires MakesRoom(rules, s, tx)
  {
    DiscardRequest(SlotSum(s.txs), rules.capacity, GivenUp(rules, s, tx), tx)
  }

  /** How making room fails, if it does, once the sender's highest queued transaction is given up. */
  ghost function RoomFailure(rules: Rules, s: Seen, tx: Tx, local: bool): Option<AddResult>
    requires MakesRoom(rules, s, tx)
  {
    var given := GivenUp(rules, s, tx);
    if !local && TooCheap(s.txs - {given.Hash()}, tx, s.locals) then Some(Rejected(Underpriced))
    else if Request(rules, s, tx) < 0 then Some(Panicked)
    else None
  }

  /** What is discarded is live and remote, and no live remote transaction that stays is cheaper. */
  ghost predicate CheapestFirst(txs: Lookup, gone: seq<Tx>, locals: set<Address>) {
    && (forall d :: d in gone ==> Live(txs, d) && d.sender !in locals)
    && (forall d, t :: d in gone && t !in gone && Live(txs, t) && t.sender !in locals ==> PriceLe(d, t))
  }

  /**
   Room was made: besides what was given up exactly `gone` has left the pool, remote and none dearer
   than a remote one that stays. Each pending list was cut at the lowest nonce that is gone, and
   what was above it is queued.
   */
  ghost predicate RoomMade(nonces: NonceMap, s: Seen, mid: Seen, given: Tx, gone: seq<Tx>) {
    && (forall h :: h in mid.txs <==> h in s.txs && h != given.Hash() && h.tx !in gone)
    && CheapestFirst(s.txs - {given.Hash()}, gone, s.locals) && mid.locals == s.locals
    && OnlyCheapestGone(s.txs, mid.txs, given, s.locals)
    && Split(mid.order.pending, mid.order.queue, mid.txs, {}) && Shrunk(s.order.pending, mid.order.pending)
    && AllCutOut(nonces, s.order, mid.order, gone)
    && AllCut(nonces, s.order, mid.order) && Keeps(nonces, s.order, mid.order)
  }

  /** As many entries are discarded as it takes, and no more; fewer only if nothing remote is left. */
  ghost predicate JustEnough(now: Lookup, gone: seq<Tx>, request: int, locals: set<Address>) {
    && (gone != [] ==> SeqSlots(gone[..|gone| - 1]) < request)
    && (SeqSlots(gone) >= request || forall h :: h in now ==> h.tx.sender in locals)
  }

  /** Removes what `Discard` chose. */
  method RemoveDropped(pool: TxPool, drop: seq<Tx>)
    requires pool.Consistent({})
    requires forall t :: Live(pool.all.txs, t) && t !in drop ==> t in pool.priced.items
    modifies pool`pending, pool`queue, pool`beats, pool`pendingNonce, pool.all, pool.priced
    ensures pool.Valid() && |pool.all.txs| <= |old(pool.all.txs)|
    ensures forall h :: h in pool.all.txs <==> h in old(pool.all.txs) && h.tx !in drop
    ensures AllCut(pool.state.nonces, old(pool.View()), pool.View())
            && Keeps(pool.state.nonces, old(pool.View()), pool.View())
    ensures Shrunk(old(pool.pending), pool.pending)
    ensures AllCutOut(pool.state.nonces, old(pool.View()), pool.View(), drop)
  {
    hide Split, SlotSum, AllCut, AllCutOut, Keeps, Shrunk, Below, Above, FileAll, SetList;
    NothingMoved(pool.state.nonces, pool.View());
    NoneCutOut(pool.state.nonces, pool.View(), pool.View(), []);
    for i := 0 to |drop|
      invariant pool.Consistent({}) && |pool.all.txs| <= |old(pool.all.txs)|
      invariant forall h :: h in pool.all.txs <==> h in old(pool.all.txs) && h.tx !in drop[..i]
      invariant forall t :: Live(pool.all.txs, t) && t !in drop[i..] ==> t in pool.priced.items
      invariant AllCut(pool.state.nonces, old(pool.View()), pool.View())
      invariant Keeps(pool.state.nonces, old(pool.View()), pool.View()) && Shrunk(old(pool.pending), pool.pending)
      invariant AllCutOut(pool.state.nonces, old(pool.View()), pool.View(), drop[..i])
    {
      ghost var before, mid := pool.all.txs, pool.View();
      pool.RemoveTx(drop[i].Hash(), false);
      MovedAgain(pool.state.nonces, old(pool.View()), mid, pool.View());
      AllCutOutAgain(pool.state.nonces, old(pool.View()), mid, pool.View(), drop[..i], drop[i]);
      assert drop[..i + 1] == drop[..i] + [drop[i]];
      forall t | Live(pool.all.txs, t) && t !in drop[i + 1..] ensures t in pool.priced.items {
        assert Live(before, t) && t != drop[i];
        assert drop[i..] == [drop[i]] + drop[i + 1..];
      }
    }
    assert drop[..|drop|] == drop;
  }

  lemma {:induction false} NothingMoved(nonces: NonceMap, o: Order)
    ensures AllCut(nonces, o, o) && Keeps(nonces, o, o) && Shrunk(o.pending, o.pending)
  {
    NoneCut(nonces, o, o);
  }

  lemma {:induction false} MovedAgain(nonces: NonceMap, was: Order, mid: Order, now: Order)
    requires AllCut(nonces, was, mid) && Keeps(nonces, was, mid) && Shrunk(was.pending, mid.pending)
    requires AllCut(nonces, mid, now) && Keeps(nonces, mid, now) && Shrunk(mid.pending, now.pending)
    ensures AllCut(nonces, was, now) && Keeps(nonces, was, now) && Shrunk(was.pending, now.pending)
  {
    hide AllCut, Keeps, Shrunk;
    AllCutAgain(nonces, was, mid, now);
    KeepsAgain(nonces, was, mid, now);
    ShrunkAgain(was.pending, mid.pending, now.pending);
  }

  /**
   Besides `given`, only remote transactions have left the pool, and none that is dearer than
   a remote one still there.
   */
  ghost predicate OnlyCheapestGone(was: Lookup, now: Lookup, given: Tx, locals: set<Address>) {
    && given.Hash() !in now && now.Keys <= was.Keys
    && forall h :: h in was && h !in now && h != given.Hash() ==>
         && h.tx.sender !in locals
         && forall g :: g in now && g.tx.sender !in locals ==> PriceLe(h.tx, g.tx)
  }

  lemma {:induction false} MaxQueuedIsLive(pool: TxPool, a: Address, nonce: nat)
    requires pool.Valid() && a in pool.queue && MaxQueued(pool.queue[a], nonce).Some?
    ensures var t := MaxQueued(pool.queue[a], nonce).value;
            && t.Hash() in pool.all.txs && pool.all.txs[t.Hash()] == t && pool.all.slots >= NumSlots(t)
            && !Has(pool.pending, t.sender, t.nonce)
  {
    var t := MaxQueued(pool.queue[a], nonce).value;
    assert Has(pool.queue, a, MaxKey(pool.queue[a].Keys));
    assert Holds(pool.queue, t);
    assert Live(pool.all.txs, t);
    SlotSumWithout(pool.all.txs, t.Hash());
  }

  /** Discards the cheapest remote transactions until the request is met. */
  method DiscardCheapest(pool: TxPool, request: int) returns (panicked: bool, ghost gone: seq<Tx>)
    requires pool.Valid()
    modifies pool`pending, pool`queue, pool`beats, pool`pendingNonce, pool.all, pool.priced
    ensures pool.Valid() && (panicked <==> request < 0)
    ensures panicked ==> SeenOf(pool) == old(SeenOf(pool)) && gone == []
    ensures forall h :: h in pool.all.txs <==> h in old(pool.all.txs) && h.tx !in gone
    ensures |pool.all.txs| <= |old(pool.all.txs)| && CheapestFirst(old(pool.all.txs), gone, pool.locals)
    ensures !panicked ==> JustEnough(pool.all.txs, gone, request, pool.locals)
    ensures AllCut(pool.state.nonces, old(pool.View()), pool.View())
    ensures Keeps(pool.state.nonces, old(pool.View()), pool.View()) && Shrunk(old(pool.pending), pool.pending)
    ensures AllCutOut(pool.state.nonces, old(pool.View()), pool.View(), gone)
  {
    hide Split, SlotSum, KeyedByHash, Covers, AllCut, AllCutOut, Keeps, Shrunk, EntriesShared, JustEnough, SeqSlots;
    hide PriceLe;
    var drop;
    panicked, drop := pool.priced.Discard(request, pool.locals);
    gone := drop;
    if panicked {
      NothingMoved(pool.state.nonces, pool.View());
      NothingCutOut(pool.state.nonces, pool.View(), pool.View());
      return;
    }
    ghost var kept := pool.all.txs;
    RemoveDropped(pool, drop);
    StoppedInTime(kept, pool.all.txs, drop, request, pool.locals);
  }

  /** Gives up the sender's highest queued transaction. */
  method GiveUp(pool: TxPool, tx: Tx) returns (given: Tx)
    requires pool.Valid() && MakesRoom(RulesOf(pool), SeenOf(pool), tx)
    modifies pool`pending, pool`queue, pool`beats, pool`pendingNonce, pool.all, pool.priced
    ensures pool.Valid() && given == old(GivenUp(RulesOf(pool), SeenOf(pool), tx))
    ensures pool.all.txs == old(pool.all.txs) - {given.Hash()} && |pool.all.txs| < |old(pool.all.txs)|
    ensures pool.all.slots == old(SlotSum(pool.all.txs)) - NumSlots(given) && tx.Hash() !in pool.all.txs
    ensures AllCut(pool.state.nonces, old(pool.View()), pool.View())
    ensures Keeps(pool.state.nonces, old(pool.View()), pool.View()) && Shrunk(old(pool.pending), pool.pending)
    ensures pool.pending == old(pool.pending) && pool.pendingNonce == old(pool.pendingNonce)
  {
    hide Split, SlotSum, KeyedByHash, Covers, AllCut, AllCutOut, Keeps, Shrunk, Below, Above, FileAll, SetList;
    hide ValidateTx;
    hide NumSlots;
    given := MaxQueued(pool.queue[tx.sender], tx.nonce).value;
    MaxQueuedIsLive(pool, tx.sender, tx.nonce);
    SlotSumWithout(pool.all.txs, given.Hash());
    pool.RemoveTx(given.Hash(), true);
  }

  /**
   Makes room in a full pool: gives up the sender's highest queued transaction, refuses
   an underpriced newcomer and discards the cheapest remote transactions.
   */
  method MakeRoom(pool: TxPool, tx: Tx, local: bool) returns (failed: Option<AddResult>, ghost gone: seq<Tx>)
    requires pool.Valid() && MakesRoom(RulesOf(pool), SeenOf(pool), tx)
    modifies pool`pending, pool`queue, pool`beats, pool`pendingNonce, pool.all, pool.priced
    ensures pool.Valid() && |pool.all.txs| < |old(pool.all.txs)| && tx.Hash() !in pool.all.txs
    ensures failed == old(RoomFailure(RulesOf(pool), SeenOf(pool), tx, local))
    ensures RoomMade(pool.state.nonces, old(SeenOf(pool)), SeenOf(pool),
                     old(GivenUp(RulesOf(pool), SeenOf(pool), tx)), gone)
    ensures if failed.Some? then gone == []
            else JustEnough(pool.all.txs, gone, old(Request(RulesOf(pool), SeenOf(pool), tx)), pool.locals)
  {
    hide Split, SlotSum, KeyedByHash, Covers, AllCut, AllCutOut, Keeps, Shrunk, OnlyCheapestGone, NumSlots;
    hide MakesRoom, GivenUp, RefusedBecause, JustEnough, CheapestFirst;
    gone := [];
    var given := GiveUp(pool, tx);
    CheapestGone(old(pool.all.txs), pool.all.txs, pool.all.txs, given, [], pool.locals);
    NoneFirst(pool.all.txs, pool.locals);
    NothingCutOut(pool.state.nonces, old(pool.View()), pool.View());
    if !local {
      var under := pool.priced.Underpriced(tx, pool.locals);
      LiveByHash(pool.all.txs);
      if under {
        return Some(Rejected(Underpriced)), [];
      }
    }
    ghost var kept, mid := pool.all.txs, pool.View();
    var panicked;
    panicked, gone := DiscardCheapest(pool, pool.all.slots - pool.config.Capacity() + NumSlots(tx));
    if panicked {
      return Some(Panicked), [];
    }
    CheapestGone(old(pool.all.txs), kept, pool.all.txs, given, gone, pool.locals);
    MovedAgain(pool.state.nonces, old(pool.View()), mid, pool.View());
    CutOutFrom(pool.state.nonces, old(pool.View()), mid, pool.View(), gone);
    failed := None;
  }

  lemma {:induction false} NoneFirst(txs: Lookup, locals: set<Address>)
    ensures CheapestFirst(txs, [], locals)
  {
  }

  lemma {:induction false} NothingCutOut(nonces: NonceMap, was: Order, now: Order)
    requires now.pending == was.pending && now.known == was.known
    ensures AllCutOut(nonces, was, now, [])
  {
    NoneCutOut(nonces, was, now, []);
  }

  lemma {:induction false} CutOutFrom(nonces: NonceMap, was: Order, mid: Order, now: Order, gone: seq<Tx>)
    requires mid.pending == was.pending && mid.known == was.known && AllCutOut(nonces, mid, now, gone)
    ensures AllCutOut(nonces, was, now, gone)
  {
    assert forall a :: CutOut(Look(nonces, mid, a), Look(nonces, now, a), StateNonce(nonces, a), gone);
  }

  lemma {:induction false} StoppedInTime(kept: Lookup, now: Lookup, gone: seq<Tx>, request: int, locals: set<Address>)
    requires KeyedByHash(kept) && forall h :: h in now <==> h in kept && h.tx !in gone
    requires gone != [] ==> SeqSlots(gone[..|gone| - 1]) < request
    requires SeqSlots(gone) >= request || forall t :: Live(kept, t) && t.sender !in locals ==> t in gone
    ensures JustEnough(now, gone, request, locals)
  {
    hide SeqSlots;
    LiveByHash(kept);
  }

  lemma {:induction false} CheapestGone(was: Lookup, kept: Lookup, now: Lookup, given: Tx, drop: seq<Tx>,
                                        locals: set<Address>)
    requires kept == was - {given.Hash()} && KeyedByHash(kept)
    requires forall h :: h in now <==> h in kept && h.tx !in drop
    requires drop == [] || CheapestFirst(kept, drop, locals)
    ensures OnlyCheapestGone(was, now, given, locals)
  {
    LiveByHash(kept);
    hide KeyedByHash, PriceLe;
  }

  lemma {:induction false} LiveByHash(txs: Lookup)
    requires KeyedByHash(txs)
    ensures forall h :: h in txs ==> Live(txs, h.tx) && h.tx.Hash() == h
  {
    forall h | h in txs ensures Live(txs, h.tx) && h.tx.Hash() == h {
      assert txs[h].Hash() == h;
    }
  }

  // ---------- Adding ----------

  /** Puts a new transaction in the place of the pending one at its nonce. */
  method ReplacePendingTx(pool: TxPool, tx: Tx)
    requires pool.Valid() && tx.Hash() !in pool.all.txs && Has(pool.pending, tx.sender, tx.nonce)
    modifies pool`pending, pool.all, pool.priced
    ensures pool.Valid() && pool.pending == File(old(pool.pending), tx)
    ensures pool.all.txs == (old(pool.all.txs) - {old(pool.pending)[tx.sender][tx.nonce].Hash()})[tx.Hash() := tx]
  {
    hide Split, SlotSum, KeyedByHash, Covers;
    var prior := pool.pending[tx.sender][tx.nonce];
    ReplacePending(pool.pending, pool.queue, pool.all.txs, {}, tx);
    CoversWithout(pool.priced.items, pool.all.txs, prior.Hash());
    pool.pending := File(pool.pending, tx);
    pool.all.Remove(prior.Hash());
    pool.priced.Removed();
    pool.AddToLookup(tx);
  }

  /** Queues a new transaction whose nonce is not pending. */
  method QueueNew(pool: TxPool, tx: Tx) returns (inserted: bool, replaced: bool)
    requires pool.Valid() && tx.Hash() !in pool.all.txs && |pool.all.txs| < pool.config.Capacity()
    requires !Has(pool.pending, tx.sender, tx.nonce)
    modifies pool`queue, pool`beats, pool.all, pool.priced
    ensures pool.Valid()
    ensures inserted <==> (Has(old(pool.queue), tx.sender, tx.nonce) ==>
                             Replaces(tx, old(pool.queue)[tx.sender][tx.nonce], pool.magma))
    ensures replaced <==> inserted && Has(old(pool.queue), tx.sender, tx.nonce)
    ensures pool.queue == if inserted then File(old(pool.queue), tx) else old(pool.queue)
    ensures pool.all.txs ==
              if !inserted then old(pool.all.txs)
              else if replaced then (old(pool.all.txs) - {old(pool.queue)[tx.sender][tx.nonce].Hash()})[tx.Hash() := tx]
              else old(pool.all.txs)[tx.Hash() := tx]
  {
    hide Split, SlotSum, KeyedByHash, Covers, File, Replaces;
    assert {} - {tx} == {};
    inserted, replaced := pool.EnqueueTx(tx, {});
  }

  method AddLocal(pool: TxPool, a: Address)
    requires pool.Valid()
    modifies pool`locals
    ensures pool.Valid() && pool.locals == old(pool.locals) + {a}
  {
    hide Split, SlotSum, KeyedByHash, Covers;
    pool.locals := pool.locals + {a};
  }

  /** The lookup once a transaction has come in, in the place of another or not. */
  function TakenIn(txs: Lookup, tx: Tx, prior: Option<Tx>): Lookup {
    (if prior.Some? then txs - {prior.value.Hash()} else txs)[tx.Hash() := tx]
  }

  /**
   Where a new transaction ends up: in the place of the pending one at its nonce if it may
   replace that, otherwise in the queue, where it may replace as well, or nowhere.
   */
  ghost predicate Placed(s: Seen, tx: Tx, magma: bool, local: bool, t: Seen, r: AddResult) {
    var o, a, n := s.order, tx.sender, tx.nonce;
    if Has(o.pending, a, n) then
      if Replaces(tx, o.pending[a][n], magma)
      then r == Added(true) && t == Seen(TakenIn(s.txs, tx, Some(o.pending[a][n])),
                                         o.(pending := File(o.pending, tx)), s.locals)
      else r == Rejected(NonceExists) && t == s
    else if Has(o.queue, a, n) && !Replaces(tx, o.queue[a][n], magma) then r == Rejected(NonceExists) && t == s
    else
      && r == Added(Has(o.queue, a, n))
      && t == Seen(TakenIn(s.txs, tx, if Has(o.queue, a, n) then Some(o.queue[a][n]) else None),
                   o.(queue := File(o.queue, tx)), if local then s.locals + {a} else s.locals)
  }

  /** Placing a validated transaction cuts nothing and keeps the order. */
  lemma {:induction false} PlacedKeeps(nonces: NonceMap, s: Seen, tx: Tx, magma: bool, local: bool, t: Seen,
                                       r: AddResult)
    requires Placed(s, tx, magma, local, t, r) && StateNonce(nonces, tx.sender) <= tx.nonce
    ensures AllCut(nonces, s.order, t.order) && Keeps(nonces, s.order, t.order)
  {
    hide Replaces, InRun, InOrder;
    forall b ensures Of(t.order.pending, b).Keys == Of(s.order.pending, b).Keys {
      if Has(s.order.pending, tx.sender, tx.nonce) && b == tx.sender {
        assert Of(File(s.order.pending, tx), b) == s.order.pending[b][tx.nonce := tx];
      }
    }
    NoneCut(nonces, s.order, t.order);
    if t.order.queue == s.order.queue {
      AllCutKeeps(nonces, s.order, t.order);
    } else {
      var x, y, n := Look(nonces, s.order, tx.sender), Look(nonces, t.order, tx.sender), StateNonce(nonces, tx.sender);
      assert tx.nonce !in x.pending;
      QueuedKeeps(x, y, n, tx);
      KeepsBut(nonces, s.order, t.order, tx.sender);
    }
  }

  /** A validated nonce that is not pending lies at or above the next one of a run. */
  lemma {:induction false} QueuedKeeps(x: Account, y: Account, n: nat, tx: Tx)
    requires y == x.(queue := x.queue[tx.nonce := tx]) && tx.nonce !in x.pending && n <= tx.nonce
    ensures (InRun(x, n) ==> InRun(y, n)) && (InOrder(x, n) ==> InOrder(y, n))
  {
  }

  /** Files a validated transaction the pool has room for. */
  method Place(pool: TxPool, tx: Tx, local: bool) returns (r: AddResult)
    requires pool.Valid() && tx.Hash() !in pool.all.txs && |pool.all.txs| < pool.config.Capacity()
    modifies pool`pending, pool`queue, pool`beats, pool`locals, pool.all, pool.priced
    ensures pool.Valid() && Placed(old(SeenOf(pool)), tx, pool.magma, local, SeenOf(pool), r)
  {
    hide TxPool.Valid, File, Replaces;
    if tx.nonce in Of(pool.pending, tx.sender) {
      if !Replaces(tx, pool.pending[tx.sender][tx.nonce], pool.magma) {
        return Rejected(NonceExists);
      }
      ReplacePendingTx(pool, tx);
      return Added(true);
    }
    var inserted, replaced := QueueNew(pool, tx);
    if !inserted {
      return Rejected(NonceExists);
    }
    if local {
      AddLocal(pool, tx.sender);
    }
    r := Added(replaced);
  }

  /** Room was made by what was given up and discarded, and then the transaction was placed. */
  ghost predicate PlacedAfterRoom(rules: Rules, s: Seen, tx: Tx, local: bool, t: Seen, r: AddResult)
    requires MakesRoom(rules, s, tx)
  {
    exists mid, gone ::
      && RoomMade(rules.state.nonces, s, mid, GivenUp(rules, s, tx), gone)
      && JustEnough(mid.txs, gone, Request(rules, s, tx), s.locals) && Placed(mid, tx, rules.magma, local, t, r)
  }

  /** What adding does, from what was seen before to what is seen after. */
  ghost predicate AddStep(rules: Rules, s: Seen, tx: Tx, local: bool, t: Seen, r: AddResult) {
    var refused := RefusedBecause(rules, s, tx);
    if refused.Some? then r == Rejected(refused.value) && t == s
    else if !MakesRoom(rules, s, tx) then Placed(s, tx, rules.magma, local, t, r)
    else
      var failure := RoomFailure(rules, s, tx, local);
      if failure.Some? then
        r == failure.value && RoomMade(rules.state.nonces, s, t, GivenUp(rules, s, tx), [])
      else PlacedAfterRoom(rules, s, tx, local, t, r)
  }

  /** Adding only ever cuts pending lists and keeps the order of every account. */
  lemma {:induction false} AddingKeeps(rules: Rules, s: Seen, tx: Tx, local: bool, t: Seen, r: AddResult)
    requires AddStep(rules, s, tx, local, t, r)
    ensures AllCut(rules.state.nonces, s.order, t.order) && Keeps(rules.state.nonces, s.order, t.order)
  {
    hide AllCut, AllCutOut, Keeps, Placed, Shrunk, OnlyCheapestGone, Split, CheckFunds, MaxQueued, TooCheap;
    hide JustEnough;
    var nonces := rules.state.nonces;
    NothingMoved(nonces, s.order);
    if RefusedBecause(rules, s, tx).None? {
      if !MakesRoom(rules, s, tx) {
        PlacedKeeps(nonces, s, tx, rules.magma, local, t, r);
      } else if RoomFailure(rules, s, tx, local).None? {
        var mid, gone :| RoomMade(nonces, s, mid, GivenUp(rules, s, tx), gone)
                         && Placed(mid, tx, rules.magma, local, t, r);
        PlacedKeeps(nonces, mid, tx, rules.magma, local, t, r);
        AllCutAgain(nonces, s.order, mid.order, t.order);
        KeepsAgain(nonces, s.order, mid.order, t.order);
      }
    }
  }

  /**
   Adds a transaction. The pool never grows past its capacity: a full one gives up a
   transaction before it takes one.
   */
  method Add(pool: TxPool, tx: Tx, local: bool) returns (r: AddResult)
    requires pool.Valid()
    modifies pool`pending, pool`queue, pool`beats, pool`pendingNonce, pool`locals, pool.all, pool.priced
    ensures pool.Valid() && AddStep(RulesOf(pool), old(SeenOf(pool)), tx, local, SeenOf(pool), r)
  {
    hide Split, SlotSum, KeyedByHash, Covers, MaxQueued, TooCheap, RoomMade, Placed, CheckFunds, JustEnough;
    if tx.Hash() in pool.all.txs {
      return Rejected(KnownTransaction);
    }
    var invalid := ValidateTx(tx, pool.state, pool.magma, pool.gasPrice);
    if invalid.Some? {
      return Rejected(invalid.value);
    }
    CountAtMostSlots(pool.all.txs);
    if pool.all.slots + NumSlots(tx) > pool.config.Capacity() {
      if tx.sender !in pool.queue {
        return Rejected(PoolFull);
      }
      if MaxQueued(pool.queue[tx.sender], tx.nonce).None? {
        return Rejected(NotMissingNonce);
      }
      var failed;
      ghost var gone;
      failed, gone := MakeRoom(pool, tx, local);
      if failed.Some? {
        return failed.value;
      }
    }
    r := Place(pool, tx, local);
  }

  /**
   Once room has been made, the nonce is refused exactly if it was pending with a transaction the
   newcomer may not replace and that was not discarded: what was given up is then lost for nothing.
   */
  lemma {:induction false} RefusedUnlessGone(rules: Rules, s: Seen, tx: Tx, local: bool, mid: Seen, gone: seq<Tx>,
                                             t: Seen, r: AddResult)
    requires Split(s.order.pending, s.order.queue, s.txs, {}) && MakesRoom(rules, s, tx)
    requires RoomMade(rules.state.nonces, s, mid, GivenUp(rules, s, tx), gone)
    requires Placed(mid, tx, rules.magma, local, t, r)
    ensures r.Added? || (r == Rejected(NonceExists) && t == mid)
    ensures r == Rejected(NonceExists) <==>
              && Has(s.order.pending, tx.sender, tx.nonce)
              && !Replaces(tx, s.order.pending[tx.sender][tx.nonce], rules.magma)
              && s.order.pending[tx.sender][tx.nonce] !in gone
  {
    hide AllCut, AllCutOut, Keeps, Shrunk, Replaces, SlotSum, OnlyCheapestGone, Split, RefusedBecause, MaxQueued;
    FreeInQueue(rules, s, tx);
    HolderStays(s, mid, tx);
    if Has(s.order.pending, tx.sender, tx.nonce) {
      HolderIsLive(rules, s, tx);
      var p := s.order.pending[tx.sender][tx.nonce];
      assert p.Hash() in mid.txs <==> p !in gone by { assert p.Hash().tx == p; }
    }
  }

  /** Room is only made for a nonce that is not queued. */
  lemma {:induction false} FreeInQueue(rules: Rules, s: Seen, tx: Tx)
    requires MakesRoom(rules, s, tx)
    ensures !Has(s.order.queue, tx.sender, tx.nonce) && tx.Hash() !in s.txs
  {
    hide SlotSum, ValidateTx;
  }

  lemma {:induction false} HolderIsLive(rules: Rules, s: Seen, tx: Tx)
    requires Split(s.order.pending, s.order.queue, s.txs, {}) && MakesRoom(rules, s, tx)
    requires Has(s.order.pending, tx.sender, tx.nonce)
    ensures var p := s.order.pending[tx.sender][tx.nonce];
            && Holds(s.order.pending, p) && Live(s.txs, p) && p.sender == tx.sender && p.nonce == tx.nonce
            && p.Hash() != GivenUp(rules, s, tx).Hash() && p.Hash() != tx.Hash()
  {
    hide SlotSum, ValidateTx;
    var p, g := s.order.pending[tx.sender][tx.nonce], GivenUp(rules, s, tx);
    assert Holds(s.order.pending, p) && Live(s.txs, p);
    assert Has(s.order.queue, tx.sender, MaxKey(s.order.queue[tx.sender].Keys));
  }

  /**
   With room made there is room for the newcomer, unless something was discarded twice or only local ones are left.
   */
  lemma {:induction false} RoomIsEnough(rules: Rules, s: Seen, tx: Tx, mid: Seen, gone: seq<Tx>)
    requires Split(s.order.pending, s.order.queue, s.txs, {}) && MakesRoom(rules, s, tx)
    requires RoomMade(rules.state.nonces, s, mid, GivenUp(rules, s, tx), gone)
    requires JustEnough(mid.txs, gone, Request(rules, s, tx), s.locals) && Discards.Distinct(gone)
    ensures SlotSum(mid.txs) + NumSlots(tx) <= rules.capacity || forall h :: h in mid.txs ==> h.tx.sender in s.locals
  {
    hide AllCut, AllCutOut, Keeps, Shrunk, SlotSum, OnlyCheapestGone, Split, RefusedBecause, MaxQueued, NumSlots;
    hide SeqSlots;
    var given := GivenUp(rules, s, tx);
    var kept := s.txs - {given.Hash()};
    GivenIsLive(rules, s, tx);
    SlotSumWithout(s.txs, given.Hash());
    Discards.FreedExactly(kept, gone);
    SameLookup(kept, mid, gone);
  }

  lemma {:induction false} GivenIsLive(rules: Rules, s: Seen, tx: Tx)
    requires Split(s.order.pending, s.order.queue, s.txs, {}) && MakesRoom(rules, s, tx)
    ensures Live(s.txs, GivenUp(rules, s, tx)) && KeyedByHash(s.txs)
  {
    hide SlotSum, ValidateTx;
    var a, m := tx.sender, s.order.queue[tx.sender];
    assert Has(s.order.queue, a, MaxKey(m.Keys)) && Holds(s.order.queue, GivenUp(rules, s, tx));
  }

  lemma {:induction false} SameLookup(kept: Lookup, mid: Seen, gone: seq<Tx>)
    requires KeyedByHash(kept) && Split(mid.order.pending, mid.order.queue, mid.txs, {})
    requires forall h :: h in mid.txs <==> h in kept && h.tx !in gone
    ensures mid.txs == Discards.Without(kept, gone)
  {
    assert forall h :: h in mid.txs ==> mid.txs[h].Hash() == h && kept[h].Hash() == h;
  }

  /** Whether anything is discarded at all that could hold the nonce of the newcomer. */
  ghost predicate HolderIsSafe(rules: Rules, s: Seen, tx: Tx)
    requires MakesRoom(rules, s, tx)
  {
    tx.sender in s.locals || Request(rules, s, tx) == 0
  }

  /**
   Adding to a full pool, once making room has not failed. Nothing of a local sender is discarded, and
   nothing at all if nothing more is needed: the nonce is then refused exactly if it is pending with a
   transaction the newcomer may not replace.
   */
  lemma {:induction false} RefusedAfterRoom(rules: Rules, s: Seen, tx: Tx, local: bool, t: Seen, r: AddResult)
    requires Split(s.order.pending, s.order.queue, s.txs, {}) && MakesRoom(rules, s, tx)
    requires RoomFailure(rules, s, tx, local).None? && AddStep(rules, s, tx, local, t, r)
    ensures r.Added? || r == Rejected(NonceExists)
    ensures r == Rejected(NonceExists) ==>
              && Has(s.order.pending, tx.sender, tx.nonce)
              && !Replaces(tx, s.order.pending[tx.sender][tx.nonce], rules.magma)
              && GivenUp(rules, s, tx).Hash() !in t.txs
    ensures HolderIsSafe(rules, s, tx) ==>
              (r == Rejected(NonceExists) <==>
                 && Has(s.order.pending, tx.sender, tx.nonce)
                 && !Replaces(tx, s.order.pending[tx.sender][tx.nonce], rules.magma))
  {
    hide Split, Placed, Replaces, SlotSum, RefusedBecause, MaxQueued, AllCut, AllCutOut, Keeps, Shrunk, TooCheap;
    var mid, gone :| RoomMade(rules.state.nonces, s, mid, GivenUp(rules, s, tx), gone)
                     && JustEnough(mid.txs, gone, Request(rules, s, tx), s.locals)
                     && Placed(mid, tx, rules.magma, local, t, r);
    RefusedUnlessGone(rules, s, tx, local, mid, gone, t, r);
    if HolderIsSafe(rules, s, tx) && Has(s.order.pending, tx.sender, tx.nonce) {
      HolderIsLive(rules, s, tx);
    }
  }

  /** Whoever holds the slot of a nonce that was not queued, in whichever list, held it as pending before. */
  lemma {:induction false} HolderStays(s: Seen, mid: Seen, tx: Tx)
    requires Split(s.order.pending, s.order.queue, s.txs, {}) && Split(mid.order.pending, mid.order.queue, mid.txs, {})
    requires mid.txs.Keys <= s.txs.Keys && !Has(s.order.queue, tx.sender, tx.nonce)
    ensures Has(mid.order.pending, tx.sender, tx.nonce) ==>
              && Has(s.order.pending, tx.sender, tx.nonce)
              && mid.order.pending[tx.sender][tx.nonce] == s.order.pending[tx.sender][tx.nonce]
    ensures Has(mid.order.queue, tx.sender, tx.nonce) ==>
              && Has(s.order.pending, tx.sender, tx.nonce)
              && mid.order.queue[tx.sender][tx.nonce] == s.order.pending[tx.sender][tx.nonce]
    ensures Has(s.order.pending, tx.sender, tx.nonce) ==>
              (s.order.pending[tx.sender][tx.nonce].Hash() in mid.txs <==>
                 Has(mid.order.pending, tx.sender, tx.nonce) || Has(mid.order.queue, tx.sender, tx.nonce))
  {
    var a, n := tx.sender, tx.nonce;
    if Has(mid.order.pending, a, n) {
      HolderWasPending(s, mid, mid.order.pending[a][n]);
    }
    if Has(mid.order.queue, a, n) {
      HolderWasPending(s, mid, mid.order.queue[a][n]);
    }
    if Has(s.order.pending, a, n) && s.order.pending[a][n].Hash() in mid.txs {
      var p := s.order.pending[a][n];
      assert Live(mid.txs, p) by { assert mid.txs[p.Hash()].Hash() == p.Hash(); }
    }
  }

  lemma {:induction false} HolderWasPending(s: Seen, mid: Seen, h: Tx)
    requires Split(s.order.pending, s.order.queue, s.txs, {}) && Split(mid.order.pending, mid.order.queue, mid.txs, {})
    requires mid.txs.Keys <= s.txs.Keys && !Has(s.order.queue, h.sender, h.nonce)
    requires Holds(mid.order.pending, h) || Holds(mid.order.queue, h)
    ensures Holds(s.order.pending, h)
  {
    assert Live(mid.txs, h);
    assert Live(s.txs, h) by { assert s.txs[h.Hash()].Hash() == h.Hash(); }
  }

  // ---------- A transaction lost for nothing ----------

  /** Three slots at nonce 0. */
  function Holder(a: Address): Tx {
    Tx(a, 0, 0, 0, 0, 3 * TX_SLOT_SIZE, BySender, false, 0)
  }

  /** One slot at nonce 5. */
  function Waiter(a: Address): Tx {
    Tx(a, 5, 0, 0, 0, 1, BySender, false, 0)
  }

  /** One slot at nonce 0. */
  function Newcomer(a: Address): Tx {
    Tx(a, 0, 0, 0, 0, 1, BySender, false, 1)
  }

  /** Four slots, all of them taken by a local account: one transaction pending and one queued. */
  ghost predicate FullOfTwo(a: Address, rules: Rules, s: Seen) {
    && rules == Rules(ChainState(map[], map[], {}, {}), false, 0, 4) && s.locals == {a}
    && s.txs == map[Holder(a).Hash() := Holder(a), Waiter(a).Hash() := Waiter(a)]
    && s.order.pending == map[a := map[0 := Holder(a)]] && s.order.queue == map[a := map[5 := Waiter(a)]]
  }

  lemma {:induction false} FullOfTwoMakesRoom(a: Address, local: bool, rules: Rules, s: Seen)
    requires FullOfTwo(a, rules, s)
    ensures MakesRoom(rules, s, Newcomer(a)) && GivenUp(rules, s, Newcomer(a)) == Waiter(a)
    ensures Request(rules, s, Newcomer(a)) == 0 && RoomFailure(rules, s, Newcomer(a), local).None?
  {
    var p, q := Holder(a), Waiter(a);
    assert SlotSum(map[]) == 0;
    SlotSumWith(map[], p);
    SlotSumWith(map[p.Hash() := p], q);
    assert map[][p.Hash() := p] == map[p.Hash() := p] && map[p.Hash() := p][q.Hash() := q] == s.txs;
    KeyIsMax({5}, 5);
    assert s.order.queue[a].Keys == {5};
  }

  lemma {:induction false} FullOfTwoIsSplit(a: Address, rules: Rules, s: Seen)
    requires FullOfTwo(a, rules, s)
    ensures Split(s.order.pending, s.order.queue, s.txs, {})
  {
    forall t ensures Live(s.txs, t) <==> Holds(s.order.pending, t) || Holds(s.order.queue, t) {
      assert Live(s.txs, t) <==> t == Holder(a) || t == Waiter(a);
    }
  }

  /** There a second transaction for the pending nonce is refused, and the queued one is gone. */
  lemma {:induction false} RefusedForNothing(a: Address, local: bool, rules: Rules, s: Seen, t: Seen, r: AddResult)
    requires FullOfTwo(a, rules, s) && AddStep(rules, s, Newcomer(a), local, t, r)
    ensures r == Rejected(NonceExists) && Waiter(a).Hash() in s.txs && Waiter(a).Hash() !in t.txs
  {
    hide AddStep, Split, MakesRoom, GivenUp, Request, RoomFailure;
    FullOfTwoMakesRoom(a, local, rules, s);
    FullOfTwoIsSplit(a, rules, s);
    RefusedAfterRoom(rules, s, Newcomer(a), local, t, r);
    assert Has(s.order.pending, a, 0);
  }

  // ---------- A panic ----------

  /** A largest transaction at nonce 5. */
  function Largest(a: Address): Tx {
    Tx(a, 5, 0, 0, 0, MAX_TX_DATA_SIZE, BySender, false, 0)
  }

  /** A smallest one at nonce 3. */
  function Smallest(a: Address): Tx {
    Tx(a, 3, 0, 0, 0, 1, BySender, false, 0)
  }

  /**
   A pool that holds only the largest transaction gives it up for the smallest and then asks for minus three slots.
   */
  lemma {:induction false} FullOfOne(a: Address, local: bool, rules: Rules, s: Seen)
    requires rules == Rules(ChainState(map[], map[], {}, {}), false, 0, 4)
    requires s.txs == map[Largest(a).Hash() := Largest(a)] && s.order.queue == map[a := map[5 := Largest(a)]]
    ensures MakesRoom(rules, s, Smallest(a)) && RoomFailure(rules, s, Smallest(a), local) == Some(Panicked)
  {
    assert s.txs - {Largest(a).Hash()} == map[];
    SlotSumWith(map[], Largest(a));
    assert map[][Largest(a).Hash() := Largest(a)] == s.txs && SlotSum(s.txs) == 4;
    KeyIsMax({5}, 5);
    assert s.order.queue[a].Keys == {5};
  }

  /** In an empty pool of four slots the largest transaction is queued. */
  lemma {:induction false} FirstIsQueued(a: Address, local: bool, rules: Rules, s: Seen, t: Seen, r: AddResult)
    requires rules == Rules(ChainState(map[], map[], {}, {}), false, 0, 4)
    requires s == Seen(map[], Order(map[], map[], map[]), {}) && AddStep(rules, s, Largest(a), local, t, r)
    ensures t.txs == map[Largest(a).Hash() := Largest(a)] && t.order.queue == map[a := map[5 := Largest(a)]]
  {
    assert SlotSum(map[]) == 0 && NumSlots(Largest(a)) == 4;
    assert RefusedBecause(rules, s, Largest(a)).None? && !MakesRoom(rules, s, Largest(a));
    assert File(map[], Largest(a)) == map[a := map[5 := Largest(a)]];
  }

  /** Two calls on an empty pool of four slots that end in the panic. */
  method AddPanics(a: Address, local: bool) returns (pool: TxPool, r: AddResult)
    ensures fresh(pool) && r == Panicked
  {
    hide TxPool.Valid, SlotSum, RefusedBecause, MakesRoom, RoomFailure, RoomMade, Placed;
    var state := ChainState(map[], map[], {}, {});
    pool := new TxPool(Config(1, 2, 1, 2, false), state, 0);
    ghost var empty := SeenOf(pool);
    var first := Add(pool, Largest(a), local);
    FirstIsQueued(a, local, RulesOf(pool), empty, SeenOf(pool), first);
    FullOfOne(a, local, RulesOf(pool), SeenOf(pool));
    ghost var full := SeenOf(pool);
    r := Add(pool, Smallest(a), local);
    SecondPanics(RulesOf(pool), full, Smallest(a), local, SeenOf(pool), r);
  }

  lemma {:induction false} SecondPanics(rules: Rules, s: Seen, tx: Tx, local: bool, t: Seen, r: AddResult)
    requires MakesRoom(rules, s, tx) && RoomFailure(rules, s, tx, local) == Some(Panicked)
    requires AddStep(rules, s, tx, local, t, r)
    ensures r == Panicked
  {
    hide SlotSum, RoomMade, CheckFunds;
  }
}
