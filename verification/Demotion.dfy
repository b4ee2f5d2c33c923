/**
 Demoting what a new state has invalidated, account by account, and renewing the
 pending nonces.
 */
module Demotion {
  import opened Types
  import opened TxLists
  import opened Priced
  import opened Partition
  import opened Nonces
  import opened Accounts
  import opened TxPools
  import Truncation

  // ---------- Shrinking a pending list ----------

  /** Shortens a pending list: `moved` goes back to the queue, the rest of what leaves is dropped. */
  method ShrinkPending(pool: TxPool, a: Address, kept: TxMap, moved: TxMap)
    requires pool.Valid() && a in pool.pending
    requires Submap(kept, pool.pending[a]) && Submap(moved, pool.pending[a]) && kept.Keys !! moved.Keys
    modifies pool`pending, pool`queue, pool`beats, pool.all, pool.priced
    ensures pool.Valid()
    ensures pool.pending == old(pool.pending)[a := kept] && pool.queue == FileAll(old(pool.queue), a, moved)
  {
    hide Split, SlotSum, KeyedByHash, Covers, FileAll;
    var list := pool.pending[a];
    var gone := Gone(list, kept);
    TakePending(pool.pending, pool.queue, pool.all.txs, {}, a, kept);
    MovedWaits(pool.pending, pool.queue, pool.all.txs, a, kept, moved);
    assert {} + gone == gone;
    pool.pending := pool.pending[a := kept];
    pool.DropAll(gone - Txs(moved), gone);
    assert gone - (gone - Txs(moved)) == Txs(moved);
    pool.Requeue(a, moved, Txs(moved));
    assert Txs(moved) - Txs(moved) == {};
  }

  lemma {:induction false} MovedWaits(pending: Lists, queue: Lists, txs: Lookup, a: Address, kept: TxMap, moved: TxMap)
    requires Split(pending, queue, txs, {}) && a in pending
    requires Submap(moved, pending[a]) && kept.Keys !! moved.Keys
    ensures Txs(moved) <= Gone(pending[a], kept) && Waiting(moved, a, Txs(moved))
  {
    forall t | t in Txs(moved) ensures t in Gone(pending[a], kept) {
      var n :| n in moved && moved[n] == t;
      assert n !in kept && pending[a][n] == t;
    }
    forall n | n in moved ensures moved[n].sender == a && moved[n].nonce == n {
      assert Has(pending, a, n);
    }
  }

  // ---------- What stands and what is demoted ----------

  /** What a strict filter moves back: everything above the lowest dropped nonce that is not dropped itself. */
  function Invalidated(m: TxMap, drop: Tx -> bool): TxMap {
    map n | n in m && n !in FilterStrict(m, drop) && !drop(m[n]) :: m[n]
  }

  /** The test used once the budget for full validation is spent. */
  function MarkTest(marked: set<TxHash>): Tx -> bool {
    (tx: Tx) => tx.Hash() in marked
  }

  /** The lowest nonce priced below the base fee. */
  function FirstUnderpriced(m: TxMap, gasPrice: nat): (first: Option<nat>)
    ensures first.Some? ==> first.value in m && m[first.value].price < gasPrice
    ensures forall n :: n in m && (first.Some? ==> n < first.value) ==> gasPrice <= m[n].price
  {
    var cheap := set n | n in m && m[n].price < gasPrice;
    assert forall n :: n in m && m[n].price < gasPrice ==> n in cheap;
    if cheap == {} then None else Some(MinKey(cheap))
  }

  /** What is left of a list once the first transaction below the base fee, and all above it, are taken out. */
  function AtFloor(m: TxMap, floor: Option<nat>): TxMap {
    if floor.None? || FirstUnderpriced(m, floor.value).None? then m
    else Below(m, FirstUnderpriced(m, floor.value).value)
  }

  /** What stays pending of a list at a state nonce, a drop test and a base fee. */
  function Standing(m: TxMap, nonce: nat, drop: Tx -> bool, floor: Option<nat>): TxMap {
    var valid := FilterStrict(Forward(m, nonce), drop);
    if nonce in valid then AtFloor(valid, floor) else map[]
  }

  /** What goes back to the queue: all that is neither outdated nor dropped nor left standing. */
  function Demoted(m: TxMap, nonce: nat, drop: Tx -> bool, floor: Option<nat>): TxMap {
    map n | n in m && nonce <= n && !drop(m[n]) && n !in Standing(m, nonce, drop, floor) :: m[n]
  }

  /** Drops outdated and unpayable transactions of an account and requeues what loses its footing. */
  method DemoteInvalid(pool: TxPool, a: Address, drop: Tx -> bool)
    requires pool.Valid() && a in pool.pending
    modifies pool`pending, pool`queue, pool`beats, pool.all, pool.priced
    ensures var current := Forward(old(pool.pending)[a], StateNonce(pool.state.nonces, a));
            && pool.Valid()
            && pool.pending == old(pool.pending)[a := FilterStrict(current, drop)]
            && pool.queue == FileAll(old(pool.queue), a, Invalidated(current, drop))
  {
    hide TxPool.Valid, FilterStrict, Invalidated, Forward;
    var nonce := StateNonce(pool.state.nonces, a);
    ForwardPart(pool.pending[a], nonce);
    ShrinkPending(pool, a, Forward(pool.pending[a], nonce), map[]);
    var list := pool.pending[a];
    FilterParts(list, drop);
    ShrinkPending(pool, a, FilterStrict(list, drop), Invalidated(list, drop));
  }

  lemma {:induction false} ForwardPart(m: TxMap, n: nat)
    ensures Submap(Forward(m, n), m) && forall k :: k in Forward(m, n) ==> n <= k
  {
  }

  lemma {:induction false} FilterParts(m: TxMap, drop: Tx -> bool)
    ensures Submap(FilterStrict(m, drop), m) && Submap(Invalidated(m, drop), m)
    ensures FilterStrict(m, drop).Keys !! Invalidated(m, drop).Keys
    ensures forall n :: n in FilterStrict(m, drop) ==> !drop(m[n])
  {
  }

  lemma {:induction false} FileAllTwice(m: Lists, a: Address, x: TxMap, y: TxMap)
    ensures FileAll(FileAll(m, a, x), a, y) == FileAll(m, a, x + y) && FileAll(m, a, map[]) == m
  {
    if x != map[] && y != map[] {
      assert Of(m, a) + x + y == Of(m, a) + (x + y);
    } else if x == map[] {
      assert x + y == y;
    } else {
      assert x + y == x;
    }
    assert x + y == map[] <==> x == map[] && y == map[] by {
      if x != map[] { var k :| k in x; assert k in x + y; }
      if y != map[] { var k :| k in y; assert k in x + y; }
    }
  }

  /** What the filter moves back and what leaves the rest make up all that is demoted. */
  lemma {:induction false} DemotedInTwo(m: TxMap, nonce: nat, drop: Tx -> bool, floor: Option<nat>)
    ensures var current := Forward(m, nonce);
            var valid := FilterStrict(current, drop);
            Demoted(m, nonce, drop, floor) ==
              Invalidated(current, drop) + (valid - Standing(m, nonce, drop, floor).Keys)
  {
    hide Standing, FilterStrict;
    StandsInValid(m, nonce, drop, floor);
    FilterParts(Forward(m, nonce), drop);
  }

  lemma {:induction false} StandsInValid(m: TxMap, nonce: nat, drop: Tx -> bool, floor: Option<nat>)
    ensures Submap(Standing(m, nonce, drop, floor), FilterStrict(Forward(m, nonce), drop))
  {
    hide FilterStrict, Forward, FirstUnderpriced;
  }

  /**
   What stands starts at the state nonce, clears the base fee and passes the drop test. It is closed
   downwards, and it holds every transaction that passes together with all below it.
   */
  lemma {:induction false} StandingIsExecutable(m: TxMap, nonce: nat, drop: Tx -> bool, floor: Option<nat>)
    ensures var s := Standing(m, nonce, drop, floor);
            && (s != map[] ==> nonce in s)
            && (forall n :: n in s ==> nonce <= n && n in m && s[n] == m[n] && Payable(s[n], floor) && !drop(s[n]))
            && (forall n, k :: n in s && k in m && nonce <= k <= n ==> k in s)
  {
    var s, valid := Standing(m, nonce, drop, floor), FilterStrict(Forward(m, nonce), drop);
    if s != map[] {
      var k :| k in s;
      assert k in valid;
    }
  }

  lemma {:induction false} PassingStands(m: TxMap, nonce: nat, drop: Tx -> bool, floor: Option<nat>, k: nat)
    requires nonce in m && nonce <= k && k in m
    requires forall j :: j in m && nonce <= j <= k ==> Passing(drop, floor)(m[j])
    ensures k in Standing(m, nonce, drop, floor)
  {
    var current := Forward(m, nonce);
    var valid := FilterStrict(current, drop);
    assert forall j :: j in current && j <= k ==> !drop(current[j]);
    assert nonce in valid && k in valid;
  }

  /** A nonce is missing above the state nonce, below one that passes together with all that is there below it. */
  ghost predicate Holed(m: TxMap, nonce: nat, pass: Tx -> bool) {
    nonce in m && exists h: nat, k: nat :: HoleAt(m, nonce, pass, h, k)
  }

  ghost predicate HoleAt(m: TxMap, nonce: nat, pass: Tx -> bool, h: nat, k: nat) {
    && nonce < h < k && h !in m && k in m
    && forall j :: j in m && nonce <= j <= k ==> pass(m[j])
  }

  /** What stands has a gap exactly if the list had one in front of something that stands. */
  lemma {:induction false} StandingExactly(m: TxMap, nonce: nat, drop: Tx -> bool, floor: Option<nat>)
    ensures Anchored(Standing(m, nonce, drop, floor), nonce) <==> !Holed(m, nonce, Passing(drop, floor))
  {
    hide Standing;
    var s, pass := Standing(m, nonce, drop, floor), Passing(drop, floor);
    StandingIsExecutable(m, nonce, drop, floor);
    if Holed(m, nonce, pass) {
      var h: nat, k: nat :| HoleAt(m, nonce, pass, h, k);
      PassingStands(m, nonce, drop, floor, nonce);
      PassingStands(m, nonce, drop, floor, k);
      forall hi: nat ensures !Interval(s, nonce, hi) {
        assert nonce in s && k in s && h !in s;
      }
    } else if s == map[] {
      EmptyIsAnchored(nonce);
    } else {
      NoHoleNoGap(m, s, nonce, pass);
    }
  }

  lemma {:induction false} NoHoleNoGap(m: TxMap, s: TxMap, nonce: nat, pass: Tx -> bool)
    requires nonce in s && forall n :: n in s ==> nonce <= n && n in m && s[n] == m[n] && pass(s[n])
    requires forall n, k :: n in s && k in m && nonce <= k <= n ==> k in s
    requires !Holed(m, nonce, pass)
    ensures Anchored(s, nonce)
  {
    var top := MaxKey(s.Keys);
    forall h | nonce <= h <= top ensures h in s {
      if h !in s {
        assert HoleAt(m, nonce, pass, h, top);
        assert false;
      }
    }
    assert Interval(s, nonce, top + 1);
  }

  /** A list without a gap from the state nonce on has no hole. */
  lemma {:induction false} AnchoredIsWhole(m: TxMap, nonce: nat, pass: Tx -> bool)
    requires nonce in m ==> Anchored(Forward(m, nonce), nonce)
    ensures !Holed(m, nonce, pass)
  {
    if nonce in m {
      var hi: nat :| Interval(Forward(m, nonce), nonce, hi);
      forall h: nat, k: nat ensures !HoleAt(m, nonce, pass, h, k) {
        assert nonce <= k && k in m ==> k in Forward(m, nonce);
        assert nonce <= h < hi ==> h in Forward(m, nonce);
      }
    }
  }

  lemma {:induction false} FloorPart(m: TxMap, floor: Option<nat>)
    ensures Submap(AtFloor(m, floor), m) && Submap(m - AtFloor(m, floor).Keys, m)
    ensures AtFloor(map[], floor) == map[]
  {
  }

  /** Sends the first transaction below the base fee, and everything above it, back to the queue. */
  method DemoteUnderpriced(pool: TxPool, a: Address)
    requires pool.Valid() && a in pool.pending
    modifies pool`pending, pool`queue, pool`beats, pool.all, pool.priced
    ensures var list := old(pool.pending)[a];
            var kept := AtFloor(list, pool.Floor());
            && pool.Valid()
            && pool.pending == old(pool.pending)[a := kept]
            && pool.queue == FileAll(old(pool.queue), a, list - kept.Keys)
  {
    hide TxPool.Valid, FirstUnderpriced;
    var list := pool.pending[a];
    FloorPart(list, pool.Floor());
    if pool.magma && list != map[] {
      var first := FirstUnderpriced(list, pool.gasPrice);
      if first.Some? {
        ShrinkPending(pool, a, Below(list, first.value), list - Below(list, first.value).Keys);
      }
    }
  }

  /** Demotes what one account can no longer execute at the pool's state and base fee. */
  method DemoteAccount(pool: TxPool, a: Address, full: bool)
    requires pool.Valid() && a in pool.pending
    modifies pool`pending, pool`queue, pool`beats, pool.all, pool.priced
    ensures var nonce := StateNonce(pool.state.nonces, a);
            var drop := if full then DropTest(pool.state, pool.marked) else MarkTest(pool.marked);
            var list := old(pool.pending)[a];
            && pool.Valid()
            && pool.pending == SetList(old(pool.pending), a, Standing(list, nonce, drop, pool.Floor()))
            && pool.queue == FileAll(old(pool.queue), a, Demoted(list, nonce, drop, pool.Floor()))
  {
    hide TxPool.Valid, FileAll, DropTest, MarkTest, FilterStrict, Invalidated, Forward, Demoted, AtFloor;
    var nonce := StateNonce(pool.state.nonces, a);
    var drop := if full then DropTest(pool.state, pool.marked) else MarkTest(pool.marked);
    ghost var list := pool.pending[a];
    ghost var standing := Standing(list, nonce, drop, pool.Floor());
    DemotedInTwo(list, nonce, drop, pool.Floor());
    DemoteInvalid(pool, a, drop);
    ghost var valid := pool.pending[a];
    ghost var moved := Invalidated(Forward(list, nonce), drop);
    FileAllTwice(old(pool.queue), a, moved, valid - standing.Keys);
    if pool.pending[a] != map[] && nonce !in pool.pending[a] {
      ShrinkPending(pool, a, map[], pool.pending[a]);
      assert valid - standing.Keys == valid;
    }
    FloorPart(map[], pool.Floor());
    FileAllTwice(pool.queue, a, map[], map[]);
    DemoteUnderpriced(pool, a);
    UpdateAgain(old(pool.pending), a, valid, map[]);
    UpdateAgain(old(pool.pending), a, valid, standing);
    UpdateAgain(old(pool.pending), a, map[], standing);
    if pool.pending[a] == map[] {
      ForgetPending(pool, a);
    }
  }

  lemma {:induction false} UpdateAgain(m: Lists, a: Address, x: TxMap, y: TxMap)
    ensures m[a := x][a := y] == m[a := y] && m[a := y] - {a} == m - {a}
  {
  }

  method ForgetPending(pool: TxPool, a: Address)
    requires pool.Valid() && a in pool.pending && pool.pending[a] == map[]
    modifies pool`pending
    ensures pool.Valid() && pool.pending == old(pool.pending) - {a}
  {
    hide Split, SlotSum, KeyedByHash, Covers;
    Forget(pool.pending, pool.queue, pool.all.txs, {}, a);
    pool.pending := pool.pending - {a};
  }

  // ---------- Every account ----------

  const FULL_VALIDATION_LIMIT: nat := 1000

  /** The pending and queued lists of every account. */
  datatype Both = Both(pending: Lists, queue: Lists)

  /** One account's lists have been demoted under a drop test. */
  ghost predicate Settled(was: Both, now: Both, nonces: NonceMap, drop: Tx -> bool, floor: Option<nat>, a: Address) {
    var list, nonce := Of(was.pending, a), StateNonce(nonces, a);
    && Of(now.pending, a) == Standing(list, nonce, drop, floor)
    && Of(now.queue, a) == Of(was.queue, a) + Demoted(list, nonce, drop, floor)
  }

  /**
   Accounts in `done` are demoted under the full test, or, once its budget is spent, the light
   one; others are untouched.
   */
  ghost predicate AllSettled(was: Both, now: Both, nonces: NonceMap, full: Tx -> bool, light: Tx -> bool,
                             floor: Option<nat>, done: set<Address>, spent: bool) {
    forall a ::
      if a in done then
        Settled(was, now, nonces, full, floor, a) || (spent && Settled(was, now, nonces, light, floor, a))
      else Of(now.pending, a) == Of(was.pending, a) && Of(now.queue, a) == Of(was.queue, a)
  }

  lemma {:induction false} OneMoreSettled(was: Both, now: Both, next: Both, nonces: NonceMap, full: Tx -> bool,
                                          light: Tx -> bool, floor: Option<nat>, done: set<Address>, spent: bool,
                                          a: Address, drop: Tx -> bool)
    requires AllSettled(was, now, nonces, full, light, floor, done, spent) && a !in done && a in now.pending
    requires drop == full || (spent && drop == light)
    requires next.pending == SetList(now.pending, a, Standing(now.pending[a], StateNonce(nonces, a), drop, floor))
    requires next.queue == FileAll(now.queue, a, Demoted(now.pending[a], StateNonce(nonces, a), drop, floor))
    ensures AllSettled(was, next, nonces, full, light, floor, done + {a}, spent)
  {
    hide Standing, Demoted, SetList, FileAll, Of, StateNonce, Settled;
    var nonce := StateNonce(nonces, a);
    OneChanged(now, next, a, Standing(now.pending[a], nonce, drop, floor), Demoted(now.pending[a], nonce, drop, floor));
    SettledNow(was, now, next, nonces, drop, floor, a);
    forall b | b != a
      ensures Settled(was, now, nonces, full, floor, b) == Settled(was, next, nonces, full, floor, b)
      ensures Settled(was, now, nonces, light, floor, b) == Settled(was, next, nonces, light, floor, b)
    {
      SettledStill(was, now, next, nonces, full, floor, b);
      SettledStill(was, now, next, nonces, light, floor, b);
    }
  }

  lemma {:induction false} SettledStill(was: Both, now: Both, next: Both, nonces: NonceMap, drop: Tx -> bool,
                                        floor: Option<nat>, b: Address)
    requires Of(next.pending, b) == Of(now.pending, b) && Of(next.queue, b) == Of(now.queue, b)
    ensures Settled(was, now, nonces, drop, floor, b) == Settled(was, next, nonces, drop, floor, b)
  {
    hide Standing, Demoted, Of, StateNonce;
  }

  lemma {:induction false} SettledNow(was: Both, now: Both, next: Both, nonces: NonceMap, drop: Tx -> bool,
                                      floor: Option<nat>, a: Address)
    requires Of(now.pending, a) == Of(was.pending, a) && Of(now.queue, a) == Of(was.queue, a)
    requires Of(next.pending, a) == Standing(Of(now.pending, a), StateNonce(nonces, a), drop, floor)
    requires Of(next.queue, a) == Of(now.queue, a) + Demoted(Of(now.pending, a), StateNonce(nonces, a), drop, floor)
    ensures Settled(was, next, nonces, drop, floor, a)
  {
    hide Standing, Demoted, Of, StateNonce;
  }

  lemma {:induction false} OneChanged(now: Both, next: Both, a: Address, l: TxMap, moved: TxMap)
    requires a in now.pending
    requires next.pending == SetList(now.pending, a, l) && next.queue == FileAll(now.queue, a, moved)
    ensures Of(now.pending, a) == now.pending[a] && Of(next.pending, a) == l
            && Of(next.queue, a) == Of(now.queue, a) + moved
    ensures forall b :: b != a ==> Of(next.pending, b) == Of(now.pending, b) && Of(next.queue, b) == Of(now.queue, b)
  {
    assert Of(now.queue, a) + map[] == Of(now.queue, a);
  }

  lemma {:induction false} ForwardIsSmaller(m: TxMap, n: nat)
    ensures |Forward(m, n)| <= |m|
  {
    var kept, cut := Forward(m, n).Keys, m.Keys - Forward(m, n).Keys;
    assert m.Keys == kept + cut;
  }

  /** Demotes for every account with pending transactions, validating fully only so many. */
  method DemoteUnexecutables(pool: TxPool)
    requires pool.Valid()
    modifies pool`pending, pool`queue, pool`beats, pool.all, pool.priced
    ensures pool.Valid()
    ensures AllSettled(old(Both(pool.pending, pool.queue)), Both(pool.pending, pool.queue), pool.state.nonces,
                       DropTest(pool.state, pool.marked), MarkTest(pool.marked), pool.Floor(), old(pool.pending).Keys,
                       FULL_VALIDATION_LIMIT <= old(Truncation.Total(pool.pending)))
  {
    hide TxPool.Valid, Standing, Demoted, FileAll, SetList, DropTest, MarkTest, AllSettled, Settled, Forward;
    hide Truncation.Total;
    var validated := 0;
    var todo := pool.pending.Keys;
    ghost var was, left := Both(pool.pending, pool.queue), pool.pending;
    ghost var spent := FULL_VALIDATION_LIMIT <= Truncation.Total(pool.pending);
    ghost var full, light := DropTest(pool.state, pool.marked), MarkTest(pool.marked);
    ghost var done: set<Address> := {};
    NoneSettled(was, pool.state.nonces, full, light, pool.Floor(), spent);
    while todo != {}
      invariant pool.Valid()
      invariant todo <= pool.pending.Keys <= was.pending.Keys
      invariant left.Keys == todo && forall a :: a in todo ==> left[a] == pool.pending[a]
      invariant validated + Truncation.Total(left) <= Truncation.Total(was.pending)
      invariant done !! todo && done + todo == was.pending.Keys
      invariant AllSettled(was, Both(pool.pending, pool.queue), pool.state.nonces, full, light, pool.Floor(),
                           done, spent)
      decreases todo
    {
      var a :| a in todo;
      var fully := validated < FULL_VALIDATION_LIMIT;
      Truncation.TotalWithout(left, a);
      ForwardIsSmaller(left[a], StateNonce(pool.state.nonces, a));
      if fully {
        validated := validated + |Forward(pool.pending[a], StateNonce(pool.state.nonces, a))|;
      }
      ghost var now := Both(pool.pending, pool.queue);
      DemoteAccount(pool, a, fully);
      ghost var drop := if fully then full else light;
      OneMoreSettled(was, now, Both(pool.pending, pool.queue), pool.state.nonces, full, light, pool.Floor(),
                     done, spent, a, drop);
      ListSet(now.pending, a, Standing(now.pending[a], StateNonce(pool.state.nonces, a), drop, pool.Floor()));
      done := done + {a};
      todo, left := todo - {a}, left - {a};
    }
    assert done == was.pending.Keys;
  }

  lemma {:induction false} ListSet(m: Lists, a: Address, l: TxMap)
    requires a in m
    ensures var now := SetList(m, a, l);
            m.Keys - {a} <= now.Keys <= m.Keys && forall b :: b in m && b != a ==> now[b] == m[b]
  {
  }

  lemma {:induction false} NoneSettled(was: Both, nonces: NonceMap, full: Tx -> bool, light: Tx -> bool,
                                       floor: Option<nat>, spent: bool)
    ensures AllSettled(was, was, nonces, full, light, floor, {}, spent)
  {
  }

  /** Once all pending lists are done every account has been demoted: there was nothing to do for the others. */
  lemma {:induction false} EveryoneSettled(was: Both, now: Both, nonces: NonceMap, full: Tx -> bool, light: Tx -> bool,
                                           floor: Option<nat>, spent: bool, a: Address)
    requires AllSettled(was, now, nonces, full, light, floor, was.pending.Keys, spent)
    ensures Settled(was, now, nonces, full, floor, a) || (spent && Settled(was, now, nonces, light, floor, a))
  {
    hide FilterStrict;
    if a !in was.pending {
      StandingIsExecutable(map[], StateNonce(nonces, a), full, floor);
      assert Of(was.queue, a) + map[] == Of(was.queue, a);
    }
  }

  // ---------- Pending nonces ----------

  /** Every account with pending transactions has its next nonce one past the last of them. */
  ghost predicate Renewed(pending: Lists, was: NonceMap, now: NonceMap) {
    forall a ::
      if Of(pending, a) != map[] then a in now && now[a] == MaxKey(Of(pending, a).Keys) + 1
      else (a in now <==> a in was) && (a in now ==> now[a] == was[a])
  }

  /** Sets the pending nonce of every account to one past its last pending transaction. */
  method RenewPendingNonces(pool: TxPool)
    requires pool.Valid()
    modifies pool`pendingNonce
    ensures pool.Valid() && Renewed(pool.pending, old(pool.pendingNonce), pool.pendingNonce)
  {
    hide Split, SlotSum, KeyedByHash, Covers;
    var todo := pool.pending.Keys;
    while todo != {}
      invariant todo <= pool.pending.Keys && pool.Valid()
      invariant forall a :: a in pool.pending && a !in todo && pool.pending[a] != map[] ==>
                  a in pool.pendingNonce && pool.pendingNonce[a] == MaxKey(pool.pending[a].Keys) + 1
      invariant forall a :: Of(pool.pending, a) == map[] ==>
                  (a in pool.pendingNonce <==> a in old(pool.pendingNonce))
                  && (a in pool.pendingNonce ==> pool.pendingNonce[a] == old(pool.pendingNonce)[a])
      decreases todo
    {
      var a :| a in todo;
      if pool.pending[a] != map[] {
        pool.pendingNonce := pool.pendingNonce[a := MaxKey(pool.pending[a].Keys) + 1];
      }
      todo := todo - {a};
    }
  }

  /** A list anchored at the state nonce, with the next nonce one past its end, is a run. */
  lemma {:induction false} RenewedIsRun(state: NonceMap, pending: Lists, queue: Lists, was: NonceMap, now: NonceMap,
                                        a: Address)
    requires Renewed(pending, was, now) && Anchored(Of(pending, a), StateNonce(state, a))
    requires Of(pending, a) == map[] ==> NextNonce(state, was, a) == StateNonce(state, a)
    ensures InRun(Look(state, Order(pending, queue, now), a), StateNonce(state, a))
  {
    var l, n := Of(pending, a), StateNonce(state, a);
    var hi: nat :| Interval(l, n, hi);
    if l != map[] {
      var k :| k in l;
      KeyIsMax(l.Keys, hi - 1);
    }
  }
}
