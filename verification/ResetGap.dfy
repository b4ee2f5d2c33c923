/** A reset that leaves a gap in an account's pending nonces. */
module ResetGaps {
  import opened Types
  import opened TxLists
  import opened Priced
  import opened Partition
  import opened Nonces
  import opened Accounts
  import opened TxPools
  import opened PoolAdd
  import opened PoolRuns
  import opened Demotion
  import opened PoolReset
  import Truncation

  // ---------- A pool with one account ----------

  /** Only `a` has transactions. */
  ghost predicate Alone(o: Order, a: Address) {
    forall b :: b != a ==> Of(o.pending, b) == map[] && Of(o.queue, b) == map[]
  }

  lemma {:induction false} TotalOfOne(m: Lists, a: Address)
    requires forall b :: b != a ==> Of(m, b) == map[]
    ensures Truncation.Total(m) == |Of(m, a)|
    decreases |m|
  {
    if m != map[] {
      var b :| b in m;
      assert b != a ==> Of(m, b) == map[];
      assert forall c :: c != a && c in m - {b} ==> Of(m - {b}, c) == Of(m, c);
      Truncation.TotalWithout(m, b);
      TotalOfOne(m - {b}, a);
    }
  }

  /** What promotion does to the only account of a pool far below its limits. */
  lemma {:induction false} FilledAlone(env: Env, was: Order, mid: Order, now: Order, accounts: Option<set<Address>>,
                                       a: Address, y: Account)
    requires PromotedTo(env, was, mid, accounts) && Truncated(env, mid, now) && Alone(was, a) && Chosen(accounts, a)
    requires y == Promoted(Look(env.state.nonces, was, a), env.Nonce(a), env.Drop(), env.floor, env.QueueCap(a))
    requires |y.pending| <= env.config.execSlotsAll && |y.queue| <= env.config.nonExecSlotsAll
    ensures Alone(now, a) && Look(env.state.nonces, now, a) == y
    ensures now.pending == mid.pending && now.known == mid.known && now.queue == mid.queue
  {
    hide Promoted, WithinLimits, AllCut, Shrunk, Disjoint;
    forall b | b != a ensures Of(mid.pending, b) == map[] && Of(mid.queue, b) == map[] {
      NothingToPromote(Look(env.state.nonces, was, b), env.Nonce(b), env.Drop(), env.floor, env.QueueCap(b));
      assert Look(env.state.nonces, mid, b) == Look(env.state.nonces, was, b);
    }
    assert Look(env.state.nonces, mid, a) == y;
    TotalOfOne(mid.pending, a);
    TotalOfOne(mid.queue, a);
  }

  lemma {:induction false} ExecutedAlone(env: Env, was: Order, now: Order, accounts: Option<set<Address>>, a: Address,
                                         y: Account)
    requires Executed(env, was, now, accounts) && Alone(was, a) && Chosen(accounts, a)
    requires y == Promoted(Look(env.state.nonces, was, a), env.Nonce(a), env.Drop(), env.floor, env.QueueCap(a))
    requires |y.pending| <= env.config.execSlotsAll && |y.queue| <= env.config.nonExecSlotsAll
    ensures Alone(now, a) && Look(env.state.nonces, now, a) == y
  {
    hide PromotedTo, Truncated, Promoted, Alone;
    var mid :| PromotedTo(env, was, mid, accounts) && Truncated(env, mid, now);
    FilledAlone(env, was, mid, now, accounts, a, y);
  }

  /** A valid transaction with a free nonce and room for it is queued. */
  lemma {:induction false} QueuedFresh(rules: Rules, s: Seen, tx: Tx, t: Seen, r: AddResult)
    requires AddStep(rules, s, tx, false, t, r) && tx.Hash() !in s.txs
    requires ValidateTx(tx, rules.state, rules.magma, rules.gasPrice).None?
    requires SlotSum(s.txs) + NumSlots(tx) <= rules.capacity
    requires !Has(s.order.pending, tx.sender, tx.nonce) && !Has(s.order.queue, tx.sender, tx.nonce)
    ensures r == Added(false)
    ensures t == Seen(s.txs[tx.Hash() := tx], s.order.(queue := File(s.order.queue, tx)), s.locals)
  {
    hide SlotSum, ValidateTx, Replaces;
  }

  // ---------- The run ----------

  /** A transaction that costs nothing. */
  function Plain(a: Address, n: nat): Tx {
    Tx(a, n, 0, 0, 0, 1, BySender, false, 0)
  }

  function At(a: Address, nonce: nat): ChainState {
    ChainState(map[a := nonce], map[], {}, {})
  }

  const LIMITS: Config := Config(16, 16, 16, 16, false)

  function EnvAt(a: Address, nonce: nat): Env {
    Env(At(a, nonce), {}, None, {}, LIMITS)
  }

  lemma {:induction false} PlainIsValid(a: Address, n: nat, nonce: nat)
    requires nonce <= n
    ensures ValidateTx(Plain(a, n), At(a, nonce), false, 0).None? && NumSlots(Plain(a, n)) == 1
    ensures !DropTest(At(a, nonce), {})(Plain(a, n))
  {
  }

  /** Promoting a queue that holds exactly a run from the next nonce. */
  lemma {:induction false} RunIsPromoted(a: Address, nonce: nat, x: Account, end: nat)
    requires Interval(x.queue, nonce, end) && nonce < end && x.next == nonce
    requires forall k :: k in x.queue ==> x.queue[k] == Plain(a, k)
    ensures Promoted(x, nonce, EnvAt(a, nonce).Drop(), None, Some(16)) == Account(x.pending + x.queue, map[], end)
  {
    hide Screened, ReadyEnd, Cap, DropTest;
    var q := x.queue;
    NoneScreened(a, nonce, q);
    ReadyToEnd(q, nonce, end);
    assert nonce in q;
    assert Below(q, end) == q && Forward(q, end) == map[];
    CapKeepsLowest(map[], 16);
  }

  lemma {:induction false} NoneScreened(a: Address, nonce: nat, q: TxMap)
    requires forall k :: k in q ==> nonce <= k && q[k] == Plain(a, k)
    ensures Screened(q, nonce, EnvAt(a, nonce).Drop()) == q
  {
    hide DropTest;
    forall k | k in q ensures !EnvAt(a, nonce).Drop()(q[k]) {
      PlainIsValid(a, k, nonce);
    }
  }

  lemma {:induction false} ReadyToEnd(q: TxMap, nonce: nat, end: nat)
    requires Interval(q, nonce, end) && nonce < end
    ensures q != map[] && ReadyEnd(q, nonce, None) == end
  {
    assert nonce in q;
    KeyIsMin(q.Keys, nonce);
    RunIsMaximal(q, nonce, None);
    var e := RunEnd(q, nonce, None);
    assert e !in q;
    assert end < e ==> end in q;
  }

  /** In an empty pool with state nonce 5 the nonces 5 and 6 are queued. */
  lemma {:induction false} TwoQueued(a: Address, trace: seq<Seen>, rs: seq<AddResult>)
    requires AddedEach(Rules(At(a, 5), false, 0, 32), [Plain(a, 5), Plain(a, 6)], false, trace, rs)
    requires (|rs| == 2 || StoppedByPanic(rs)) && trace[0] == Seen(map[], Order(map[], map[], map[]), {})
    ensures rs == [Added(false), Added(false)]
    ensures trace[2].order == Order(map[], map[a := map[5 := Plain(a, 5), 6 := Plain(a, 6)]], map[])
    ensures trace[2].locals == {}
  {
    hide AddStep, ValidateTx, SlotSum, NumSlots;
    var rules, txs, five, six := Rules(At(a, 5), false, 0, 32), [Plain(a, 5), Plain(a, 6)], Plain(a, 5), Plain(a, 6);
    PlainIsValid(a, 5, 5);
    PlainIsValid(a, 6, 5);
    EmptySum();
    assert rs != [] && AddStep(rules, trace[0], txs[0], false, trace[1], rs[0]);
    QueuedFresh(rules, trace[0], five, trace[1], rs[0]);
    SlotSumWith(map[], five);
    assert |rs| == 2 && AddStep(rules, trace[1], txs[1], false, trace[2], rs[1]);
    QueuedFresh(rules, trace[1], six, trace[2], rs[1]);
    assert trace[2].order.queue == map[a := map[5 := five, 6 := six]];
  }

  /** And promoted: the pool before the reset. */
  lemma {:induction false} FiveAndSix(a: Address, was: Order, now: Order)
    requires was == Order(map[], map[a := map[5 := Plain(a, 5), 6 := Plain(a, 6)]], map[])
    requires Executed(EnvAt(a, 5), was, now, Some({a}))
    ensures Alone(now, a)
    ensures Look(At(a, 5).nonces, now, a) == Account(map[5 := Plain(a, 5), 6 := Plain(a, 6)], map[], 7)
  {
    hide Executed, Promoted;
    var list := map[5 := Plain(a, 5), 6 := Plain(a, 6)];
    RunIsPromoted(a, 5, Look(At(a, 5).nonces, was, a), 7);
    assert map[] + list == list;
    ExecutedAlone(EnvAt(a, 5), was, now, Some({a}), a, Account(list, map[], 7));
  }

  lemma {:induction false} OneSender(txs: seq<Tx>, rs: seq<AddResult>, a: Address)
    requires 0 < |rs| == |txs| && forall i :: 0 <= i < |rs| ==> rs[i] == Added(false) && txs[i].sender == a
    ensures Dirty(txs, rs) == {a}
  {
    assert rs[0] == Added(false) && txs[0].sender == a;
  }

  lemma {:induction false} EmptySum()
    ensures SlotSum(map[]) == 0
  {
  }

  lemma {:induction false} TwoLive(o: Order, txs: Lookup, a: Address)
    requires Split(o.pending, o.queue, txs, {}) && Alone(o, a)
    requires Of(o.pending, a) == map[5 := Plain(a, 5), 6 := Plain(a, 6)] && Of(o.queue, a) == map[]
    ensures SlotSum(txs) == 2 && Plain(a, 3).Hash() !in txs
  {
    var five, six := Plain(a, 5), Plain(a, 6);
    assert forall b, n :: Has(o.pending, b, n) ==> n in Of(o.pending, b);
    assert forall b, n :: Has(o.queue, b, n) ==> n in Of(o.queue, b);
    forall t ensures Live(txs, t) <==> t == five || t == six {
      assert 5 in Of(o.pending, a) && 6 in Of(o.pending, a);
      assert Has(o.pending, a, 5) && Has(o.pending, a, 6);
      assert Holds(o.pending, t) <==> t == five || t == six;
      assert !Holds(o.queue, t);
    }
    assert txs == map[five.Hash() := five, six.Hash() := six] by {
      forall h | h in txs ensures h == five.Hash() || h == six.Hash() {
        assert Live(txs, txs[h]);
      }
      assert Live(txs, five) && Live(txs, six);
    }
    EmptySum();
    SlotSumWith(map[], five);
    SlotSumWith(map[five.Hash() := five], six);
    assert map[][five.Hash() := five] == map[five.Hash() := five];
    assert map[five.Hash() := five][six.Hash() := six] == txs;
  }

  /** At state nonce 3 the nonce 3 is queued again. */
  lemma {:induction false} ThreeQueued(a: Address, was: Seen, trace: seq<Seen>, rs: seq<AddResult>)
    requires AddedEach(Rules(At(a, 3), false, 0, 32), [Plain(a, 3)], false, trace, rs) && trace[0] == was
    requires (|rs| == 1 || StoppedByPanic(rs)) && Split(was.order.pending, was.order.queue, was.txs, {})
    requires Alone(was.order, a) && Of(was.order.queue, a) == map[]
    requires Of(was.order.pending, a) == map[5 := Plain(a, 5), 6 := Plain(a, 6)]
    ensures rs == [Added(false)] && trace[1].order == was.order.(queue := File(was.order.queue, Plain(a, 3)))
    ensures trace[1].locals == was.locals
  {
    hide AddStep, ValidateTx, SlotSum, NumSlots, Split, Alone;
    var rules, three := Rules(At(a, 3), false, 0, 32), Plain(a, 3);
    PlainIsValid(a, 3, 3);
    TwoLive(was.order, was.txs, a);
    assert rs != [] && AddStep(rules, trace[0], [three][0], false, trace[1], rs[0]);
    QueuedFresh(rules, was, three, trace[1], rs[0]);
  }

  /** And promoted, below the gap: 3, 5 and 6 are pending. */
  lemma {:induction false} ThreeComesBack(a: Address, was: Order, added: Order, met: Order)
    requires Alone(was, a) && Of(was.queue, a) == map[] && was.known == map[]
    requires Of(was.pending, a) == map[5 := Plain(a, 5), 6 := Plain(a, 6)]
    requires added == was.(queue := File(was.queue, Plain(a, 3))) && Executed(EnvAt(a, 3), added, met, Some({a}))
    ensures Alone(met, a) && Look(At(a, 3).nonces, met, a) == Account(Gap(a), map[], 4)
  {
    hide Executed, Promoted, Alone;
    var three := Plain(a, 3);
    OneMoreAlone(was, added, three);
    RunIsPromoted(a, 3, Look(At(a, 3).nonces, added, a), 4);
    assert Of(was.pending, a) + map[3 := three] == Gap(a);
    ExecutedAlone(EnvAt(a, 3), added, met, Some({a}), a, Account(Gap(a), map[], 4));
  }

  lemma {:induction false} OneMoreAlone(was: Order, now: Order, tx: Tx)
    requires Alone(was, tx.sender) && now == was.(queue := File(was.queue, tx))
    ensures Alone(now, tx.sender) && Of(now.queue, tx.sender) == Of(was.queue, tx.sender)[tx.nonce := tx]
  {
    assert forall b :: b != tx.sender ==> Of(now.queue, b) == Of(was.queue, b);
  }

  function Gap(a: Address): TxMap {
    map[3 := Plain(a, 3), 5 := Plain(a, 5), 6 := Plain(a, 6)]
  }

  /** All three pass either drop test, so all three stand. */
  lemma {:induction false} GapStands(a: Address, full: bool)
    ensures Standing(Gap(a), 3, Test(EnvAt(a, 3), full), None) == Gap(a)
    ensures Demoted(Gap(a), 3, Test(EnvAt(a, 3), full), None) == map[]
  {
    hide Standing;
    var drop, s := Test(EnvAt(a, 3), full), Standing(Gap(a), 3, Test(EnvAt(a, 3), full), None);
    forall k | k in Gap(a) ensures Passing(drop, None)(Gap(a)[k]) {
      PlainIsValid(a, k, 3);
    }
    forall k | k in Gap(a) ensures k in s {
      PassingStands(Gap(a), 3, drop, None, k);
    }
    StandingIsExecutable(Gap(a), 3, drop, None);
  }

  lemma {:induction false} SettledAlone(env: Env, s: Steps, now: Order, a: Address)
    requires Rebuilt(env, s, now) && Alone(s.met, a)
    ensures Alone(s.settled, a)
  {
    hide AllSettled, Renewed, PromotedTo, Truncated, Standing, Demoted, Test;
    forall b | b != a ensures Of(s.settled.pending, b) == map[] && Of(s.settled.queue, b) == map[] {
      var full := FullTest(env, s, now, b);
      NothingStands(env.Nonce(b), Test(env, full), env.floor);
    }
  }

  lemma {:induction false} NothingStands(nonce: nat, drop: Tx -> bool, floor: Option<nat>)
    ensures Standing(map[], nonce, drop, floor) == map[] && Demoted(map[], nonce, drop, floor) == map[]
  {
    hide Standing;
    StandingIsExecutable(map[], nonce, drop, floor);
  }

  /** Demotion, renewal and promotion leave 3, 5 and 6 pending, and 7 as the next nonce. */
  lemma {:induction false} GapIsLeft(a: Address, s: Steps, now: Order)
    requires Rebuilt(EnvAt(a, 3), s, now) && Alone(s.met, a)
    requires Look(At(a, 3).nonces, s.met, a) == Account(Gap(a), map[], 4)
    ensures Look(At(a, 3).nonces, now, a) == Account(Gap(a), map[], 7)
  {
    hide AllSettled, PromotedTo, Truncated, Standing, Demoted, Test, Promoted, Alone, AllDisjoint;
    var env := EnvAt(a, 3);
    var full := FullTest(env, s, now, a);
    GapStands(a, full);
    SettledAlone(env, s, now, a);
    assert Of(s.settled.pending, a) == Gap(a) && Of(s.settled.queue, a) == map[];
    KeyIsMax({3, 5, 6}, 6);
    assert Gap(a).Keys == {3, 5, 6};
    var x := Look(At(a, 3).nonces, s.ready, a);
    assert x == Account(Gap(a), map[], 7);
    NothingToPromote(x, 3, env.Drop(), env.floor, env.QueueCap(a));
    StillAlone(s.settled, s.ready, a);
    FilledAlone(env, s.ready, s.filled, now, None, a, x);
  }

  lemma {:induction false} StillAlone(was: Order, now: Order, a: Address)
    requires Alone(was, a) && now.pending == was.pending && now.queue == was.queue
    ensures Alone(now, a)
  {
  }

  /**
   An empty pool at state nonce 5 takes the nonces 5 and 6 and has them pending. A head with state
   nonce 3 brings back nonce 3 only. Then 3, 5 and 6 are pending, nonce 4 is missing, and the pool
   expects nonce 7 next.
   */
  method ResetLeavesGap(a: Address) returns (pool: TxPool)
    ensures fresh(pool) && pool.Valid() && StateNonce(pool.state.nonces, a) == 3 && pool.PendingNonce(a) == 7
    ensures Of(pool.pending, a) == Gap(a) && Of(pool.queue, a) == map[] && !pool.RunAt(a)
  {
    hide TxPool.Valid, AddStep, Brought, Executed, Alone, Reinjected, Rebuilt, ResetOne, InRun, Calm, Keeps;
    pool := new TxPool(LIMITS, At(a, 5), 0);
    var rs, panicked;
    ghost var trace, s;
    rs, trace := AddTxs(pool, [Plain(a, 5), Plain(a, 6)], false);
    BothPending(a, EnvOf(pool), trace, rs, pool.View());
    PoolIsSplit(pool);
    ghost var was := SeenOf(pool).(order := Order(pool.pending, pool.queue, map[]));
    StillAlone(pool.View(), was.order, a);
    panicked, s := Reset(pool, At(a, 3), [Plain(a, 3)], false, 0);
    ThreeQueued(a, was, s.trace, s.rs);
    AfterThree(a, was, s, pool.View());
    NotARun(a);
  }

  lemma {:induction false} NotARun(a: Address)
    ensures !InRun(Account(Gap(a), map[], 7), 3)
  {
    assert 4 !in Gap(a);
  }

  lemma {:induction false} AfterThree(a: Address, was: Seen, s: Steps, now: Order)
    requires Reinjected(EnvAt(a, 3), Rules(At(a, 3), false, 0, 32), was, [Plain(a, 3)], s)
             && Rebuilt(EnvAt(a, 3), s, now)
    requires s.rs == [Added(false)] && s.trace[1].order == was.order.(queue := File(was.order.queue, Plain(a, 3)))
    requires Alone(was.order, a) && Of(was.order.queue, a) == map[]
    requires Of(was.order.pending, a) == map[5 := Plain(a, 5), 6 := Plain(a, 6)]
    ensures Look(At(a, 3).nonces, now, a) == Account(Gap(a), map[], 7)
  {
    hide AddStep, Executed, Alone, Dirty, Rebuilt, AllDisjoint;
    OneSender([Plain(a, 3)], s.rs, a);
    ThreeComesBack(a, was.order, s.trace[1].order, s.met);
    GapIsLeft(a, s, now);
  }

  lemma {:induction false} BothPending(a: Address, env: Env, trace: seq<Seen>, rs: seq<AddResult>, now: Order)
    requires AddedEach(Rules(At(a, 5), false, 0, 32), [Plain(a, 5), Plain(a, 6)], false, trace, rs)
    requires (|rs| == 2 || StoppedByPanic(rs)) && trace[0] == Seen(map[], Order(map[], map[], map[]), {})
    requires env == EnvAt(a, 5).(locals := trace[|rs|].locals)
    requires Brought(env, trace[|rs|].order, now, [Plain(a, 5), Plain(a, 6)], rs)
    ensures Alone(now, a) && !StoppedByPanic(rs) && env.locals == {}
    ensures Look(At(a, 5).nonces, now, a) == Account(map[5 := Plain(a, 5), 6 := Plain(a, 6)], map[], 7)
  {
    hide AddStep, Executed, Alone, Dirty;
    TwoQueued(a, trace, rs);
    OneSender([Plain(a, 5), Plain(a, 6)], rs, a);
    FiveAndSix(a, trace[2].order, now);
  }
}
