/** Bringing the pool in line with a new head, and every run of the pool. */
module PoolReset {
  import opened Types
  import opened TxLists
  import opened Priced
  import opened Partition
  import opened Nonces
  import opened Accounts
  import opened TxPools
  import opened PoolAdd
  import opened PoolRuns
  import opened Demotion
  import Truncation

  // ---------- One account under a reset ----------

  /** Where a reset passes through: what is reinjected, demoted, renewed, promoted, before it is truncated. */
  datatype Steps = Steps(
    rs: seq<AddResult>,
    trace: seq<Seen>,
    met: Order,
    settled: Order,
    ready: Order,
    filled: Order)

  ghost predicate AllDisjoint(state: NonceMap, o: Order) {
    forall a :: Disjoint(Look(state, o, a))
  }

  /** The transactions brought back are added one by one from `was`, and promoted. */
  ghost predicate Reinjected(env: Env, rules: Rules, was: Seen, txs: seq<Tx>, s: Steps) {
    && rules.state == env.state && was.order.known == map[]
    && AddedEach(rules, txs, false, s.trace, s.rs) && s.trace[0] == was && !StoppedByPanic(s.rs)
    && AllDisjoint(env.state.nonces, s.trace[|s.rs|].order)
    && Brought(env, s.trace[|s.rs|].order, s.met, txs, s.rs)
  }

  /** Then every account is demoted, its next nonce renewed, and all is promoted and truncated. */
  ghost predicate Rebuilt(env: Env, s: Steps, now: Order) {
    && AllSettled(Both(s.met.pending, s.met.queue), Both(s.settled.pending, s.settled.queue), env.state.nonces,
                  env.Drop(), MarkTest(env.marked), env.floor, s.met.pending.Keys,
                  FULL_VALIDATION_LIMIT <= Truncation.Total(s.met.pending))
    && s.settled.known == s.met.known
    && s.ready.pending == s.settled.pending && s.ready.queue == s.settled.queue
    && Renewed(s.settled.pending, s.settled.known, s.ready.known)
    && AllDisjoint(env.state.nonces, s.ready)
    && PromotedTo(env, s.ready, s.filled, None) && Truncated(env, s.filled, now)
  }

  ghost function Senders(txs: seq<Tx>): set<Address> {
    set i | 0 <= i < |txs| :: txs[i].sender
  }

  /** The state nonce of the account did not fall, or none of its transactions is brought back. */
  ghost predicate Calm(was: NonceMap, now: NonceMap, txs: seq<Tx>, a: Address) {
    StateNonce(was, a) <= StateNonce(now, a) || a !in Senders(txs)
  }

  /** What a run under an earlier state nonce is once transactions have been brought back. */
  lemma {:induction false} MetRests(env: Env, rules: Rules, was: Seen, txs: seq<Tx>, s: Steps, from: nat, to: nat,
                                    a: Address)
    requires Reinjected(env, rules, was, txs, s) && Interval(Of(was.order.pending, a), from, to)
    ensures var y, n := Look(env.state.nonces, s.met, a), env.Nonce(a);
            && Founded(y, n, Passing(env.Drop(), env.floor)) && Resting(y, n, env.floor)
            && (from <= n || a !in Senders(txs) ==> n in y.pending ==> Anchored(Forward(y.pending, n), n))
  {
    hide AddStep, Executed, IsCut, AllCut, Keeps, Gapless, Anchored, Founded, Resting, Forward, Disjoint, Dirty;
    hide Interval, Senders;
    var nonces, n, added := env.state.nonces, env.Nonce(a), s.trace[|s.rs|].order;
    var x, m, y := Look(nonces, was.order, a), Look(nonces, added, a), Look(nonces, s.met, a);
    RunForward(x.pending, from, to, n);
    AddedKeeps(rules, txs, false, s.trace, s.rs, |s.rs|);
    CutAt(nonces, was.order, added, a);
    CutForward(x, m, n);
    CutKeepsRun(x, m, n);
    if Dirty(txs, s.rs) == {} {
      GaplessRests(m, n, Passing(env.Drop(), env.floor), env.floor);
    } else {
      DirtySent(txs, s.rs, a);
      ExecutedRests(env, added, s.met, Some(Dirty(txs, s.rs)), a);
      if a !in Senders(txs) {
        CutForward(m, y, n);
      }
    }
    if n in y.pending && from > n && a !in Senders(txs) {
      GaplessIsAnchored(y.pending, n);
    }
  }

  lemma {:induction false} RunForward(m: TxMap, from: nat, to: nat, n: nat)
    requires Interval(m, from, to)
    ensures Gapless(Forward(m, n)) && (from <= n ==> Anchored(Forward(m, n), n))
  {
    var l := Forward(m, n);
    if from <= n {
      assert Interval(l, n, if n <= to then to else n);
    } else {
      assert Interval(l, from, to);
    }
  }

  lemma {:induction false} DirtySent(txs: seq<Tx>, rs: seq<AddResult>, a: Address)
    requires |rs| <= |txs|
    ensures a in Dirty(txs, rs) ==> a in Senders(txs)
  {
  }

  /**
   What becomes of an account. Before the truncations its pending nonces are the run from the state
   nonce exactly if demotion met no hole. At the end they are exactly if it met none, or if
   truncation has cut the list at the gap or below; and then the account is in order.
   */
  ghost predicate ResetAt(env: Env, s: Steps, now: Order, a: Address, drop: Tx -> bool) {
    var whole, n := !Holed(Of(s.met.pending, a), env.Nonce(a), Passing(drop, env.floor)), env.Nonce(a);
    && (InRun(Look(env.state.nonces, s.filled, a), n) <==> whole)
    && (InOrder(Look(env.state.nonces, now, a), n) <==>
          whole || Look(env.state.nonces, now, a).next <= Look(env.state.nonces, s.met, a).next)
    && (InRun(Look(env.state.nonces, now, a), n) <==> InOrder(Look(env.state.nonces, now, a), n))
  }

  /** The drop test an account was demoted under: the full one until its budget is spent. */
  ghost function Test(env: Env, full: bool): Tx -> bool {
    if full then env.Drop() else MarkTest(env.marked)
  }

  ghost predicate SettledUnder(env: Env, s: Steps, a: Address, full: bool) {
    Settled(Both(s.met.pending, s.met.queue), Both(s.settled.pending, s.settled.queue), env.state.nonces,
            Test(env, full), env.floor, a)
  }

  lemma {:induction false} ResetExactly(env: Env, s: Steps, now: Order, a: Address, full: bool)
    requires Rebuilt(env, s, now) && SettledUnder(env, s, a, full)
    requires Founded(Look(env.state.nonces, s.met, a), env.Nonce(a), Passing(env.Drop(), env.floor))
    requires Resting(Look(env.state.nonces, s.met, a), env.Nonce(a), env.floor)
    ensures ResetAt(env, s, now, a, Test(env, full))
  {
    hide AllSettled, Settled, Renewed, PromotedTo, Truncated, Holed, InRun, QueueAbove, Anchored, Founded, Resting;
    hide Standing, Passing, Executed, Disjoint, Test, SettledUnder;
    var nonces, n, m, drop := env.state.nonces, env.Nonce(a), Of(s.met.pending, a), Test(env, full);
    StandingExactly(m, n, drop, env.floor);
    if Holed(m, n, Passing(drop, env.floor)) {
      HoleStays(env, s, a, full);
      HoleAtEnd(env, s, now, a);
    } else {
      NextIsState(env, s, a, full);
      RenewedIsRun(nonces, s.ready.pending, s.ready.queue, s.settled.known, s.ready.known, a);
      FilledInOrder(env, s, a);
      Whole(env, s, now);
      ExecutedAt(env, s.ready, now, None, a);
    }
  }

  lemma {:induction false} Whole(env: Env, s: Steps, now: Order)
    requires Rebuilt(env, s, now)
    ensures Executed(env, s.ready, now, None)
  {
    hide PromotedTo, Truncated;
  }

  lemma {:induction false} FilledInOrder(env: Env, s: Steps, a: Address)
    requires AllDisjoint(env.state.nonces, s.ready) && PromotedTo(env, s.ready, s.filled, None)
    requires InRun(Look(env.state.nonces, s.ready, a), env.Nonce(a))
    ensures InRun(Look(env.state.nonces, s.filled, a), env.Nonce(a))
  {
    hide Promoted, InRun, Disjoint, QueueAbove;
    PromotedInOrder(Look(env.state.nonces, s.ready, a), env.Nonce(a), env.Drop(), env.floor, env.QueueCap(a));
  }

  /** Where nothing is left standing, nothing beyond the state nonce is expected. */
  lemma {:induction false} NextIsState(env: Env, s: Steps, a: Address, full: bool)
    requires SettledUnder(env, s, a, full)
    requires Founded(Look(env.state.nonces, s.met, a), env.Nonce(a), Passing(env.Drop(), env.floor))
    ensures Of(s.settled.pending, a) == Standing(Of(s.met.pending, a), env.Nonce(a), Test(env, full), env.floor)
    ensures Of(s.settled.pending, a) == map[] ==> NextNonce(env.state.nonces, s.met.known, a) == env.Nonce(a)
  {
    hide Standing, Demoted;
    var m, n, drop := Of(s.met.pending, a), env.Nonce(a), Test(env, full);
    if NextNonce(env.state.nonces, s.met.known, a) != n {
      PassingStands(m, n, drop, env.floor, n);
    }
  }

  /** Where demotion leaves a hole standing, the first gap is at the next nonce from before. */
  lemma {:induction false} HoleStays(env: Env, s: Steps, a: Address, full: bool)
    requires s.ready.pending == s.settled.pending && s.ready.queue == s.settled.queue
    requires Renewed(s.settled.pending, s.settled.known, s.ready.known) && SettledUnder(env, s, a, full)
    requires Resting(Look(env.state.nonces, s.met, a), env.Nonce(a), env.floor)
    requires Holed(Of(s.met.pending, a), env.Nonce(a), Passing(Test(env, full), env.floor))
    ensures GapAt(Look(env.state.nonces, s.ready, a), env.Nonce(a), Look(env.state.nonces, s.met, a).next, env.floor)
  {
    hide Standing, Anchored, Passing, Test, Holed, Forward;
    var m, n, drop := Of(s.met.pending, a), env.Nonce(a), Test(env, full);
    var x, gap := Look(env.state.nonces, s.ready, a), Look(env.state.nonces, s.met, a).next;
    HoledHasState(m, n, Passing(drop, env.floor));
    if Anchored(Forward(m, n), n) {
      AnchoredIsWhole(m, n, Passing(drop, env.floor));
    }
    var k := StandingGap(m, n, drop, env.floor, gap);
    NextIsPast(env.state.nonces, s.ready, s.settled.known, a, k);
    assert gap in x.queue ==> gap in Of(s.met.queue, a) && x.queue[gap] == Of(s.met.queue, a)[gap];
  }

  lemma {:induction false} HoledHasState(m: TxMap, n: nat, pass: Tx -> bool)
    requires Holed(m, n, pass)
    ensures n in m
  {
  }

  lemma {:induction false} NextIsPast(state: NonceMap, o: Order, was: NonceMap, a: Address, k: nat)
    requires Renewed(o.pending, was, o.known) && k in Of(o.pending, a) && StateNonce(state, a) <= k
    ensures k < Look(state, o, a).next
  {
  }

  /** What stands of a list with a hole: all up to the first gap, and something above it. */
  lemma {:induction false} StandingGap(m: TxMap, n: nat, drop: Tx -> bool, floor: Option<nat>,
                                       gap: nat) returns (k: nat)
    requires Holed(m, n, Passing(drop, floor)) && n < gap && gap !in m && forall j :: n <= j < gap ==> j in m
    ensures var s := Standing(m, n, drop, floor);
            && gap < k && k in s && gap !in s && (forall j :: n <= j < gap ==> j in s) && (forall j :: j in s ==>
                n <= j)
  {
    hide Standing, Passing;
    var h: nat;
    h, k :| HoleAt(m, n, Passing(drop, floor), h, k);
    PassingHoleStands(m, n, drop, floor, h, k);
    StandingIsExecutable(m, n, drop, floor);
  }

  /** Promotion does not fill the gap; what is left at the end is in order exactly if it was cut there or below. */
  lemma {:induction false} HoleAtEnd(env: Env, s: Steps, now: Order, a: Address)
    requires Rebuilt(env, s, now)
    requires GapAt(Look(env.state.nonces, s.ready, a), env.Nonce(a), Look(env.state.nonces, s.met, a).next, env.floor)
    ensures var n, y := env.Nonce(a), Look(env.state.nonces, now, a);
            && !InRun(Look(env.state.nonces, s.filled, a), n)
            && (InRun(y, n) <==> y.next <= Look(env.state.nonces, s.met, a).next) && (InRun(y, n) <==> InOrder(y, n))
  {
    hide AllSettled, Renewed, Promoted, Disjoint, AllCut, IsCut, Shrunk, WithinLimits, Submap, QueueAbove, NothingReady;
    var nonces, n, gap := env.state.nonces, env.Nonce(a), Look(env.state.nonces, s.met, a).next;
    var x, m, y := Look(nonces, s.ready, a), Look(nonces, s.filled, a), Look(nonces, now, a);
    PromotedGap(x, n, env.Drop(), env.floor, env.QueueCap(a), gap);
    SharesShrunk(nonces, s.filled, now, a);
    CutAt(nonces, s.filled, now, a);
    CutAtGap(m, y, n, gap, env.floor);
    assert gap !in m.pending && n <= gap < m.next;
  }

  lemma {:induction false} PassingHoleStands(m: TxMap, n: nat, drop: Tx -> bool, floor: Option<nat>, h: nat, k: nat)
    requires n in m && HoleAt(m, n, Passing(drop, floor), h, k)
    ensures k in Standing(m, n, drop, floor)
  {
    PassingStands(m, n, drop, floor, k);
  }

  /** Under one of the two drop tests; the light one only if the budget for the full one was spent. */
  ghost predicate ResetOne(env: Env, s: Steps, now: Order, a: Address) {
    exists full: bool ::
      (!full ==> FULL_VALIDATION_LIMIT <= Truncation.Total(s.met.pending)) && ResetAt(env, s, now, a, Test(env, full))
  }

  /** Every account that was in a run before a reset, and in order after it if the reset was calm for it. */
  lemma {:induction false} ResetEach(env: Env, rules: Rules, was: Seen, txs: seq<Tx>, s: Steps, now: Order,
                                     earlier: NonceMap, before: Order, a: Address)
    requires Reinjected(env, rules, was, txs, s) && Rebuilt(env, s, now) && before.pending == was.order.pending
    requires InRun(Look(earlier, before, a), StateNonce(earlier, a))
    ensures ResetOne(env, s, now, a)
    ensures Calm(earlier, env.state.nonces, txs, a) ==> InOrder(Look(env.state.nonces, now, a), env.Nonce(a))
  {
    hide Reinjected, AllSettled, Settled, Renewed, PromotedTo, Truncated, Founded, Resting, Anchored, InOrder, Holed;
    hide Passing, Forward, Truncation.Total, Test;
    var nonces, n := env.state.nonces, env.Nonce(a);
    MetRests(env, rules, was, txs, s, StateNonce(earlier, a), Look(earlier, before, a).next, a);
    var full := FullTest(env, s, now, a);
    ResetExactly(env, s, now, a, full);
    if Calm(earlier, nonces, txs, a) {
      AnchoredIsWhole(Of(s.met.pending, a), n, Passing(Test(env, full), env.floor));
    }
  }

  lemma {:induction false} FullTest(env: Env, s: Steps, now: Order, a: Address) returns (full: bool)
    requires Rebuilt(env, s, now)
    ensures SettledUnder(env, s, a, full) && (!full ==> FULL_VALIDATION_LIMIT <= Truncation.Total(s.met.pending))
  {
    hide AllSettled, Settled, Renewed, PromotedTo, Truncated, Truncation.Total;
    EveryoneSettled(Both(s.met.pending, s.met.queue), Both(s.settled.pending, s.settled.queue), env.state.nonces,
                    env.Drop(), MarkTest(env.marked), env.floor,
                    FULL_VALIDATION_LIMIT <= Truncation.Total(s.met.pending), a);
    full := SettledUnder(env, s, a, true);
  }

  // ---------- Reset ----------

  /** Points the pool at a new state; nothing of the old pending nonces is kept. */
  method SwitchState(pool: TxPool, state: ChainState)
    requires pool.Valid()
    modifies pool`state, pool`pendingNonce
    ensures pool.Valid() && pool.state == state && pool.pendingNonce == map[]
  {
    hide Split, SlotSum, KeyedByHash, Covers;
    pool.state, pool.pendingNonce := state, map[];
  }

  method SwitchRules(pool: TxPool, magma: bool, gasPrice: nat)
    requires pool.Valid()
    modifies pool`magma, pool`gasPrice
    ensures pool.Valid() && pool.magma == magma && pool.gasPrice == gasPrice
  {
    hide Split, SlotSum, KeyedByHash, Covers;
    pool.magma, pool.gasPrice := magma, gasPrice;
  }

  /**
   Moves the pool to a new head. `reinject` holds the transactions of abandoned blocks
   that the new chain does not include.

   The pool stays consistent whatever the new head. An account whose pending nonces were a run
   has them in a run from the new state nonce again, with everything queued above, if its state
   nonce did not fall or nothing of it was brought back; and otherwise exactly if what was brought
   back left no hole below what still stands.
   */
  method Reset(pool: TxPool, state: ChainState, reinject: seq<Tx>, magma: bool, gasPrice: nat)
    returns (panicked: bool, ghost s: Steps)
    requires pool.Valid()
    modifies pool, pool.all, pool.priced
    ensures pool.Valid() && pool.state == state && pool.marked == old(pool.marked)
    ensures var rules := Rules(state, old(pool.magma), old(pool.gasPrice), pool.config.Capacity());
            var was := old(SeenOf(pool)).(order := Order(old(pool.pending), old(pool.queue), map[]));
            && AddedEach(rules, reinject, false, s.trace, s.rs) && s.trace[0] == was
            && (panicked <==> StoppedByPanic(s.rs)) && (|s.rs| == |reinject| || panicked)
            && pool.locals == s.trace[|s.rs|].locals
    ensures !panicked ==> pool.magma == magma && pool.gasPrice == gasPrice
    ensures !panicked ==>
              var env := Env(state, pool.marked, old(pool.Floor()), pool.locals, pool.config);
              var rules := Rules(state, old(pool.magma), old(pool.gasPrice), pool.config.Capacity());
              var was := old(SeenOf(pool)).(order := Order(old(pool.pending), old(pool.queue), map[]));
              && Reinjected(env, rules, was, reinject, s) && Rebuilt(env, s, pool.View())
              && (forall a :: old(pool.RunAt(a)) ==> ResetOne(env, s, pool.View(), a))
    ensures !panicked ==>
              forall a :: old(pool.RunAt(a)) && Calm(old(pool.state.nonces), state.nonces, reinject, a) ==>
                pool.OrderAt(a)
  {
    hide TxPool.Valid, AddStep, Executed, AllSettled, Renewed, PromotedTo, Truncated, Disjoint, Dirty, Keeps;
    hide InRun, InOrder, Truncation.Total, ResetOne, Calm, MarkTest;
    ghost var earlier, before := pool.state.nonces, pool.View();
    SwitchState(pool, state);
    ghost var was := SeenOf(pool);
    var rs;
    ghost var trace;
    rs, trace := AddTxs(pool, reinject, false);
    s := Steps(rs, trace, pool.View(), pool.View(), pool.View(), pool.View());
    if rs != [] && rs[|rs| - 1].Panicked? {
      return true, s;
    }
    DemoteUnexecutables(pool);
    s := s.(settled := pool.View());
    RenewPendingNonces(pool);
    s := s.(ready := pool.View());
    PoolIsDisjoint(pool);
    ghost var env := EnvOf(pool);
    PromoteExecutables(pool, None);
    ghost var mid := Middle(env, s.ready, pool.View());
    s := s.(filled := mid);
    forall a | InRun(Look(earlier, before, a), StateNonce(earlier, a))
      ensures ResetOne(env, s, pool.View(), a)
      ensures Calm(earlier, state.nonces, reinject, a) ==> pool.OrderAt(a)
    {
      ResetEach(env, RulesOf(pool), was, reinject, s, pool.View(), earlier, before, a);
    }
    SwitchRules(pool, magma, gasPrice);
    panicked := false;
  }

  lemma {:induction false} Middle(env: Env, was: Order, now: Order) returns (mid: Order)
    requires Executed(env, was, now, None)
    ensures PromotedTo(env, was, mid, None) && Truncated(env, mid, now)
  {
    hide PromotedTo, Truncated;
    mid :| PromotedTo(env, was, mid, None) && Truncated(env, mid, now);
  }

  // ---------- Starting ----------

  const JOURNAL_BATCH: nat := 1024

  /** Adds journalled transactions in batches, as local ones. */
  method LoadJournal(pool: TxPool, journal: seq<Tx>) returns (panicked: bool)
    requires pool.Valid() && pool.config.Capacity() < TWO_64
    modifies pool`pending, pool`queue, pool`beats, pool`pendingNonce, pool`locals, pool.all, pool.priced
    ensures pool.Valid() && Keeps(pool.state.nonces, old(pool.View()), pool.View())
  {
    hide TxPool.Valid, AddStep, AddedEach, Executed, Keeps, Brought;
    KeepsItself(pool.state.nonces, pool.View());
    var done := 0;
    while done < |journal|
      invariant done <= |journal| && pool.Valid()
      invariant Keeps(pool.state.nonces, old(pool.View()), pool.View())
    {
      var end := if |journal| - done > JOURNAL_BATCH then done + JOURNAL_BATCH + 1 else |journal|;
      ghost var mid := pool.View();
      var rs, refused;
      ghost var trace;
      rs, refused, trace := CheckAndAddTxs(pool, journal[done..end], true);
      KeepsAgain(pool.state.nonces, old(pool.View()), mid, pool.View());
      if rs != [] && rs[|rs| - 1].Panicked? {
        return true;
      }
      done := end;
    }
    panicked := false;
  }

  /** A new pool: empty, reset to the head of the chain, and filled from the journal. Every account is in order. */
  method Start(config: Config, unitPrice: nat, state: ChainState, magma: bool, gasPrice: nat, journal: seq<Tx>)
    returns (pool: TxPool, panicked: bool)
    requires config.Capacity() < TWO_64
    ensures fresh(pool) && pool.Valid() && pool.state == state && pool.config == config
    ensures forall a :: pool.OrderAt(a)
  {
    hide TxPool.Valid, AddStep, InRun, QueueAbove, Reinjected, Rebuilt, ResetOne, Keeps;
    pool := new TxPool(config, state, unitPrice);
    forall a ensures pool.RunAt(a) { assert pool.OrderAt(a); }
    ghost var s;
    panicked, s := Reset(pool, state, [], magma, gasPrice);
    ghost var mid := pool.View();
    forall a ensures InOrder(Look(pool.state.nonces, mid, a), StateNonce(pool.state.nonces, a)) {
      assert pool.OrderAt(a);
    }
    panicked := LoadJournal(pool, journal);
    KeptOrder(pool.state.nonces, mid, pool.View());
    forall a ensures pool.OrderAt(a) {
      assert InOrder(Look(pool.state.nonces, pool.View(), a), StateNonce(pool.state.nonces, a));
    }
  }

  // ---------- Eviction ----------

  /** Removes the queues of accounts that have been idle for longer than the lifetime. */
  method Evict(pool: TxPool, lifetime: nat)
    requires pool.Valid()
    modifies pool`pending, pool`queue, pool`beats, pool`pendingNonce, pool.all, pool.priced
    ensures pool.Valid() && pool.pending == old(pool.pending) && pool.pendingNonce == old(pool.pendingNonce)
    ensures forall a :: a in old(pool.queue) ==>
              Of(pool.queue, a) ==
                if a in old(pool.beats) && old(pool.beats)[a] + lifetime < pool.now
                   && !(pool.config.keepLocals && a in pool.locals)
                then map[] else old(pool.queue)[a]
    ensures Shrunk(old(pool.queue), pool.queue) && Keeps(pool.state.nonces, old(pool.View()), pool.View())
  {
    hide TxPool.Valid, Truncation.Total, Shrunk, Keeps;
    NothingShrunk(pool.queue);
    var beats := pool.beats;
    var todo := beats.Keys;
    while todo != {}
      invariant todo <= beats.Keys
      invariant pool.Valid() && pool.pending == old(pool.pending) && pool.pendingNonce == old(pool.pendingNonce)
      invariant forall a :: a in old(pool.queue) ==>
                  Of(pool.queue, a) ==
                    if a in beats && a !in todo && beats[a] + lifetime < pool.now
                       && !(pool.config.keepLocals && a in pool.locals)
                    then map[] else old(pool.queue)[a]
      invariant Shrunk(old(pool.queue), pool.queue)
      decreases todo
    {
      var a :| a in todo;
      todo := todo - {a};
      if pool.config.keepLocals && a in pool.locals {
        ForgetBeat(pool, a);
      } else if pool.now > beats[a] + lifetime {
        if a in pool.queue {
          ghost var was := pool.queue;
          Truncation.RemoveWholeQueue(pool, a);
          Truncation.SameExcept(pool.queue, was, a);
          OneEmptied(was, pool.queue, a);
          ShrunkAgain(old(pool.queue), was, pool.queue);
        }
        ForgetBeat(pool, a);
      }
    }
    ShrunkKeeps(pool.state.nonces, old(pool.View()), pool.View());
  }

  lemma {:induction false} NothingShrunk(m: Lists)
    ensures Shrunk(m, m)
  {
  }

  lemma {:induction false} OneEmptied(was: Lists, now: Lists, a: Address)
    requires Of(now, a) == map[] && forall b :: b != a ==> Of(now, b) == Of(was, b)
    ensures Shrunk(was, now)
  {
  }

  lemma {:induction false} ShrunkKeeps(state: NonceMap, was: Order, now: Order)
    requires now.pending == was.pending && now.known == was.known && Shrunk(was.queue, now.queue)
    ensures Keeps(state, was, now)
  {
    NoneCut(state, was, now);
    AllCutKeeps(state, was, now);
  }

  method ForgetBeat(pool: TxPool, a: Address)
    requires pool.Valid()
    modifies pool`beats
    ensures pool.Valid() && pool.beats == old(pool.beats) - {a}
  {
    hide Split, SlotSum, KeyedByHash, Covers;
    pool.beats := pool.beats - {a};
  }

  // ---------- Whole runs ----------

  datatype Event =
    | Arrive(tx: Tx, local: bool)
    | ArriveMany(txs: seq<Tx>, local: bool)
    | NewHead(state: ChainState, reinject: seq<Tx>, magma: bool, gasPrice: nat)
    | Idle(lifetime: nat)
    | Clock(now: nat)
    | MarkUnexecutable(hashes: set<TxHash>)
  {
    /** The state nonces after the event. */
    ghost function Nonces(nonces: NonceMap): NonceMap {
      if NewHead? then state.nonces else nonces
    }

    ghost predicate CalmFor(nonces: NonceMap, a: Address) {
      NewHead? ==> Calm(nonces, state.nonces, reinject, a)
    }
  }

  /** No new head of a run lowers the state nonce of the account and brings back a transaction of it as well. */
  ghost predicate Undisturbed(nonces: NonceMap, events: seq<Event>, a: Address)
    decreases |events|
  {
    events == [] || (events[0].CalmFor(nonces, a) && Undisturbed(events[0].Nonces(nonces), events[1..], a))
  }

  method SetClock(pool: TxPool, now: nat)
    requires pool.Valid()
    modifies pool`now
    ensures pool.Valid() && pool.now == now
  {
    hide Split, SlotSum, KeyedByHash, Covers;
    pool.now := now;
  }

  method Mark(pool: TxPool, hashes: set<TxHash>)
    requires pool.Valid()
    modifies pool`marked
    ensures pool.Valid() && pool.marked == old(pool.marked) + hashes
  {
    hide Split, SlotSum, KeyedByHash, Covers;
    pool.marked := pool.marked + hashes;
  }

  /** One event. */
  method Step(pool: TxPool, e: Event) returns (panicked: bool)
    requires pool.Valid() && (e.ArriveMany? ==> pool.config.Capacity() < TWO_64)
    modifies pool, pool.all, pool.priced
    ensures pool.Valid() && pool.state.nonces == e.Nonces(old(pool.state.nonces))
    ensures !panicked ==>
              forall a :: old(pool.OrderAt(a)) && e.CalmFor(old(pool.state.nonces), a) ==> pool.OrderAt(a)
  {
    hide TxPool.Valid, AddStep, AddedEach, Executed, Keeps, InRun, QueueAbove, Brought, Calm, Reinjected, Rebuilt;
    hide ResetOne;
    panicked := false;
    match e
    case Arrive(tx, local) =>
      var r;
      ghost var mid;
      r, mid := AddTx(pool, tx, local);
      panicked := r.Panicked?;
      KeptOrder(pool.state.nonces, old(pool.View()), pool.View());
    case ArriveMany(txs, local) =>
      var rs, refused;
      ghost var trace;
      rs, refused, trace := CheckAndAddTxs(pool, txs, local);
      panicked := rs != [] && rs[|rs| - 1].Panicked?;
      KeptOrder(pool.state.nonces, old(pool.View()), pool.View());
    case NewHead(state, reinject, magma, gasPrice) =>
      ghost var s;
      panicked, s := Reset(pool, state, reinject, magma, gasPrice);
    case Idle(lifetime) =>
      Evict(pool, lifetime);
      KeptOrder(pool.state.nonces, old(pool.View()), pool.View());
    case Clock(now) =>
      SetClock(pool, now);
    case MarkUnexecutable(hashes) =>
      Mark(pool, hashes);
  }

  lemma {:induction false} KeptOrder(state: NonceMap, was: Order, now: Order)
    requires Keeps(state, was, now)
    ensures forall a :: InOrder(Look(state, was, a), StateNonce(state, a)) ==>
              InOrder(Look(state, now, a), StateNonce(state, a))
  {
    forall a | InOrder(Look(state, was, a), StateNonce(state, a))
      ensures InOrder(Look(state, now, a), StateNonce(state, a))
    {
      KeepsAt(state, was, now, a);
    }
  }

  /**
   Every run of the pool, from any consistent state: it stays consistent after every event,
   reorganisations included. Every account in order at the start is in order at the end, unless
   some new head both lowered its state nonce and brought back a transaction of it. A panic ends the run.
   */
  method Run(pool: TxPool, events: seq<Event>) returns (n: nat, panicked: bool)
    requires pool.Valid() && pool.config.Capacity() < TWO_64
    modifies pool, pool.all, pool.priced
    ensures pool.Valid() && n <= |events| && (!panicked ==> n == |events|)
    ensures !panicked ==>
              forall a :: old(pool.OrderAt(a)) && Undisturbed(old(pool.state.nonces), events, a) ==> pool.OrderAt(a)
  {
    hide TxPool.Valid, InOrder, Undisturbed;
    n, panicked := 0, false;
    assert events[0..] == events;
    while n < |events|
      invariant n <= |events| && pool.Valid() && !panicked
      invariant forall a :: old(pool.OrderAt(a)) && Undisturbed(old(pool.state.nonces), events, a) ==>
                  pool.OrderAt(a) && Undisturbed(pool.state.nonces, events[n..], a)
    {
      ghost var nonces := pool.state.nonces;
      panicked := Step(pool, events[n]);
      UndisturbedNext(nonces, events, n);
      n := n + 1;
      if panicked {
        return;
      }
    }
  }

  lemma {:induction false} UndisturbedNext(nonces: NonceMap, events: seq<Event>, n: nat)
    requires n < |events|
    ensures forall a :: Undisturbed(nonces, events[n..], a) ==>
              events[n].CalmFor(nonces, a) && Undisturbed(events[n].Nonces(nonces), events[n + 1..], a)
  {
    assert events[n..][0] == events[n] && events[n..][1..] == events[n + 1..];
  }
}
