/**
 The pool's public operations: promoting with the truncations after it, adding one
 transaction or a batch.
 */
module PoolRuns {
  import opened Types
  import opened TxLists
  import opened Priced
  import opened Partition
  import opened Nonces
  import opened Accounts
  import opened TxPools
  import opened PoolAdd
  import Truncation

  // ---------- Promoting ----------

  /** What promotion reads besides the lists. */
  datatype Env = Env(
    state: ChainState,
    marked: set<TxHash>,
    floor: Option<nat>,
    locals: set<Address>,
    config: Config)
  {
    function Drop(): Tx -> bool { DropTest(state, marked) }

    function QueueCap(a: Address): Option<nat> {
      if a in locals then None else Some(config.nonExecSlotsAccount)
    }

    function Nonce(a: Address): nat { StateNonce(state.nonces, a) }
  }

  ghost function EnvOf(pool: TxPool): Env
    reads pool`state, pool`marked, pool`magma, pool`gasPrice, pool`locals
  {
    Env(pool.state, pool.marked, pool.Floor(), pool.locals, pool.config)
  }

  predicate Chosen(accounts: Option<set<Address>>, a: Address) {
    accounts.None? || a in accounts.value
  }

  /** Every chosen account's share is promoted and every other share is as it was. */
  ghost predicate PromotedTo(env: Env, was: Order, now: Order, accounts: Option<set<Address>>) {
    forall a ::
      var x := Look(env.state.nonces, was, a);
      Look(env.state.nonces, now, a) ==
        if Chosen(accounts, a) then Promoted(x, env.Nonce(a), env.Drop(), env.floor, env.QueueCap(a)) else x
  }

  lemma {:induction false} NonePromoted(env: Env, o: Order)
    ensures PromotedTo(env, o, o, Some({}))
  {
  }

  lemma {:induction false} PromotedOneMore(env: Env, was: Order, mid: Order, now: Order, done: set<Address>, a: Address)
    requires PromotedTo(env, was, mid, Some(done)) && a !in done && SameBut(env.state.nonces, mid, now, a)
    requires Look(env.state.nonces, now, a) ==
               Promoted(Look(env.state.nonces, mid, a), env.Nonce(a), env.Drop(), env.floor, env.QueueCap(a))
    ensures PromotedTo(env, was, now, Some(done + {a}))
  {
    hide Promoted, Look;
  }

  lemma {:induction false} AllQueuesPromoted(env: Env, was: Order, now: Order)
    requires PromotedTo(env, was, now, Some(was.queue.Keys))
    ensures PromotedTo(env, was, now, None)
  {
    hide Promoted;
    forall a | a !in was.queue
      ensures var x := Look(env.state.nonces, was, a);
              Promoted(x, env.Nonce(a), env.Drop(), env.floor, env.QueueCap(a)) == x
    {
      NothingToPromote(Look(env.state.nonces, was, a), env.Nonce(a), env.Drop(), env.floor, env.QueueCap(a));
    }
  }

  /** Promotes for the given accounts, or for all that have something queued. */
  method PromoteAccounts(pool: TxPool, accounts: Option<set<Address>>)
    requires pool.Valid()
    modifies pool`pending, pool`queue, pool`beats, pool`pendingNonce, pool.all, pool.priced
    ensures pool.Valid() && PromotedTo(EnvOf(pool), old(pool.View()), pool.View(), accounts)
  {
    hide TxPool.Valid, PromotedTo, Promoted, SameBut, AfterReady, ReadyEnd, Screened, Cap, Below, SetList, FileAll;
    hide Look;
    var todo := if accounts.None? then pool.queue.Keys else accounts.value;
    ghost var all, done: set<Address> := todo, {};
    NonePromoted(EnvOf(pool), pool.View());
    while todo != {}
      invariant pool.Valid() && done + todo == all && done !! todo
      invariant PromotedTo(EnvOf(pool), old(pool.View()), pool.View(), Some(done))
      decreases todo
    {
      var a :| a in todo;
      ghost var mid := pool.View();
      pool.PromoteAccount(a);
      PromotedOneMore(EnvOf(pool), old(pool.View()), mid, pool.View(), done, a);
      todo, done := todo - {a}, done + {a};
    }
    assert done == all;
    if accounts.None? {
      AllQueuesPromoted(EnvOf(pool), old(pool.View()), pool.View());
    }
  }

  /** The pending lists are within their limit, or every remote one within what is guaranteed; queues likewise. */
  ghost predicate WithinLimits(env: Env, o: Order) {
    && (|| Truncation.Total(o.pending) <= env.config.execSlotsAll
        || forall a :: a in o.pending && a !in env.locals ==> |o.pending[a]| <= env.config.execSlotsAccount)
    && (|| Truncation.Total(o.queue) <= env.config.nonExecSlotsAll
        || forall a :: a in o.queue && o.queue[a] != map[] ==> a in env.locals)
  }

  /** What the truncations do: pending lists are cut, queues lose, and nothing happens below the limits. */
  ghost predicate Truncated(env: Env, mid: Order, now: Order) {
    && (forall a :: Disjoint(Look(env.state.nonces, mid, a)))
    && AllCut(env.state.nonces, mid, now) && Shrunk(mid.pending, now.pending) && Shrunk(mid.queue, now.queue)
    && (Truncation.Total(mid.pending) <= env.config.execSlotsAll ==>
          now.pending == mid.pending && now.known == mid.known)
    && (Truncation.Total(mid.queue) <= env.config.nonExecSlotsAll ==> now.queue == mid.queue)
    && WithinLimits(env, now)
  }

  /** Promotion of the chosen accounts, and then the truncations. */
  ghost predicate Executed(env: Env, was: Order, now: Order, accounts: Option<set<Address>>) {
    exists mid :: PromotedTo(env, was, mid, accounts) && Truncated(env, mid, now)
  }

  /** Promotion with both truncations after it. */
  method PromoteExecutables(pool: TxPool, accounts: Option<set<Address>>)
    requires pool.Valid()
    modifies pool`pending, pool`queue, pool`beats, pool`pendingNonce, pool.all, pool.priced
    ensures pool.Valid() && Executed(EnvOf(pool), old(pool.View()), pool.View(), accounts)
  {
    hide TxPool.Valid, PromotedTo, AllCut, Shrunk, Disjoint, Truncation.Total, Cap, Truncation.WaterFilled;
    hide Truncation.QueueCut, Truncation.InBeatOrder, WithinLimits;
    PromoteAccounts(pool, accounts);
    ghost var mid := pool.View();
    PoolIsDisjoint(pool);
    ghost var level := Truncation.TruncatePending(pool);
    NoneGrew(mid.pending, pool.pending, Truncation.Spammers(mid.pending, pool.locals, pool.config.execSlotsAccount),
             pool.config.execSlotsAccount, pool.config.execSlotsAll, level);
    ghost var cut, beats := pool.View(), pool.beats;
    ghost var order, from, kept := Truncation.TruncateQueue(pool);
    QueuesShrank(cut.queue, pool.queue, order, from, kept);
    SamePending(pool.state.nonces, mid, cut, pool.View());
    LimitsHold(EnvOf(pool), mid.pending, cut.queue, pool.View(), level, order, beats, from, kept);
    assert Truncated(EnvOf(pool), mid, pool.View());
  }

  lemma {:induction false} SamePending(state: NonceMap, mid: Order, cut: Order, now: Order)
    requires AllCut(state, mid, cut) && now.pending == cut.pending && now.known == cut.known
    ensures AllCut(state, mid, now)
  {
    NoneCut(state, cut, now);
    AllCutAgain(state, mid, cut, now);
  }

  lemma {:induction false} PoolIsDisjoint(pool: TxPool)
    requires pool.Valid()
    ensures forall a :: Disjoint(Look(pool.state.nonces, pool.View(), a))
  {
    hide Split, SlotSum, KeyedByHash, Covers, Disjoint;
    forall a ensures Disjoint(Look(pool.state.nonces, pool.View(), a)) {
      ShareIsDisjoint(pool.state.nonces, pool.View(), pool.all.txs, {}, a);
    }
  }

  lemma {:induction false} NoneGrew(was: Lists, now: Lists, spammers: set<Address>, guaranteed: nat, limit: nat,
                                    level: nat)
    ensures now == was || Truncation.WaterFilled(was, now, spammers, guaranteed, limit, level) ==> Shrunk(was, now)
  {
    hide Cap, Truncation.Total, Truncation.Cut;
    if Truncation.WaterFilled(was, now, spammers, guaranteed, limit, level) {
      forall a ensures Submap(Of(now, a), Of(was, a)) {
        if a in was { CapKeepsLowest(was[a], level); }
      }
    }
  }

  lemma {:induction false} QueuesShrank(was: Lists, now: Lists, order: seq<Truncation.Stamped>, from: nat, kept: nat)
    ensures now == was || Truncation.QueueCut(was, now, order, from, kept) ==> Shrunk(was, now)
  {
    hide Cap;
    if Truncation.QueueCut(was, now, order, from, kept) {
      forall a | a in now ensures Submap(Of(now, a), Of(was, a)) {
        if j :| from <= j < |order| && order[j].address == a {
          CapKeepsLowest(was[a], kept);
        }
      }
    }
  }

  /** Where a truncation could not reach its limit only what it may not touch is left. */
  lemma {:induction false} LimitsHold(env: Env, pending: Lists, queue: Lists, now: Order, level: nat,
                                      order: seq<Truncation.Stamped>, beats: map<Address, nat>, from: nat, kept: nat)
    requires Truncation.Total(pending) <= env.config.execSlotsAll ==> now.pending == pending
    requires Truncation.Total(pending) > env.config.execSlotsAll ==>
               Truncation.WaterFilled(pending, now.pending,
                                      Truncation.Spammers(pending, env.locals, env.config.execSlotsAccount),
                                      env.config.execSlotsAccount, env.config.execSlotsAll, level)
    requires Truncation.Total(queue) <= env.config.nonExecSlotsAll ==> now.queue == queue
    requires Truncation.Total(queue) > env.config.nonExecSlotsAll ==>
               && Truncation.InBeatOrder(order, queue.Keys - env.locals, beats)
               && Truncation.QueueCut(queue, now.queue, order, from, kept)
               && (Truncation.Total(now.queue) == env.config.nonExecSlotsAll || (from == 0 && kept == 0))
    ensures WithinLimits(env, now)
  {
    hide Truncation.Total, Truncation.WaterFilled, Truncation.QueueCut, Truncation.InBeatOrder, Truncation.Spammers;
    hide Cap;
    if Truncation.Total(now.pending) > env.config.execSlotsAll {
      PendingAtGuarantee(pending, now.pending, env.locals, env.config.execSlotsAccount, env.config.execSlotsAll, level);
    }
    if Truncation.Total(now.queue) > env.config.nonExecSlotsAll {
      OnlyLocalsLeft(queue, now.queue, order, env.locals, beats);
    }
  }

  lemma {:induction false} PendingAtGuarantee(was: Lists, now: Lists, locals: set<Address>, guaranteed: nat, limit: nat,
                                              level: nat)
    requires Truncation.WaterFilled(was, now, Truncation.Spammers(was, locals, guaranteed), guaranteed, limit, level)
    requires Truncation.Total(now) > limit
    ensures forall a :: a in now && a !in locals ==> |now[a]| <= guaranteed
  {
    forall a | a in now && a !in locals ensures |now[a]| <= guaranteed {
      CapKeepsLowest(was[a], guaranteed);
    }
  }

  lemma {:induction false} OnlyLocalsLeft(was: Lists, now: Lists, order: seq<Truncation.Stamped>, locals: set<Address>,
                                          beats: map<Address, nat>)
    requires Truncation.QueueCut(was, now, order, 0, 0)
    requires Truncation.InBeatOrder(order, was.Keys - locals, beats)
    ensures forall a :: a in now && now[a] != map[] ==> a in locals
  {
    forall a | a in now && a !in locals ensures now[a] == map[] {
      assert Truncation.Stamp(beats, a) in order;
      var i :| 0 <= i < |order| && order[i].address == a;
      CapKeepsLowest(Of(was, a), 0);
    }
  }

  // ---------- What promotion means for one account ----------

  /** A run that is cut gets a next nonce it held before, which is not queued as well: nothing becomes ready. */
  lemma {:induction false} CutNotReady(x: Account, y: Account, n: nat, floor: Option<nat>)
    requires Disjoint(x) && InRun(x, n) && IsCut(x, y, n) && Submap(y.queue, x.queue)
    requires NothingReady(x.queue, x.next, floor)
    ensures NothingReady(y.queue, y.next, floor)
  {
    CutKeepsRun(x, y, n);
    assert y.next == x.next || y.next in x.pending.Keys;
  }

  /**
   One account under promotion and truncation. A run stays a run. If the account was chosen it is
   in order afterwards and has nothing left to promote; if not, it is in order if it was.
   */
  lemma {:induction false} ExecutedAt(env: Env, was: Order, now: Order, accounts: Option<set<Address>>, a: Address)
    requires Executed(env, was, now, accounts) && Disjoint(Look(env.state.nonces, was, a))
    ensures var x, y, n := Look(env.state.nonces, was, a), Look(env.state.nonces, now, a), env.Nonce(a);
            && (InRun(x, n) ==> InRun(y, n))
            && (InRun(x, n) && (Chosen(accounts, a) || QueueAbove(x)) ==> InOrder(y, n))
            && (InRun(x, n) && Chosen(accounts, a) ==> NothingReady(y.queue, y.next, env.floor))
  {
    hide Promoted, Look, IsCut, WithinLimits, NothingReady, Disjoint, InRun, Submap;
    var mid :| PromotedTo(env, was, mid, accounts) && Truncated(env, mid, now);
    var x, m, y := Look(env.state.nonces, was, a), Look(env.state.nonces, mid, a), Look(env.state.nonces, now, a);
    var n := env.Nonce(a);
    SharesShrunk(env.state.nonces, mid, now, a);
    if InRun(x, n) {
      if Chosen(accounts, a) {
        PromotedInOrder(x, n, env.Drop(), env.floor, env.QueueCap(a));
        CutNotReady(m, y, n, env.floor);
      }
      CutKeepsRun(m, y, n);
      CutKeepsAbove(m, y, n);
    }
  }

  lemma {:induction false} SharesShrunk(state: NonceMap, mid: Order, now: Order, a: Address)
    requires Shrunk(mid.pending, now.pending) && Shrunk(mid.queue, now.queue)
    ensures Submap(Look(state, now, a).pending, Look(state, mid, a).pending)
    ensures Submap(Look(state, now, a).queue, Look(state, mid, a).queue)
  {
  }

  lemma {:induction false} CutKeepsAbove(x: Account, y: Account, n: nat)
    requires IsCut(x, y, n) && InRun(x, n) && Submap(y.queue, x.queue)
    ensures QueueAbove(x) ==> QueueAbove(y)
  {
    CutKeepsRun(x, y, n);
  }

  /**
   One account whose next nonce is the state nonce, with nothing missing between its pending ones:
   what promotion and truncation leave of it. An account that is not chosen is at most cut.
   */
  lemma {:induction false} ExecutedRests(env: Env, was: Order, now: Order, accounts: Option<set<Address>>, a: Address)
    requires Executed(env, was, now, accounts) && Disjoint(Look(env.state.nonces, was, a))
    requires Look(env.state.nonces, was, a).next == env.Nonce(a)
    requires Gapless(Forward(Of(was.pending, a), env.Nonce(a)))
    ensures var x, y, n := Look(env.state.nonces, was, a), Look(env.state.nonces, now, a), env.Nonce(a);
            && Founded(y, n, Passing(env.Drop(), env.floor)) && Resting(y, n, env.floor)
            && (Anchored(Forward(x.pending, n), n) ==> Anchored(Forward(y.pending, n), n))
            && (!Chosen(accounts, a) ==> IsCut(x, y, n))
  {
    hide Promoted, IsCut, WithinLimits, Disjoint, Submap, Gapless, Anchored, Founded, Resting, Forward, AllCut;
    var mid :| PromotedTo(env, was, mid, accounts) && Truncated(env, mid, now);
    var x, m, y := Look(env.state.nonces, was, a), Look(env.state.nonces, mid, a), Look(env.state.nonces, now, a);
    var n, pass := env.Nonce(a), Passing(env.Drop(), env.floor);
    SharesShrunk(env.state.nonces, mid, now, a);
    CutAt(env.state.nonces, mid, now, a);
    if Chosen(accounts, a) {
      PromotedRests(x, n, env.Drop(), env.floor, env.QueueCap(a));
    } else {
      GaplessRests(x, n, pass, env.floor);
    }
    CutForward(m, y, n);
    CutFounded(m, y, n, pass);
    CutResting(m, y, n, env.floor);
  }

  lemma {:induction false} CutAt(state: NonceMap, was: Order, now: Order, a: Address)
    requires AllCut(state, was, now)
    ensures IsCut(Look(state, was, a), Look(state, now, a), StateNonce(state, a))
  {
  }

  lemma {:induction false} ExecutedKeeps(env: Env, was: Order, now: Order, accounts: Option<set<Address>>, txs: Lookup)
    requires Executed(env, was, now, accounts) && Split(was.pending, was.queue, txs, {})
    ensures Keeps(env.state.nonces, was, now)
  {
    hide Executed, Look, InRun, Split, NothingReady, QueueAbove;
    forall a
      ensures var x, y, n := Look(env.state.nonces, was, a), Look(env.state.nonces, now, a), env.Nonce(a);
              (InRun(x, n) ==> InRun(y, n)) && (InOrder(x, n) ==> InOrder(y, n))
    {
      ShareIsDisjoint(env.state.nonces, was, txs, {}, a);
      ExecutedAt(env, was, now, accounts, a);
    }
  }

  // ---------- Adding batches ----------

  /** Nothing that an account has queued could be promoted. */
  ghost predicate NothingLeft(env: Env, o: Order, a: Address) {
    var x := Look(env.state.nonces, o, a);
    NothingReady(x.queue, x.next, env.floor)
  }

  /** Adds one transaction and, if it took a free nonce, promotes for its sender. */
  method AddTx(pool: TxPool, tx: Tx, local: bool) returns (r: AddResult, ghost mid: Seen)
    requires pool.Valid()
    modifies pool`pending, pool`queue, pool`beats, pool`pendingNonce, pool`locals, pool.all, pool.priced
    ensures pool.Valid() && AddStep(RulesOf(pool), old(SeenOf(pool)), tx, local, mid, r) && pool.locals == mid.locals
    ensures if r == Added(false) then Executed(EnvOf(pool), mid.order, pool.View(), Some({tx.sender}))
            else SeenOf(pool) == mid
    ensures r == Added(false) && old(pool.RunAt(tx.sender)) ==> NothingLeft(EnvOf(pool), pool.View(), tx.sender)
    ensures Keeps(pool.state.nonces, old(pool.View()), pool.View())
  {
    hide SlotSum, Split, KeyedByHash, Covers, AddStep, Executed, Keeps, Look, InRun, InOrder, NothingReady;
    ghost var was := SeenOf(pool);
    r := Add(pool, tx, local);
    mid := SeenOf(pool);
    AddingKeeps(RulesOf(pool), was, tx, local, mid, r);
    if r.Added? && !r.replaced {
      PromoteExecutables(pool, Some({tx.sender}));
      ExecutedKeeps(EnvOf(pool), mid.order, pool.View(), Some({tx.sender}), mid.txs);
      KeepsAgain(pool.state.nonces, was.order, mid.order, pool.View());
      KeepsAt(pool.state.nonces, was.order, mid.order, tx.sender);
      ShareIsDisjoint(pool.state.nonces, mid.order, mid.txs, {}, tx.sender);
      ExecutedAt(EnvOf(pool), mid.order, pool.View(), Some({tx.sender}), tx.sender);
    }
  }

  /** The senders of the transactions that took a free nonce. */
  ghost function Dirty(txs: seq<Tx>, rs: seq<AddResult>): set<Address>
    requires |rs| <= |txs|
  {
    set i | 0 <= i < |rs| && rs[i] == Added(false) :: txs[i].sender
  }

  lemma {:induction false} DirtyNext(txs: seq<Tx>, rs: seq<AddResult>, r: AddResult)
    requires |rs| < |txs|
    ensures Dirty(txs, rs + [r]) == if r == Added(false) then Dirty(txs, rs) + {txs[|rs|].sender} else Dirty(txs, rs)
  {
    var more := rs + [r];
    forall a | a in Dirty(txs, rs) ensures a in Dirty(txs, more) {
      var i :| 0 <= i < |rs| && rs[i] == Added(false) && txs[i].sender == a;
      assert more[i] == Added(false);
    }
    assert r == Added(false) ==> more[|rs|] == Added(false);
  }

  lemma {:induction false} NoneDirty(txs: seq<Tx>)
    ensures Dirty(txs, []) == {}
  {
  }

  /** `trace[i]` is what transaction `i` met, and `rs[i]` what adding it there gave. */
  ghost predicate AddedEach(rules: Rules, txs: seq<Tx>, local: bool, trace: seq<Seen>, rs: seq<AddResult>) {
    && |rs| <= |txs| && |trace| == |rs| + 1
    && forall i :: 0 <= i < |rs| ==> AddStep(rules, trace[i], txs[i], local, trace[i + 1], rs[i])
  }

  lemma {:induction false} AddedOneMore(rules: Rules, txs: seq<Tx>, local: bool, trace: seq<Seen>, rs: seq<AddResult>,
                                        t: Seen, r: AddResult)
    requires AddedEach(rules, txs, local, trace, rs) && |rs| < |txs|
    requires AddStep(rules, trace[|rs|], txs[|rs|], local, t, r)
    ensures AddedEach(rules, txs, local, trace + [t], rs + [r])
  {
    hide AddStep;
  }

  /** Adding a batch only cuts pending lists and keeps every account's order. */
  lemma {:induction false} AddedKeeps(rules: Rules, txs: seq<Tx>, local: bool, trace: seq<Seen>, rs: seq<AddResult>,
                                      i: nat)
    requires AddedEach(rules, txs, local, trace, rs) && i <= |rs|
    ensures AllCut(rules.state.nonces, trace[0].order, trace[i].order)
    ensures Keeps(rules.state.nonces, trace[0].order, trace[i].order)
  {
    hide AddStep, AllCut, Keeps;
    if i == 0 {
      NothingMoved(rules.state.nonces, trace[0].order);
    } else {
      AddedKeeps(rules, txs, local, trace, rs, i - 1);
      AddingKeeps(rules, trace[i - 1], txs[i - 1], local, trace[i], rs[i - 1]);
      AllCutAgain(rules.state.nonces, trace[0].order, trace[i - 1].order, trace[i].order);
      KeepsAgain(rules.state.nonces, trace[0].order, trace[i - 1].order, trace[i].order);
    }
  }

  ghost predicate StoppedByPanic(rs: seq<AddResult>) {
    rs != [] && rs[|rs| - 1].Panicked?
  }

  /** What promoting for the senders of a batch does; nothing happens after a panic or if nothing is new. */
  ghost predicate Brought(env: Env, added: Order, now: Order, txs: seq<Tx>, rs: seq<AddResult>)
    requires |rs| <= |txs|
  {
    if StoppedByPanic(rs) || Dirty(txs, rs) == {} then now == added
    else Executed(env, added, now, Some(Dirty(txs, rs)))
  }

  /** Adds a batch and promotes once for all senders that got something new. Stops at a panic. */
  method AddTxs(pool: TxPool, txs: seq<Tx>, local: bool) returns (rs: seq<AddResult>, ghost trace: seq<Seen>)
    requires pool.Valid()
    modifies pool`pending, pool`queue, pool`beats, pool`pendingNonce, pool`locals, pool.all, pool.priced
    ensures pool.Valid() && AddedEach(RulesOf(pool), txs, local, trace, rs) && trace[0] == old(SeenOf(pool))
    ensures |rs| == |txs| || StoppedByPanic(rs)
    ensures Brought(EnvOf(pool), trace[|rs|].order, pool.View(), txs, rs) && pool.locals == trace[|rs|].locals
    ensures StoppedByPanic(rs) || Dirty(txs, rs) == {} ==> SeenOf(pool) == trace[|rs|]
    ensures forall a :: Disjoint(Look(pool.state.nonces, trace[|rs|].order, a))
    ensures Keeps(pool.state.nonces, old(pool.View()), pool.View())
  {
    hide TxPool.Valid, AddStep, AddedEach, Executed, Keeps, AllCut, Dirty, Look, Disjoint;
    rs, trace := [], [SeenOf(pool)];
    NoneDirty(txs);
    NothingAdded(RulesOf(pool), txs, local, trace[0]);
    var dirty: set<Address> := {};
    while |rs| < |txs|
      invariant |rs| <= |txs| && pool.Valid() && dirty == Dirty(txs, rs) && !StoppedByPanic(rs)
      invariant AddedEach(RulesOf(pool), txs, local, trace, rs) && |trace| == |rs| + 1
      invariant trace[0] == old(SeenOf(pool)) && trace[|rs|] == SeenOf(pool)
    {
      var tx := txs[|rs|];
      var r := Add(pool, tx, local);
      AddedOneMore(RulesOf(pool), txs, local, trace, rs, SeenOf(pool), r);
      DirtyNext(txs, rs, r);
      rs, trace := rs + [r], trace + [SeenOf(pool)];
      if r.Panicked? {
        AddedKeeps(RulesOf(pool), txs, local, trace, rs, |rs|);
        PoolIsDisjoint(pool);
        return;
      }
      if r.Added? && !r.replaced {
        dirty := dirty + {tx.sender};
      }
    }
    AddedKeeps(RulesOf(pool), txs, local, trace, rs, |rs|);
    PoolIsDisjoint(pool);
    if dirty != {} {
      ghost var mid := pool.View();
      ghost var lookup := pool.all.txs;
      PoolIsSplit(pool);
      PromoteExecutables(pool, Some(dirty));
      ExecutedKeeps(EnvOf(pool), mid, pool.View(), Some(dirty), lookup);
      KeepsAgain(pool.state.nonces, old(pool.View()), mid, pool.View());
    }
  }

  lemma {:induction false} NothingAdded(rules: Rules, txs: seq<Tx>, local: bool, s: Seen)
    ensures AddedEach(rules, txs, local, [s], [])
  {
  }

  lemma {:induction false} PoolIsSplit(pool: TxPool)
    requires pool.Valid()
    ensures Split(pool.pending, pool.queue, pool.all.txs, {})
  {
    hide Split, SlotSum, KeyedByHash, Covers;
  }

  const TWO_64: nat := 0x1_0000_0000_0000_0000

  /**
   Takes as many transactions as the pool still has room for. The unsigned
   subtraction of the pool's size from its capacity never wraps around.
   */
  method CheckAndAddTxs(pool: TxPool, txs: seq<Tx>, local: bool)
    returns (rs: seq<AddResult>, refused: nat, ghost trace: seq<Seen>)
    requires pool.Valid() && pool.config.Capacity() < TWO_64
    modifies pool`pending, pool`queue, pool`beats, pool`pendingNonce, pool`locals, pool.all, pool.priced
    ensures pool.Valid()
    ensures refused == if |txs| <= pool.config.Capacity() - |old(pool.all.txs)| then 0
                       else |txs| - (pool.config.Capacity() - |old(pool.all.txs)|)
    ensures AddedEach(RulesOf(pool), txs, local, trace, rs) && trace[0] == old(SeenOf(pool))
    ensures |rs| == |txs| - refused || (|rs| < |txs| - refused && StoppedByPanic(rs))
    ensures Brought(EnvOf(pool), trace[|rs|].order, pool.View(), txs, rs)
    ensures Keeps(pool.state.nonces, old(pool.View()), pool.View())
  {
    hide Split, SlotSum, KeyedByHash, Covers, AddStep, Executed, Keeps, AllCut;
    var room := (pool.config.Capacity() + TWO_64 - |pool.all.txs|) % TWO_64;
    assert room == pool.config.Capacity() - |pool.all.txs|;
    refused := 0;
    var accepted := txs;
    if room < |txs| {
      accepted := txs[..room];
      refused := |txs| - room;
    }
    rs, trace := AddTxs(pool, accepted, local);
    assert Dirty(txs, rs) == Dirty(accepted, rs);
  }
}
