/**
 Bringing the pool back under its limits: equalising the pending lists of the
 largest accounts, and cutting the queues of the most recently active ones.
 */
module Truncation {
  import opened Types
  import opened TxLists
  import opened Priced
  import opened Partition
  import opened Nonces
  import opened Accounts
  import opened TxPools
  import Heaps

  // ---------- Totals ----------

  /** Number of transactions in all lists. */
  ghost function Total(m: Lists): nat
    decreases |m|
  {
    if m == map[] then 0 else
      var a :| a in m;
      |m[a]| + Total(m - {a})
  }

  lemma {:induction false} TotalPick(m: Lists) returns (a: Address)
    requires m != map[]
    ensures a in m && Total(m) == |m[a]| + Total(m - {a})
  {
    a :| a in m && Total(m) == |m[a]| + Total(m - {a});
  }

  lemma {:induction false} TotalWithout(m: Lists, a: Address)
    requires a in m
    ensures Total(m) == |m[a]| + Total(m - {a})
    decreases |m|
  {
    hide Total;
    var b := TotalPick(m);
    if a != b {
      TotalWithout(m - {b}, a);
      TotalWithout(m - {a}, b);
      assert m - {a} - {b} == m - {b} - {a};
    }
  }

  lemma {:induction false} TotalUpdate(m: Lists, a: Address, l: TxMap)
    requires a in m
    ensures Total(m[a := l]) == Total(m) - |m[a]| + |l|
  {
    TotalWithout(m, a);
    TotalWithout(m[a := l], a);
    assert m[a := l] - {a} == m - {a};
  }

  method CountAll(m: Lists) returns (n: nat)
    ensures n == Total(m)
  {
    n := 0;
    var todo := m;
    while todo != map[]
      invariant n + Total(todo) == Total(m)
      decreases |todo|
    {
      var a :| a in todo;
      TotalWithout(todo, a);
      n := n + |todo[a]|;
      todo := todo - {a};
    }
  }

  // ---------- One transaction ----------

  /** Taking the highest pending transaction out of the lists and the lookup. */
  lemma {:induction false} DropTop(pending: Lists, queue: Lists, txs: Lookup, a: Address)
    requires Split(pending, queue, txs, {}) && a in pending && pending[a] != map[]
    ensures var top := pending[a][MaxKey(pending[a].Keys)];
            && top.nonce == MaxKey(pending[a].Keys) && top.sender == a
            && Split(pending[a := pending[a] - {top.nonce}], queue, txs, {top})
  {
    var l := pending[a];
    var n := MaxKey(l.Keys);
    assert Has(pending, a, n);
    TakePending(pending, queue, txs, {}, a, l - {n});
    assert {} + Gone(l, l - {n}) == {l[n]};
  }

  lemma {:induction false} TopIsCut(state: NonceMap, was: Order, now: Order, a: Address)
    requires a in was.pending && was.pending[a] != map[] && SameElsewhere(state, was.known, now.known, a)
    requires var n := MaxKey(was.pending[a].Keys);
             && now.pending == was.pending[a := was.pending[a] - {n}]
             && NextNonce(state, now.known, a) == Lowered(StateNonce(state, a), NextNonce(state, was.known, a), n)
    ensures AllCut(state, was, now)
  {
    var n := MaxKey(was.pending[a].Keys);
    assert CutBy(Look(state, was, a), Look(state, now, a), StateNonce(state, a), Some(n));
    OneCut(state, was, now, a, n);
  }

  /** Drops the highest pending transaction of an account. */
  method DropHighest(pool: TxPool, a: Address)
    requires pool.Valid() && a in pool.pending && pool.pending[a] != map[]
    modifies pool`pending, pool`pendingNonce, pool.all, pool.priced
    ensures pool.Valid()
    ensures pool.pending == old(pool.pending)[a := Cap(old(pool.pending)[a], |old(pool.pending)[a]| - 1)]
    ensures AllCut(pool.state.nonces, old(pool.View()), pool.View())
  {
    hide Split, SlotSum, KeyedByHash, Covers, AllCut;
    var l := pool.pending[a];
    var top := l[MaxKey(l.Keys)];
    DropTop(pool.pending, pool.queue, pool.all.txs, a);
    assert Cap(l, |l| - 1) == l - {top.nonce};
    pool.pending := pool.pending[a := l - {top.nonce}];
    pool.DropAll({top}, {top});
    assert {top} - {top} == {};
    pool.UpdatePendingNonce(a, top.nonce);
    TopIsCut(pool.state.nonces, old(pool.View()), pool.View(), a);
  }

  // ---------- Pending lists ----------

  ghost function Elems(s: seq<Address>): set<Address> {
    set a | a in s
  }

  ghost predicate Distinct(s: seq<Address>) {
    forall i, j :: 0 <= i < j < |s| ==> s[i] != s[j]
  }

  /** `now` is `was` with the lists of `os` cut to the lowest `level` nonces. */
  ghost predicate AtLevel(was: Lists, now: Lists, os: set<Address>, level: nat) {
    && now.Keys == was.Keys
    && forall a :: a in was ==> now[a] == if a in os then Cap(was[a], level) else was[a]
  }

  /** As `AtLevel`, with the lists of `low` already one lower. */
  ghost predicate MidRound(was: Lists, now: Lists, low: set<Address>, os: set<Address>, level: nat) {
    && now.Keys == was.Keys
    && forall a :: a in was ==>
         now[a] == if a in low then Cap(was[a], level) else if a in os then Cap(was[a], level + 1) else was[a]
  }

  ghost predicate AllLonger(was: Lists, os: set<Address>, level: nat) {
    forall a :: a in os ==> a in was && level <= |was[a]|
  }

  lemma {:induction false} RoundStep(was: Lists, now: Lists, low: set<Address>, os: set<Address>, level: nat,
                                     a: Address)
    requires MidRound(was, now, low, os, level) && a in os && a !in low && AllLonger(was, os, level + 1)
    ensures a in now && |now[a]| == level + 1
    ensures MidRound(was, now[a := Cap(now[a], level)], low + {a}, os, level)
  {
    CapKeepsLowest(was[a], level + 1);
    CapCap(was[a], level + 1, level);
  }

  /** One round: every offender loses its highest transaction. */
  method Round(pool: TxPool, os: seq<Address>, ghost was: Lists, ghost level: nat, total: nat) returns (left: nat)
    requires pool.Valid() && Distinct(os) && total == Total(pool.pending)
    requires AtLevel(was, pool.pending, Elems(os), level + 1) && AllLonger(was, Elems(os), level + 1)
    modifies pool`pending, pool`pendingNonce, pool.all, pool.priced
    ensures pool.Valid() && AtLevel(was, pool.pending, Elems(os), level)
    ensures |os| <= total && left == total - |os| == Total(pool.pending)
    ensures AllCut(pool.state.nonces, old(pool.View()), pool.View())
  {
    hide TxPool.Valid, AllCut, Cap, Total, MidRound, AtLevel, Elems, Distinct, AllLonger;
    left := total;
    RoundStart(was, pool.pending, os, level);
    NoneCut(pool.state.nonces, pool.View(), pool.View());
    for i := 0 to |os|
      invariant pool.Valid() && MidRound(was, pool.pending, Elems(os[..i]), Elems(os), level)
      invariant left == total - i == Total(pool.pending)
      invariant AllCut(pool.state.nonces, old(pool.View()), pool.View())
    {
      var a := os[i];
      NextElem(os, i);
      RoundStep(was, pool.pending, Elems(os[..i]), Elems(os), level, a);
      TotalUpdate(pool.pending, a, Cap(pool.pending[a], level));
      CapKeepsLowest(pool.pending[a], level);
      ghost var mid := pool.View();
      DropHighest(pool, a);
      AllCutAgain(pool.state.nonces, old(pool.View()), mid, pool.View());
      left := left - 1;
    }
    RoundEnd(was, pool.pending, os, level);
  }

  lemma {:induction false} NextElem(os: seq<Address>, i: nat)
    requires Distinct(os) && i < |os|
    ensures os[i] in Elems(os) && os[i] !in Elems(os[..i]) && Elems(os[..i]) + {os[i]} == Elems(os[..i + 1])
  {
  }

  lemma {:induction false} RoundStart(was: Lists, now: Lists, os: seq<Address>, level: nat)
    requires AtLevel(was, now, Elems(os), level + 1)
    ensures MidRound(was, now, Elems(os[..0]), Elems(os), level)
  {
    hide Cap;
    assert Elems(os[..0]) == {};
  }

  lemma {:induction false} RoundEnd(was: Lists, now: Lists, os: seq<Address>, level: nat)
    requires MidRound(was, now, Elems(os[..|os|]), Elems(os), level)
    ensures AtLevel(was, now, Elems(os), level)
  {
    hide Cap;
    assert os[..|os|] == os;
  }

  /** Rounds over the offenders, all of length `level`, until the limit or the floor is reached. */
  method LowerTo(pool: TxPool, os: seq<Address>, ghost was: Lists, ghost level: nat, floor: nat, total: nat)
    returns (left: nat, ghost reached: nat)
    requires pool.Valid() && os != [] && Distinct(os) && total == Total(pool.pending)
    requires floor <= level && AtLevel(was, pool.pending, Elems(os), level) && AllLonger(was, Elems(os), level)
    modifies pool`pending, pool`pendingNonce, pool.all, pool.priced
    ensures pool.Valid() && floor <= reached <= level
    ensures AtLevel(was, pool.pending, Elems(os), reached) && left == Total(pool.pending)
    ensures left <= pool.config.execSlotsAll || reached == floor
    ensures if reached == level then left == total else pool.config.execSlotsAll < left + |os|
    ensures AllCut(pool.state.nonces, old(pool.View()), pool.View())
  {
    hide TxPool.Valid, AllCut, Cap, Total;
    left, reached := total, level;
    var last := os[|os| - 1];
    assert last in Elems(os);
    CapKeepsLowest(was[last], reached);
    NoneCut(pool.state.nonces, pool.View(), pool.View());
    while left > pool.config.execSlotsAll && |pool.pending[last]| > floor
      invariant pool.Valid() && floor <= reached <= level
      invariant AtLevel(was, pool.pending, Elems(os), reached) && left == Total(pool.pending)
      invariant last in pool.pending && |pool.pending[last]| == reached
      invariant if reached == level then left == total else pool.config.execSlotsAll < left + |os|
      invariant AllCut(pool.state.nonces, old(pool.View()), pool.View())
      decreases left
    {
      reached := reached - 1;
      ghost var mid := pool.View();
      left := Round(pool, os, was, reached, left);
      AllCutAgain(pool.state.nonces, old(pool.View()), mid, pool.View());
      CapKeepsLowest(was[last], reached);
    }
  }

  /** The accounts that may be cut: remote ones above the guaranteed number of slots. */
  function Spammers(m: Lists, locals: set<Address>, guaranteed: nat): set<Address> {
    set a | a in m && a !in locals && |m[a]| > guaranteed
  }

  /** Those of `os` that lose transactions at a level. */
  ghost function Cut(was: Lists, os: set<Address>, level: nat): set<Address> {
    set a | a in os && a in was && |was[a]| > level
  }

  /** Priority queue pop: an entry with the greatest priority. */
  method PopGreatest(waiting: map<Address, nat>) returns (a: Address, rest: map<Address, nat>)
    requires waiting != map[]
    ensures a in waiting && rest == waiting - {a}
    ensures forall b :: b in waiting ==> waiting[b] <= waiting[a]
  {
    a :| a in waiting;
    var todo := waiting.Keys - {a};
    while todo != {}
      invariant a in waiting && todo <= waiting.Keys
      invariant forall b :: b in waiting && b !in todo ==> waiting[b] <= waiting[a]
      decreases todo
    {
      var b :| b in todo;
      todo := todo - {b};
      if waiting[b] > waiting[a] {
        a := b;
      }
    }
    rest := waiting - {a};
  }

  /** The offenders taken and those waiting make up all of them. */
  ghost predicate Shares(os: seq<Address>, waiting: map<Address, nat>, all: set<Address>) {
    Distinct(os) && Elems(os) !! waiting.Keys && Elems(os) + waiting.Keys == all
  }

  /** Those waiting are queued by their length, and none is longer than `level`. */
  ghost predicate Queued(was: Lists, waiting: map<Address, nat>, level: nat) {
    forall b :: b in waiting ==> b in was && waiting[b] == |was[b]| <= level
  }

  /** All offenders but the last reach `level`; the last is no longer than it. */
  ghost predicate Reach(was: Lists, os: seq<Address>, level: nat) {
    && (forall i :: 0 <= i < |os| - 1 ==> os[i] in was && level <= |was[os[i]]|)
    && (os != [] ==> os[|os| - 1] in was && |was[os[|os| - 1]]| <= level)
  }

  /**
   Midway through equalising: the offenders taken so far are cut to `level`, all but
   the last reach it, and nobody still waiting is longer than the last.
   */
  ghost predicate Levelled(was: Lists, now: Lists, os: seq<Address>, waiting: map<Address, nat>,
                           all: set<Address>, level: nat, guaranteed: nat) {
    && Shares(os, waiting, all) && AllLonger(was, all, guaranteed + 1)
    && AtLevel(was, now, Elems(os), level)
    && Reach(was, os, level) && Queued(was, waiting, level)
  }

  lemma {:induction false} CutGrows(was: Lists, os: set<Address>, low: nat, high: nat)
    requires low <= high
    ensures |Cut(was, os, high)| <= |Cut(was, os, low)|
  {
    SetSizes(Cut(was, os, high), Cut(was, os, low));
  }

  lemma {:induction false} SetSizes(a: set<Address>, b: set<Address>)
    requires a <= b
    ensures |a| <= |b|
  {
    assert b == a + (b - a);
  }

  lemma {:induction false} DistinctCount(s: seq<Address>)
    requires Distinct(s)
    ensures |Elems(s)| == |s|
  {
    if s != [] {
      var n := |s| - 1;
      DistinctCount(s[..n]);
      assert Elems(s) == Elems(s[..n]) + {s[n]};
    }
  }

  /** Offenders that reach a level and are lowered below it count among those cut. */
  lemma {:induction false} LoweredAreCut(was: Lists, os: seq<Address>, all: set<Address>, level: nat, reached: nat)
    requires Distinct(os) && Elems(os) <= all && AllLonger(was, Elems(os), level) && reached < level
    ensures |os| <= |Cut(was, all, reached)|
  {
    DistinctCount(os);
    SetSizes(Elems(os), Cut(was, all, reached));
  }

  /** Taking the next offender, before any list is cut. */
  lemma {:induction false} TakeNext(os: seq<Address>, waiting: map<Address, nat>, all: set<Address>, a: Address)
    requires Shares(os, waiting, all) && a in waiting
    ensures Elems(os + [a]) == Elems(os) + {a} && Shares(os + [a], waiting - {a}, all)
  {
    assert Elems(os) + {a} + (waiting - {a}).Keys == all;
  }

  lemma {:induction false} ReachAll(was: Lists, os: seq<Address>, level: nat)
    requires Reach(was, os, level) && (os != [] ==> level == |was[os[|os| - 1]]|)
    ensures AllLonger(was, Elems(os), level)
  {
  }

  lemma {:induction false} ReachNext(was: Lists, os: seq<Address>, level: nat, reached: nat, a: Address)
    requires AllLonger(was, Elems(os), level) && a in was && |was[a]| <= reached <= level
    ensures Reach(was, os + [a], reached)
  {
    forall i | 0 <= i < |os| ensures os[i] in was && level <= |was[os[i]]| {
      assert os[i] in Elems(os);
    }
  }

  lemma {:induction false} QueuedNext(was: Lists, waiting: map<Address, nat>, level: nat, reached: nat, a: Address)
    requires Queued(was, waiting, level) && a in waiting && waiting[a] <= reached
    requires forall b :: b in waiting ==> waiting[b] <= waiting[a]
    ensures a in was && waiting[a] == |was[a]| && Queued(was, waiting - {a}, reached)
  {
  }

  /** The next offender joins at the level the others were lowered to. */
  lemma {:induction false} JoinLevel(was: Lists, now: Lists, os: seq<Address>, waiting: map<Address, nat>,
                                     all: set<Address>, level: nat, reached: nat, guaranteed: nat, a: Address,
                                     later: Lists)
    requires Levelled(was, now, os, waiting, all, level, guaranteed)
    requires a in waiting && forall b :: b in waiting ==> waiting[b] <= waiting[a]
    requires os != [] ==> os[|os| - 1] in was && level == |was[os[|os| - 1]]|
    requires AtLevel(was, later, Elems(os), reached) && waiting[a] <= reached <= level
    ensures Levelled(was, later, os + [a], waiting - {a}, all, reached, guaranteed)
  {
    hide AtLevel, Reach, Queued, Shares, Elems, AllLonger;
    TakeNext(os, waiting, all, a);
    ReachAll(was, os, level);
    QueuedNext(was, waiting, level, reached, a);
    ReachNext(was, os, level, reached, a);
    OneMoreAtLevel(was, later, Elems(os), reached, a);
  }

  lemma {:induction false} OneMoreAtLevel(was: Lists, now: Lists, os: set<Address>, level: nat, a: Address)
    requires AtLevel(was, now, os, level) && a in was && |was[a]| <= level
    ensures AtLevel(was, now, os + {a}, level)
  {
  }

  /** Takes the next offender and lowers the earlier ones towards its length. */
  method Absorb(pool: TxPool, os: seq<Address>, waiting: map<Address, nat>, total: nat,
                ghost was: Lists, ghost all: set<Address>, ghost level: nat)
    returns (more: seq<Address>, rest: map<Address, nat>, left: nat, ghost reached: nat)
    requires pool.Valid() && waiting != map[] && total == Total(pool.pending)
    requires Levelled(was, pool.pending, os, waiting, all, level, pool.config.execSlotsAccount)
    requires os != [] ==> os[|os| - 1] in was && level == |was[os[|os| - 1]]|
    requires pool.config.execSlotsAll < total + |Cut(was, all, level)|
    modifies pool`pending, pool`pendingNonce, pool.all, pool.priced
    ensures pool.Valid() && left == Total(pool.pending) && |more| == |os| + 1 && |rest| < |waiting|
    ensures Levelled(was, pool.pending, more, rest, all, reached, pool.config.execSlotsAccount)
    ensures more[|more| - 1] in was && (left <= pool.config.execSlotsAll || reached == |was[more[|more| - 1]]|)
    ensures pool.config.execSlotsAll < left + |Cut(was, all, reached)|
    ensures AllCut(pool.state.nonces, old(pool.View()), pool.View())
  {
    hide TxPool.Valid, AllCut, Cap, Total, Levelled, AtLevel, Cut, Elems;
    var a;
    a, rest := PopGreatest(waiting);
    more := os + [a];
    LevelledParts(was, pool.pending, os, waiting, all, level, pool.config.execSlotsAccount, a);
    left := total;
    if |more| > 1 {
      ReachAll(was, os, level);
      var threshold := |pool.pending[a]|;
      left, reached := LowerTo(pool, os, was, level, threshold, total);
      if reached < level {
        LoweredAreCut(was, os, all, level, reached);
      }
    } else {
      reached := waiting[a];
      NoneCut(pool.state.nonces, pool.View(), pool.View());
      NobodyCut(was, pool.pending, level, reached);
      CutGrows(was, all, reached, level);
    }
    JoinLevel(was, old(pool.pending), os, waiting, all, level, reached, pool.config.execSlotsAccount, a, pool.pending);
  }

  lemma {:induction false} LevelledParts(was: Lists, now: Lists, os: seq<Address>, waiting: map<Address, nat>,
                                         all: set<Address>, level: nat, guaranteed: nat, a: Address)
    requires Levelled(was, now, os, waiting, all, level, guaranteed) && a in waiting
    ensures Distinct(os) && AtLevel(was, now, Elems(os), level) && Elems(os) <= all && Reach(was, os, level)
    ensures a in was && a in now && waiting[a] == |was[a]| == |now[a]| <= level
  {
  }

  lemma {:induction false} NobodyCut(was: Lists, now: Lists, level: nat, reached: nat)
    requires AtLevel(was, now, Elems([]), level)
    ensures AtLevel(was, now, Elems([]), reached)
  {
  }

  /**
   Truncation is water filling: one level, never below the guarantee, to which every
   spammer is cut and nobody else; the total is at the limit or the level at the
   guarantee; and less than one transaction per account cut goes to waste.
   */
  ghost predicate WaterFilled(was: Lists, now: Lists, spammers: set<Address>, guaranteed: nat, limit: nat, level: nat) {
    && guaranteed <= level && AtLevel(was, now, spammers, level)
    && (Total(now) <= limit || level == guaranteed)
    && limit < Total(now) + |Cut(was, spammers, level)|
  }

  lemma {:induction false} AllAtLevel(was: Lists, now: Lists, os: seq<Address>, waiting: map<Address, nat>,
                                      all: set<Address>, level: nat, guaranteed: nat)
    requires Levelled(was, now, os, waiting, all, level, guaranteed)
    ensures AtLevel(was, now, all, level)
    ensures os != [] ==> guaranteed < level
  {
    if os != [] {
      assert os[|os| - 1] in Elems(os);
    }
  }

  lemma {:induction false} StartLevel(m: Lists, locals: set<Address>, guaranteed: nat, waiting: map<Address, nat>)
    requires waiting == map a | a in Spammers(m, locals, guaranteed) :: |Of(m, a)|
    ensures Levelled(m, m, [], waiting, Spammers(m, locals, guaranteed), Total(m), guaranteed)
  {
    assert Elems([]) + waiting.Keys == Spammers(m, locals, guaranteed);
    forall a | a in m ensures |m[a]| <= Total(m) {
      TotalWithout(m, a);
    }
  }

  /** If the pending lists hold too many transactions in all, equalises the largest ones. */
  method TruncatePending(pool: TxPool) returns (ghost level: nat)
    requires pool.Valid()
    modifies pool`pending, pool`pendingNonce, pool.all, pool.priced
    ensures pool.Valid()
    ensures old(Total(pool.pending)) <= pool.config.execSlotsAll ==>
              pool.pending == old(pool.pending) && pool.pendingNonce == old(pool.pendingNonce)
    ensures old(Total(pool.pending)) > pool.config.execSlotsAll ==>
              WaterFilled(old(pool.pending), pool.pending,
                          Spammers(old(pool.pending), pool.locals, pool.config.execSlotsAccount),
                          pool.config.execSlotsAccount, pool.config.execSlotsAll, level)
    ensures AllCut(pool.state.nonces, old(pool.View()), pool.View())
  {
    hide TxPool.Valid, AllCut, Cap, Total, Levelled, AtLevel, Cut, Spammers;
    var total := CountAll(pool.pending);
    level := total;
    NoneCut(pool.state.nonces, pool.View(), pool.View());
    if total <= pool.config.execSlotsAll {
      return;
    }
    var all := Spammers(pool.pending, pool.locals, pool.config.execSlotsAccount);
    var waiting: map<Address, nat> := map a | a in all :: |Of(pool.pending, a)|;
    StartLevel(pool.pending, pool.locals, pool.config.execSlotsAccount, waiting);
    var os: seq<Address> := [];
    while total > pool.config.execSlotsAll && waiting != map[]
      invariant pool.Valid() && total == Total(pool.pending)
      invariant Levelled(old(pool.pending), pool.pending, os, waiting, all, level, pool.config.execSlotsAccount)
      invariant total > pool.config.execSlotsAll && os != [] ==>
                  os[|os| - 1] in old(pool.pending) && level == |old(pool.pending)[os[|os| - 1]]|
      invariant total <= pool.config.execSlotsAll ==> os != []
      invariant pool.config.execSlotsAll < total + |Cut(old(pool.pending), all, level)|
      invariant AllCut(pool.state.nonces, old(pool.View()), pool.View())
      decreases |waiting|
    {
      ghost var mid := pool.View();
      os, waiting, total, level := Absorb(pool, os, waiting, total, old(pool.pending), all, level);
      AllCutAgain(pool.state.nonces, old(pool.View()), mid, pool.View());
    }
    AllAtLevel(old(pool.pending), pool.pending, os, waiting, all, level, pool.config.execSlotsAccount);
    if total > pool.config.execSlotsAll {
      ghost var mid := pool.View();
      total, level := LowerAll(pool, os, total, old(pool.pending), all, level);
      AllCutAgain(pool.state.nonces, old(pool.View()), mid, pool.View());
    }
  }

  /** With everybody at one level and the total still too high, lowers all to the limit or the guarantee. */
  method LowerAll(pool: TxPool, os: seq<Address>, total: nat, ghost was: Lists, ghost all: set<Address>,
                  ghost level: nat)
    returns (left: nat, ghost reached: nat)
    requires pool.Valid() && total == Total(pool.pending) && total > pool.config.execSlotsAll
    requires Levelled(was, pool.pending, os, map[], all, level, pool.config.execSlotsAccount)
    requires os != [] ==> os[|os| - 1] in was && level == |was[os[|os| - 1]]|
    modifies pool`pending, pool`pendingNonce, pool.all, pool.priced
    ensures pool.Valid() && left == Total(pool.pending)
    ensures WaterFilled(was, pool.pending, all, pool.config.execSlotsAccount, pool.config.execSlotsAll, reached)
    ensures AllCut(pool.state.nonces, old(pool.View()), pool.View())
  {
    hide TxPool.Valid, AllCut, Cap, Total, AtLevel, Cut, Reach;
    left, reached := total, pool.config.execSlotsAccount;
    assert Elems(os) == all;
    AllAtLevel(was, pool.pending, os, map[], all, level, pool.config.execSlotsAccount);
    if os == [] {
      NoneCut(pool.state.nonces, pool.View(), pool.View());
      NobodyCut(was, pool.pending, level, reached);
    } else {
      ReachAll(was, os, level);
      left, reached := LowerTo(pool, os, was, level, pool.config.execSlotsAccount, total);
      if reached < level {
        LoweredAreCut(was, os, all, level, reached);
      }
    }
  }

  /** An account that was cut ends no shorter than any other that may be cut. */
  lemma {:induction false} TruncationIsFair(was: Lists, now: Lists, spammers: set<Address>, guaranteed: nat,
                                            limit: nat, level: nat, a: Address, b: Address)
    requires WaterFilled(was, now, spammers, guaranteed, limit, level)
    requires a in was && b in spammers && b in was && |now[a]| < |was[a]|
    ensures a in spammers && guaranteed <= |now[a]| && |now[b]| <= |now[a]|
  {
    CapKeepsLowest(was[a], level);
    CapKeepsLowest(was[b], level);
  }

  // ---------- Queued lists ----------

  lemma {:induction false} TotalSetList(m: Lists, a: Address, l: TxMap)
    requires a in m
    ensures Total(SetList(m, a, l)) == Total(m) - |m[a]| + |l|
  {
    TotalWithout(m, a);
    if l != map[] {
      TotalUpdate(m, a, l);
    }
  }

  /** Removes a queued transaction through the pool's own removal. */
  method RemoveQueuedTx(pool: TxPool, tx: Tx)
    requires pool.Valid() && Holds(pool.queue, tx)
    modifies pool`pending, pool`queue, pool`beats, pool`pendingNonce, pool.all, pool.priced
    ensures pool.Valid() && pool.pending == old(pool.pending) && pool.pendingNonce == old(pool.pendingNonce)
    ensures pool.queue == SetList(old(pool.queue), tx.sender, old(pool.queue)[tx.sender] - {tx.nonce})
    ensures Total(pool.queue) == old(Total(pool.queue)) - 1
  {
    hide SlotSum, Covers, AllCut, Total, Below, Above, FileAll;
    assert Live(pool.all.txs, tx);
    ByNonceIsByHash(pool.pending, pool.queue, pool.all.txs, tx);
    hide Split;
    TotalSetList(pool.queue, tx.sender, pool.queue[tx.sender] - {tx.nonce});
    pool.RemoveTx(tx.Hash(), true);
  }

  /** Removes everything an account has queued. */
  method RemoveWholeQueue(pool: TxPool, a: Address)
    requires pool.Valid() && a in pool.queue
    modifies pool`pending, pool`queue, pool`beats, pool`pendingNonce, pool.all, pool.priced
    ensures pool.Valid() && pool.pending == old(pool.pending) && pool.pendingNonce == old(pool.pendingNonce)
    ensures Of(pool.queue, a) == map[] && pool.queue - {a} == old(pool.queue) - {a}
    ensures Total(pool.queue) == old(Total(pool.queue)) - |old(pool.queue)[a]|
  {
    hide TxPool.Valid, AllCut, Total;
    var list := pool.queue[a];
    var rest := list;
    while rest != map[]
      invariant pool.Valid() && pool.pending == old(pool.pending) && pool.pendingNonce == old(pool.pendingNonce)
      invariant Of(pool.queue, a) == rest && pool.queue - {a} == old(pool.queue) - {a}
      invariant Total(pool.queue) == old(Total(pool.queue)) - |list| + |rest|
      decreases |rest|
    {
      var n := MinKey(rest.Keys);
      QueuedFiled(pool, a, n);
      RemoveQueuedTx(pool, rest[n]);
      rest := rest - {n};
    }
  }

  lemma {:induction false} QueuedFiled(pool: TxPool, a: Address, n: nat)
    requires pool.Valid() && n in Of(pool.queue, a)
    ensures Holds(pool.queue, pool.queue[a][n]) && pool.queue[a][n].sender == a && pool.queue[a][n].nonce == n
  {
    assert Has(pool.queue, a, n);
  }

  /** Removes the highest queued transactions of an account until `kept` are left. */
  method RemoveFromBack(pool: TxPool, a: Address, kept: nat)
    requires pool.Valid() && a in pool.queue && kept <= |pool.queue[a]|
    modifies pool`pending, pool`queue, pool`beats, pool`pendingNonce, pool.all, pool.priced
    ensures pool.Valid() && pool.pending == old(pool.pending) && pool.pendingNonce == old(pool.pendingNonce)
    ensures Of(pool.queue, a) == Cap(old(pool.queue)[a], kept) && pool.queue - {a} == old(pool.queue) - {a}
    ensures Total(pool.queue) == old(Total(pool.queue)) - |old(pool.queue)[a]| + kept
  {
    hide TxPool.Valid, AllCut, Total, Cap;
    var list := pool.queue[a];
    var rest := list;
    while |rest| > kept
      invariant pool.Valid() && pool.pending == old(pool.pending) && pool.pendingNonce == old(pool.pendingNonce)
      invariant Of(pool.queue, a) == rest && kept <= |rest| && Cap(rest, kept) == Cap(list, kept)
      invariant pool.queue - {a} == old(pool.queue) - {a}
      invariant Total(pool.queue) == old(Total(pool.queue)) - |list| + |rest|
      decreases |rest|
    {
      var n := MaxKey(rest.Keys);
      QueuedFiled(pool, a, n);
      CapStep(rest, kept);
      RemoveQueuedTx(pool, rest[n]);
      rest := rest - {n};
    }
    CapWhole(rest, kept);
  }

  lemma {:induction false} CapStep(m: TxMap, k: nat)
    requires k < |m|
    ensures Cap(m, k) == Cap(m - {MaxKey(m.Keys)}, k)
  {
  }

  lemma {:induction false} CapWhole(m: TxMap, k: nat)
    requires |m| <= k
    ensures Cap(m, k) == m
  {
  }

  /** An account with its last heartbeat; an account without one counts as never heard of. */
  datatype Stamped = Stamped(address: Address, beat: nat)

  predicate BeatLe(x: Stamped, y: Stamped) { x.beat <= y.beat }

  function Stamp(beats: map<Address, nat>, a: Address): Stamped {
    Stamped(a, if a in beats then beats[a] else 0)
  }

  /** `order` lists the accounts of `remote` once each, by ascending heartbeat. */
  ghost predicate InBeatOrder(order: seq<Stamped>, remote: set<Address>, beats: map<Address, nat>) {
    && Heaps.Sorted(order, BeatLe)
    && (forall i :: 0 <= i < |order| ==> order[i].address in remote && order[i] == Stamp(beats, order[i].address))
    && (forall a :: a in remote ==> Stamp(beats, a) in order)
    && (forall i, j :: 0 <= i < j < |order| ==> order[i].address != order[j].address)
  }

  method SortByHeartbeat(remote: set<Address>, beats: map<Address, nat>) returns (order: seq<Stamped>)
    ensures InBeatOrder(order, remote, beats)
  {
    var list: seq<Stamped> := [];
    var todo := remote;
    while todo != {}
      invariant todo <= remote
      invariant forall x :: x in list <==> x.address in remote - todo && x == Stamp(beats, x.address)
      invariant forall x :: multiset(list)[x] <= 1
      decreases todo
    {
      var a :| a in todo;
      list := list + [Stamp(beats, a)];
      todo := todo - {a};
    }
    order := Heaps.Sort(list, BeatLe);
    forall x ensures x in order <==> x in list {
      assert x in order <==> x in multiset(order);
      assert x in list <==> x in multiset(list);
    }
    forall i, j | 0 <= i < j < |order| ensures order[i].address != order[j].address {
      assert order[i] in order && order[j] in order;
      if order[i] == order[j] {
        Heaps.TwiceInSeq(order, i, j);
      }
    }
  }

  /**
   The accounts with the latest heartbeats lose everything, the one at `from` keeps its
   lowest `kept` nonces, and the rest are untouched.
   */
  ghost predicate QueueCut(was: Lists, now: Lists, order: seq<Stamped>, from: nat, kept: nat) {
    && from <= |order| && now.Keys <= was.Keys
    && (forall j :: from < j < |order| ==> Of(now, order[j].address) == map[])
    && (from < |order| ==> Of(now, order[from].address) == Cap(Of(was, order[from].address), kept))
    && (forall a :: a in was && (forall j :: from <= j < |order| ==> order[j].address != a) ==>
          a in now && now[a] == was[a])
  }

  lemma {:induction false} NextCut(was: Lists, now: Lists, later: Lists, order: seq<Stamped>, from: nat, kept: nat)
    requires 0 < from <= |order| && QueueCut(was, now, order, from, 0)
    requires forall i, j :: 0 <= i < j < |order| ==> order[i].address != order[j].address
    requires var a := order[from - 1].address;
             a in was && Of(later, a) == Cap(was[a], kept) && later - {a} == now - {a}
    ensures QueueCut(was, later, order, from - 1, kept)
  {
    hide Cap;
    var a := order[from - 1].address;
    SameExcept(later, now, a);
    if from < |order| {
      CapKeepsLowest(Of(was, order[from].address), 0);
    }
    forall b | b in was && forall j :: from - 1 <= j < |order| ==> order[j].address != b
      ensures b in later && later[b] == was[b]
    {
      assert order[from - 1].address != b;
    }
  }

  lemma {:induction false} SameExcept(later: Lists, now: Lists, a: Address)
    requires later - {a} == now - {a}
    ensures forall b :: b != a ==> (b in later <==> b in now)
    ensures forall b :: b != a && b in now ==> later[b] == now[b]
    ensures forall b :: b != a ==> Of(later, b) == Of(now, b)
  {
    forall b | b != a ensures (b in later <==> b in now) && Of(later, b) == Of(now, b) {
      assert b in later - {a} <==> b in later;
      assert b in now - {a} <==> b in now;
      if b in now {
        assert (later - {a})[b] == (now - {a})[b];
      }
    }
    assert forall b :: b != a && b in now ==> Of(later, b) == Of(now, b);
  }

  /**
   If too many transactions are queued in all, drops until exactly the limit is left or
   only local accounts have anything queued.
   */
  method TruncateQueue(pool: TxPool) returns (ghost order: seq<Stamped>, ghost from: nat, ghost kept: nat)
    requires pool.Valid()
    modifies pool`pending, pool`queue, pool`beats, pool`pendingNonce, pool.all, pool.priced
    ensures pool.Valid() && pool.pending == old(pool.pending) && pool.pendingNonce == old(pool.pendingNonce)
    ensures old(Total(pool.queue)) <= pool.config.nonExecSlotsAll ==> pool.queue == old(pool.queue)
    ensures old(Total(pool.queue)) > pool.config.nonExecSlotsAll ==>
              && InBeatOrder(order, old(pool.queue).Keys - pool.locals, old(pool.beats))
              && QueueCut(old(pool.queue), pool.queue, order, from, kept)
              && (Total(pool.queue) == pool.config.nonExecSlotsAll ||
                  (Total(pool.queue) > pool.config.nonExecSlotsAll && from == 0 && kept == 0))
  {
    hide TxPool.Valid, AllCut, Total, Cap, QueueCut;
    order, from, kept := [], 0, 0;
    var queued := CountAll(pool.queue);
    if queued <= pool.config.nonExecSlotsAll {
      return;
    }
    var addresses := SortByHeartbeat(pool.queue.Keys - pool.locals, pool.beats);
    order := addresses;
    var drop, n := queued - pool.config.nonExecSlotsAll, |addresses|;
    from := n;
    UncutQueue(pool.queue, order);
    while drop > 0 && n > 0
      invariant 0 <= n <= |addresses| && from == n && pool.Valid()
      invariant pool.pending == old(pool.pending) && pool.pendingNonce == old(pool.pendingNonce)
      invariant QueueCut(old(pool.queue), pool.queue, order, from, kept)
      invariant 0 <= drop && Total(pool.queue) == pool.config.nonExecSlotsAll + drop
      invariant drop > 0 ==> kept == 0
      decreases n
    {
      n := n - 1;
      drop, kept := CutQueue(pool, addresses, n, drop, old(pool.queue));
      from := n;
    }
  }

  lemma {:induction false} UncutQueue(m: Lists, order: seq<Stamped>)
    ensures QueueCut(m, m, order, |order|, 0)
  {
  }

  lemma {:induction false} NothingKept(m: TxMap)
    ensures Cap(m, 0) == map[]
  {
    CapKeepsLowest(m, 0);
  }

  lemma {:induction false} NotYetCut(was: Lists, now: Lists, order: seq<Stamped>, n: nat)
    requires n < |order| && order[n].address in was && QueueCut(was, now, order, n + 1, 0)
    requires forall i, j :: 0 <= i < j < |order| ==> order[i].address != order[j].address
    ensures order[n].address in now && now[order[n].address] == was[order[n].address]
  {
    hide Cap;
  }

  /** Cuts the queue of one account by as much as is still to be dropped. */
  method CutQueue(pool: TxPool, order: seq<Stamped>, n: nat, drop: nat, ghost was: Lists)
    returns (left: nat, kept: nat)
    requires pool.Valid() && n < |order| && 0 < drop && order[n].address in was
    requires forall i, j :: 0 <= i < j < |order| ==> order[i].address != order[j].address
    requires QueueCut(was, pool.queue, order, n + 1, 0)
    requires Total(pool.queue) == pool.config.nonExecSlotsAll + drop
    modifies pool`pending, pool`queue, pool`beats, pool`pendingNonce, pool.all, pool.priced
    ensures pool.Valid() && pool.pending == old(pool.pending) && pool.pendingNonce == old(pool.pendingNonce)
    ensures QueueCut(was, pool.queue, order, n, kept)
    ensures Total(pool.queue) == pool.config.nonExecSlotsAll + left && (left > 0 ==> kept == 0)
  {
    hide TxPool.Valid, AllCut, Total, QueueCut, Cap;
    var a := order[n].address;
    NotYetCut(was, pool.queue, order, n);
    var size := |pool.queue[a]|;
    if size <= drop {
      RemoveWholeQueue(pool, a);
      left, kept := drop - size, 0;
      NothingKept(was[a]);
    } else {
      kept := size - drop;
      RemoveFromBack(pool, a, kept);
      left := 0;
    }
    NextCut(was, old(pool.queue), pool.queue, order, n + 1, kept);
  }
}
