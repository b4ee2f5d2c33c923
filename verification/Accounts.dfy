/**
 One account's share of the pool: its two lists and the nonce expected next. What an
 operation does to the order of the pool is what it does to each account's share.
 */
module Accounts {
  import opened Types
  import opened TxLists
  import opened Priced
  import opened Partition
  import opened Nonces

  /** The pool's lists and remembered nonces. */
  datatype Order = Order(pending: Lists, queue: Lists, known: NonceMap)

  datatype Account = Account(pending: TxMap, queue: TxMap, next: nat)

  function Look(state: NonceMap, o: Order, a: Address): Account {
    Account(Of(o.pending, a), Of(o.queue, a), NextNonce(state, o.known, a))
  }

  /** The pending nonces are exactly those from the state nonce `n` up to the next one. */
  ghost predicate InRun(x: Account, n: nat) {
    Interval(x.pending, n, x.next)
  }

  /** Nothing queued is below the next nonce. */
  ghost predicate QueueAbove(x: Account) {
    forall k :: k in x.queue ==> x.next <= k
  }

  ghost predicate InOrder(x: Account, n: nat) {
    InRun(x, n) && QueueAbove(x)
  }

  /** Accounts in a run stay in a run and accounts in order stay in order. */
  ghost predicate Keeps(state: NonceMap, was: Order, now: Order) {
    forall a ::
      && (InRun(Look(state, was, a), StateNonce(state, a)) ==> InRun(Look(state, now, a), StateNonce(state, a)))
      && (InOrder(Look(state, was, a), StateNonce(state, a)) ==> InOrder(Look(state, now, a), StateNonce(state, a)))
  }

  lemma {:induction false} KeepsAt(state: NonceMap, was: Order, now: Order, a: Address)
    requires Keeps(state, was, now)
    ensures InRun(Look(state, was, a), StateNonce(state, a)) ==> InRun(Look(state, now, a), StateNonce(state, a))
    ensures InOrder(Look(state, was, a), StateNonce(state, a)) ==> InOrder(Look(state, now, a), StateNonce(state, a))
  {
  }

  lemma {:induction false} KeepsAgain(state: NonceMap, was: Order, mid: Order, now: Order)
    requires Keeps(state, was, mid) && Keeps(state, mid, now)
    ensures Keeps(state, was, now)
  {
    hide InRun, InOrder, Look, StateNonce;
  }

  lemma {:induction false} KeepsItself(state: NonceMap, o: Order)
    ensures Keeps(state, o, o)
  {
  }

  /** Only the share of `a` differs. */
  ghost predicate SameBut(state: NonceMap, was: Order, now: Order, a: Address) {
    forall b :: b != a ==> Look(state, now, b) == Look(state, was, b)
  }

  lemma {:induction false} KeepsBut(state: NonceMap, was: Order, now: Order, a: Address)
    requires SameBut(state, was, now, a)
    requires InRun(Look(state, was, a), StateNonce(state, a)) ==> InRun(Look(state, now, a), StateNonce(state, a))
    requires InOrder(Look(state, was, a), StateNonce(state, a)) ==> InOrder(Look(state, now, a), StateNonce(state, a))
    ensures Keeps(state, was, now)
  {
    hide InRun, InOrder, Look, StateNonce;
  }

  // ---------- Cutting pending lists ----------

  /** The next nonce after nonce `k` was dropped: lowered to it, but not below the state nonce `n`. */
  function Lowered(n: nat, next: nat, k: nat): nat {
    if next <= k then next else if k < n then n else k
  }

  /** `y` is `x` with its pending list cut at a nonce and the next nonce lowered to that, or as it was. */
  ghost predicate CutBy(x: Account, y: Account, n: nat, at: Option<nat>) {
    match at
    case None => y.pending.Keys == x.pending.Keys && y.next == x.next
    case Some(k) => (forall j :: j in y.pending <==> j in x.pending && j < k) && y.next == Lowered(n, x.next, k)
  }

  ghost predicate IsCut(x: Account, y: Account, n: nat) {
    exists at: Option<nat> :: CutBy(x, y, n, at)
  }

  /** Every pending list is as it was or cut, in its nonces; transactions may have been replaced. */
  ghost predicate AllCut(state: NonceMap, was: Order, now: Order) {
    forall a :: IsCut(Look(state, was, a), Look(state, now, a), StateNonce(state, a))
  }

  lemma {:induction false} CutAgain(x: Account, y: Account, z: Account, n: nat)
    requires IsCut(x, y, n) && IsCut(y, z, n)
    ensures IsCut(x, z, n)
  {
    var c: Option<nat> :| CutBy(x, y, n, c);
    var d: Option<nat> :| CutBy(y, z, n, d);
    var at := if c.None? then d else if d.None? then c else if c.value < d.value then c else d;
    assert CutBy(x, z, n, at);
  }

  lemma {:induction false} AllCutAgain(state: NonceMap, was: Order, mid: Order, now: Order)
    requires AllCut(state, was, mid) && AllCut(state, mid, now)
    ensures AllCut(state, was, now)
  {
    forall a ensures IsCut(Look(state, was, a), Look(state, now, a), StateNonce(state, a)) {
      CutAgain(Look(state, was, a), Look(state, mid, a), Look(state, now, a), StateNonce(state, a));
    }
  }

  lemma {:induction false} NotCut(x: Account, y: Account, n: nat)
    requires y.pending.Keys == x.pending.Keys && y.next == x.next
    ensures IsCut(x, y, n)
  {
    assert CutBy(x, y, n, None);
  }

  lemma {:induction false} NoneCut(state: NonceMap, was: Order, now: Order)
    requires forall a :: Of(now.pending, a).Keys == Of(was.pending, a).Keys
    requires forall a :: NextNonce(state, now.known, a) == NextNonce(state, was.known, a)
    ensures AllCut(state, was, now)
  {
    forall a ensures IsCut(Look(state, was, a), Look(state, now, a), StateNonce(state, a)) {
      NotCut(Look(state, was, a), Look(state, now, a), StateNonce(state, a));
    }
  }

  /** A cut confined to one account. */
  lemma {:induction false} OneCut(state: NonceMap, was: Order, now: Order, a: Address, k: nat)
    requires CutBy(Look(state, was, a), Look(state, now, a), StateNonce(state, a), Some(k))
    requires forall b :: b != a ==> Of(now.pending, b) == Of(was.pending, b)
    requires SameElsewhere(state, was.known, now.known, a)
    ensures AllCut(state, was, now)
  {
    forall b ensures IsCut(Look(state, was, b), Look(state, now, b), StateNonce(state, b)) {
      if b != a {
        NotCut(Look(state, was, b), Look(state, now, b), StateNonce(state, b));
      }
    }
  }

  /** A run that is cut is a run, and the next nonce has not risen. */
  lemma {:induction false} CutKeepsRun(x: Account, y: Account, n: nat)
    requires IsCut(x, y, n)
    ensures InRun(x, n) ==> InRun(y, n)
    ensures n <= x.next ==> n <= y.next <= x.next
  {
    var at: Option<nat> :| CutBy(x, y, n, at);
  }

  /** Cuts keep the order where no queue has gained anything. */
  lemma {:induction false} AllCutKeeps(state: NonceMap, was: Order, now: Order)
    requires AllCut(state, was, now) && forall a :: Of(now.queue, a).Keys <= Of(was.queue, a).Keys
    ensures Keeps(state, was, now)
  {
    forall a
      ensures var x, y, n := Look(state, was, a), Look(state, now, a), StateNonce(state, a);
              (InRun(x, n) ==> InRun(y, n)) && (InOrder(x, n) ==> InOrder(y, n))
    {
      var x, y, n := Look(state, was, a), Look(state, now, a), StateNonce(state, a);
      CutKeepsRun(x, y, n);
      assert x.queue.Keys == Of(was.queue, a).Keys && y.queue.Keys == Of(now.queue, a).Keys;
    }
  }

  /** A pending list cut at one of its nonces, with what was above it queued: in order if it was. */
  lemma {:induction false} CutToQueue(x: Account, y: Account, n: nat, k: nat)
    requires k in x.pending && CutBy(x, y, n, Some(k)) && y.queue == x.queue + Above(x.pending, k)
    ensures InOrder(x, n) ==> InOrder(y, n)
  {
  }

  /** The pending nonces of an account that are held by one of `gone`. */
  ghost function HeldBy(m: TxMap, gone: seq<Tx>): set<nat> {
    set k | k in m && m[k] in gone
  }

  /** `y` is `x` with its pending list cut at the lowest nonce held by one of `gone`, or as it was if there is none. */
  ghost predicate CutOut(x: Account, y: Account, n: nat, gone: seq<Tx>) {
    var held := HeldBy(x.pending, gone);
    if held == {} then y.pending == x.pending && y.next == x.next
    else y.pending == Below(x.pending, MinKey(held)) && y.next == Lowered(n, x.next, MinKey(held))
  }

  ghost predicate AllCutOut(state: NonceMap, was: Order, now: Order, gone: seq<Tx>) {
    forall a :: CutOut(Look(state, was, a), Look(state, now, a), StateNonce(state, a), gone)
  }

  /** Taking out one more transaction, in whatever order, is taking it out with the others. */
  lemma {:induction false} CutOutAgain(x: Account, y: Account, z: Account, n: nat, gone: seq<Tx>, t: Tx)
    requires CutOut(x, y, n, gone) && CutOut(y, z, n, [t])
    ensures CutOut(x, z, n, gone + [t])
  {
    var before, one, all := HeldBy(x.pending, gone), HeldBy(y.pending, [t]), HeldBy(x.pending, gone + [t]);
    assert forall k :: k in all <==> k in before || (k in x.pending && x.pending[k] == t);
    if before != {} {
      var m := MinKey(before);
      assert forall k :: k in one <==> k in x.pending && x.pending[k] == t && k < m;
      if one == {} {
        assert forall k :: k in all ==> m <= k;
        KeyIsMin(all, m);
      } else {
        KeyIsMin(all, MinKey(one));
        assert Below(Below(x.pending, m), MinKey(one)) == Below(x.pending, MinKey(one));
      }
    } else {
      assert one == all;
    }
  }

  lemma {:induction false} AllCutOutAgain(state: NonceMap, was: Order, mid: Order, now: Order, gone: seq<Tx>, t: Tx)
    requires AllCutOut(state, was, mid, gone) && AllCutOut(state, mid, now, [t])
    ensures AllCutOut(state, was, now, gone + [t])
  {
    hide CutOut, Look;
    forall a ensures CutOut(Look(state, was, a), Look(state, now, a), StateNonce(state, a), gone + [t]) {
      CutOutAgain(Look(state, was, a), Look(state, mid, a), Look(state, now, a), StateNonce(state, a), gone, t);
    }
  }

  /** Nothing is cut where none of `gone` is pending. */
  lemma {:induction false} NoneCutOut(state: NonceMap, was: Order, now: Order, gone: seq<Tx>)
    requires now.pending == was.pending && SameNext(state, was.known, now.known)
    requires forall a, k :: Has(was.pending, a, k) ==> was.pending[a][k] !in gone
    ensures AllCutOut(state, was, now, gone)
  {
    forall a ensures HeldBy(Of(was.pending, a), gone) == {} {
      assert forall k :: k in Of(was.pending, a) ==> Has(was.pending, a, k);
    }
  }

  /** Every list of `now` is part of the same list of `was`. */
  ghost predicate Shrunk(was: Lists, now: Lists) {
    forall a :: Submap(Of(now, a), Of(was, a))
  }

  lemma {:induction false} ShrunkAgain(was: Lists, mid: Lists, now: Lists)
    requires Shrunk(was, mid) && Shrunk(mid, now)
    ensures Shrunk(was, now)
  {
    hide Of;
    forall a ensures Submap(Of(now, a), Of(was, a)) {
      assert Submap(Of(now, a), Of(mid, a)) && Submap(Of(mid, a), Of(was, a));
    }
  }

  // ---------- Promoting ----------

  /** An account's share after promotion: the ready run of its screened queue is pending, and the rest is capped. */
  function Promoted(x: Account, n: nat, drop: Tx -> bool, floor: Option<nat>, cap: Option<nat>): Account {
    var m := Screened(x.queue, n, drop);
    if m == map[] then Account(x.pending, map[], x.next)
    else
      var end := ReadyEnd(m, x.next, floor);
      var run, rest := Below(m, end), Forward(m, end);
      Account(x.pending + run, if cap.None? then rest else Cap(rest, cap.value), if run == map[] then x.next else end)
  }

  ghost predicate Disjoint(x: Account) {
    x.pending.Keys !! x.queue.Keys
  }

  lemma {:induction false} ShareIsDisjoint(state: NonceMap, o: Order, txs: Lookup, limbo: set<Tx>, a: Address)
    requires Split(o.pending, o.queue, txs, limbo)
    ensures Disjoint(Look(state, o, a))
  {
    forall n | n in Of(o.pending, a) && n in Of(o.queue, a) ensures false {
      assert Has(o.pending, a, n) && Has(o.queue, a, n);
    }
  }

  /** The queue that is left after promotion holds part of what is left by taking the run out. */
  lemma {:induction false} PromotedQueue(x: Account, n: nat, drop: Tx -> bool, floor: Option<nat>, cap: Option<nat>)
    ensures var y, m := Promoted(x, n, drop, floor, cap), Screened(x.queue, n, drop);
            && (m != map[] ==> Submap(y.queue, Forward(m, ReadyEnd(m, x.next, floor))))
            && Submap(y.queue, x.queue)
  {
    var m := Screened(x.queue, n, drop);
    if m != map[] && cap.Some? {
      hide Cap;
      CapKeepsLowest(Forward(m, ReadyEnd(m, x.next, floor)), cap.value);
    }
  }

  /** What is screened and not already pending lies at or above the next nonce of a run. */
  lemma {:induction false} ScreenedAbove(x: Account, n: nat, drop: Tx -> bool)
    requires Disjoint(x) && Interval(Forward(x.pending, n), n, x.next)
    ensures forall k :: k in Screened(x.queue, n, drop) ==> x.next <= k && k in x.queue && !drop(x.queue[k])
  {
    forall k | k in Screened(x.queue, n, drop) ensures x.next <= k {
      assert n <= k && k in x.queue.Keys && k !in x.pending.Keys;
      assert k !in Forward(x.pending, n);
    }
  }

  /** What is ready in a list at or above `next` is a run from there that cannot be extended. */
  lemma {:induction false} ReadyFrom(m: TxMap, next: nat, floor: Option<nat>)
    requires m != map[] && forall k :: k in m ==> next <= k
    ensures var end := ReadyEnd(m, next, floor);
            var run := Below(m, end);
            && (run != map[] ==> Interval(run, next, end))
            && (forall k :: k in run ==> Payable(run[k], floor))
            && NothingReady(Forward(m, end), if run == map[] then next else end, floor)
            && (forall k :: k in Forward(m, end) ==> (if run == map[] then next else end) <= k)
  {
    var first, end := MinKey(m.Keys), ReadyEnd(m, next, floor);
    ReadyIsRun(m, next, floor);
    RunIsMaximal(m, first, floor);
    if Below(m, end) != map[] {
      var k :| k in Below(m, end);
      assert first < end && first == next;
    }
  }

  /** Promotion puts an account that was in a run in order and leaves nothing more to promote. */
  lemma {:induction false} PromotedInOrder(x: Account, n: nat, drop: Tx -> bool, floor: Option<nat>, cap: Option<nat>)
    requires Disjoint(x) && InRun(x, n)
    ensures var y := Promoted(x, n, drop, floor, cap);
            InOrder(y, n) && NothingReady(y.queue, y.next, floor)
  {
    hide Screened, Cap, ReadyEnd;
    var m := Screened(x.queue, n, drop);
    assert Forward(x.pending, n) == x.pending;
    ScreenedAbove(x, n, drop);
    if m != map[] {
      PromotedQueue(x, n, drop, floor, cap);
      ReadyFrom(m, x.next, floor);
      var end := ReadyEnd(m, x.next, floor);
      RunExtends(x.pending, n, x.next, Below(m, end), end);
    }
  }

  lemma {:induction false} RunExtends(l: TxMap, n: nat, next: nat, run: TxMap, end: nat)
    requires Interval(l, n, next) && (run != map[] ==> Interval(run, next, end))
    ensures Interval(l + run, n, if run == map[] then next else end)
  {
  }

  // ---------- Shares under a new state nonce ----------

  /** The nonces of a list have no gap between them. */
  ghost predicate Gapless(m: TxMap) {
    exists lo: nat, hi: nat :: Interval(m, lo, hi)
  }

  /** A gapless list that starts exactly at `n`, or an empty one. */
  ghost predicate Anchored(m: TxMap, n: nat) {
    exists hi: nat :: Interval(m, n, hi)
  }

  /** What a drop test and a base fee let through. */
  function Passing(drop: Tx -> bool, floor: Option<nat>): Tx -> bool {
    (tx: Tx) => !drop(tx) && Payable(tx, floor)
  }

  /** Nothing is expected beyond the state nonce `n`, or the transaction there is pending and passes. */
  ghost predicate Founded(x: Account, n: nat, pass: Tx -> bool) {
    x.next == n || (n < x.next && n in x.pending && pass(x.pending[n]))
  }

  /**
   If the state nonce `n` is pending, the list has no gap from there on, or its first gap is at
   the next nonce and cannot be filled from the queue.
   */
  ghost predicate Resting(x: Account, n: nat, floor: Option<nat>) {
    n in x.pending ==>
      || Anchored(Forward(x.pending, n), n)
      || (&& n < x.next && x.next !in x.pending && (forall k :: n <= k < x.next ==> k in x.pending)
          && NothingReady(x.queue, x.next, floor))
  }

  lemma {:induction false} EmptyIsAnchored(n: nat)
    ensures Anchored(map[], n)
  {
    assert Interval(map[], n, n);
  }

  /** A gapless list is anchored at each of its own nonces. */
  lemma {:induction false} GaplessIsAnchored(m: TxMap, n: nat)
    requires Gapless(Forward(m, n)) && n in m
    ensures Anchored(Forward(m, n), n)
  {
    var l := Forward(m, n);
    var lo: nat, hi: nat :| Interval(l, lo, hi);
    assert n in l && lo in l;
  }

  lemma {:induction false} GaplessRests(x: Account, n: nat, pass: Tx -> bool, floor: Option<nat>)
    requires Gapless(Forward(x.pending, n)) && x.next == n
    ensures Founded(x, n, pass) && Resting(x, n, floor)
  {
    if n in x.pending {
      GaplessIsAnchored(x.pending, n);
    }
  }

  lemma {:induction false} CutForward(x: Account, y: Account, n: nat)
    requires IsCut(x, y, n)
    ensures Gapless(Forward(x.pending, n)) ==> Gapless(Forward(y.pending, n))
    ensures Anchored(Forward(x.pending, n), n) ==> Anchored(Forward(y.pending, n), n)
  {
    var at: Option<nat> :| CutBy(x, y, n, at);
    var l, m := Forward(x.pending, n), Forward(y.pending, n);
    assert forall j :: j in m <==> j in l && (at.Some? ==> j < at.value);
    forall lo: nat, hi: nat | Interval(l, lo, hi)
      ensures Interval(m, lo, if at.None? || hi <= at.value then hi else if at.value < lo then lo else at.value)
    {
    }
  }

  lemma {:induction false} CutFounded(x: Account, y: Account, n: nat, pass: Tx -> bool)
    requires IsCut(x, y, n) && Founded(x, n, pass) && (x.next == n || Submap(y.pending, x.pending))
    ensures Founded(y, n, pass)
  {
    var at: Option<nat> :| CutBy(x, y, n, at);
  }

  lemma {:induction false} CutResting(x: Account, y: Account, n: nat, floor: Option<nat>)
    requires IsCut(x, y, n) && Submap(y.queue, x.queue) && Resting(x, n, floor)
    ensures Resting(y, n, floor)
  {
    CutForward(x, y, n);
    var at: Option<nat> :| CutBy(x, y, n, at);
    if n in y.pending && at.Some? && at.value <= x.next && !Anchored(Forward(x.pending, n), n) {
      assert Interval(Forward(y.pending, n), n, at.value);
    }
  }

  /** Promotion from the state nonce: what it takes starts there, and it stops where nothing is ready. */
  lemma {:induction false} PromotedRests(x: Account, n: nat, drop: Tx -> bool, floor: Option<nat>, cap: Option<nat>)
    requires Disjoint(x) && x.next == n && Gapless(Forward(x.pending, n))
    ensures var y := Promoted(x, n, drop, floor, cap);
            && Founded(y, n, Passing(drop, floor)) && Resting(y, n, floor)
            && (Anchored(Forward(x.pending, n), n) ==> Anchored(Forward(y.pending, n), n))
  {
    hide Screened, Cap, ReadyEnd;
    var m, y := Screened(x.queue, n, drop), Promoted(x, n, drop, floor, cap);
    if n in x.pending {
      GaplessIsAnchored(x.pending, n);
    }
    if m != map[] {
      ScreenedFrom(x.queue, n, drop);
      ReadyFrom(m, n, floor);
      PromotedQueue(x, n, drop, floor, cap);
      var end := ReadyEnd(m, n, floor);
      var run := Below(m, end);
      if run == map[] {
        assert y.pending == x.pending;
      } else {
        assert n in run && n in x.queue.Keys && n !in x.pending.Keys;
        RunMeets(x.pending, n, run, end, x.queue.Keys);
      }
    }
  }

  lemma {:induction false} ScreenedFrom(m: TxMap, n: nat, drop: Tx -> bool)
    ensures forall k :: k in Screened(m, n, drop) ==>
              n <= k && k in m && Screened(m, n, drop)[k] == m[k] && !drop(m[k])
  {
  }

  /** A run put below a gapless list joins it or leaves a gap right at its end. */
  lemma {:induction false} RunMeets(l: TxMap, n: nat, run: TxMap, end: nat, queued: set<nat>)
    requires Gapless(Forward(l, n)) && Interval(run, n, end) && run.Keys <= queued && l.Keys !! queued && n < end
    ensures Anchored(Forward(l + run, n), n) || end !in l + run
    ensures Anchored(Forward(l, n), n) ==> Anchored(Forward(l + run, n), n)
  {
    var f, all := Forward(l, n), Forward(l + run, n);
    var lo: nat, hi: nat :| Interval(f, lo, hi);
    assert forall k :: k in all <==> k in f || k in run;
    if end in l {
      assert end in f && lo in f.Keys;
      assert lo !in run.Keys;
      assert Interval(all, n, hi);
    }
    if Anchored(f, n) {
      var to: nat :| Interval(f, n, to);
      assert n !in f by { assert n in run.Keys; }
      assert Interval(all, n, end);
    }
  }

  /** Promotion only adds what was queued and clears the base fee. */
  lemma {:induction false} PromotedAdds(x: Account, n: nat, drop: Tx -> bool, floor: Option<nat>, cap: Option<nat>)
    ensures var y := Promoted(x, n, drop, floor, cap);
            && x.pending.Keys <= y.pending.Keys
            && forall k :: k in y.pending ==> k in x.pending || (k in x.queue && Payable(x.queue[k], floor))
  {
    hide Screened, Cap;
    var m := Screened(x.queue, n, drop);
    if m != map[] {
      ScreenedFrom(x.queue, n, drop);
      RunIsMaximal(m, MinKey(m.Keys), floor);
    }
  }

  // ---------- Gaps ----------

  /** The first gap of a pending list lies below the next nonce and cannot be filled from the queue. */
  ghost predicate GapAt(x: Account, n: nat, gap: nat, floor: Option<nat>) {
    && n < gap < x.next && gap !in x.pending && (forall k :: n <= k < gap ==> k in x.pending)
    && (forall k :: k in x.pending ==> n <= k) && NothingReady(x.queue, gap, floor)
  }

  /** Promotion leaves such a gap, a next nonce above it, and nothing queued below it. */
  lemma {:induction false} PromotedGap(x: Account, n: nat, drop: Tx -> bool, floor: Option<nat>, cap: Option<nat>,
                                       gap: nat)
    requires Disjoint(x) && GapAt(x, n, gap, floor)
    ensures var y := Promoted(x, n, drop, floor, cap);
            GapAt(y, n, gap, floor) && forall k :: k in y.queue ==> gap <= k
  {
    hide Screened, Cap, ReadyEnd;
    var m, y := Screened(x.queue, n, drop), Promoted(x, n, drop, floor, cap);
    PromotedQueue(x, n, drop, floor, cap);
    PromotedAdds(x, n, drop, floor, cap);
    ScreenedFrom(x.queue, n, drop);
    assert forall k :: k in m ==> gap <= k by {
      assert forall k :: k in m ==> k in x.queue.Keys && k !in x.pending.Keys;
    }
    if m != map[] {
      EndsAbove(m, gap, x.next, floor);
    }
  }

  /** What is ready above a gap ends above it. */
  lemma {:induction false} EndsAbove(m: TxMap, gap: nat, next: nat, floor: Option<nat>)
    requires m != map[] && (forall k :: k in m ==> gap <= k) && NothingReady(m, gap, floor)
    ensures Below(m, ReadyEnd(m, next, floor)) != map[] ==> gap < ReadyEnd(m, next, floor)
  {
    var end := ReadyEnd(m, next, floor);
    if k :| k in Below(m, end) {
      assert gap <= k < end;
    }
  }

  /** Cutting a list with a gap leaves a run exactly if it is cut at the gap or below, and then one in order. */
  lemma {:induction false} CutAtGap(x: Account, y: Account, n: nat, gap: nat, floor: Option<nat>)
    requires GapAt(x, n, gap, floor) && (forall k :: k in x.queue ==> gap <= k)
    requires IsCut(x, y, n) && Submap(y.queue, x.queue)
    ensures InRun(y, n) <==> y.next <= gap
    ensures InRun(y, n) <==> InOrder(y, n)
  {
    var at: Option<nat> :| CutBy(x, y, n, at);
    assert at.Some? && at.value <= gap ==> forall k :: k in y.pending <==> n <= k < at.value;
    if y.next > gap {
      assert gap !in y.pending;
    }
  }
}
