/**
 What the per-account transaction lists compute, as functions on a plain map
 from nonce to transaction. `SortedMap` shows that the heap-indexed, cached
 structure computes exactly these; the pool is built on them.
 */
module TxLists {
  import opened Types

  type TxMap = map<nat, Tx>

  ghost predicate WellKeyed(m: TxMap) {
    forall n :: n in m ==> m[n].nonce == n
  }

  function MinKey(s: set<nat>): (k: nat)
    requires s != {}
    ensures k in s && forall j :: j in s ==> k <= j
  {
    MinExists(s);
    var k :| k in s && forall j :: j in s ==> k <= j;
    k
  }

  lemma {:induction false} MinExists(s: set<nat>)
    requires s != {}
    ensures exists k :: k in s && forall j :: j in s ==> k <= j
    decreases |s|
  {
    var k := Least(s);
  }

  lemma {:induction false} Least(s: set<nat>) returns (k: nat)
    requires s != {}
    ensures k in s && forall j :: j in s ==> k <= j
    decreases |s|
  {
    k :| k in s;
    if s != {k} {
      var other := Least(s - {k});
      assert forall j :: j in s ==> j in s - {k} || j == k;
      if other < k { k := other; }
    }
  }

  function MaxKey(s: set<nat>): (k: nat)
    requires s != {}
    ensures k in s && forall j :: j in s ==> j <= k
  {
    MaxExists(s);
    var k :| k in s && forall j :: j in s ==> j <= k;
    k
  }

  lemma {:induction false} MaxExists(s: set<nat>)
    requires s != {}
    ensures exists k :: k in s && forall j :: j in s ==> j <= k
    decreases |s|
  {
    var x :| x in s;
    if s != {x} {
      MaxExists(s - {x});
      var k :| k in s - {x} && forall j :: j in s - {x} ==> j <= k;
      var most := if x <= k then k else x;
      assert forall j :: j in s ==> j in s - {x} || j == x;
      assert most in s && forall j :: j in s ==> j <= most;
    }
  }

  lemma {:induction false} KeyIsMin(s: set<nat>, k: nat)
    requires k in s && forall j :: j in s ==> k <= j
    ensures MinKey(s) == k
  {
  }

  lemma {:induction false} KeyIsMax(s: set<nat>, k: nat)
    requires k in s && forall j :: j in s ==> j <= k
    ensures MaxKey(s) == k
  {
  }

  // ---------- Operations ----------

  /**
   Whether a new transaction takes the place of `prior` at its nonce: a cancel
   always does, any other only under Magma and at a higher price.
   */
  predicate Replaces(tx: Tx, prior: Tx, magma: bool) {
    tx.cancel || (magma && prior.price < tx.price)
  }

  /** What `Forward` keeps: the nonces from the threshold on. */
  function Forward(m: TxMap, threshold: nat): TxMap {
    map n | n in m && threshold <= n :: m[n]
  }

  /** What `Filter` keeps. */
  function Filter(m: TxMap, drop: Tx -> bool): TxMap {
    map n | n in m && !drop(m[n]) :: m[n]
  }

  /** What a strict list keeps: only nonces below every dropped one. */
  function FilterStrict(m: TxMap, drop: Tx -> bool): TxMap {
    map n | n in m && (forall x :: x in m && x <= n ==> !drop(m[x])) :: m[n]
  }

  /** What is left of a queued list once old and unpayable transactions are gone. */
  function Screened(m: TxMap, nonce: nat, drop: Tx -> bool): TxMap {
    Filter(Forward(m, nonce), drop)
  }

  /** What removing nonce `k` leaves in a strict list. */
  function Below(m: TxMap, k: nat): TxMap {
    map n | n in m && n < k :: m[n]
  }

  /** What `Cap` keeps: the `k` lowest nonces. */
  function Cap(m: TxMap, k: nat): TxMap
    decreases |m|
  {
    if |m| <= k then m else Cap(m - {MaxKey(m.Keys)}, k)
  }

  /** A transaction is taken by `Ready`, or by `ReadyWithGasPrice` if it pays at least `floor`. */
  predicate Payable(tx: Tx, floor: Option<nat>) {
    floor.Some? ==> floor.value <= tx.price
  }

  /** End of the run of consecutive payable nonces that starts at `n`. */
  function RunEnd(m: TxMap, n: nat, floor: Option<nat>): (end: nat)
    ensures n <= end
    decreases |m|
  {
    if n in m && Payable(m[n], floor) then RunEnd(m - {n}, n + 1, floor) else n
  }

  /** End of what `Ready` takes; it takes nothing when it equals the first nonce. */
  function ReadyEnd(m: TxMap, start: nat, floor: Option<nat>): (end: nat)
    requires m != map[]
    ensures MinKey(m.Keys) <= end
  {
    var first := MinKey(m.Keys);
    if first > start then first else RunEnd(m, first, floor)
  }

  /** What `Ready` leaves. */
  function AfterReady(m: TxMap, start: nat, floor: Option<nat>): TxMap {
    if m == map[] then m else Forward(m, ReadyEnd(m, start, floor))
  }

  /** All transactions in nonce order. */
  function Flatten(m: TxMap): seq<Tx>
    decreases |m|
  {
    if m == map[] then [] else
      var k := MinKey(m.Keys);
      [m[k]] + Flatten(m - {k})
  }

  // ---------- Flatten ----------

  ghost predicate StrictlySorted(s: seq<Tx>) {
    forall i, j :: 0 <= i < j < |s| ==> s[i].nonce < s[j].nonce
  }

  lemma {:induction false} FlattenContents(m: TxMap)
    requires WellKeyed(m)
    ensures |Flatten(m)| == |m|
    ensures StrictlySorted(Flatten(m))
    ensures forall tx :: tx in Flatten(m) <==> tx.nonce in m && m[tx.nonce] == tx
    decreases |m|
  {
    if m != map[] {
      var k := MinKey(m.Keys);
      FlattenContents(m - {k});
      FlattenStep(m, k, Flatten(m - {k}));
    }
  }

  lemma {:induction false} FlattenStep(m: TxMap, k: nat, rest: seq<Tx>)
    requires WellKeyed(m) && k in m && (forall n :: n in m ==> k <= n) && StrictlySorted(rest)
    requires forall tx :: tx in rest <==> tx.nonce in m - {k} && m[tx.nonce] == tx
    ensures StrictlySorted([m[k]] + rest)
    ensures forall tx :: tx in [m[k]] + rest <==> tx.nonce in m && m[tx.nonce] == tx
  {
    forall i | 0 <= i < |rest| ensures k < rest[i].nonce {
      assert rest[i] in rest;
    }
    forall tx ensures tx in [m[k]] + rest <==> tx == m[k] || tx in rest {
    }
  }

  lemma {:induction false} FlattenLength(m: TxMap)
    ensures |Flatten(m)| == |m|
    decreases |m|
  {
    if m != map[] {
      FlattenLength(m - {MinKey(m.Keys)});
    }
  }

  /** A strictly sorted sequence is determined by what it contains. */
  lemma {:induction false} SortedUnique(s: seq<Tx>, t: seq<Tx>)
    requires StrictlySorted(s) && StrictlySorted(t)
    requires forall tx :: tx in s <==> tx in t
    ensures s == t
  {
    assert s == [] <==> t == [] by {
      if s != [] { assert s[0] in s; }
      if t != [] { assert t[0] in t; }
    }
    if s != [] {
      assert s[0] in t && t[0] in s;
      assert s[0] == t[0];
      forall tx ensures tx in s[1..] <==> tx in t[1..] {
        TailContents(s, tx);
        TailContents(t, tx);
      }
      SortedUnique(s[1..], t[1..]);
      assert s == [s[0]] + s[1..] && t == [t[0]] + t[1..];
    }
  }

  lemma {:induction false} TailContents(s: seq<Tx>, tx: Tx)
    requires StrictlySorted(s) && s != []
    ensures tx in s[1..] <==> tx in s && tx != s[0]
  {
    if tx in s && tx != s[0] {
      var i :| 0 <= i < |s| && s[i] == tx;
      assert s[1..][i - 1] == tx;
    }
  }

  lemma {:induction false} FlattenUnique(m: TxMap, s: seq<Tx>)
    requires WellKeyed(m) && StrictlySorted(s)
    requires forall tx :: tx in s <==> tx.nonce in m && m[tx.nonce] == tx
    ensures s == Flatten(m)
  {
    FlattenContents(m);
    SortedUnique(s, Flatten(m));
  }

  /** Flattening ends with the highest nonce. */
  lemma {:induction false} FlattenMax(m: TxMap)
    requires m != map[]
    ensures Flatten(m) == Flatten(m - {MaxKey(m.Keys)}) + [m[MaxKey(m.Keys)]]
    decreases |m|
  {
    var k, top := MinKey(m.Keys), MaxKey(m.Keys);
    var rest := m - {k};
    if rest == map[] {
      assert top == k by { assert top !in rest; }
    } else {
      assert k < top by { var x :| x in rest; assert x in m.Keys; }
      FlattenMax(rest);
      KeyIsMax(rest.Keys, top);
      KeyIsMin((m - {top}).Keys, k);
      assert (m - {top}) - {k} == rest - {top};
    }
  }

  // ---------- Cap ----------

  /** `Cap` keeps exactly min(k, size) transactions, and every kept nonce is below every dropped one. */
  lemma {:induction false} CapKeepsLowest(m: TxMap, k: nat)
    ensures |Cap(m, k)| == (if |m| <= k then |m| else k)
    ensures forall n :: n in Cap(m, k) ==> n in m && Cap(m, k)[n] == m[n]
    ensures forall n, x :: n in Cap(m, k) && x in m && x !in Cap(m, k) ==> n < x
    decreases |m|
  {
    if |m| > k {
      CapKeepsLowest(m - {MaxKey(m.Keys)}, k);
    }
  }

  /** Capping twice is capping once at the lower limit. */
  lemma {:induction false} CapCap(m: TxMap, j: nat, k: nat)
    requires k <= j
    ensures Cap(Cap(m, j), k) == Cap(m, k)
    decreases |m|
  {
    if |m| > j {
      CapCap(m - {MaxKey(m.Keys)}, j, k);
    }
  }

  /** `Cap` shortens the flattened list from the back. */
  lemma {:induction false} FlattenCap(m: TxMap, k: nat)
    ensures |Flatten(m)| == |m|
    ensures Flatten(Cap(m, k)) == Flatten(m)[..if |m| <= k then |m| else k]
    decreases |m|
  {
    FlattenLength(m);
    if |m| > k {
      FlattenMax(m);
      FlattenCap(m - {MaxKey(m.Keys)}, k);
    }
  }

  /** Any `k` of the transactions that all lie below the others are what `Cap` keeps. */
  lemma {:induction false} CapUnique(m: TxMap, r: TxMap, k: nat)
    requires k <= |m| && |r| == k
    requires forall n :: n in r ==> n in m && r[n] == m[n]
    requires forall n, x :: n in r && x in m && x !in r ==> n < x
    ensures r == Cap(m, k)
    decreases |m|
  {
    assert r.Keys <= m.Keys;
    if |m| == k {
      SubsetOfSameSize(r.Keys, m.Keys);
      assert r == m;
    } else {
      var top := MaxKey(m.Keys);
      var x := MissingKey(r.Keys, m.Keys);
      CapUnique(m - {top}, r, k);
    }
  }

  lemma {:induction false} SubsetOfSameSize(a: set<nat>, b: set<nat>)
    requires a <= b && |a| == |b|
    ensures a == b
  {
    assert |b| == |a| + |b - a|;
  }

  lemma {:induction false} MissingKey(a: set<nat>, b: set<nat>) returns (x: nat)
    requires a <= b && |a| < |b|
    ensures x in b && x !in a
  {
    assert b - a != {} by { assert |b| == |a| + |b - a|; }
    x :| x in b - a;
  }

  ghost predicate StrictlyFalling(s: seq<Tx>) {
    forall i, j :: 0 <= i < j < |s| ==> s[i].nonce > s[j].nonce
  }

  /** `txs` lists exactly what is in `m` and no longer in `rest`. */
  ghost predicate Lists(txs: seq<Tx>, m: TxMap, rest: TxMap) {
    forall tx :: tx in txs <==> tx.nonce in m && tx.nonce !in rest && m[tx.nonce] == tx
  }

  lemma {:induction false} ForwardNext(m: TxMap, n: nat)
    ensures Forward(m, n) - {n} == Forward(m, n + 1)
  {
  }

  // ---------- Intervals and ready runs ----------

  /** The nonces present are exactly those from `lo` up to `hi`. */
  ghost predicate Interval(m: TxMap, lo: nat, hi: nat) {
    && lo <= hi
    && forall n :: n in m <==> lo <= n < hi
  }

  /** `Ready` takes the longest consecutive payable run, and nothing else. */
  lemma {:induction false} RunIsMaximal(m: TxMap, n: nat, floor: Option<nat>)
    ensures forall k :: n <= k < RunEnd(m, n, floor) ==> k in m && Payable(m[k], floor)
    ensures RunEnd(m, n, floor) in m ==> !Payable(m[RunEnd(m, n, floor)], floor)
    decreases |m|
  {
    if n in m && Payable(m[n], floor) {
      RunIsMaximal(m - {n}, n + 1, floor);
      var rest, end := m - {n}, RunEnd(m, n, floor);
      assert end in m ==> end in rest;
      forall k | n <= k < end ensures k in m && Payable(m[k], floor) {
        assert k == n || k in rest;
      }
    }
  }
}
