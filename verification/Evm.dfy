/** Two helpers of block execution: the memoised ancestor hash and the gas estimate. */
module Evm {
  import opened Types
  import opened Blocks

  const TWO_64: nat := 0x1_0000_0000_0000_0000
  const TWO_63: nat := 0x8000_0000_0000_0000

  // ---------- Ancestor hashes ----------

  /** Looks a header up by hash and number; numbers are kept in 64 bits. */
  function GetHeader(headers: set<Hash>, hash: Hash, number: nat): Option<Block> {
    if hash in headers && hash.HashOf? && hash.block.number % TWO_64 == number then Some(hash.block) else None
  }

  /** The hash `i + 1` parent links back from `ref`, if all headers in between are stored. */
  ghost function StepBack(ref: Block, headers: set<Hash>, i: nat): Option<Hash> {
    if i == 0 then Some(ref.parentHash)
    else
      match StepBack(ref, headers, i - 1)
      case None => None
      case Some(h) =>
        match GetHeader(headers, h, (ref.number - i) % TWO_64)
        case None => None
        case Some(b) => Some(b.parentHash)
  }

  /** How many links back number `n` is, counted in 64 bits. */
  function LinksBack(ref: Block, n: nat): nat {
    (ref.number - n - 1) % TWO_64
  }

  /** What the plain walk answers: the hash that many links back, or the empty one off the stored chain. */
  ghost function Walked(ref: Block, headers: set<Hash>, n: nat): Hash {
    match StepBack(ref, headers, LinksBack(ref, n)) case Some(h) => h case None => Zero
  }

  /** Off the stored chain, always off it. */
  lemma {:induction false} StaysOff(ref: Block, headers: set<Hash>, i: nat, j: nat)
    requires StepBack(ref, headers, i).None? && i <= j
    ensures StepBack(ref, headers, j).None?
    decreases j
  {
    if i < j {
      StaysOff(ref, headers, i, j - 1);
    }
  }

  class HashLookup {
    const ref: Block
    const headers: set<Hash>
    var cache: seq<Hash>

    /** Entry `i` of the cache is the hash `i + 1` steps back. */
    ghost predicate Valid()
      reads this
    {
      && ref.number < TWO_64 && |cache| <= TWO_64
      && forall i :: 0 <= i < |cache| ==> StepBack(ref, headers, i) == Some(cache[i])
    }

    constructor (ref: Block, headers: set<Hash>)
      requires ref.number < TWO_64
      ensures Valid() && this.ref == ref && this.headers == headers
    {
      this.ref, this.headers, cache := ref, headers, [];
    }

    /** Agrees with the plain walk for every number, whatever was asked before. */
    method GetHash(n: nat) returns (hash: Hash)
      requires Valid() && n < TWO_64
      modifies this`cache
      ensures Valid() && hash == Walked(ref, headers, n)
    {
      hide StepBack;
      FirstStep(ref, headers);
      if |cache| == 0 {
        cache := [ref.parentHash];
      }
      var idx := LinksBack(ref, n);
      if idx < |cache| {
        return cache[idx];
      }
      var lastKnownHash := cache[|cache| - 1];
      var lastKnownNumber := (ref.number - |cache|) % TWO_64;
      while true
        invariant Valid() && 0 < |cache| <= idx && lastKnownHash == cache[|cache| - 1]
        invariant lastKnownNumber == (ref.number - |cache|) % TWO_64
        decreases idx - |cache|
      {
        var header := GetHeader(headers, lastKnownHash, lastKnownNumber);
        NextStep(ref, headers, |cache|);
        if header.None? {
          StaysOff(ref, headers, |cache|, idx);
          return Zero;
        }
        OneBelow(header.value.number, ref.number - |cache|);
        Reached(ref, n, |cache| + 1);
        cache := cache + [header.value.parentHash];
        lastKnownHash := header.value.parentHash;
        lastKnownNumber := (header.value.number - 1) % TWO_64;
        if n == lastKnownNumber {
          return lastKnownHash;
        }
      }
    }
  }

  lemma {:induction false} OneBelow(a: int, b: int)
    requires a % TWO_64 == b % TWO_64
    ensures (a - 1) % TWO_64 == (b - 1) % TWO_64
  {
  }

  /** Going back one link at a time, number `n` is met exactly when the links counted for it are through. */
  lemma {:induction false} Reached(ref: Block, n: nat, links: nat)
    requires ref.number < TWO_64 && n < TWO_64 && 0 < links <= LinksBack(ref, n) + 1
    ensures n == (ref.number - links) % TWO_64 <==> links == LinksBack(ref, n) + 1
  {
  }

  // ---------- Numbers from the reference block on ----------

  /** `g` has number 0 and is the reference block itself or found at the end of the stored chain below it. */
  ghost predicate IsBottom(ref: Block, headers: set<Hash>, g: Block) {
    && g.number % TWO_64 == 0
    && (if ref.number == 0 then g == ref
        else g.Hash() in headers && StepBack(ref, headers, ref.number - 1) == Some(g.Hash()))
  }

  /**
   The largest number of all is the number below block 0 wrapped around. The answer to it is not
   the empty hash exactly if the stored chain reaches down to a block 0 that names a parent.
   */
  lemma {:induction false} TopNumberMatches(ref: Block, headers: set<Hash>)
    requires ref.number < TWO_64
    ensures Walked(ref, headers, TWO_64 - 1) != Zero <==> exists g :: IsBottom(ref, headers, g) && g.parentHash != Zero
  {
    assert LinksBack(ref, TWO_64 - 1) == ref.number;
    if ref.number == 0 {
      assert IsBottom(ref, headers, ref);
    } else {
      var h := StepBack(ref, headers, ref.number - 1);
      if Walked(ref, headers, TWO_64 - 1) != Zero {
        assert IsBottom(ref, headers, h.value.block);
      }
      if g :| IsBottom(ref, headers, g) && g.parentHash != Zero {
        assert GetHeader(headers, h.value, 0) == Some(g);
      }
    }
  }

  /** The block that the bottom one names as its parent, stored under the number below 0. */
  ghost predicate IsBelowBottom(ref: Block, headers: set<Hash>, t: Block) {
    && t.number % TWO_64 == TWO_64 - 1 && t.Hash() in headers
    && StepBack(ref, headers, ref.number) == Some(t.Hash())
  }

  /**
   Every other number from the reference block on is answered with the empty hash, exactly unless
   the bottom block names a parent that is stored under the largest number and names one itself.
   */
  lemma {:induction false} AboveIsEmpty(ref: Block, headers: set<Hash>)
    requires ref.number < TWO_64 - 1
    ensures (forall n: nat :: ref.number <= n < TWO_64 - 1 ==> Walked(ref, headers, n) == Zero) <==>
              !exists t :: IsBelowBottom(ref, headers, t) && t.parentHash != Zero
  {
    var h, below := StepBack(ref, headers, ref.number), StepBack(ref, headers, ref.number + 1);
    NumberBelow(ref, headers);
    if t :| IsBelowBottom(ref, headers, t) && t.parentHash != Zero {
      assert Walked(ref, headers, TWO_64 - 2) == t.parentHash;
    } else {
      if below.Some? {
        assert IsBelowBottom(ref, headers, h.value.block) && below.value == Zero;
        EndsAtZero(ref, headers, ref.number + 1);
      }
      forall n: nat | ref.number <= n < TWO_64 - 1 ensures Walked(ref, headers, n) == Zero {
        AboveIsFar(ref, n);
        if LinksBack(ref, n) > ref.number + 1 || below.None? {
          StaysOff(ref, headers, if below.None? then ref.number + 1 else ref.number + 2, LinksBack(ref, n));
        }
      }
    }
  }

  lemma {:induction false} NumberBelow(ref: Block, headers: set<Hash>)
    requires ref.number < TWO_64 - 1
    ensures LinksBack(ref, TWO_64 - 2) == ref.number + 1 && (ref.number - (ref.number + 1)) % TWO_64 == TWO_64 - 1
  {
  }

  lemma {:induction false} AboveIsFar(ref: Block, n: nat)
    requires ref.number <= n < TWO_64 - 1
    ensures LinksBack(ref, n) >= ref.number + 1
  {
    assert (ref.number - n - 1) % TWO_64 == ref.number - n - 1 + TWO_64;
  }

  /** The empty hash names no header. */
  lemma {:induction false} EndsAtZero(ref: Block, headers: set<Hash>, i: nat)
    requires StepBack(ref, headers, i) == Some(Zero)
    ensures StepBack(ref, headers, i + 1).None?
  {
  }

  /** A block on top of a genesis block that names a parent: the top number is answered with that parent. */
  lemma {:induction false} TopNumberExample(other: Block)
    ensures var g := Block(other.Hash(), 0, 0, 0, [], 0);
            var ref := Block(g.Hash(), 1, 0, 0, [], 0);
            Walked(ref, {g.Hash()}, TWO_64 - 1) == other.Hash()
  {
    var g := Block(other.Hash(), 0, 0, 0, [], 0);
    var ref := Block(g.Hash(), 1, 0, 0, [], 0);
    FirstStep(ref, {g.Hash()});
    NextStep(ref, {g.Hash()}, 1);
    assert LinksBack(ref, TWO_64 - 1) == 1;
  }

  /** A genesis block that names a parent stored under the largest number: the one below that is answered as well. */
  lemma {:induction false} AboveExample(other: Block)
    ensures var t := Block(other.Hash(), TWO_64 - 1, 0, 0, [], 0);
            var g := Block(t.Hash(), 0, 0, 0, [], 0);
            var ref := Block(g.Hash(), 1, 0, 0, [], 0);
            Walked(ref, {g.Hash(), t.Hash()}, TWO_64 - 2) == other.Hash()
  {
    var t := Block(other.Hash(), TWO_64 - 1, 0, 0, [], 0);
    var g := Block(t.Hash(), 0, 0, 0, [], 0);
    var ref, headers := Block(g.Hash(), 1, 0, 0, [], 0), {g.Hash(), t.Hash()};
    FirstStep(ref, headers);
    NextStep(ref, headers, 1);
    NextStep(ref, headers, 2);
    NumberBelow(ref, headers);
  }

  lemma {:induction false} FirstStep(ref: Block, headers: set<Hash>)
    ensures StepBack(ref, headers, 0) == Some(ref.parentHash)
  {
  }

  lemma {:induction false} NextStep(ref: Block, headers: set<Hash>, i: nat)
    requires 0 < i && StepBack(ref, headers, i - 1).Some?
    ensures StepBack(ref, headers, i) ==
              match GetHeader(headers, StepBack(ref, headers, i - 1).value, (ref.number - i) % TWO_64)
              case None => None
              case Some(b) => Some(b.parentHash)
  {
  }

  // ---------- Gas estimate ----------

  const TX_GAS: nat := 21000
  const UPPER_GAS_LIMIT: nat := 999999999999

  datatype Trial = Broken | Fails(outOfGas: bool) | Succeeds

  datatype Estimate =
    | Gas(amount: nat)
    | InsufficientFunds
    | TrialBroke
    | Reverted
    | CapTooLow

  /** The largest gas the estimate may use: the limit asked for, what the balance affords, and the node's cap. */
  function GasCap(gasLimit: nat, rpcGasCap: nat, value: nat, price: nat, balance: nat): Option<nat> {
    var limit := if gasLimit >= TX_GAS then gasLimit else UPPER_GAS_LIMIT;
    if price != 0 && value >= balance then None
    else
      var affordable :=
        if price != 0 && (balance - value) / price < TWO_64 && limit > (balance - value) / price
        then (balance - value) / price else limit;
      Some(if rpcGasCap != 0 && affordable > rpcGasCap then rpcGasCap else affordable)
  }

  lemma {:induction false} CapIsAffordable(gasLimit: nat, rpcGasCap: nat, value: nat, price: nat, balance: nat)
    requires gasLimit < TWO_64 && rpcGasCap < TWO_64 && GasCap(gasLimit, rpcGasCap, value, price, balance).Some?
    ensures var cap := GasCap(gasLimit, rpcGasCap, value, price, balance).value;
            && cap < TWO_64 && (rpcGasCap != 0 ==> cap <= rpcGasCap)
            && cap <= (if gasLimit >= TX_GAS then gasLimit else UPPER_GAS_LIMIT)
            && (price != 0 ==> cap * price + value <= balance)
  {
    if price != 0 {
      var cap := GasCap(gasLimit, rpcGasCap, value, price, balance).value;
      var allowance := (balance - value) / price;
      assert cap <= allowance;
      assert cap * price <= allowance * price <= balance - value;
    }
  }

  /** A trial that succeeds with some gas succeeds with more. */
  ghost predicate Monotone(trial: nat -> Trial) {
    forall a: nat, b: nat :: a <= b && trial(a).Succeeds? ==> trial(b).Succeeds?
  }

  function Middle(lo: nat, hi: nat): nat { ((hi + lo) % TWO_64) / 2 }

  // ---------- When the search ends ----------

  /** The lower bound after `k` rounds in which every trial fails. */
  ghost function LowAfter(cap: nat, k: nat): nat {
    if k == 0 then TX_GAS - 1
    else
      var lo := LowAfter(cap, k - 1);
      if lo + 1 < cap then Middle(lo, cap) else lo
  }

  /** Still searching after `k` rounds. */
  ghost predicate Searching(cap: nat, k: nat) {
    LowAfter(cap, k) + 1 < cap
  }

  lemma {:induction false} BelowHalf(cap: nat, k: nat)
    requires TWO_63 < cap < TWO_64
    ensures LowAfter(cap, k) < TWO_63
  {
    if 0 < k {
      BelowHalf(cap, k - 1);
    }
  }

  /** Without overflow every round that fails brings the bounds closer. */
  lemma {:induction false} GapShrinks(cap: nat, k: nat)
    requires TX_GAS <= cap <= TWO_63
    ensures LowAfter(cap, k) < cap
    ensures Searching(cap, k) ==> LowAfter(cap, k) >= TX_GAS - 1 + k
  {
    hide Middle;
    if 0 < k {
      GapShrinks(cap, k - 1);
      MiddleBounds(LowAfter(cap, k - 1), cap);
    }
  }

  /**
   With a trial that always fails the search goes on for ever exactly when the cap is above
   half the range of the counter: the sum of the bounds then wraps around and throws the lower
   bound back below the middle each time.
   */
  lemma {:induction false} FailingSearchDiverges(cap: nat)
    requires cap < TWO_64
    ensures (forall k: nat :: Searching(cap, k)) <==> TWO_63 < cap
  {
    if TWO_63 < cap {
      forall k: nat ensures Searching(cap, k) {
        BelowHalf(cap, k);
      }
    } else if TX_GAS <= cap {
      GapShrinks(cap, cap);
      assert !Searching(cap, cap);
    } else {
      assert !Searching(cap, 0);
    }
  }

  /**
   Whether the search ends: below half the range it always does, above it only if one of the
   amounts it tries while everything fails does not fail.
   */
  ghost predicate Ends(cap: nat, trial: nat -> Trial) {
    cap <= TWO_63 || exists k: nat :: Turns(cap, trial, k)
  }

  /** After `k` failing rounds the next trial does not fail. */
  ghost predicate Turns(cap: nat, trial: nat -> Trial, k: nat) {
    !trial(Middle(LowAfter(cap, k), cap)).Fails?
  }

  /** Exactly then some round of the search is the last in which everything has failed so far. */
  lemma {:induction false} EndsExactly(cap: nat, trial: nat -> Trial)
    requires cap < TWO_64
    ensures Ends(cap, trial) <==>
              exists k: nat :: !Searching(cap, k) || Turns(cap, trial, k)
  {
    FailingSearchDiverges(cap);
    hide Searching, Turns;
  }

  lemma {:induction false} MiddleBounds(lo: nat, hi: nat)
    ensures Middle(lo, hi) < TWO_63
    ensures lo + 1 < hi && lo + hi < TWO_64 ==> lo < Middle(lo, hi) < hi
  {
  }

  lemma {:induction false} FailsBelow(trial: nat -> Trial, lo: nat)
    requires Monotone(trial) && trial(lo).Fails?
    ensures forall g: nat :: g <= lo ==> !trial(g).Succeeds?
  {
  }

  // ---------- The search ----------

  /** The search under a cap, given that it ends. */
  method SearchGas(cap: nat, trial: nat -> Trial) returns (r: Estimate)
    requires cap < TWO_64 && Ends(cap, trial)
    ensures !r.InsufficientFunds?
    ensures r.Gas? ==> trial(r.amount).Succeeds? && r.amount <= cap
    ensures r.Gas? && r.amount < TX_GAS && cap <= TWO_63 ==> r.amount == cap
    ensures r.Gas? && Monotone(trial) ==> forall g: nat :: TX_GAS <= g < r.amount ==> !trial(g).Succeeds?
    ensures r.CapTooLow? ==> trial(cap) == Fails(true)
    ensures r.Reverted? ==> trial(cap) == Fails(false)
    ensures r.TrialBroke? ==> exists g: nat :: g <= cap && trial(g).Broken?
    ensures trial(cap).Succeeds? && (forall g: nat :: g <= cap ==> !trial(g).Broken?) ==> r.Gas?
  {
    hide Middle, Monotone;
    var lo: nat, hi: nat := TX_GAS - 1, cap;
    ghost var wide := TWO_63 < cap;
    ghost var last: nat, round: nat := 0, 0;
    if wide {
      last :| Turns(cap, trial, last);
    }
    while lo + 1 < hi
      invariant hi != cap ==> trial(hi).Succeeds? && hi < cap && hi < TWO_63
      invariant lo != TX_GAS - 1 ==> trial(lo).Fails?
      invariant !wide ==> lo < hi || (lo == TX_GAS - 1 && hi == cap)
      invariant !wide ==> TX_GAS - 1 <= lo && (hi != cap ==> TX_GAS <= hi)
      invariant wide && hi == cap ==> lo == LowAfter(cap, round) && (round <= last || lo + 1 >= hi)
      invariant wide ==> lo < TWO_63
      decreases if wide && hi == cap then 1 + last - round else 0, hi - lo
    {
      MiddleBounds(lo, hi);
      var mid := Middle(lo, hi);
      var result := trial(mid);
      if result.Broken? {
        return TrialBroke;
      }
      if result.Fails? {
        lo := mid;
        round := round + 1;
      } else {
        hi := mid;
      }
    }
    if wide && hi == cap {
      BelowHalf(cap, round);
    }
    if Monotone(trial) && trial(lo).Fails? {
      FailsBelow(trial, lo);
    }
    if hi == cap {
      var result := trial(hi);
      if result.Broken? {
        return TrialBroke;
      }
      if result.Fails? {
        return if result.outOfGas then CapTooLow else Reverted;
      }
    }
    r := Gas(hi);
  }

  /**
   Binary search for the gas a transaction needs. Any estimate was tried and succeeded, is
   within the cap, and for a monotone trial is the least that succeeds from the base cost of
   a transaction up, unless the cap is already lower than that. It is asked for only where the
   search ends.
   */
  method EstimateGas(gasLimit: nat, rpcGasCap: nat, value: nat, price: nat, balance: nat, trial: nat -> Trial)
    returns (r: Estimate)
    requires gasLimit < TWO_64 && rpcGasCap < TWO_64
    requires var cap := GasCap(gasLimit, rpcGasCap, value, price, balance); cap.Some? ==> Ends(cap.value, trial)
    ensures r.InsufficientFunds? <==> price != 0 && value >= balance
    ensures r.Gas? ==>
              && trial(r.amount).Succeeds?
              && (rpcGasCap != 0 ==> r.amount <= rpcGasCap)
              && r.amount <= (if gasLimit >= TX_GAS then gasLimit else UPPER_GAS_LIMIT)
              && (price != 0 ==> r.amount * price + value <= balance)
              && (r.amount < TX_GAS ==>
                    var cap := GasCap(gasLimit, rpcGasCap, value, price, balance).value;
                    cap <= TWO_63 ==> r.amount == cap)
    ensures r.Gas? && Monotone(trial) ==> forall g: nat :: TX_GAS <= g < r.amount ==> !trial(g).Succeeds?
    ensures var cap := GasCap(gasLimit, rpcGasCap, value, price, balance);
            cap.Some? ==>
              && (r.CapTooLow? ==> trial(cap.value) == Fails(true))
              && (r.Reverted? ==> trial(cap.value) == Fails(false))
              && (r.TrialBroke? ==> exists g: nat :: g <= cap.value && trial(g).Broken?)
              && (trial(cap.value).Succeeds? && (forall g: nat :: g <= cap.value ==> !trial(g).Broken?) ==> r.Gas?)
  {
    hide Monotone;
    var bound := GasCap(gasLimit, rpcGasCap, value, price, balance);
    if bound.None? {
      return InsufficientFunds;
    }
    CapIsAffordable(gasLimit, rpcGasCap, value, price, balance);
    r := SearchGas(bound.value, trial);
    if r.Gas? {
      AffordsLess(r.amount, bound.value, price);
    }
  }

  lemma {:induction false} AffordsLess(gas: nat, cap: nat, price: nat)
    requires gas <= cap
    ensures gas * price <= cap * price
  {
  }
}
