/**
 Applying a transaction to the state: buying gas, running it, refunding what is
 left and paying the fee, and what that does to the sum of all balances.
 */
module StateTransitions {
  import opened Types
  import opened Fees

  // ---------- Balances ----------

  /** Adds to a balance; a negative amount subtracts. */
  function Credit(b: Balances, a: Address, amount: int): Balances {
    b[a := Balance(b, a) + amount]
  }

  ghost function Total(b: Balances): int
    decreases |b|
  {
    if b == map[] then 0 else
      var a :| a in b;
      b[a] + Total(b - {a})
  }

  lemma {:induction false} TotalWithout(b: Balances, a: Address)
    requires a in b
    ensures Total(b) == b[a] + Total(b - {a})
    decreases |b|
  {
    var c :| c in b && Total(b) == b[c] + Total(b - {c});
    if c != a {
      TotalWithout(b - {c}, a);
      TotalWithout(b - {a}, c);
      assert b - {a} - {c} == b - {c} - {a};
    }
  }

  lemma {:induction false} TotalCredit(b: Balances, a: Address, amount: int)
    ensures Total(Credit(b, a, amount)) == Total(b) + amount
  {
    var c := Credit(b, a, amount);
    TotalWithout(c, a);
    if a in b {
      TotalWithout(b, a);
      assert c - {a} == b - {a};
    } else {
      assert c - {a} == b;
    }
  }

  // ---------- Splitting an amount ----------

  /** The fee payer's part of an amount. */
  function PayerPart(tx: Tx, amount: nat): nat {
    if tx.payment.Shared? then PayerShare(amount, tx.payment.ratio) else amount
  }

  /** The sender's part; none unless the fee is shared. */
  function SenderPart(tx: Tx, amount: nat): int { amount - PayerPart(tx, amount) }

  /** Takes an amount from, or with a negative sign gives it to, fee payer and sender. */
  function Charge(b: Balances, tx: Tx, amount: nat, sign: int): Balances {
    var paid := Credit(b, tx.FeePayer(), -sign * PayerPart(tx, amount));
    if tx.payment.Shared? then Credit(paid, tx.sender, -sign * SenderPart(tx, amount)) else paid
  }

  lemma {:induction false} ChargeTotal(b: Balances, tx: Tx, amount: nat, sign: int)
    requires sign == 1 || sign == -1
    ensures Total(Charge(b, tx, amount, sign)) == Total(b) - sign * amount
  {
    TotalCredit(b, tx.FeePayer(), -sign * PayerPart(tx, amount));
    TotalCredit(Credit(b, tx.FeePayer(), -sign * PayerPart(tx, amount)), tx.sender, -sign * SenderPart(tx, amount));
  }

  /** Whether gas can be bought at a price. */
  predicate CanBuy(b: Balances, tx: Tx, price: nat) {
    && PayerPart(tx, tx.gas * price) <= Balance(b, tx.FeePayer())
    && (tx.payment.Shared? ==> SenderPart(tx, tx.gas * price) <= Balance(b, tx.sender))
  }

  /**
   A transaction the pool's balance check accepts can buy its gas at any effective price
   up to its own, ends with no negative balance and still covers its value.
   */
  lemma {:induction false} AcceptedCanPay(b: Balances, tx: Tx, price: nat)
    requires CheckFunds(b, tx).None? && 0 <= tx.value && price <= tx.price
    ensures CanBuy(b, tx, price)
    ensures var after := Charge(b, tx, tx.gas * price, 1);
            0 <= Balance(after, tx.FeePayer()) && tx.value <= Balance(after, tx.sender)
  {
    var bought, full := tx.gas * price, tx.Fee();
    assert bought <= full by { assert tx.gas * price <= tx.gas * tx.price; }
    if tx.payment.Shared? {
      SharesMonotone(bought, full, tx.payment.ratio);
      ShareBounds(bought, tx.payment.ratio);
    }
  }

  /** Paying both shares out of one account that does not cover them together. */
  predicate Overdraws(b: Balances, tx: Tx, price: nat) {
    tx.payment.Shared? && tx.sender == tx.payment.payer && Balance(b, tx.sender) < tx.gas * price
  }

  /** Buying gas leaves a negative balance exactly if one account pays both shares and does not cover them together. */
  lemma {:induction false} NegativeExactly(b: Balances, tx: Tx, price: nat)
    requires CanBuy(b, tx, price) && 0 <= Balance(b, tx.sender)
    requires tx.payment.Shared? ==> tx.payment.ratio <= MAX_RATIO
    ensures var after := Charge(b, tx, tx.gas * price, 1);
            0 <= Balance(after, tx.FeePayer()) && 0 <= Balance(after, tx.sender) <==> !Overdraws(b, tx, price)
  {
    if tx.payment.Shared? {
      ShareBounds(tx.gas * price, tx.payment.ratio);
    }
  }

  /** A balance of 50 buys 100 gas at price 1, shared half and half with itself, and ends at -50. */
  lemma {:induction false} OverdraftExample(tx: Tx)
    requires tx.payment == Shared(tx.sender, 50) && tx.gas == 100
    ensures var b := map[tx.sender := 50];
            && CanBuy(b, tx, 1) && Overdraws(b, tx, 1) && Balance(Charge(b, tx, tx.gas * 1, 1), tx.sender) == -50
  {
    assert PayerShare(100, 50) == 50;
  }

  // ---------- The transition ----------

  const REFUND_QUOTIENT: nat := 2
  const REFUND_QUOTIENT_EIP3529: nat := 5

  datatype Failure =
    | NonceTooHigh
    | NonceTooLow
    | InsufficientForGasPayer
    | InsufficientForGasSender
    | IntrinsicGas
    | InsufficientForValue
    | CodeTooLarge
    | TimeLimit

  /** What running a transaction leaves: gas, balances, the refund counter, and whether it hit the time limit. */
  datatype Execution = Execution(gasLeft: nat, balances: Balances, refund: nat, timedOut: bool)

  /** Running never returns more gas than it was given. */
  ghost predicate SpendsGas(run: (Balances, nat) -> Execution) {
    forall b, g :: run(b, g).gasLeft <= g
  }

  /** Running only moves value between accounts. */
  ghost predicate ConservesValue(run: (Balances, nat) -> Execution) {
    forall b, g :: Total(run(b, g).balances) == Total(b)
  }

  /** Who is short of funds when gas is bought. */
  function BuyFailure(b: Balances, tx: Tx, price: nat): (failure: Option<Failure>)
    ensures failure.None? <==> CanBuy(b, tx, price)
  {
    if Balance(b, tx.FeePayer()) < PayerPart(tx, tx.gas * price) then Some(InsufficientForGasPayer)
    else if tx.payment.Shared? && Balance(b, tx.sender) < SenderPart(tx, tx.gas * price)
    then Some(InsufficientForGasSender)
    else None
  }

  class StateTransition {
    const msg: Tx
    const price: nat
    const intrinsicGas: nat
    const checkNonce: bool
    var balances: Balances
    var nonce: nat
    var gas: nat
    var initialGas: nat

    constructor (msg: Tx, price: nat, intrinsicGas: nat, checkNonce: bool, balances: Balances, nonce: nat)
      ensures this.msg == msg && this.price == price
      ensures this.intrinsicGas == intrinsicGas && this.checkNonce == checkNonce
      ensures this.balances == balances && this.nonce == nonce && gas == 0
    {
      this.msg, this.price, this.intrinsicGas, this.checkNonce := msg, price, intrinsicGas, checkNonce;
      this.balances, this.nonce := balances, nonce;
      gas, initialGas := 0, 0;
    }

    function GasUsed(): int
      reads this`initialGas, this`gas
    {
      initialGas - gas
    }

    /** Buys the whole gas limit, from fee payer and sender in their shares, or changes nothing. */
    method BuyGas() returns (failure: Option<Failure>)
      modifies this`balances, this`gas, this`initialGas
      ensures failure == BuyFailure(old(balances), msg, price)
      ensures failure.Some? ==> balances == old(balances) && gas == old(gas)
      ensures failure.None? ==>
                && balances == Charge(old(balances), msg, msg.gas * price, 1)
                && gas == old(gas) + msg.gas && initialGas == msg.gas
    {
      var cost := msg.gas * price;
      var payer := msg.FeePayer();
      if msg.payment.Shared? {
        var feePayerFee: int, senderFee := PayerShare(cost, msg.payment.ratio), SenderShare(cost, msg.payment.ratio);
        if Balance(balances, payer) < feePayerFee {
          return Some(InsufficientForGasPayer);
        }
        if Balance(balances, msg.sender) < senderFee {
          return Some(InsufficientForGasSender);
        }
        balances := Credit(balances, payer, -feePayerFee);
        balances := Credit(balances, msg.sender, -senderFee);
      } else {
        if Balance(balances, payer) < cost {
          return Some(InsufficientForGasPayer);
        }
        balances := Credit(balances, payer, -cost);
      }
      gas := gas + msg.gas;
      initialGas := msg.gas;
      failure := None;
    }

    function CheckFailure(before: Balances): Option<Failure>
      reads this`nonce
    {
      if checkNonce && nonce < msg.nonce then Some(NonceTooHigh)
      else if checkNonce && nonce > msg.nonce then Some(NonceTooLow)
      else BuyFailure(before, msg, price)
    }

    /** The nonce must match, if it is checked at all, and the gas must be bought. */
    method PreCheck() returns (failure: Option<Failure>)
      requires gas == 0
      modifies this`balances, this`gas, this`initialGas
      ensures failure == CheckFailure(old(balances))
      ensures failure.Some? ==> balances == old(balances)
      ensures failure.None? ==>
                && balances == Charge(old(balances), msg, msg.gas * price, 1)
                && gas == msg.gas && initialGas == msg.gas
    {
      if checkNonce {
        if nonce < msg.nonce {
          return Some(NonceTooHigh);
        } else if nonce > msg.nonce {
          return Some(NonceTooLow);
        }
      }
      failure := BuyGas();
    }

    /** Adds the refund counter to the gas left, up to its share of the gas used, and pays back what is left. */
    method RefundGas(quotient: nat, counter: nat)
      requires quotient == REFUND_QUOTIENT || quotient == REFUND_QUOTIENT_EIP3529
      requires gas <= initialGas
      modifies this`balances, this`gas
      ensures old(gas) <= gas <= initialGas && gas - old(gas) <= counter
      ensures quotient * (gas - old(gas)) <= initialGas - old(gas)
      ensures gas - old(gas) < counter ==> initialGas - old(gas) < quotient * (gas - old(gas) + 1)
      ensures balances == Charge(old(balances), msg, gas * price, -1)
    {
      var used := GasUsed();
      var refund := if quotient == 2 then used / 2 else used / 5;
      assert refund == used / quotient;
      if refund > counter {
        refund := counter;
      }
      gas := gas + refund;
      var remaining := gas * price;
      if msg.payment.Shared? {
        var feePayer, feeSender := PayerShare(remaining, msg.payment.ratio), SenderShare(remaining, msg.payment.ratio);
        balances := Credit(balances, msg.FeePayer(), feePayer);
        balances := Credit(balances, msg.sender, feeSender);
      } else {
        balances := Credit(balances, msg.FeePayer(), remaining);
      }
    }

    /** Whether a failure comes before any gas is bought. */
    static predicate Early(failure: Failure) {
      || failure.NonceTooHigh? || failure.NonceTooLow?
      || failure.InsufficientForGasPayer? || failure.InsufficientForGasSender?
    }

    lemma {:induction false} ShortIsEarly(before: Balances)
      ensures CheckFailure(before).Some? ==> Early(CheckFailure(before).value)
    {
      hide CanBuy;
    }

    /** Why a transaction fails once gas has been bought, in the order of the checks. */
    ghost function LateFailure(bought: Balances, run: (Balances, nat) -> Execution,
                               codeTooLarge: bool): Option<Failure> {
      if msg.gas < intrinsicGas then Some(IntrinsicGas)
      else if 0 < msg.value && Balance(bought, msg.sender) < msg.value then Some(InsufficientForValue)
      else if codeTooLarge then Some(CodeTooLarge)
      else if run(bought, msg.gas - intrinsicGas).timedOut then Some(TimeLimit)
      else None
    }

    /** Why a transaction fails, if it does. */
    ghost function WhyFailed(before: Balances, run: (Balances, nat) -> Execution, codeTooLarge: bool): Option<Failure>
      reads this`nonce
    {
      if CheckFailure(before).Some? then CheckFailure(before)
      else LateFailure(Charge(before, msg, msg.gas * price, 1), run, codeTooLarge)
    }

    /** The checks after the purchase, and the run itself. */
    method Execute(run: (Balances, nat) -> Execution, codeTooLarge: bool) returns (failure: Option<Failure>,
                   refund: nat)
      requires gas == msg.gas && SpendsGas(run)
      modifies this`balances, this`gas
      ensures failure == LateFailure(old(balances), run, codeTooLarge)
      ensures failure.Some? ==>
                balances == if failure == Some(TimeLimit) then run(old(balances), msg.gas - intrinsicGas).balances
                            else old(balances)
      ensures failure.None? ==>
                var ran := run(old(balances), msg.gas - intrinsicGas);
                balances == ran.balances && gas == ran.gasLeft && refund == ran.refund
    {
      refund := 0;
      if gas < intrinsicGas {
        return Some(IntrinsicGas), 0;
      }
      gas := gas - intrinsicGas;
      if 0 < msg.value && Balance(balances, msg.sender) < msg.value {
        return Some(InsufficientForValue), 0;
      }
      if codeTooLarge {
        return Some(CodeTooLarge), 0;
      }
      var ran := run(balances, gas);
      balances, gas := ran.balances, ran.gasLeft;
      failure, refund := if ran.timedOut then Some(TimeLimit) else None, ran.refund;
    }

    /**
     Applies the transaction. On success with value-conserving execution the sum of all
     balances is unchanged when fees are paid at once and falls by exactly the price of the
     gas used when they are deferred.
     */
    method TransitionDb(run: (Balances, nat) -> Execution, codeTooLarge: bool, kore: bool, deferred: bool,
                        beneficiary: Address)
      returns (failure: Option<Failure>, usedGas: int)
      requires gas == 0 && SpendsGas(run)
      modifies this`balances, this`gas, this`initialGas
      ensures failure == WhyFailed(old(balances), run, codeTooLarge)
      ensures failure.None? ==> intrinsicGas <= msg.gas && gas <= msg.gas && usedGas == msg.gas - gas
      ensures failure.None? ==>
                var ran := run(Charge(old(balances), msg, msg.gas * price, 1), msg.gas - intrinsicGas);
                var share := (msg.gas - ran.gasLeft) / (if kore then 5 else 2);
                var refunded := Charge(ran.balances, msg, gas * price, -1);
                && gas == ran.gasLeft + (if share < ran.refund then share else ran.refund)
                && balances == if deferred then refunded else Credit(refunded, beneficiary, usedGas * price)
      ensures failure.None? && ConservesValue(run) ==>
                Total(balances) == old(Total(balances)) - (if deferred then usedGas * price else 0)
      ensures failure.Some? && Early(failure.value) ==> balances == old(balances)
      ensures failure.Some? && !Early(failure.value) ==>
                var bought := Charge(old(balances), msg, msg.gas * price, 1);
                balances == if failure == Some(TimeLimit) then run(bought, msg.gas - intrinsicGas).balances else bought
    {
      hide Total, Charge, Credit, CanBuy, BuyFailure;
      usedGas := 0;
      ShortIsEarly(balances);
      failure := PreCheck();
      if failure.Some? {
        return;
      }
      ghost var bought := balances;
      var refund;
      failure, refund := Execute(run, codeTooLarge);
      if failure.Some? {
        return;
      }
      ghost var ran := balances;
      RefundGas(if kore then REFUND_QUOTIENT_EIP3529 else REFUND_QUOTIENT, refund);
      usedGas := GasUsed();
      if !deferred {
        balances := Credit(balances, beneficiary, usedGas * price);
      }
      if ConservesValue(run) {
        FeesAddUp(old(balances), msg, price, gas, ran, beneficiary);
        assert Total(run(bought, msg.gas - intrinsicGas).balances) == Total(bought);
      }
    }
  }

  lemma {:induction false} SplitPrice(whole: nat, part: nat, price: nat)
    requires part <= whole
    ensures whole * price == part * price + (whole - part) * price && 0 <= (whole - part) * price
  {
  }

  /** Buying, refunding and rewarding together: the sum falls by the price of the gas used, then rises by it. */
  lemma {:induction false} FeesAddUp(before: Balances, msg: Tx, price: nat, left: nat, ran: Balances,
                                     beneficiary: Address)
    requires left <= msg.gas
    ensures var bought := Charge(before, msg, msg.gas * price, 1);
            var refunded := Charge(ran, msg, left * price, -1);
            var used := (msg.gas - left) * price;
            && Total(bought) == Total(before) - msg.gas * price
            && Total(refunded) - Total(ran) == msg.gas * price - used
            && Total(Credit(refunded, beneficiary, used)) == Total(refunded) + used
  {
    hide Charge, Credit, Total;
    SplitPrice(msg.gas, left, price);
    ChargeTotal(before, msg, msg.gas * price, 1);
    ChargeTotal(ran, msg, left * price, -1);
    TotalCredit(Charge(ran, msg, left * price, -1), beneficiary, (msg.gas - left) * price);
  }

  /**
   What fee payer and sender pay for gas in the end, bought first and refunded later: together
   exactly the price of the gas used, the fee payer its rounded share of that or one unit more.
   */
  lemma {:induction false} NetPayments(msg: Tx, price: nat, left: nat)
    requires left <= msg.gas && (msg.payment.Shared? ==> ValidRatio(msg.payment.ratio))
    ensures var used := (msg.gas - left) * price;
            var payer := PayerPart(msg, msg.gas * price) - PayerPart(msg, left * price);
            var sender := SenderPart(msg, msg.gas * price) - SenderPart(msg, left * price);
            && 0 <= used && payer + sender == used
            && (msg.payment.Shared? ==> payer == PayerPart(msg, used) || payer == PayerPart(msg, used) + 1)
            && (!msg.payment.Shared? ==> payer == used)
  {
    var used, bought, refunded := (msg.gas - left) * price, msg.gas * price, left * price;
    SplitPrice(msg.gas, left, price);
    if msg.payment.Shared? {
      NetShare(bought, refunded, msg.payment.ratio);
    }
  }
}
