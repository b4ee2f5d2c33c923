/**
 How a fee is split, and the three places that test whether it can be paid:
 the pool when a transaction arrives, the pool's filter when the state has
 changed, and the state transition when gas is bought.
 */
module Fees {
  import opened Types

  type Balances = map<Address, int>

  function Balance(b: Balances, a: Address): int {
    if a in b then b[a] else 0
  }

  const MAX_RATIO: nat := 100

  predicate ValidRatio(ratio: nat) { 1 <= ratio <= 99 }

  /** The fee payer's part: the percentage, rounded down. */
  function PayerShare(fee: nat, ratio: nat): nat { fee * ratio / MAX_RATIO }

  /** The sender's part: the rest. */
  function SenderShare(fee: nat, ratio: nat): int { fee - PayerShare(fee, ratio) }

  datatype FundsError = RatioOutOfRange | InsufficientSender | InsufficientPayer

  /** The pool's balance check on arrival. */
  function CheckFunds(b: Balances, tx: Tx): Option<FundsError> {
    match tx.payment
    case BySender =>
      if Balance(b, tx.sender) < tx.Cost() then Some(InsufficientSender) else None
    case ByPayer(payer) =>
      if Balance(b, tx.sender) < tx.value then Some(InsufficientSender)
      else if Balance(b, payer) < tx.Fee() then Some(InsufficientPayer)
      else if tx.sender == payer && Balance(b, tx.sender) < tx.Cost() then Some(InsufficientSender)
      else None
    case Shared(payer, ratio) =>
      if !ValidRatio(ratio) then Some(RatioOutOfRange)
      else if Balance(b, tx.sender) < tx.value + SenderShare(tx.Fee(), ratio) then Some(InsufficientSender)
      else if Balance(b, payer) < PayerShare(tx.Fee(), ratio) then Some(InsufficientPayer)
      else if tx.sender == payer && Balance(b, tx.sender) < tx.Cost() then Some(InsufficientSender)
      else None
  }

  /** The balance test by which the filter drops a pooled transaction. */
  predicate Unpayable(b: Balances, tx: Tx) {
    if tx.payment.BySender? || tx.sender == tx.FeePayer() then
      Balance(b, tx.sender) < tx.Cost()
    else if tx.payment.Shared? then
      || Balance(b, tx.sender) < tx.value + SenderShare(tx.Fee(), tx.payment.ratio)
      || Balance(b, tx.payment.payer) < PayerShare(tx.Fee(), tx.payment.ratio)
    else
      Balance(b, tx.sender) < tx.value || Balance(b, tx.payment.payer) < tx.Fee()
  }

  /** What the pool guarantees of the transactions it accepted: a ratio in range and no negative value. */
  predicate WellPriced(tx: Tx) {
    0 <= tx.value && (tx.payment.Shared? ==> ValidRatio(tx.payment.ratio))
  }

  // ---------- Shares ----------

  lemma {:induction false} ShareBounds(fee: nat, ratio: nat)
    requires ratio <= MAX_RATIO
    ensures 0 <= PayerShare(fee, ratio) <= fee
    ensures 100 * PayerShare(fee, ratio) <= fee * ratio < 100 * PayerShare(fee, ratio) + 100
  {
    assert fee * ratio <= fee * MAX_RATIO;
  }

  /** Both shares grow with the fee. */
  lemma {:induction false} SharesMonotone(low: nat, high: nat, ratio: nat)
    requires low <= high && ratio <= MAX_RATIO
    ensures PayerShare(low, ratio) <= PayerShare(high, ratio)
    ensures SenderShare(low, ratio) <= SenderShare(high, ratio)
  {
    var more := high - low;
    assert high * ratio == low * ratio + more * ratio;
    assert 0 <= more * ratio <= more * MAX_RATIO;
    ShareBounds(low, ratio);
    ShareBounds(high, ratio);
  }

  /**
   Rounding separately at purchase and at refund costs the fee payer at most
   one unit more than the share of what was used.
   */
  lemma {:induction false} NetShare(bought: nat, refunded: nat, ratio: nat)
    requires refunded <= bought && ratio <= MAX_RATIO
    ensures var net := PayerShare(bought, ratio) - PayerShare(refunded, ratio);
            var share := PayerShare(bought - refunded, ratio);
            net == share || net == share + 1
  {
    ShareBounds(bought, ratio);
    ShareBounds(refunded, ratio);
    ShareBounds(bought - refunded, ratio);
    assert bought * ratio == refunded * ratio + (bought - refunded) * ratio;
  }

  // ---------- Agreement ----------

  /** The filter drops exactly what the arrival check would refuse now. */
  lemma {:induction false} FilterAgreesWithCheck(b: Balances, tx: Tx)
    requires WellPriced(tx)
    ensures Unpayable(b, tx) <==> CheckFunds(b, tx).Some?
  {
    if tx.payment.Shared? {
      ShareBounds(tx.Fee(), tx.payment.ratio);
    }
  }
}
