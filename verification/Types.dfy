/**
 Values shared by the transaction pool, the chain and the state transition.

 A hash is modelled as a free constructor applied to what is hashed, so two
 values with the same hash are the same value: the collision freedom that the
 node relies on everywhere is built in.
 */
module Types {

  datatype Option<+T> = None | Some(value: T)

  type Address = nat

  /** Encoded size in bytes; an encoding is never empty. */
  type ByteCount = n: nat | 1 <= n witness 1

  /** Who pays the fee: the sender, a fee payer, or both by percentage. */
  datatype Payment =
    | BySender
    | ByPayer(payer: Address)
    | Shared(payer: Address, ratio: nat)

  /** `payload` stands for all content that no modelled rule looks at. */
  datatype Tx = Tx(
    sender: Address,
    nonce: nat,
    price: nat,
    gas: nat,
    value: int,
    size: ByteCount,
    payment: Payment,
    cancel: bool,
    payload: nat)
  {
    function Hash(): TxHash { TxHash(this) }

    /** Price times gas limit. */
    function Fee(): nat { price * gas }

    function Cost(): int { Fee() + value }

    function FeePayer(): Address {
      match payment
      case BySender => sender
      case ByPayer(p) => p
      case Shared(p, _) => p
    }
  }

  datatype TxHash = TxHash(tx: Tx)

  const TX_SLOT_SIZE: nat := 32 * 1024
  const MAX_TX_DATA_SIZE: nat := 4 * TX_SLOT_SIZE

  /** Slots a transaction takes in the pool: its size in 32 KiB units, rounded up. */
  function NumSlots(tx: Tx): (slots: nat)
    ensures 1 <= slots
    ensures (slots - 1) * TX_SLOT_SIZE < tx.size <= slots * TX_SLOT_SIZE
  {
    (tx.size + TX_SLOT_SIZE - 1) / TX_SLOT_SIZE
  }
}
