/** The nonce the pool expects next of an account, and what is ready in a list at that nonce. */
module Nonces {
  import opened Types
  import opened TxLists
  import opened Partition

  type NonceMap = map<Address, nat>

  function StateNonce(state: NonceMap, a: Address): nat {
    if a in state then state[a] else 0
  }

  /** The next nonce expected: the remembered one unless the state has moved past it. */
  function NextNonce(state: NonceMap, known: NonceMap, a: Address): nat {
    if a in known && StateNonce(state, a) <= known[a] then known[a] else StateNonce(state, a)
  }

  /** The two maps give every account but `a` the same next nonce. */
  ghost predicate SameElsewhere(state: NonceMap, known: NonceMap, now: NonceMap, a: Address) {
    forall b :: b != a ==> NextNonce(state, now, b) == NextNonce(state, known, b)
  }

  ghost predicate SameNext(state: NonceMap, known: NonceMap, now: NonceMap) {
    forall b :: NextNonce(state, now, b) == NextNonce(state, known, b)
  }

  lemma {:induction false} OfSetList(m: Lists, a: Address, l: TxMap, b: Address)
    ensures Of(SetList(m, a, l), b) == if b == a then l else Of(m, b)
  {
  }

  /** The next nonce is missing from a list, or held by a transaction that may not be promoted. */
  ghost predicate NothingReady(m: TxMap, next: nat, floor: Option<nat>) {
    next in m ==> !Payable(m[next], floor)
  }

  /** What `Ready` takes from a list is a run of consecutive nonces starting at its first. */
  lemma {:induction false} ReadyIsRun(m: TxMap, start: nat, floor: Option<nat>)
    requires m != map[]
    ensures var end := ReadyEnd(m, start, floor);
            && Interval(Below(m, end), MinKey(m.Keys), end)
            && AfterReady(m, start, floor) == Forward(m, end)
  {
    var first := MinKey(m.Keys);
    RunIsMaximal(m, first, floor);
  }
}
