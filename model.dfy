/**
 * The transaction record stored on each ledger side (incoming and outgoing).
 */
module Model {

  /** A monetary amount. The reconciler only ever compares amounts for
      equality; it never computes with them. */
  type Amount = real

  /** Timestamps are BSON datetimes: milliseconds since the epoch. */
  type Millis = int

  /** One ledger entry. `txnId` is the join key between the two sides. */
  datatype Transaction = Transaction(
    txnId: string,
    amount: Amount,
    currency: string,
    timestamp: Millis,
    source: string,
    reconciled: bool)

  /** True when `after` differs from `before` at most in its `reconciled` flag. */
  predicate SameExceptFlag(before: Transaction, after: Transaction)
  {
    before.(reconciled := after.reconciled) == after
  }
}
