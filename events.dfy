/**
 * The two events the ledger announces: a balance moved from an old to a new value, and a
 * deposit, withdrawal or transfer of an amount.
 */
module Events {
  import opened Wrappers
  import opened Uuids
  import opened Currencies

  datatype BalanceChangeEvent = BalanceChangeEvent(
    playerUuid: Uuid, currency: Currency, oldBalance: real, newBalance: real)
  {
    /** `getDifference`: the new balance minus the old one (negative for a decrease). */
    function Difference(): (d: real)
      ensures oldBalance + d == newBalance
    {
      newBalance - oldBalance
    }

    predicate IsIncrease() {
      newBalance > oldBalance
    }

    predicate IsDecrease() {
      newBalance < oldBalance
    }
  }

  /**
   * A change is never both an increase and a decrease; it is neither exactly when the balance
   * did not move, and its direction is the sign of the difference.
   */
  lemma BalanceChangeDirection(e: BalanceChangeEvent)
    ensures !(e.IsIncrease() && e.IsDecrease())
    ensures !e.IsIncrease() && !e.IsDecrease() <==> e.oldBalance == e.newBalance
    ensures e.IsIncrease() <==> e.Difference() > 0.0
    ensures e.IsDecrease() <==> e.Difference() < 0.0
  {
  }

  /** `TransactionEvent.Type`. */
  datatype TransactionType = DEPOSIT | WITHDRAW | TRANSFER

  /**
   * A transaction: who paid (absent for a deposit), who received (absent for a withdrawal),
   * in which currency and how much.
   */
  datatype TransactionEvent = TransactionEvent(
    txType: TransactionType, fromUuid: Option<Uuid>, toUuid: Option<Uuid>, currency: Currency,
    amount: real)
  {
    predicate IsDeposit() {
      txType == DEPOSIT
    }

    predicate IsWithdraw() {
      txType == WITHDRAW
    }

    predicate IsTransfer() {
      txType == TRANSFER
    }
  }

  /** Exactly one of the three kinds holds of every transaction, and each names its type. */
  lemma ExactlyOneKind(e: TransactionEvent)
    ensures e.IsDeposit() <==> e.txType == DEPOSIT
    ensures e.IsWithdraw() <==> e.txType == WITHDRAW
    ensures e.IsTransfer() <==> e.txType == TRANSFER
    ensures (if e.IsDeposit() then 1 else 0) + (if e.IsWithdraw() then 1 else 0)
          + (if e.IsTransfer() then 1 else 0) == 1
  {
  }
}
