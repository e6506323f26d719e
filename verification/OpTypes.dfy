/** The operation types clients may send, and which of them take the tenant's feed lock. */
module OpTypes {
  datatype OpType =
    | CustomerCreate | CustomerUpdate | AliasAdd | AliasUpdate | AliasDeactivate
    | ServiceRecord | ServiceSkip | ServiceCorrect | ServiceVoid
    | PaymentRecord | PaymentVoid | CycleClose
    | PlanCreate | SettlementRecord | CostWrite | ReminderSend

  /** The operations that mutate an entity the feed carries. */
  predicate FeedWriting(op: OpType) {
    op.CustomerCreate? || op.CustomerUpdate? || op.AliasAdd? || op.AliasUpdate? || op.AliasDeactivate?
    || op.ServiceRecord? || op.ServiceSkip? || op.ServiceCorrect? || op.ServiceVoid?
    || op.PaymentRecord? || op.PaymentVoid? || op.CycleClose?
  }

  /** The operations whose command reaches the ledger, and with it `ensure_open_cycle`. */
  predicate Posts(op: OpType) {
    op.ServiceRecord? || op.ServiceCorrect? || op.ServiceVoid? || op.PaymentRecord? || op.PaymentVoid?
  }

  /** Everything else writes no entity of the feed. */
  lemma FeedWritingExactly(op: OpType)
    ensures FeedWriting(op) <==> op != PlanCreate && op != SettlementRecord && op != CostWrite && op != ReminderSend
  {
  }

  /** The operations a device may queue for a sync batch. */
  predicate Supported(op: OpType) {
    op.ServiceRecord? || op.ServiceSkip?
  }
}
