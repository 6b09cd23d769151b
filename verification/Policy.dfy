/** Authorization rules for refunds that a single permission cannot express. */
module Policy {
  datatype Permission = PaymentsViewAny | PaymentsRefund | PaymentsRefundOverCeiling | LedgerReconcile

  datatype Actor = Actor(userId: string, capabilities: set<Permission>)

  datatype Reason = LacksRefund | ExceedsCeiling(amount: int) | WithinAuthority

  datatype Decision = Decision(allowed: bool, reason: Reason)

  const REFUND_CEILING_MINOR := 50_000

  function CanRefundPayment(actor: Actor, amount: int): Decision {
    if PaymentsRefund !in actor.capabilities then
      Decision(false, LacksRefund)
    else if amount > REFUND_CEILING_MINOR && PaymentsRefundOverCeiling !in actor.capabilities then
      Decision(false, ExceedsCeiling(amount))
    else
      Decision(true, WithinAuthority)
  }
}
