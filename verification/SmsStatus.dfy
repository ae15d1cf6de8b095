/** The acceptance and delivery status machines shared by every sms-kit service. */
module SmsStatus {

  datatype Acceptance = Pending | Accepted | Rejected | Unknown
  datatype Evidence = SameDispatchResponse | PositiveProviderEvidence | QueryNoRecord
  datatype Delivery = NotApplicable | Waiting | Delivered | Failed | UnknownFinal

  predicate AcceptanceTransition(from: Acceptance, to: Acceptance, evidence: Evidence) {
    || (from.Pending? && !to.Pending?)
    || (from.Unknown? && to.Accepted? && !evidence.QueryNoRecord?)
    || (from.Unknown? && to.Rejected? && evidence.SameDispatchResponse?)
  }

  predicate DeliveryTransition(from: Delivery, to: Delivery) {
    match from
    case NotApplicable => !to.NotApplicable?
    case Waiting => to.Delivered? || to.Failed? || to.UnknownFinal?
    case _ => false
  }

  /** One observed change of a message: its acceptance and delivery each stay or take a legal transition. */
  predicate StatusMove(a: Acceptance, d: Delivery, a': Acceptance, d': Delivery) {
    && (a == a' || AcceptanceTransition(a, a', SameDispatchResponse))
    && (d == d' || DeliveryTransition(d, d'))
  }

  /** Both machines are transitive: whatever two moves can reach, one move can. */
  lemma StatusMoveTransitive(a: Acceptance, d: Delivery, a': Acceptance, d': Delivery, a'': Acceptance, d'': Delivery)
    requires StatusMove(a, d, a', d') && StatusMove(a', d', a'', d'')
    ensures StatusMove(a, d, a'', d'')
  {
  }
}
