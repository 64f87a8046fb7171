/** The closed vocabularies of the database. */
module Enums {

  datatype CaseStatus =
    | Detected | Triaged | Diagnosing | StrategyFormed | AwaitingApproval | Executing | Monitoring
    | Recovered | ResolvedOrganic | ObservedNoAction | Expired | Suppressed | Rejected | FailedPermanent

  predicate Terminal(s: CaseStatus) {
    s in {Recovered, ResolvedOrganic, ObservedNoAction, Expired, Suppressed, Rejected, FailedPermanent}
  }

  datatype Arm = Treatment | Control

  datatype Strategy =
    | FreshLinkSameRail | FreshLinkAltRail | IncentivisedLink | InvoiceReminder
    | MandateRetry | MandateReauth | StaticUpiQr | NoAction

  datatype Channel = WhatsApp | Sms | Email | NoChannel

  datatype MessageClass = Transactional | Marketing

  /** The authority ladder; the contact ladder is not part of this model. */
  datatype Rung = A0Autonomous | A1Flagged | A2Approval | A3ApprovalDual

  datatype Verdict = Passed | EscalateHitl | Blocked
}
