/** Which settling event counts as a recovery, and the report over a population of cases. */
module Attribution {
  import opened Text
  import opened Enums

  const SETTLING_EVENTS: set<string> := {"payment_link.paid", "invoice.paid", "subscription.charged"}

  datatype Verdict = Counted(amountPaise: int) | NotCounted(organic: bool)

  function Normalised(reference: Option<string>): string {
    match reference case Some(r) => Lower(Strip(r)) case None => ""
  }

  function Attribute(
    signatureValid: bool, eventType: string, reference: Option<string>, webhookAmount: Option<int>,
    issued: Option<string>, status: CaseStatus, caseAmount: int, alreadyCounted: bool,
    now: int, windowExpiresAt: Option<int>, grace: int): Verdict
  {
    var incoming := Normalised(reference);
    var ours := Normalised(issued);
    if !signatureValid then NotCounted(false)
    else if eventType !in SETTLING_EVENTS then NotCounted(false)
    else if incoming == "" || ours == "" then NotCounted(true)
    else if incoming != ours then NotCounted(true)
    else if !status.Monitoring? then NotCounted(true)
    else if windowExpiresAt.Some? && now > windowExpiresAt.value + grace then NotCounted(true)
    else if alreadyCounted then NotCounted(false)
    else if webhookAmount.Some? && webhookAmount.value != caseAmount then
      Counted(if webhookAmount.value < caseAmount then webhookAmount.value else caseAmount)
    else Counted(caseAmount)
  }

  /**
   The six conditions, each necessary, together sufficient; and never more than either amount. Not counted,
   a genuine settlement is organic: not under our reference, not of a monitored case, or too late.
   */
  lemma CountedExactlyWhen(
    signatureValid: bool, eventType: string, reference: Option<string>, webhookAmount: Option<int>,
    issued: Option<string>, status: CaseStatus, caseAmount: int, alreadyCounted: bool,
    now: int, windowExpiresAt: Option<int>, grace: int)
    ensures var v := Attribute(signatureValid, eventType, reference, webhookAmount, issued, status,
                               caseAmount, alreadyCounted, now, windowExpiresAt, grace);
            && (v.Counted? <==>
                 && signatureValid
                 && eventType in SETTLING_EVENTS
                 && Normalised(reference) == Normalised(issued) != ""
                 && status.Monitoring?
                 && (windowExpiresAt.Some? ==> now <= windowExpiresAt.value + grace)
                 && !alreadyCounted)
            && (v.Counted? ==> v.amountPaise <= caseAmount && (webhookAmount.Some? ==> v.amountPaise <= webhookAmount.value))
            && (v.Counted? ==> v.amountPaise == caseAmount || webhookAmount == Some(v.amountPaise))
            && (v.NotCounted? ==>
                 (v.organic <==>
                   && signatureValid && eventType in SETTLING_EVENTS
                   && (|| Normalised(reference) != Normalised(issued) || Normalised(reference) == ""
                       || !status.Monitoring?
                       || (windowExpiresAt.Some? && now > windowExpiresAt.value + grace))))
  {
  }

  // --------------------------------------------------------------------------
  // The report.

  datatype Outcome = Outcome(arm: Arm, paid: bool, amountPaise: int, recovered: bool, discountPaise: int, isDemo: bool)

  datatype ArmStats = ArmStats(cases: nat, paid: nat, amountPaise: int)

  datatype Report = Report(treatment: ArmStats, control: ArmStats, grossPaise: int, discountPaise: int, excludedDemo: nat)

  const EMPTY := Report(ArmStats(0, 0, 0), ArmStats(0, 0, 0), 0, 0, 0)

  function Plus(s: ArmStats, o: Outcome): ArmStats {
    ArmStats(s.cases + 1, s.paid + (if o.paid then 1 else 0), s.amountPaise + o.amountPaise)
  }

  /** One case enters the report in exactly one place: excluded, control, or treatment. */
  function Counting(r: Report, o: Outcome): Report {
    if o.isDemo then r.(excludedDemo := r.excludedDemo + 1)
    else if o.arm.Control? then r.(control := Plus(r.control, o))
    else r.(treatment := Plus(r.treatment, o),
            grossPaise := r.grossPaise + (if o.recovered then o.amountPaise else 0),
            discountPaise := r.discountPaise + (if o.recovered then o.discountPaise else 0))
  }

  function Recount(os: seq<Outcome>): Report {
    if os == [] then EMPTY else Counting(Recount(os[..|os| - 1]), os[|os| - 1])
  }

  function Measured(os: seq<Outcome>, arm: Arm): seq<Outcome> {
    if os == [] then []
    else
      var last := os[|os| - 1];
      var rest := Measured(os[..|os| - 1], arm);
      if !last.isDemo && last.arm == arm then rest + [last] else rest
  }

  function Demos(os: seq<Outcome>): nat {
    if os == [] then 0 else Demos(os[..|os| - 1]) + if os[|os| - 1].isDemo then 1 else 0
  }

  function SumOf(os: seq<Outcome>, f: Outcome -> int): int {
    if os == [] then 0 else SumOf(os[..|os| - 1], f) + f(os[|os| - 1])
  }

  function PaidCount(os: seq<Outcome>): nat {
    if os == [] then 0 else PaidCount(os[..|os| - 1]) + if os[|os| - 1].paid then 1 else 0
  }

  function Amount(o: Outcome): int { o.amountPaise }

  function GrossOf(o: Outcome): int { if o.recovered then o.amountPaise else 0 }

  function DiscountOf(o: Outcome): int { if o.recovered then o.discountPaise else 0 }

  function StatsOf(os: seq<Outcome>): ArmStats {
    ArmStats(|os|, PaidCount(os), SumOf(os, Amount))
  }

  /** `recovery_report`: the groups are filtered out first and summed after. */
  function RecoveryReport(os: seq<Outcome>): Report {
    var t := Measured(os, Treatment);
    Report(StatsOf(t), StatsOf(Measured(os, Control)), SumOf(t, GrossOf), SumOf(t, DiscountOf), Demos(os))
  }

  lemma StatsAppend(os: seq<Outcome>, o: Outcome)
    ensures StatsOf(os + [o]) == Plus(StatsOf(os), o)
    ensures SumOf(os + [o], GrossOf) == SumOf(os, GrossOf) + GrossOf(o)
    ensures SumOf(os + [o], DiscountOf) == SumOf(os, DiscountOf) + DiscountOf(o)
  {
  }

  lemma MeasuredAppend(os: seq<Outcome>, o: Outcome, arm: Arm)
    ensures Measured(os + [o], arm) == if !o.isDemo && o.arm == arm then Measured(os, arm) + [o] else Measured(os, arm)
    ensures Demos(os + [o]) == Demos(os) + if o.isDemo then 1 else 0
  {
  }

  lemma ReportStep(os: seq<Outcome>, o: Outcome)
    ensures RecoveryReport(os + [o]) == Counting(RecoveryReport(os), o)
  {
    MeasuredAppend(os, o, Treatment);
    MeasuredAppend(os, o, Control);
    StatsAppend(Measured(os, o.arm), o);
    hide Measured, Demos, StatsOf, SumOf;
  }

  /**
   The filtered report is the one-pass recount: every case is counted once, and a control or demo
   case moves neither the gross nor the discount.
   */
  lemma {:induction false} ReportCountsEachCaseOnce(os: seq<Outcome>)
    ensures RecoveryReport(os) == Recount(os)
  {
    if os != [] {
      var before, last := os[..|os| - 1], os[|os| - 1];
      ReportCountsEachCaseOnce(before);
      assert os == before + [last];
      calc {
        RecoveryReport(os);
        RecoveryReport(before + [last]);
        { ReportStep(before, last); }
        Counting(RecoveryReport(before), last);
        Recount(os);
      }
    }
  }

  /** The three groups add up to the population. */
  lemma {:induction false} ReportCoversEveryCase(os: seq<Outcome>)
    ensures var r := Recount(os); r.treatment.cases + r.control.cases + r.excludedDemo == |os|
  {
    if os != [] {
      ReportCoversEveryCase(os[..|os| - 1]);
    }
  }
}
