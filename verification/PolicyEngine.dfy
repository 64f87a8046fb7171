/** The firewall: any proposal in, a bounded action or a refusal out. Money is whole paise. */
module PolicyEngine {
  import opened Text
  import opened Enums
  import opened Ids
  import opened Token
  import S = StoppingRules

  /** What a model may put where a percentage belongs. */
  datatype Number = Finite(x: real) | NaN | PosInf | NegInf | NotANumber

  /** What a model may put where a number of minutes belongs; a fraction is truncated toward zero. */
  datatype Minutes = Whole(n: int) | Fraction(x: real) | Unconvertible

  function Truncated(m: Minutes): Option<int> {
    match m
    case Whole(n) => Some(n)
    case Fraction(x) => Some(if x >= 0.0 then x.Floor else -((-x).Floor))
    case Unconvertible => None
  }

  datatype MoneyLimits = MoneyLimits(
    autonomousPaise: int,
    dualSignalPaise: int,
    ceilingPct: real,
    defaultPct: real,
    absolutePaise: int,
    expiryDefault: int,
    expiryFloor: int,
    expiryCeiling: int)

  datatype Proposal = Proposal(
    strategy: Strategy, discountPct: Number, validity: Minutes, channel: Channel, messageClass: MessageClass)

  datatype PolicyContext = PolicyContext(
    caseId: string,
    orderPaise: int,
    attemptNo: nat,
    arm: Arm,
    stopping: S.Context,
    limits: MoneyLimits,
    approvedHash: Option<ContentHash>)

  /** One recorded interception: what was there, and what replaced it. */
  datatype Clamp =
    | ClassClamp(wasClass: MessageClass, nowClass: MessageClass)
    | PctClamp(wasPct: Number, nowPct: real, violation: bool)
    | PaiseClamp(wasPaise: int, nowPaise: int)
    | ExpiryClamp(wasMinutes: Minutes, nowMinutes: int)

  predicate IsViolation(c: Clamp) { c.PctClamp? && c.violation }

  datatype Block = AmountNotPositive | StoppedBy(rule: Option<S.Rule>) | HeldOut | NeedsApproval | WrongApproval

  datatype PolicyDecision = PolicyDecision(
    verdict: Verdict,
    applied: Option<AppliedAction>,
    token: Option<PolicyToken>,
    clamps: seq<Clamp>,
    blocks: seq<Block>,
    rung: Rung,
    stopping: S.Verdict)

  // --------------------------------------------------------------------------
  // Sanitisers: the value each leaves and the interceptions it records.

  datatype Cut = Cut(pct: real, clamps: seq<Clamp>)

  datatype Offer = Offer(pct: real, paise: int, clamps: seq<Clamp>)

  datatype Validity = Validity(minutes: int, clamps: seq<Clamp>)

  function MinReal(a: real, b: real): real { if b < a then b else a }

  function Sanitised(d: Number, l: MoneyLimits): Cut {
    match d
    case Finite(x) =>
      if x < 0.0 then Cut(0.0, [PctClamp(d, 0.0, true)])
      else if x > l.ceilingPct then
        var safe := MinReal(l.defaultPct, l.ceilingPct);
        Cut(safe, [PctClamp(d, safe, true)])
      else Cut(x, [])
    case _ => Cut(0.0, [PctClamp(d, 0.0, true)])
  }

  /** A transactional message carries no offer. */
  function Stripped(c: Cut, kind: MessageClass): Cut {
    if kind.Transactional? && c.pct > 0.0 then Cut(0.0, c.clamps + [PctClamp(Finite(c.pct), 0.0, false)]) else c
  }

  /** `round(x, 4)`: to the nearest ten-thousandth, a tie to the even one. */
  function Round4(x: real): real {
    var scaled := x * 10000.0;
    var below := scaled.Floor;
    var over := scaled - below as real;
    (if over < 0.5 || (over == 0.5 && below % 2 == 0) then below else below + 1) as real / 10000.0
  }

  /** `int(order * pct / 100)`; its argument is never negative where this is used. */
  function Share(order: int, pct: real): int { (order as real * pct / 100.0).Floor }

  function Capped(c: Cut, order: int, l: MoneyLimits): Offer {
    if c.pct <= 0.0 || order <= 0 then Offer(0.0, 0, c.clamps)
    else
      var paise := Share(order, c.pct);
      if paise <= l.absolutePaise then Offer(c.pct, paise, c.clamps)
      else Offer(Round4(l.absolutePaise as real * 100.0 / order as real), l.absolutePaise,
                 c.clamps + [PaiseClamp(paise, l.absolutePaise)])
  }

  function Withheld(o: Offer, strategy: Strategy): Offer {
    if strategy.NoAction? && (o.pct != 0.0 || o.paise != 0) then
      Offer(0.0, 0, o.clamps + [PctClamp(Finite(o.pct), 0.0, false)])
    else o
  }

  function OfferOf(p: Proposal, order: int, kind: MessageClass, l: MoneyLimits): Offer {
    Withheld(Capped(Stripped(Sanitised(p.discountPct, l), kind), order, l), p.strategy)
  }

  function ValidityOf(m: Minutes, l: MoneyLimits): Validity {
    match Truncated(m)
    case None => Validity(l.expiryDefault, [ExpiryClamp(m, l.expiryDefault)])
    case Some(n) =>
      if n < l.expiryFloor then Validity(l.expiryFloor, [ExpiryClamp(m, l.expiryFloor)])
      else if n > l.expiryCeiling then Validity(l.expiryCeiling, [ExpiryClamp(m, l.expiryCeiling)])
      else Validity(n, [])
  }

  predicate AnyViolation(clamps: seq<Clamp>) { exists i :: 0 <= i < |clamps| && IsViolation(clamps[i]) }

  function EscalationRung(order: int, pct: real, l: MoneyLimits, violated: bool, strategy: Strategy): Rung {
    if strategy.NoAction? then A0Autonomous
    else if order >= l.dualSignalPaise then A3ApprovalDual
    else if order >= l.autonomousPaise then A2Approval
    else if violated then A2Approval
    else if pct > 0.0 then A1Flagged
    else A0Autonomous
  }

  // --------------------------------------------------------------------------
  // The decision.

  /** The stopping rules see the proposal's own class and discount. */
  function StoppingView(p: Proposal, ctx: PolicyContext): S.Context {
    ctx.stopping.(messageClass := p.messageClass,
                  discountPct := if p.discountPct.Finite? then p.discountPct.x else 0.0)
  }

  function EffectiveClass(p: Proposal, ctx: PolicyContext): MessageClass {
    var view := StoppingView(p, ctx);
    S.ApplyDegradations(view, S.Evaluate(view)).messageClass
  }

  /** The first rule whose own decision is the verdict's. */
  function BlockingRule(v: S.Verdict, from: nat): Option<S.Rule>
    decreases |v.results| - from
  {
    if from >= |v.results| || v.decision.Proceed? then None
    else if v.results[from].decision == v.decision then Some(v.results[from].rule)
    else BlockingRule(v, from + 1)
  }

  function Refusals(ctx: PolicyContext, v: S.Verdict): seq<Block> {
    (if ctx.orderPaise <= 0 then [AmountNotPositive] else [])
    + (if v.decision.Stop? then [StoppedBy(BlockingRule(v, 0))] else [])
    + (if ctx.arm.Control? then [HeldOut] else [])
  }

  function ClassClamps(p: Proposal, kind: MessageClass): seq<Clamp> {
    if kind != p.messageClass then [ClassClamp(p.messageClass, kind)] else []
  }

  function AllClamps(p: Proposal, ctx: PolicyContext): seq<Clamp> {
    var kind := EffectiveClass(p, ctx);
    ClassClamps(p, kind) + OfferOf(p, ctx.orderPaise, kind, ctx.limits).clamps + ValidityOf(p.validity, ctx.limits).clamps
  }

  function AppliedOf(p: Proposal, ctx: PolicyContext): AppliedAction {
    var kind := EffectiveClass(p, ctx);
    var v := S.Evaluate(StoppingView(p, ctx));
    var offer := OfferOf(p, ctx.orderPaise, kind, ctx.limits);
    AppliedAction(
      ctx.caseId, p.strategy, ctx.orderPaise, offer.pct, offer.paise, ctx.orderPaise - offer.paise,
      ValidityOf(p.validity, ctx.limits).minutes, p.channel, kind,
      EscalationRung(ctx.orderPaise, offer.pct, ctx.limits, AnyViolation(AllClamps(p, ctx)), p.strategy),
      ReferenceId(ctx.caseId, ctx.attemptNo), ctx.attemptNo,
      if v.decision.Defer? then v.until else None)
  }

  predicate NeedsHuman(r: Rung) { r.A2Approval? || r.A3ApprovalDual? }

  function Decide(p: Proposal, ctx: PolicyContext, key: string, now: int): PolicyDecision {
    var v := S.Evaluate(StoppingView(p, ctx));
    var refusals := Refusals(ctx, v);
    if refusals != [] then
      PolicyDecision(Blocked, None, None, ClassClamps(p, EffectiveClass(p, ctx)), refusals, A0Autonomous, v)
    else
      var a := AppliedOf(p, ctx);
      if NeedsHuman(a.rung) && ctx.approvedHash != Some(HashOf(a)) then
        PolicyDecision(EscalateHitl, Some(a), None, AllClamps(p, ctx),
                       [if ctx.approvedHash.None? then NeedsApproval else WrongApproval], a.rung, v)
      else PolicyDecision(Passed, Some(a), Some(Mint(key, a, now)), AllClamps(p, ctx), [], a.rung, v)
  }

  // --------------------------------------------------------------------------
  // The firewall as it runs, one list of clamps handed from step to step.

  /** The list is only extended, by one clamp if the condition holds and not at all otherwise. */
  predicate OneMoreIf(clamps: seq<Clamp>, out: seq<Clamp>, condition: bool) {
    clamps <= out && |out| == |clamps| + if condition then 1 else 0
  }

  function Distance(a: int, b: int): int { if a < b then b - a else a - b }

  /**
   A sanitised percentage is never above the ceiling unless zero, nor above a proposal that is a number and
   not negative, and lies in bounds that are sound; replacing the proposal is recorded, once, as a violation.
   */
  predicate SafePct(proposed: Number, l: MoneyLimits, clamps: seq<Clamp>, pct: real, out: seq<Clamp>) {
    && (pct <= l.ceilingPct || pct == 0.0)
    && (proposed.Finite? && proposed.x >= 0.0 ==> pct <= proposed.x)
    && (l.ceilingPct >= 0.0 && l.defaultPct >= 0.0 ==> 0.0 <= pct <= l.ceilingPct)
    && OneMoreIf(clamps, out, proposed != Finite(pct))
    && (proposed != Finite(pct) ==> out[|clamps|] == PctClamp(proposed, pct, true))
  }

  /** The lesser of share and cap; replacing the share is recorded, once, and is no violation. */
  predicate WithinCap(pct: real, order: int, l: MoneyLimits, clamps: seq<Clamp>, capped: real, paise: int, out: seq<Clamp>) {
    if pct <= 0.0 || order <= 0 then capped == 0.0 && paise == 0 && out == clamps
    else
      && paise <= Share(order, pct) && paise <= l.absolutePaise
      && (paise == Share(order, pct) || paise == l.absolutePaise)
      && (paise == Share(order, pct) ==> capped == pct)
      && OneMoreIf(clamps, out, paise != Share(order, pct))
      && (paise != Share(order, pct) ==> out[|clamps|] == PaiseClamp(Share(order, pct), paise))
  }

  /**
   Of all minutes within ordered bounds the nearest to a proposal that can be read; replacing the proposal
   is recorded, once, and is no violation.
   */
  predicate NearestValidity(proposed: Minutes, l: MoneyLimits, clamps: seq<Clamp>, minutes: int, out: seq<Clamp>) {
    && (Truncated(proposed).Some? && l.expiryFloor <= l.expiryCeiling ==>
         && l.expiryFloor <= minutes <= l.expiryCeiling
         && forall m :: l.expiryFloor <= m <= l.expiryCeiling ==>
              Distance(Truncated(proposed).value, minutes) <= Distance(Truncated(proposed).value, m))
    && OneMoreIf(clamps, out, Truncated(proposed) != Some(minutes))
    && (Truncated(proposed) != Some(minutes) ==> out[|clamps|] == ExpiryClamp(proposed, minutes))
  }

  method SanitiseDiscount(proposed: Number, l: MoneyLimits, clamps: seq<Clamp>) returns (pct: real, out: seq<Clamp>)
    ensures pct == Sanitised(proposed, l).pct && out == clamps + Sanitised(proposed, l).clamps
    ensures SafePct(proposed, l, clamps, pct, out)
  {
    out := clamps;
    if !proposed.Finite? {
      out := out + [PctClamp(proposed, 0.0, true)];
      return 0.0, out;
    }
    if proposed.x < 0.0 {
      out := out + [PctClamp(proposed, 0.0, true)];
      return 0.0, out;
    }
    if proposed.x > l.ceilingPct {
      pct := MinReal(l.defaultPct, l.ceilingPct);
      out := out + [PctClamp(proposed, pct, true)];
      return;
    }
    pct := proposed.x;
  }

  method ApplyAbsoluteCap(pct: real, order: int, l: MoneyLimits, clamps: seq<Clamp>)
    returns (capped: real, paise: int, out: seq<Clamp>)
    ensures Offer(capped, paise, out) == Capped(Cut(pct, clamps), order, l)
    ensures WithinCap(pct, order, l, clamps, capped, paise, out)
  {
    out := clamps;
    if pct <= 0.0 || order <= 0 {
      return 0.0, 0, out;
    }
    paise := Share(order, pct);
    if paise <= l.absolutePaise {
      return pct, paise, out;
    }
    out := out + [PaiseClamp(paise, l.absolutePaise)];
    return Round4(l.absolutePaise as real * 100.0 / order as real), l.absolutePaise, out;
  }

  method SanitiseExpiry(proposed: Minutes, l: MoneyLimits, clamps: seq<Clamp>) returns (minutes: int, out: seq<Clamp>)
    ensures minutes == ValidityOf(proposed, l).minutes && out == clamps + ValidityOf(proposed, l).clamps
    ensures NearestValidity(proposed, l, clamps, minutes, out)
  {
    out := clamps;
    match Truncated(proposed)
    case None =>
      out := out + [ExpiryClamp(proposed, l.expiryDefault)];
      minutes := l.expiryDefault;
    case Some(n) =>
      minutes := n;
      if n < l.expiryFloor {
        minutes := l.expiryFloor;
        out := out + [ExpiryClamp(proposed, minutes)];
      } else if n > l.expiryCeiling {
        minutes := l.expiryCeiling;
        out := out + [ExpiryClamp(proposed, minutes)];
      }
  }

  /** Clamps already on the list change nothing but the list. */
  lemma CappedAfter(before: seq<Clamp>, c: Cut, order: int, l: MoneyLimits, strategy: Strategy)
    ensures var after, alone := Withheld(Capped(Cut(c.pct, before + c.clamps), order, l), strategy),
                                Withheld(Capped(c, order, l), strategy);
            after == alone.(clamps := before + alone.clamps)
  {
  }

  /** The whole firewall computes `Decide`. */
  method EvaluatePolicy(p: Proposal, ctx: PolicyContext, key: string, now: int) returns (d: PolicyDecision)
    ensures d == Decide(p, ctx, key, now)
  {
    hide S.Evaluate, Sanitised, Capped, ValidityOf, EscalationRung, AnyViolation, BlockingRule, ReferenceId, HashOf, Mint;
    hide S.ApplyDegradations, StoppingView, SafePct, WithinCap, NearestValidity;
    var clamps: seq<Clamp> := [];
    var blocks: seq<Block> := [];
    var view := StoppingView(p, ctx);
    if ctx.orderPaise <= 0 {
      blocks := blocks + [AmountNotPositive];
    }
    var stopping := S.EvaluateRules(view);
    if stopping.decision.Stop? {
      blocks := blocks + [StoppedBy(BlockingRule(stopping, 0))];
    }
    var kind := S.ApplyDegradations(view, stopping).messageClass;
    if kind != p.messageClass {
      clamps := clamps + [ClassClamp(p.messageClass, kind)];
    }
    if ctx.arm.Control? {
      blocks := blocks + [HeldOut];
    }
    if blocks != [] {
      return PolicyDecision(Blocked, None, None, clamps, blocks, A0Autonomous, stopping);
    }
    var pct;
    pct, clamps := SanitiseDiscount(p.discountPct, ctx.limits, clamps);
    if kind.Transactional? && pct > 0.0 {
      clamps := clamps + [PctClamp(Finite(pct), 0.0, false)];
      pct := 0.0;
    }
    ghost var cut := Stripped(Sanitised(p.discountPct, ctx.limits), kind);
    assert Cut(pct, clamps) == Cut(cut.pct, ClassClamps(p, kind) + cut.clamps);
    CappedAfter(ClassClamps(p, kind), cut, ctx.orderPaise, ctx.limits, p.strategy);
    var paise;
    pct, paise, clamps := ApplyAbsoluteCap(pct, ctx.orderPaise, ctx.limits, clamps);
    if p.strategy.NoAction? && (pct != 0.0 || paise != 0) {
      clamps := clamps + [PctClamp(Finite(pct), 0.0, false)];
      pct, paise := 0.0, 0;
    }
    ghost var offer := OfferOf(p, ctx.orderPaise, kind, ctx.limits);
    assert Offer(pct, paise, clamps) == offer.(clamps := ClassClamps(p, kind) + offer.clamps);
    var minutes;
    minutes, clamps := SanitiseExpiry(p.validity, ctx.limits, clamps);
    var charge := ctx.orderPaise - paise;
    var rung := EscalationRung(ctx.orderPaise, pct, ctx.limits, AnyViolation(clamps), p.strategy);
    var applied := AppliedAction(
      ctx.caseId, p.strategy, ctx.orderPaise, pct, paise, charge, minutes, p.channel, kind, rung,
      ReferenceId(ctx.caseId, ctx.attemptNo), ctx.attemptNo, if stopping.decision.Defer? then stopping.until else None);
    assert clamps == AllClamps(p, ctx);
    if NeedsHuman(rung) && ctx.approvedHash != Some(HashOf(applied)) {
      return PolicyDecision(EscalateHitl, Some(applied), None, clamps,
                            [if ctx.approvedHash.None? then NeedsApproval else WrongApproval], rung, stopping);
    }
    return PolicyDecision(Passed, Some(applied), Some(Mint(key, applied, now)), clamps, [], rung, stopping);
  }
}
