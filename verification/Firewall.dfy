/** What the firewall guarantees for every proposal, and what tightening its limits can do. */
module Firewall {
  import opened Text
  import opened Enums
  import opened Ids
  import opened Token
  import opened PolicyEngine
  import S = StoppingRules

  function Max(a: int, b: int): int { if a < b then b else a }

  lemma ShareMonotone(order: int, p: real, q: real)
    requires order >= 0 && p <= q
    ensures Share(order, p) <= Share(order, q)
  {
  }

  /** Rounding to four places moves a number by at most half of one. */
  lemma Round4Near(x: real)
    ensures x - 0.00005 <= Round4(x) <= x + 0.00005
    ensures x >= 0.0 ==> Round4(x) >= 0.0
  {
  }

  /** The percentage on record agrees with the paise to within a paisa and the rounding of four decimals. */
  predicate Agree(order: int, pct: real, paise: int) {
    -1.0 - order as real / 2000000.0 <= paise as real - order as real * pct / 100.0 <= 1.0 + order as real / 2000000.0
  }

  lemma Scaled(k: real, x: real, bound: real)
    requires k >= 0.0 && -bound <= x <= bound
    ensures -(k * bound) <= k * x <= k * bound
  {
  }

  lemma NearProduct(o: real, x: real, pct: real, cap: real)
    requires o > 0.0 && x == cap * 100.0 / o
    requires x - 0.00005 <= pct <= x + 0.00005
    ensures -(o / 2000000.0) <= cap - o * pct / 100.0 <= o / 2000000.0
  {
    var stray := o * (pct - x);
    Scaled(o, pct - x, 0.00005);
    assert -(o * 0.00005) <= stray <= o * 0.00005;
    assert o * x == cap * 100.0;
    assert stray == o * pct - o * x;
    assert o * pct == cap * 100.0 + stray;
    assert o * pct / 100.0 == cap + stray / 100.0;
    StrayPaise(o, stray, cap, pct);
  }

  lemma StrayPaise(o: real, stray: real, cap: real, pct: real)
    requires -(o * 0.00005) <= stray <= o * 0.00005
    requires o * pct / 100.0 == cap + stray / 100.0
    ensures -(o / 2000000.0) <= cap - o * pct / 100.0 <= o / 2000000.0
  {
  }

  /** How far a rounded percentage of the order can stray from the paise it was computed from. */
  lemma CappedPctNearPaise(cap: int, order: int)
    requires order > 0
    ensures var pct := Round4(cap as real * 100.0 / order as real);
            var exact := order as real * pct / 100.0;
            -(order as real / 2000000.0) <= cap as real - exact <= order as real / 2000000.0
  {
    var o, x := order as real, cap as real * 100.0 / order as real;
    Round4Near(x);
    NearProduct(o, x, Round4(x), cap as real);
  }

  /** The percentage left by sanitising and stripping: between zero and the ceiling, if the ceiling is not negative. */
  lemma CutIsBounded(d: Number, kind: MessageClass, l: MoneyLimits)
    ensures var c := Stripped(Sanitised(d, l), kind);
            && (c.pct > 0.0 ==> c.pct <= l.ceilingPct && kind.Marketing?)
            && (l.ceilingPct >= 0.0 && l.defaultPct >= 0.0 ==> c.pct >= 0.0)
  {
  }

  /** An uncapped discount is its percentage of the order, rounded down. */
  lemma ShareAgrees(order: int, pct: real)
    requires order > 0 && pct >= 0.0
    ensures Share(order, pct) >= 0 && Agree(order, pct, Share(order, pct))
  {
  }

  /** A capped one agrees with the percentage worked back from the cap. */
  lemma CapAgrees(cap: int, order: int)
    requires order > 0 && cap >= 0
    ensures var pct := Round4(cap as real * 100.0 / order as real);
            pct >= 0.0 && Agree(order, pct, cap)
  {
    var x := cap as real * 100.0 / order as real;
    assert x >= 0.0;
    Round4Near(x);
    CappedPctNearPaise(cap, order);
    hide Round4;
  }

  lemma CappedIsBounded(c: Cut, order: int, l: MoneyLimits)
    requires order > 0 && l.absolutePaise >= 0 && 0.0 < c.pct <= l.ceilingPct
    ensures var o := Capped(c, order, l);
            && 0 <= o.paise <= l.absolutePaise && o.paise <= Share(order, l.ceilingPct)
            && 0.0 <= o.pct && Agree(order, o.pct, o.paise)
  {
    hide Share, Agree, Round4;
    ShareMonotone(order, c.pct, l.ceilingPct);
    ShareAgrees(order, c.pct);
    CapAgrees(l.absolutePaise, order);
  }

  /**
   The money of every offer: no more than the absolute cap and the ceiling's share of the order, never
   negative, in agreement with its percentage, and nothing at all for a transactional message or NO_ACTION.
   */
  lemma OfferIsBounded(p: Proposal, order: int, kind: MessageClass, l: MoneyLimits)
    requires order > 0 && l.absolutePaise >= 0
    ensures var o := OfferOf(p, order, kind, l);
            && 0 <= o.paise <= l.absolutePaise
            && o.paise <= Max(0, Share(order, l.ceilingPct))
            && 0.0 <= o.pct
            && (kind.Transactional? || p.strategy.NoAction? ==> o.pct == 0.0 && o.paise == 0)
            && Agree(order, o.pct, o.paise)
  {
    CutIsBounded(p.discountPct, kind, l);
    assert Agree(order, 0.0, 0);
    var c := Stripped(Sanitised(p.discountPct, l), kind);
    hide Sanitised, Stripped, Share, Round4, Agree;
    if c.pct > 0.0 {
      CappedIsBounded(c, order, l);
    }
  }

  /** The discount is negative exactly when a negative absolute cap meets an offer that survives. */
  lemma OnlyANegativeCapOvercharges(p: Proposal, order: int, kind: MessageClass, l: MoneyLimits)
    requires order > 0
    ensures OfferOf(p, order, kind, l).paise < 0 <==>
              l.absolutePaise < 0 && !p.strategy.NoAction? && Stripped(Sanitised(p.discountPct, l), kind).pct > 0.0
  {
  }

  /** The expiry is inside its bounds exactly when they are ordered and, for an unreadable proposal, hold the default. */
  lemma ValidityIsBounded(m: Minutes, l: MoneyLimits)
    ensures l.expiryFloor <= ValidityOf(m, l).minutes <= l.expiryCeiling <==>
              l.expiryFloor <= l.expiryCeiling
              && (m.Unconvertible? ==> l.expiryFloor <= l.expiryDefault <= l.expiryCeiling)
  {
  }

  /** The bounds as the merchant means them. */
  predicate WithinLimits(a: AppliedAction, order: int, l: MoneyLimits) {
    && a.amountPaise == order
    && a.chargeAmountPaise + a.discountAmountPaise == order
    && 0 <= a.discountAmountPaise <= l.absolutePaise
    && a.discountAmountPaise <= Max(0, Share(order, l.ceilingPct))
    && 0.0 <= a.discountPct
    && l.expiryFloor <= a.linkExpiryMinutes <= l.expiryCeiling
    && (a.messageClass.Transactional? || a.strategy.NoAction? ==> a.discountAmountPaise == 0 && a.discountPct == 0.0)
    && Agree(order, a.discountPct, a.discountAmountPaise)
  }

  /** Limits whose own numbers are in order. */
  predicate SoundLimits(l: MoneyLimits) {
    l.absolutePaise >= 0 && l.expiryFloor <= l.expiryDefault <= l.expiryCeiling
  }

  /** No proposal, however hostile, yields an action outside the limits; a token covers exactly that action. */
  lemma FirewallIsClosed(p: Proposal, ctx: PolicyContext, key: string, now: int)
    requires SoundLimits(ctx.limits)
    ensures var d := Decide(p, ctx, key, now);
            && (d.applied.Some? <==> !d.verdict.Blocked?)
            && (d.applied.Some? ==> ctx.orderPaise > 0 && WithinLimits(d.applied.value, ctx.orderPaise, ctx.limits))
            && (d.applied.Some? ==> d.applied.value.reference == ReferenceId(ctx.caseId, ctx.attemptNo)
                                    && d.applied.value.strategy == p.strategy && d.applied.value.channel == p.channel)
            && (d.token.Some? <==> d.verdict.Passed?)
            && (d.token.Some? ==> d.token.value.applied == d.applied.value && Verifies(key, d.token.value))
            && (d.blocks == [] <==> d.verdict.Passed?)
  {
    var kind := EffectiveClass(p, ctx);
    ValidityIsBounded(p.validity, ctx.limits);
    if ctx.orderPaise > 0 {
      OfferIsBounded(p, ctx.orderPaise, kind, ctx.limits);
    }
    hide OfferOf, ValidityOf, EffectiveClass, StoppingView, S.Evaluate, EscalationRung, AllClamps, ReferenceId, BlockingRule,
         Share, Agree, HashOf, Sign;
  }

  // --------------------------------------------------------------------------
  // When it passes.

  /** A held-out case is never acted on; any other passes only clear of every brake, or with a hold stamped on it. */
  lemma PassedMeansPermitted(p: Proposal, ctx: PolicyContext, key: string, now: int)
    requires S.ReleaseMinuteOk(ctx.stopping)
    requires Decide(p, ctx, key, now).verdict.Passed?
    ensures ctx.arm.Treatment? && ctx.orderPaise > 0
    ensures var a, view := Decide(p, ctx, key, now).applied.value, StoppingView(p, ctx);
            if a.sendAfter.None? then S.NoBrake(view)
            else S.Evaluate(view).decision.Defer? && S.SoundHold(view, S.Evaluate(view))
                 && a.sendAfter == S.Evaluate(view).until
  {
    var view := StoppingView(p, ctx);
    S.VerdictIsWellFormed(view);
    S.ActsExactlyWithoutBrake(view);
    hide OfferOf, ValidityOf, EffectiveClass, StoppingView, S.Evaluate, EscalationRung, AllClamps, ReferenceId, BlockingRule,
         S.NoBrake, S.SoundHold, HashOf, Mint;
  }

  /** The proposed percentage is none that a merchant could have meant. */
  predicate OutOfBounds(p: Proposal, l: MoneyLimits) {
    !p.discountPct.Finite? || p.discountPct.x < 0.0 || p.discountPct.x > l.ceilingPct
  }

  /** The authority an order asks for: two reviewers, one, a flag, or none; and none to do nothing. */
  predicate RungFits(rung: Rung, p: Proposal, order: int, l: MoneyLimits, pct: real) {
    if p.strategy.NoAction? then rung == A0Autonomous
    else if order >= l.dualSignalPaise then rung == A3ApprovalDual
    else if order >= l.autonomousPaise || OutOfBounds(p, l) then rung == A2Approval
    else rung == if pct > 0.0 then A1Flagged else A0Autonomous
  }

  /**
   The verdict and its reasons on the facts: blocked for an order of nothing, a stop or a held-out case,
   each named; else in need of a human who has not approved this very action; else passed. What is applied is
   the case's own next attempt, held until the verdict's instant if that is to wait.
   */
  lemma VerdictExactly(p: Proposal, ctx: PolicyContext, key: string, now: int)
    ensures var d, v := Decide(p, ctx, key, now), S.Evaluate(StoppingView(p, ctx));
            && d.stopping == v
            && (d.verdict.Blocked? <==> ctx.orderPaise <= 0 || v.decision.Stop? || ctx.arm.Control?)
            && (d.verdict.Blocked? ==>
                 && d.applied.None? && d.token.None? && d.rung.A0Autonomous?
                 && (AmountNotPositive in d.blocks <==> ctx.orderPaise <= 0)
                 && (HeldOut in d.blocks <==> ctx.arm.Control?)
                 && (forall rule :: StoppedBy(rule) in d.blocks <==> v.decision.Stop? && rule == BlockingRule(v, 0)))
            && (!d.verdict.Blocked? ==>
                 var a := d.applied.value;
                 && d.applied.Some? && d.rung == a.rung
                 && a.caseId == ctx.caseId && a.attemptNo == ctx.attemptNo && a.reference == ReferenceId(ctx.caseId, ctx.attemptNo)
                 && a.sendAfter == (if v.decision.Defer? then v.until else None)
                 && RungFits(a.rung, p, ctx.orderPaise, ctx.limits, a.discountPct)
                 && (d.verdict.EscalateHitl? <==> (a.rung.A2Approval? || a.rung.A3ApprovalDual?) && ctx.approvedHash != Some(HashOf(a)))
                 && (d.verdict.EscalateHitl? ==> d.token.None? && d.blocks == [if ctx.approvedHash.None? then NeedsApproval else WrongApproval])
                 && (d.verdict.Passed? ==> d.token == Some(Mint(key, a, now)) && d.blocks == []))
  {
    ViolationExactly(p, ctx);
    hide S.Evaluate, EffectiveClass, OfferOf, ValidityOf, StoppingView, AllClamps, AnyViolation, ReferenceId, BlockingRule, HashOf, Mint,
         ClassClamps;
  }

  /** What passes was not stopped: nothing but a hold can have stood in its way. */
  lemma PassedIsUnbraked(p: Proposal, ctx: PolicyContext, key: string, now: int)
    requires S.ReleaseMinuteOk(ctx.stopping) && Decide(p, ctx, key, now).verdict.Passed?
    ensures !S.MustStop(StoppingView(p, ctx)) && !S.MustStop(ctx.stopping)
  {
    var view := StoppingView(p, ctx);
    S.StopsAndDefersExactlyWhen(view);
    assert S.MustStop(view) <==> S.MustStop(ctx.stopping);
    hide S.Evaluate, S.MustStop, AppliedOf, AllClamps, ClassClamps, HashOf, Mint, BlockingRule, EffectiveClass;
  }

  /** Without consent to market, what goes out is transactional and carries no offer. */
  lemma NoConsentNoOffer(p: Proposal, ctx: PolicyContext, key: string, now: int)
    requires ctx.limits.absolutePaise >= 0
    requires Decide(p, ctx, key, now).verdict.Passed?
    requires ctx.stopping.outbound && p.messageClass.Marketing?
    requires !ctx.stopping.marketingConsent || ctx.stopping.dndRegistered
    ensures var a := Decide(p, ctx, key, now).applied.value;
            a.messageClass.Transactional? && a.discountAmountPaise == 0 && a.chargeAmountPaise == ctx.orderPaise
  {
    var view := StoppingView(p, ctx);
    S.DegradesMerge(view);
    BarredMarketingDegrades(view);
    OfferIsBounded(p, ctx.orderPaise, EffectiveClass(p, ctx), ctx.limits);
    hide OfferOf, ValidityOf, S.Results, S.Weighed, EscalationRung, AllClamps, ReferenceId, BlockingRule, HashOf, Mint, Share;
  }

  /** Barred marketing is downgraded, unless the customer cannot be messaged at all. */
  lemma BarredMarketingDegrades(c: S.Context)
    requires c.outbound && S.MarketingBarred(c)
    ensures S.Evaluate(c).decision.Stop? || S.ConsentClass(c).decision.DegradeIt?
  {
    if !c.transactionalConsent {
      assert S.Results(c)[7] == S.ConsentClass(c);
      StopWins(S.Results(c), 7);
    }
  }

  /** One STOP among the results is a STOP overall. */
  lemma {:induction false} StopWins(rs: seq<S.RuleResult>, i: nat)
    requires i < |rs| && rs[i].decision.Stop?
    ensures S.Weighed(rs).decision.Stop?
  {
    if i < |rs| - 1 {
      StopWins(rs[..|rs| - 1], i);
    }
  }

  /** Unapproved, only a small order proposed within bounds passes, or doing nothing does. */
  lemma UnapprovedMeansSmall(p: Proposal, ctx: PolicyContext, key: string, now: int)
    requires ctx.approvedHash.None? && Decide(p, ctx, key, now).verdict.Passed? && !p.strategy.NoAction?
    ensures ctx.orderPaise < ctx.limits.autonomousPaise && ctx.orderPaise < ctx.limits.dualSignalPaise
    ensures p.discountPct.Finite? && 0.0 <= p.discountPct.x <= ctx.limits.ceilingPct
  {
    ViolationExactly(p, ctx);
    hide OfferOf, ValidityOf, EffectiveClass, StoppingView, S.Evaluate, AllClamps, ReferenceId, BlockingRule, HashOf, Mint;
  }

  /** The only violations are proposals that are not numbers, negative, or above the ceiling. */
  lemma ViolationExactly(p: Proposal, ctx: PolicyContext)
    ensures AnyViolation(AllClamps(p, ctx)) <==>
              !p.discountPct.Finite? || p.discountPct.x < 0.0 || p.discountPct.x > ctx.limits.ceilingPct
  {
    var kind := EffectiveClass(p, ctx);
    hide EffectiveClass, Round4, Share, Truncated;
    var cut := Sanitised(p.discountPct, ctx.limits);
    var all := AllClamps(p, ctx);
    if cut.clamps != [] {
      assert all[|ClassClamps(p, kind)|] == cut.clamps[0];
      assert IsViolation(all[|ClassClamps(p, kind)|]);
    }
  }

  function Authority(r: Rung): nat {
    match r case A0Autonomous => 0 case A1Flagged => 1 case A2Approval => 2 case A3ApprovalDual => 3
  }

  /**
   More money at stake, or a violation, never asks for less authority; what gives anything away is at
   least flagged; and NO_ACTION, which moves no money, asks for none.
   */
  lemma AuthorityOnlyRises(small: int, large: int, pct: real, l: MoneyLimits, violated: bool, strategy: Strategy)
    requires small <= large && l.autonomousPaise <= l.dualSignalPaise
    ensures Authority(EscalationRung(small, pct, l, violated, strategy)) <= Authority(EscalationRung(large, pct, l, violated, strategy))
    ensures Authority(EscalationRung(small, pct, l, violated, strategy)) <= Authority(EscalationRung(small, pct, l, true, strategy))
    ensures pct > 0.0 && !strategy.NoAction? ==> Authority(EscalationRung(small, pct, l, violated, strategy)) >= 1
    ensures NeedsHuman(EscalationRung(small, pct, l, violated, strategy)) <==>
              !strategy.NoAction? && (small >= l.autonomousPaise || violated)
  {
  }

  /** An approval covers one action: approving any other never lets this one through. */
  lemma ApprovalCoversOneAction(p: Proposal, ctx: PolicyContext, key: string, now: int, reviewed: AppliedAction)
    requires ctx.approvedHash == Some(HashOf(reviewed))
    requires Decide(p, ctx, key, now).verdict.Passed? && NeedsHuman(Decide(p, ctx, key, now).rung)
    ensures Decide(p, ctx, key, now).applied == Some(reviewed)
  {
    var a := AppliedOf(p, ctx);
    PinnedToOneAction(key, now, a, reviewed);
    hide AppliedOf, AllClamps, EffectiveClass, StoppingView, S.Evaluate, BlockingRule, HashOf;
  }

  // --------------------------------------------------------------------------
  // Nothing is reduced in silence.

  /** The action is just what was proposed. */
  predicate Unreduced(p: Proposal, a: AppliedAction) {
    && a.messageClass == p.messageClass
    && p.discountPct == Finite(a.discountPct)
    && a.discountAmountPaise == Share(a.amountPaise, a.discountPct)
    && Truncated(p.validity) == Some(a.linkExpiryMinutes)
  }

  predicate MoneyClamp(c: Clamp) { c.PctClamp? || c.PaiseClamp? }

  lemma OfferClampsAreMoney(p: Proposal, order: int, kind: MessageClass, l: MoneyLimits)
    ensures forall i :: 0 <= i < |OfferOf(p, order, kind, l).clamps| ==> MoneyClamp(OfferOf(p, order, kind, l).clamps[i])
  {
    hide Round4, Share;
  }

  /** Where each kind of clamp on the list comes from. */
  lemma ClampsByField(p: Proposal, ctx: PolicyContext)
    ensures var all, kind := AllClamps(p, ctx), EffectiveClass(p, ctx);
            var validity := ValidityOf(p.validity, ctx.limits);
            && ((exists c :: c in all && c.ClassClamp?) <==> kind != p.messageClass)
            && ((exists c :: c in all && c.ExpiryClamp?) <==> validity.clamps != [])
            && ((exists c :: c in all && MoneyClamp(c)) <==> OfferOf(p, ctx.orderPaise, kind, ctx.limits).clamps != [])
            && (kind != p.messageClass ==> ClassClamp(p.messageClass, kind) in all)
            && (validity.clamps != [] ==> ExpiryClamp(p.validity, validity.minutes) in all)
  {
    var kind := EffectiveClass(p, ctx);
    var offer, validity := OfferOf(p, ctx.orderPaise, kind, ctx.limits), ValidityOf(p.validity, ctx.limits);
    OfferClampsAreMoney(p, ctx.orderPaise, kind, ctx.limits);
    hide EffectiveClass, OfferOf, Truncated;
    var all := AllClamps(p, ctx);
    var n := |ClassClamps(p, kind)|;
    assert n > 0 ==> all[0] == ClassClamp(p.messageClass, kind);
    assert offer.clamps != [] ==> all[n] == offer.clamps[0];
    assert validity.clamps != [] ==> all[n + |offer.clamps|] == validity.clamps[0] == ExpiryClamp(p.validity, validity.minutes);
  }

  /**
   Field by field, a clamp is recorded exactly when the field is not what was proposed, and none at all
   exactly when the action is just what was proposed.
   */
  lemma EveryReductionIsRecorded(p: Proposal, ctx: PolicyContext, key: string, now: int)
    requires ctx.limits.ceilingPct >= 0.0
    requires Decide(p, ctx, key, now).applied.Some?
    ensures var d, a := Decide(p, ctx, key, now), Decide(p, ctx, key, now).applied.value;
            && ((exists c :: c in d.clamps && c.ClassClamp?) <==> a.messageClass != p.messageClass)
            && (a.messageClass != p.messageClass ==> ClassClamp(p.messageClass, a.messageClass) in d.clamps)
            && ((exists c :: c in d.clamps && c.ExpiryClamp?) <==> Truncated(p.validity) != Some(a.linkExpiryMinutes))
            && (Truncated(p.validity) != Some(a.linkExpiryMinutes) ==> ExpiryClamp(p.validity, a.linkExpiryMinutes) in d.clamps)
            && ((exists c :: c in d.clamps && MoneyClamp(c)) <==>
                  p.discountPct != Finite(a.discountPct) || a.discountAmountPaise != Share(a.amountPaise, a.discountPct))
            && (d.clamps == [] <==> Unreduced(p, a))
  {
    var kind := EffectiveClass(p, ctx);
    OfferUnchangedExactly(p, ctx.orderPaise, kind, ctx.limits);
    ClampsByField(p, ctx);
    assert ValidityOf(p.validity, ctx.limits).clamps != [] <==>
      Truncated(p.validity) != Some(ValidityOf(p.validity, ctx.limits).minutes);
    hide OfferOf, Sanitised, ValidityOf, Truncated, StoppingView, S.Evaluate, EscalationRung, ReferenceId, BlockingRule, HashOf, Mint,
         Share, EffectiveClass;
  }

  lemma OfferUnchangedExactly(p: Proposal, order: int, kind: MessageClass, l: MoneyLimits)
    requires order > 0 && l.ceilingPct >= 0.0
    ensures var o := OfferOf(p, order, kind, l);
            o.clamps == [] <==> p.discountPct == Finite(o.pct) && o.paise == Share(order, o.pct)
  {
    var s := Sanitised(p.discountPct, l);
    var c := Stripped(s, kind);
    assert Share(order, 0.0) == 0;
    if p.discountPct.Finite? && c.pct > 0.0 {
      ShareMonotone(order, c.pct, p.discountPct.x);
      hide Round4;
    }
  }

  // --------------------------------------------------------------------------
  // What is taken off, in paise.

  /** The lesser of the cap and `pct` percent of the order, rounded down; nothing if there is no percentage. */
  predicate TakesOff(order: int, pct: real, cap: int, paise: int) {
    if pct <= 0.0 then paise == 0
    else
      && paise <= cap && 100.0 * paise as real <= order as real * pct
      && (paise == cap || order as real * pct < 100.0 * (paise + 1) as real)
  }

  lemma CapOrShare(order: int, pct: real, cap: int, clamps: seq<Clamp>, l: MoneyLimits)
    requires order > 0 && l.absolutePaise == cap
    ensures TakesOff(order, pct, cap, Capped(Cut(pct, clamps), order, l).paise)
  {
    hide Round4;
  }

  /**
   Of an offer that may be sent: nothing for a proposal that is no number or negative; its own share for one
   within the ceiling; and for one above it the share of the default, or of the ceiling if that is less.
   */
  lemma WhatIsTakenOff(p: Proposal, ctx: PolicyContext, key: string, now: int)
    requires Decide(p, ctx, key, now).applied.Some?
    ensures var a, l, x := Decide(p, ctx, key, now).applied.value, ctx.limits, p.discountPct;
            && a.chargeAmountPaise == ctx.orderPaise - a.discountAmountPaise
            && (a.messageClass.Transactional? || p.strategy.NoAction? ==> a.discountAmountPaise == 0)
            && (a.messageClass.Marketing? && !p.strategy.NoAction? ==>
                 if !x.Finite? || x.x < 0.0 then a.discountAmountPaise == 0
                 else if x.x <= l.ceilingPct then TakesOff(ctx.orderPaise, x.x, l.absolutePaise, a.discountAmountPaise)
                 else if l.defaultPct <= l.ceilingPct
                 then TakesOff(ctx.orderPaise, l.defaultPct, l.absolutePaise, a.discountAmountPaise)
                 else TakesOff(ctx.orderPaise, l.ceilingPct, l.absolutePaise, a.discountAmountPaise))
  {
    var kind, cut := EffectiveClass(p, ctx), Sanitised(p.discountPct, ctx.limits);
    assert Decide(p, ctx, key, now).applied.value == AppliedOf(p, ctx) && ctx.orderPaise > 0;
    CapOrShare(ctx.orderPaise, cut.pct, ctx.limits.absolutePaise, cut.clamps, ctx.limits);
    CapOrShare(ctx.orderPaise, 0.0, ctx.limits.absolutePaise, [], ctx.limits);
    hide EffectiveClass, Decide, ValidityOf, EscalationRung, AllClamps, StoppingView, S.Evaluate, ReferenceId, Round4, Share, TakesOff;
  }

  lemma OneAmountTakenOff(order: int, pct: real, cap: int, paise: int, other: int)
    requires TakesOff(order, pct, cap, paise) && TakesOff(order, pct, cap, other)
    ensures paise == other
  {
  }

  /** The two contexts differ at most in the discount proposed and in the discounts borne. */
  predicate DiscountAside(c: S.Context, d: S.Context) {
    d == c.(discountPct := d.discountPct, discountAttempts := d.discountAttempts)
  }

  /** A discount decides nothing of a verdict but whether one that permits acting also reduces. */
  lemma DiscountOnlyReduces(c: S.Context, d: S.Context)
    requires DiscountAside(c, d)
    ensures var v, w := S.Evaluate(c), S.Evaluate(d);
            && (v.decision.Stop? <==> w.decision.Stop?)
            && (v.decision.Defer? <==> w.decision.Defer?)
            && (v.decision.Defer? ==> v.until == w.until)
  {
    var rs, ts := S.Results(c), S.Results(d);
    assert rs[..11] == ts[..11];
    assert rs[..12] == rs && ts[..12] == ts;
    assert rs[11] == S.DiscountAttemptBudget(c) && ts[11] == S.DiscountAttemptBudget(d);
    hide S.Results;
    var t := S.Weighed(rs[..11]);
    assert S.Weighed(rs) == S.Weigh(t, rs[11]) && S.Weighed(ts) == S.Weigh(t, ts[11]);
    MildResultsWeighAlike(t, rs[11]);
    MildResultsWeighAlike(t, ts[11]);
    hide S.Weighed, S.Weigh, S.DiscountAttemptBudget;
  }

  /** A result that at most reduces changes neither a stop nor a hold. */
  lemma MildResultsWeighAlike(t: S.Tally, r: S.RuleResult)
    requires S.Clears(r)
    ensures var u := S.Weigh(t, r);
            && (u.decision.Stop? <==> t.decision.Stop?) && (u.decision.Defer? <==> t.decision.Defer?)
            && (t.decision.Stop? || t.decision.Defer? ==> u.until == t.until)
  {
  }

  lemma DiscountKeepsTheClass(c: S.Context, d: S.Context)
    requires DiscountAside(c, d)
    ensures S.ApplyDegradations(c, S.Evaluate(c)).messageClass == S.ApplyDegradations(d, S.Evaluate(d)).messageClass
  {
    S.DegradesMerge(c);
    S.DegradesMerge(d);
    DiscountBudgetKeepsTheClass(c);
    DiscountBudgetKeepsTheClass(d);
    assert S.ConsentClass(c) == S.ConsentClass(d);
    hide S.Results, S.Weighed, S.DiscountAttemptBudget, S.ConsentClass;
  }

  lemma RefusedExactly(ctx: PolicyContext, v: S.Verdict)
    ensures Refusals(ctx, v) == [] <==> ctx.orderPaise > 0 && !v.decision.Stop? && ctx.arm.Treatment?
  {
    hide BlockingRule;
  }

  /** Whether an action comes of a proposal, and of which class, does not depend on the discount it asks for. */
  lemma AnyDiscountIsTreatedAlike(p: Proposal, q: Proposal, ctx: PolicyContext, key: string, now: int)
    requires q == p.(discountPct := q.discountPct)
    ensures EffectiveClass(p, ctx) == EffectiveClass(q, ctx)
    ensures Decide(p, ctx, key, now).applied.Some? <==> Decide(q, ctx, key, now).applied.Some?
  {
    var c, d := StoppingView(p, ctx), StoppingView(q, ctx);
    DiscountKeepsTheClass(c, d);
    DiscountOnlyReduces(c, d);
    RefusedExactly(ctx, S.Evaluate(c));
    RefusedExactly(ctx, S.Evaluate(d));
    hide S.Evaluate, Refusals, AppliedOf, AllClamps, HashOf, Mint, ClassClamps;
  }

  /** Asking for more than the ceiling takes off just what asking for the default does: no model can talk the offer up. */
  lemma AskingTooMuchGainsNothing(p: Proposal, ctx: PolicyContext, key: string, now: int)
    requires p.discountPct.Finite? && p.discountPct.x > ctx.limits.ceilingPct && p.discountPct.x >= 0.0
    requires Decide(p, ctx, key, now).applied.Some?
    ensures var modest := Decide(p.(discountPct := Finite(ctx.limits.defaultPct)), ctx, key, now);
            modest.applied.Some? && Decide(p, ctx, key, now).applied.value.discountAmountPaise == modest.applied.value.discountAmountPaise
  {
    var q, l := p.(discountPct := Finite(ctx.limits.defaultPct)), ctx.limits;
    AnyDiscountIsTreatedAlike(p, q, ctx, key, now);
    WhatIsTakenOff(p, ctx, key, now);
    WhatIsTakenOff(q, ctx, key, now);
    var a, b := Decide(p, ctx, key, now).applied.value, Decide(q, ctx, key, now).applied.value;
    assert a.messageClass == b.messageClass by {
      assert a == AppliedOf(p, ctx) && b == AppliedOf(q, ctx);
      hide OfferOf, ValidityOf, EffectiveClass, EscalationRung, AllClamps, ReferenceId, S.Evaluate;
    }
    var pct := if l.defaultPct <= l.ceilingPct then l.defaultPct else l.ceilingPct;
    hide Decide;
    if TakesOff(ctx.orderPaise, pct, l.absolutePaise, a.discountAmountPaise)
       && TakesOff(ctx.orderPaise, pct, l.absolutePaise, b.discountAmountPaise) {
      OneAmountTakenOff(ctx.orderPaise, pct, l.absolutePaise, a.discountAmountPaise, b.discountAmountPaise);
    }
  }

  // --------------------------------------------------------------------------
  // Tightening.

  predicate TighterMoney(tight: MoneyLimits, loose: MoneyLimits) {
    && tight.ceilingPct <= loose.ceilingPct
    && tight.defaultPct <= loose.defaultPct
    && tight.absolutePaise <= loose.absolutePaise
    && tight.autonomousPaise <= loose.autonomousPaise
    && tight.dualSignalPaise <= loose.dualSignalPaise
  }

  predicate TighterContext(tight: PolicyContext, loose: PolicyContext) {
    && tight == loose.(limits := tight.limits, stopping := loose.stopping.(limits := tight.stopping.limits))
    && TighterMoney(tight.limits, loose.limits)
    && S.Tighter(tight.stopping.limits, loose.stopping.limits)
    && S.ReleaseMinuteOk(loose.stopping)
  }

  lemma TighterOffer(p: Proposal, order: int, kind: MessageClass, tight: MoneyLimits, loose: MoneyLimits)
    requires order > 0 && TighterMoney(tight, loose) && loose.absolutePaise >= 0
    ensures OfferOf(p, order, kind, tight).paise <= OfferOf(p, order, kind, loose).paise
  {
    var t, u := Stripped(Sanitised(p.discountPct, tight), kind), Stripped(Sanitised(p.discountPct, loose), kind);
    assert t.pct <= u.pct || t.pct <= 0.0;
    hide Sanitised, Stripped, Round4;
    if t.pct > 0.0 {
      ShareMonotone(order, t.pct, u.pct);
    } else if u.pct > 0.0 {
      assert order as real * u.pct / 100.0 >= 0.0;
    }
  }

  lemma TighterView(p: Proposal, tight: PolicyContext, loose: PolicyContext)
    requires TighterContext(tight, loose)
    ensures var t, u := StoppingView(p, tight), StoppingView(p, loose);
            t == u.(limits := t.limits) && S.Tighter(t.limits, u.limits) && S.ReleaseMinuteOk(u)
  {
  }

  lemma SameClassWhenTighter(p: Proposal, tight: PolicyContext, loose: PolicyContext)
    requires TighterContext(tight, loose)
    ensures EffectiveClass(p, tight) == EffectiveClass(p, loose)
  {
    var t, u := StoppingView(p, tight), StoppingView(p, loose);
    TighterView(p, tight, loose);
    assert t.messageClass == u.messageClass;
    hide StoppingView, S.Results, S.Weighed, S.DiscountAttemptBudget, S.ConsentClass, S.Tighter;
    S.DegradesMerge(t);
    S.DegradesMerge(u);
    S.EveryRuleTightens(t, u);
    DiscountBudgetKeepsTheClass(t);
    DiscountBudgetKeepsTheClass(u);
  }

  lemma DiscountBudgetKeepsTheClass(c: S.Context)
    ensures S.DiscountAttemptBudget(c).degrade.messageClass.None?
  {
  }

  /** What needed a human still does, and what is taken off does not grow. */
  lemma TighterAction(p: Proposal, tight: PolicyContext, loose: PolicyContext)
    requires TighterContext(tight, loose) && loose.orderPaise > 0
    ensures NeedsHuman(AppliedOf(p, loose).rung) ==> NeedsHuman(AppliedOf(p, tight).rung)
    ensures loose.limits.absolutePaise >= 0 ==>
      AppliedOf(p, tight).discountAmountPaise <= AppliedOf(p, loose).discountAmountPaise
  {
    SameClassWhenTighter(p, tight, loose);
    ViolationExactly(p, tight);
    ViolationExactly(p, loose);
    if loose.limits.absolutePaise >= 0 {
      TighterOffer(p, loose.orderPaise, EffectiveClass(p, loose), tight.limits, loose.limits);
    }
    hide OfferOf, ValidityOf, EffectiveClass, StoppingView, S.Evaluate, AllClamps, ReferenceId, S.Tighter, S.ReleaseMinuteOk,
         AnyViolation;
  }

  /** With no approval on file, tighter limits never let more through, nor discount more unless the looser cap is negative. */
  lemma TighteningIsMonotone(p: Proposal, tight: PolicyContext, loose: PolicyContext, key: string, now: int)
    requires TighterContext(tight, loose) && loose.approvedHash.None?
    ensures var t, u := Decide(p, tight, key, now), Decide(p, loose, key, now);
            && (t.verdict.Passed? ==> u.verdict.Passed?)
            && (u.verdict.Blocked? ==> t.verdict.Blocked?)
            && (t.applied.Some? ==> u.applied.Some?)
            && (t.applied.Some? && loose.limits.absolutePaise >= 0 ==>
                 t.applied.value.discountAmountPaise <= u.applied.value.discountAmountPaise)
  {
    TighterView(p, tight, loose);
    if S.Evaluate(StoppingView(p, loose)).decision.Stop? {
      S.TighteningKeepsStops(StoppingView(p, tight), StoppingView(p, loose));
    }
    if loose.orderPaise > 0 {
      TighterAction(p, tight, loose);
    }
    hide AppliedOf, AllClamps, EffectiveClass, StoppingView, S.Evaluate, BlockingRule, HashOf, Mint, S.Tighter, S.ReleaseMinuteOk,
         ClassClamps;
  }

  // --------------------------------------------------------------------------
  // The limits a merchant has unless it sets its own.

  const USUAL := MoneyLimits(1000000, 10000000, 7.0, 5.0, 50000, 30, 15, 1440)
}
