/**
 Two things the firewall is documented to do and does not always: it may record a percentage above the
 proposed one, and it does not apply the discount budget. When, exactly, and when not.
 */
module Shortfalls {
  import opened Text
  import opened Enums
  import opened QuietHours
  import opened Ids
  import opened Token
  import opened PolicyEngine
  import opened Firewall
  import S = StoppingRules

  /** What is left of a proposed discount before the absolute cap. */
  function PctLeft(p: Proposal, kind: MessageClass, l: MoneyLimits): real {
    Stripped(Sanitised(p.discountPct, l), kind).pct
  }

  /** The percentage recorded in place of one the absolute cap cuts. */
  function CapPct(order: int, l: MoneyLimits): real
    requires order > 0
  {
    Round4(l.absolutePaise as real * 100.0 / order as real)
  }

  // --------------------------------------------------------------------------
  // The percentage.

  /** An offer's percentage exceeds the proposed one exactly when that was negative, or the cap bites and rounds above it. */
  lemma OfferLiftedExactly(p: Proposal, order: int, kind: MessageClass, l: MoneyLimits)
    requires order > 0 && p.discountPct.Finite?
    ensures OfferOf(p, order, kind, l).pct > p.discountPct.x <==>
              || p.discountPct.x < 0.0
              || (&& !p.strategy.NoAction? && PctLeft(p, kind, l) > 0.0
                  && l.absolutePaise < Share(order, PctLeft(p, kind, l)) && p.discountPct.x < CapPct(order, l))
  {
    hide Round4, Share;
  }

  lemma DecidedOffer(p: Proposal, ctx: PolicyContext, key: string, now: int)
    requires Decide(p, ctx, key, now).applied.Some?
    ensures ctx.orderPaise > 0 && !S.Evaluate(StoppingView(p, ctx)).decision.Stop?
    ensures var a, o := Decide(p, ctx, key, now).applied.value, OfferOf(p, ctx.orderPaise, EffectiveClass(p, ctx), ctx.limits);
            a.discountPct == o.pct && a.discountAmountPaise == o.paise && a.messageClass == EffectiveClass(p, ctx)
  {
    hide OfferOf, ValidityOf, EffectiveClass, StoppingView, S.Evaluate, EscalationRung, AllClamps, ReferenceId, BlockingRule, HashOf, Mint;
  }

  /** The same of every decision, for every proposal that is a number. */
  lemma LiftedExactlyWhen(p: Proposal, ctx: PolicyContext, key: string, now: int)
    requires p.discountPct.Finite? && Decide(p, ctx, key, now).applied.Some?
    ensures ctx.orderPaise > 0
    ensures var a, l := Decide(p, ctx, key, now).applied.value, ctx.limits;
            a.discountPct > p.discountPct.x <==>
              || p.discountPct.x < 0.0
              || (&& !p.strategy.NoAction? && PctLeft(p, a.messageClass, l) > 0.0
                  && l.absolutePaise < Share(ctx.orderPaise, PctLeft(p, a.messageClass, l))
                  && p.discountPct.x < CapPct(ctx.orderPaise, l))
  {
    DecidedOffer(p, ctx, key, now);
    OfferLiftedExactly(p, ctx.orderPaise, EffectiveClass(p, ctx), ctx.limits);
    hide OfferOf, PctLeft, CapPct, Share, Decide, EffectiveClass;
  }

  /** What goes out is transactional exactly when so proposed, or when marketing is barred. */
  lemma ClassOnTheFacts(p: Proposal, ctx: PolicyContext)
    requires !S.Evaluate(StoppingView(p, ctx)).decision.Stop?
    ensures EffectiveClass(p, ctx).Transactional? <==>
              p.messageClass.Transactional?
              || (ctx.stopping.outbound && (!ctx.stopping.marketingConsent || ctx.stopping.dndRegistered))
  {
    var view := StoppingView(p, ctx);
    S.DegradesMerge(view);
    DiscountBudgetKeepsTheClass(view);
    if view.outbound && S.MarketingBarred(view) {
      BarredMarketingDegrades(view);
    }
    hide S.Results, S.Weighed, S.Evaluate, S.DiscountAttemptBudget;
  }

  /** Free to send an offer: a marketing message of an acting strategy, proposed within the ceiling. */
  predicate FreeOffer(p: Proposal, ctx: PolicyContext) {
    && p.messageClass.Marketing? && !p.strategy.NoAction?
    && p.discountPct.Finite? && 0.0 <= p.discountPct.x <= ctx.limits.ceilingPct
    && (ctx.stopping.outbound ==> ctx.stopping.marketingConsent && !ctx.stopping.dndRegistered)
  }

  /** For such a proposal the guard of the cap and the rounded cap itself decide. */
  lemma FreeOfferLiftedExactlyWhen(p: Proposal, ctx: PolicyContext, key: string, now: int)
    requires FreeOffer(p, ctx) && Decide(p, ctx, key, now).applied.Some?
    ensures ctx.orderPaise > 0
    ensures Decide(p, ctx, key, now).applied.value.discountPct > p.discountPct.x <==>
              ctx.limits.absolutePaise < Share(ctx.orderPaise, p.discountPct.x) && p.discountPct.x < CapPct(ctx.orderPaise, ctx.limits)
  {
    DecidedOffer(p, ctx, key, now);
    ClassOnTheFacts(p, ctx);
    LiftedExactlyWhen(p, ctx, key, now);
    assert PctLeft(p, Marketing, ctx.limits) == p.discountPct.x;
    NothingToShare(ctx.orderPaise, ctx.limits);
    hide OfferOf, PctLeft, CapPct, Share, Decide, EffectiveClass, S.Evaluate;
  }

  /** A share of nothing is nothing, and a cap below nothing is never rounded above it. */
  lemma NothingToShare(order: int, l: MoneyLimits)
    requires order > 0
    ensures Share(order, 0.0) == 0
    ensures l.absolutePaise < 0 ==> CapPct(order, l) <= 0.0
  {
    if l.absolutePaise < 0 {
      var x := l.absolutePaise as real * 100.0 / order as real;
      assert x <= 0.0;
    }
  }

  lemma RoundedToTheGrid(y: real, x: real, k: int)
    requires y <= x && x * 10000.0 == k as real
    ensures Round4(y) <= x
  {
    var scaled := y * 10000.0;
    var below := scaled.Floor;
    assert below <= k;
    var nearest := if scaled - below as real < 0.5 || (scaled - below as real == 0.5 && below % 2 == 0) then below else below + 1;
    assert Round4(y) == nearest as real / 10000.0;
    hide Round4;
    assert nearest <= k;
    InTenThousandths(nearest, k, x);
  }

  lemma InTenThousandths(n: int, k: int, x: real)
    requires n <= k && x * 10000.0 == k as real
    ensures n as real / 10000.0 <= x
  {
  }

  /** A proposal of at most four decimals is never lifted. */
  lemma FourDecimalsAreNeverLifted(p: Proposal, ctx: PolicyContext, key: string, now: int, tenThousandths: nat)
    requires p.discountPct.Finite? && p.discountPct.x * 10000.0 == tenThousandths as real
    requires Decide(p, ctx, key, now).applied.Some?
    ensures Decide(p, ctx, key, now).applied.value.discountPct <= p.discountPct.x
  {
    DecidedOffer(p, ctx, key, now);
    LiftedExactlyWhen(p, ctx, key, now);
    var kind, order, l := EffectiveClass(p, ctx), ctx.orderPaise, ctx.limits;
    var left := PctLeft(p, kind, l);
    assert left <= p.discountPct.x;
    hide OfferOf, PctLeft, Decide, EffectiveClass, S.Evaluate, Round4;
    if l.absolutePaise < Share(order, left) {
      CapBelowShare(order, left, l.absolutePaise);
      RoundedToTheGrid(l.absolutePaise as real * 100.0 / order as real, p.discountPct.x, tenThousandths);
    }
  }

  lemma CapBelowShare(order: int, pct: real, cap: int)
    requires order > 0 && cap < Share(order, pct)
    ensures cap as real * 100.0 / order as real <= pct
  {
    var o := order as real;
    assert cap as real <= o * pct / 100.0;
    var y := cap as real * 100.0 / o;
    assert y * o == cap as real * 100.0;
    if y > pct {
      assert (y - pct) * o > 0.0;
    }
  }

  // --------------------------------------------------------------------------
  // The discount budget.

  function WithDiscountAttempts(ctx: PolicyContext, n: int): PolicyContext {
    ctx.(stopping := ctx.stopping.(discountAttempts := n))
  }

  lemma ClassIgnoresTheBudget(p: Proposal, ctx: PolicyContext, n: int)
    ensures EffectiveClass(p, WithDiscountAttempts(ctx, n)) == EffectiveClass(p, ctx)
  {
    var u, v := StoppingView(p, ctx), StoppingView(p, WithDiscountAttempts(ctx, n));
    DiscountKeepsTheClass(u, v);
    hide S.Evaluate;
  }

  lemma SameClampsWhateverTheBudget(p: Proposal, ctx: PolicyContext, n: int)
    ensures AllClamps(p, WithDiscountAttempts(ctx, n)) == AllClamps(p, ctx)
    ensures ClassClamps(p, EffectiveClass(p, WithDiscountAttempts(ctx, n))) == ClassClamps(p, EffectiveClass(p, ctx))
  {
    ClassIgnoresTheBudget(p, ctx, n);
    hide EffectiveClass, OfferOf, ValidityOf;
  }

  lemma SameActionWhateverTheBudget(p: Proposal, ctx: PolicyContext, n: int)
    ensures AppliedOf(p, WithDiscountAttempts(ctx, n)) == AppliedOf(p, ctx)
  {
    var other := WithDiscountAttempts(ctx, n);
    var a, b := AppliedOf(p, ctx), AppliedOf(p, other);
    assert StoppingView(p, other) == StoppingView(p, ctx).(discountAttempts := n);
    DiscountOnlyReduces(StoppingView(p, ctx), StoppingView(p, other));
    ClassIgnoresTheBudget(p, ctx, n);
    SameClampsWhateverTheBudget(p, ctx, n);
    hide StoppingView, EffectiveClass, S.Evaluate, OfferOf, ValidityOf, ReferenceId, EscalationRung, AnyViolation, AllClamps, ClassClamps;
    assert a.sendAfter == b.sendAfter;
    assert a.rung == b.rung && a.linkExpiryMinutes == b.linkExpiryMinutes && a.messageClass == b.messageClass;
    assert a.discountPct == b.discountPct && a.discountAmountPaise == b.discountAmountPaise;
  }

  /** However many discounts a case has already borne, the firewall decides and applies the same. */
  lemma DiscountBudgetIsNotRead(p: Proposal, ctx: PolicyContext, n: int, key: string, now: int)
    ensures var d, e := Decide(p, ctx, key, now), Decide(p, WithDiscountAttempts(ctx, n), key, now);
            d.verdict == e.verdict && d.applied == e.applied && d.token == e.token && d.clamps == e.clamps
  {
    var other := WithDiscountAttempts(ctx, n);
    var v, w := S.Evaluate(StoppingView(p, ctx)), S.Evaluate(StoppingView(p, other));
    assert StoppingView(p, other) == StoppingView(p, ctx).(discountAttempts := n);
    assert other.orderPaise == ctx.orderPaise && other.arm == ctx.arm && other.approvedHash == ctx.approvedHash;
    hide StoppingView, EffectiveClass, S.Evaluate, Refusals, HashOf, Mint, AppliedOf, AllClamps, ClassClamps, WithDiscountAttempts;
    DiscountOnlyReduces(StoppingView(p, ctx), StoppingView(p, other));
    RefusedExactly(ctx, v);
    RefusedExactly(other, w);
    assert Refusals(ctx, v) == [] <==> Refusals(other, w) == [];
    SameClampsWhateverTheBudget(p, ctx, n);
    SameActionWhateverTheBudget(p, ctx, n);
  }

  /** The rule asks for zero percent. */
  predicate BudgetSpent(p: Proposal, ctx: PolicyContext) {
    S.DiscountAttemptBudget(StoppingView(p, ctx)).decision.DegradeIt?
  }

  function Min(a: int, b: int): int { if b < a then b else a }

  /**
   With the budget spent, nothing is taken off exactly when something else forbids it: a message that is or
   must be transactional, NO_ACTION, or a sanitised share that is or is capped to nothing.
   */
  lemma DiscountBudgetIsKeptExactlyWhen(p: Proposal, ctx: PolicyContext, key: string, now: int)
    requires BudgetSpent(p, ctx) && Decide(p, ctx, key, now).applied.Some?
    ensures Decide(p, ctx, key, now).applied.value.discountAmountPaise == 0 <==>
              || p.messageClass.Transactional?
              || (ctx.stopping.outbound && (!ctx.stopping.marketingConsent || ctx.stopping.dndRegistered))
              || p.strategy.NoAction?
              || Sanitised(p.discountPct, ctx.limits).pct <= 0.0
              || Min(Share(ctx.orderPaise, Sanitised(p.discountPct, ctx.limits).pct), ctx.limits.absolutePaise) == 0
  {
    DecidedOffer(p, ctx, key, now);
    ClassOnTheFacts(p, ctx);
    hide Decide, EffectiveClass, S.Evaluate, Sanitised, Round4, Share, StoppingView;
  }

  // --------------------------------------------------------------------------
  // Both do happen, with the usual limits.

  /** One discount borne, in the afternoon, with every consent. */
  const ONE_DISCOUNT_BORNE := S.Context(
    13 * HOUR - IST_OFFSET, S.USUAL, StrategyFormed, 1, 1, None, None, false, false, true, true,
    0, 0, None, false, None, true, 0, 0, Transactional, 0.0, true)

  function FirstOffer(orderPaise: int): PolicyContext {
    PolicyContext("RC-0001", orderPaise, 2, Treatment, ONE_DISCOUNT_BORNE.(discountAttempts := 0), USUAL, None)
  }

  function Approving(p: Proposal, ctx: PolicyContext): PolicyContext {
    ctx.(approvedHash := Some(HashOf(AppliedOf(p, ctx))))
  }

  /** Approved as it stands, an offer of 0.16668 percent of three lakh rupees passes as one of 0.1667. */
  lemma RoundingCanLiftThePercentage(key: string, now: int)
    ensures var p := Proposal(IncentivisedLink, Finite(0.16668), Whole(30), WhatsApp, Marketing);
            var d := Decide(p, Approving(p, FirstOffer(30000000)), key, now);
            d.verdict.Passed? && d.applied.Some? && d.applied.value.discountPct > p.discountPct.x
  {
    var p := Proposal(IncentivisedLink, Finite(0.16668), Whole(30), WhatsApp, Marketing);
    var asked := FirstOffer(30000000);
    var ctx := Approving(p, asked);
    var view := StoppingView(p, ctx);
    assert view == StoppingView(p, asked);
    assert S.NoBrake(view);
    S.ActsExactlyWithoutBrake(view);
    hide S.Evaluate, S.NoBrake;
    ClassOnTheFacts(p, ctx);
    assert EffectiveClass(p, asked) == EffectiveClass(p, ctx) == Marketing;
    hide EffectiveClass, StoppingView, AllClamps, BlockingRule, ReferenceId, HashOf, Mint, ValidityOf, AnyViolation;
    assert OfferOf(p, 30000000, Marketing, USUAL).pct > 0.16668;
    hide OfferOf;
    assert AppliedOf(p, ctx) == AppliedOf(p, asked);
  }

  /** A second offer of five percent passes although the budget of one is spent. */
  lemma ASecondDiscountPasses(key: string, now: int)
    ensures var p := Proposal(IncentivisedLink, Finite(5.0), Whole(30), WhatsApp, Marketing);
            var ctx := PolicyContext("RC-0001", 100000, 2, Treatment, ONE_DISCOUNT_BORNE, USUAL, None);
            var d := Decide(p, ctx, key, now);
            BudgetSpent(p, ctx) && d.verdict.Passed? && d.applied.Some? && d.applied.value.discountAmountPaise == 5000
  {
    var p := Proposal(IncentivisedLink, Finite(5.0), Whole(30), WhatsApp, Marketing);
    var ctx := PolicyContext("RC-0001", 100000, 2, Treatment, ONE_DISCOUNT_BORNE, USUAL, None);
    var view := StoppingView(p, ctx);
    assert BudgetSpent(p, ctx);
    assert S.NoBrake(view);
    S.ActsExactlyWithoutBrake(view);
    hide S.Evaluate, S.NoBrake;
    ClassOnTheFacts(p, ctx);
    ViolationExactly(p, ctx);
    assert Share(100000, 5.0) == 5000;
    hide EffectiveClass, AllClamps, BlockingRule, ReferenceId, HashOf, Mint, ValidityOf, AnyViolation;
    assert OfferOf(p, 100000, Marketing, USUAL).paise == 5000;
  }
}
