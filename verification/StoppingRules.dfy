/** The twelve stopping rules and their combination into one verdict. */
module StoppingRules {
  import opened Text
  import opened Enums
  import opened QuietHours

  datatype Decision = Proceed | DegradeIt | Defer | Stop

  function Severity(d: Decision): nat {
    match d case Proceed => 0 case DegradeIt => 1 case Defer => 2 case Stop => 3
  }

  datatype Rule = S01 | S02 | S03 | S04 | S05 | S06 | S07 | S08 | S09 | S10 | S11 | S12

  datatype Limits = Limits(
    maxAttempts: int,
    maxDiscountAttempts: int,
    maxContacts24h: int,
    maxContacts48h: int,
    quietStart: Hour,
    quietEnd: Hour,
    releaseMinute: int,
    dailyActionBudget: int,
    monthlyDiscountPaise: int,
    promiseFreezeHours: int)

  datatype Context = Context(
    now: int,
    limits: Limits,
    caseStatus: CaseStatus,
    attemptNo: int,
    discountAttempts: int,
    windowExpiresAt: Option<int>,
    orderStatus: Option<string>,
    optedOut: bool,
    dndRegistered: bool,
    marketingConsent: bool,
    transactionalConsent: bool,
    contacts24h: int,
    contacts48h: int,
    lastContactAt: Option<int>,
    promiseActive: bool,
    promisedAt: Option<int>,
    autopilotEnabled: bool,
    actionsToday: int,
    discountMonthPaise: int,
    messageClass: MessageClass,
    discountPct: real,
    outbound: bool)

  /** What to change about the proposed action; later firings overwrite earlier ones key by key. */
  datatype Degrade = Degrade(discountPct: Option<real>, messageClass: Option<MessageClass>)

  const NO_CHANGE := Degrade(None, None)

  datatype RuleResult = RuleResult(
    rule: Rule, decision: Decision, terminal: Option<CaseStatus>, until: Option<int>, degrade: Degrade)

  function Ok(rule: Rule): RuleResult { RuleResult(rule, Proceed, None, None, NO_CHANGE) }

  function Halt(rule: Rule, status: CaseStatus): RuleResult { RuleResult(rule, Stop, Some(status), None, NO_CHANGE) }

  function Hold(rule: Rule, until: int): RuleResult { RuleResult(rule, Defer, None, Some(until), NO_CHANGE) }

  predicate Paid(c: Context) {
    c.orderStatus.Some? && Lower(c.orderStatus.value) in {"paid", "captured"}
  }

  function AlreadyResolved(c: Context): RuleResult {
    if Paid(c) then Halt(S01, ResolvedOrganic)
    else if c.caseStatus.Recovered? || c.caseStatus.ResolvedOrganic? then Halt(S01, c.caseStatus)
    else Ok(S01)
  }

  function AttemptBudget(c: Context): RuleResult {
    if c.attemptNo >= c.limits.maxAttempts then Halt(S02, Expired) else Ok(S02)
  }

  function DiscountAttemptBudget(c: Context): RuleResult {
    if c.discountPct <= 0.0 then Ok(S03)
    else if c.discountAttempts >= c.limits.maxDiscountAttempts then
      RuleResult(S03, DegradeIt, None, None, Degrade(Some(0.0), None))
    else Ok(S03)
  }

  function ContactCap24h(c: Context): RuleResult {
    if !c.outbound || c.contacts24h < c.limits.maxContacts24h then Ok(S04)
    else
      match c.lastContactAt
      case None => Halt(S04, Suppressed)
      case Some(last) => if last + DAY <= c.now then Ok(S04) else Hold(S04, last + DAY)
  }

  function ContactCap48h(c: Context): RuleResult {
    if c.outbound && c.contacts48h >= c.limits.maxContacts48h then Halt(S05, Suppressed) else Ok(S05)
  }

  function RecoveryWindow(c: Context): RuleResult {
    if c.windowExpiresAt.Some? && c.now >= c.windowExpiresAt.value then Halt(S06, Expired) else Ok(S06)
  }

  function OptOut(c: Context): RuleResult {
    if c.optedOut && c.outbound then Halt(S07, Suppressed) else Ok(S07)
  }

  predicate MarketingBarred(c: Context) {
    c.messageClass.Marketing? && (!c.marketingConsent || c.dndRegistered)
  }

  function ConsentClass(c: Context): RuleResult {
    if !c.outbound then Ok(S08)
    else if MarketingBarred(c) then
      if c.transactionalConsent then RuleResult(S08, DegradeIt, None, None, Degrade(Some(0.0), Some(Transactional)))
      else Halt(S08, Suppressed)
    else if !c.transactionalConsent then Halt(S08, Suppressed)
    else Ok(S08)
  }

  predicate Quiet(c: Context) {
    c.outbound && InQuietHours(c.now, c.limits.quietStart, c.limits.quietEnd)
  }

  function QuietHoursRule(c: Context): RuleResult {
    if !Quiet(c) then Ok(S09)
    else Hold(S09, NextRelease(c.now, c.limits.quietStart, c.limits.quietEnd, c.limits.releaseMinute))
  }

  function PromiseFreeze(c: Context): RuleResult {
    if !c.promiseActive || c.promisedAt.None? then Ok(S10)
    else
      var thaw := c.promisedAt.value + c.limits.promiseFreezeHours * HOUR;
      if c.now < thaw then Hold(S10, thaw) else Ok(S10)
  }

  function MerchantBudget(c: Context): RuleResult {
    if c.actionsToday >= c.limits.dailyActionBudget then Halt(S11, Suppressed)
    else if c.discountMonthPaise >= c.limits.monthlyDiscountPaise then Halt(S11, Suppressed)
    else Ok(S11)
  }

  function KillSwitch(c: Context): RuleResult {
    if !c.autopilotEnabled then Halt(S12, Suppressed) else Ok(S12)
  }

  /** All twelve, in the source's order; none is skipped. */
  function Results(c: Context): (rs: seq<RuleResult>)
    ensures |rs| == 12
  {
    [KillSwitch(c), AlreadyResolved(c), OptOut(c), RecoveryWindow(c), AttemptBudget(c), MerchantBudget(c),
     ContactCap48h(c), ConsentClass(c), PromiseFreeze(c), ContactCap24h(c), QuietHoursRule(c), DiscountAttemptBudget(c)]
  }

  // --------------------------------------------------------------------------
  // Combination.

  datatype Tally = Tally(decision: Decision, terminal: Option<CaseStatus>, until: Option<int>, degrade: Degrade)

  function Over(a: Degrade, b: Degrade): Degrade {
    Degrade(if b.discountPct.Some? then b.discountPct else a.discountPct,
            if b.messageClass.Some? then b.messageClass else a.messageClass)
  }

  /** What one more result makes of the running verdict. */
  function Weigh(t: Tally, r: RuleResult): Tally {
    var degrade := if r.decision.DegradeIt? then Over(t.degrade, r.degrade) else t.degrade;
    if Severity(r.decision) > Severity(t.decision) then Tally(r.decision, r.terminal, r.until, degrade)
    else if r.decision.Defer? && t.decision.Defer? && r.until.Some? && t.until.Some? && r.until.value > t.until.value then
      t.(until := r.until, degrade := degrade)
    else t.(degrade := degrade)
  }

  const CLEAR := Tally(Proceed, None, None, NO_CHANGE)

  function Weighed(rs: seq<RuleResult>): Tally {
    if rs == [] then CLEAR else Weigh(Weighed(rs[..|rs| - 1]), rs[|rs| - 1])
  }

  datatype Verdict = Verdict(
    decision: Decision, results: seq<RuleResult>, terminal: Option<CaseStatus>, until: Option<int>, degrade: Degrade)

  predicate MayAct(v: Verdict) { v.decision.Proceed? || v.decision.DegradeIt? }

  /** A hold that does not advance is dropped; one that reaches the window's end is a stop. */
  function Conclude(c: Context, rs: seq<RuleResult>, t: Tally): Verdict {
    var stuck := t.decision.Defer? && t.until.Some? && t.until.value <= c.now;
    var decision := if stuck then if t.degrade != NO_CHANGE then DegradeIt else Proceed else t.decision;
    var until := if stuck then None else t.until;
    if decision.Defer? && until.Some? && c.windowExpiresAt.Some? && until.value >= c.windowExpiresAt.value then
      Verdict(Stop, rs + [Halt(S06, Expired)], Some(Expired), None, t.degrade)
    else Verdict(decision, rs, t.terminal, until, t.degrade)
  }

  function Evaluate(c: Context): Verdict {
    Conclude(c, Results(c), Weighed(Results(c)))
  }

  /** The loop over the results, then the two corrections. */
  method EvaluateRules(c: Context) returns (v: Verdict)
    ensures v == Evaluate(c)
  {
    var results := Results(c);
    var decision := Proceed;
    var terminal: Option<CaseStatus> := None;
    var until: Option<int> := None;
    var degrade := NO_CHANGE;
    for i := 0 to |results|
      invariant Tally(decision, terminal, until, degrade) == Weighed(results[..i])
    {
      var r := results[i];
      assert results[..i + 1][..i] == results[..i];
      if r.decision.DegradeIt? {
        degrade := Over(degrade, r.degrade);
      }
      if Severity(r.decision) > Severity(decision) {
        decision, terminal, until := r.decision, r.terminal, r.until;
      } else if r.decision == decision && decision.Defer? && r.until.Some? && until.Some? && r.until.value > until.value {
        until := r.until;
      }
    }
    assert results[..|results|] == results;
    if decision.Defer? && until.Some? && until.value <= c.now {
      until := None;
      decision := if degrade != NO_CHANGE then DegradeIt else Proceed;
    }
    if decision.Defer? && until.Some? && c.windowExpiresAt.Some? && until.value >= c.windowExpiresAt.value {
      return Verdict(Stop, results + [Halt(S06, Expired)], Some(Expired), None, degrade);
    }
    return Verdict(decision, results, terminal, until, degrade);
  }

  /** A hold is a DEFER and names its instant. */
  predicate HoldsDated(rs: seq<RuleResult>) {
    forall i :: 0 <= i < |rs| ==> (rs[i].decision.Defer? <==> rs[i].until.Some?)
  }

  /** The combined decision is the worst one, and the combined hold the latest one. */
  lemma {:induction false} WeighedIsWorst(rs: seq<RuleResult>)
    requires HoldsDated(rs)
    ensures var t := Weighed(rs);
            && (forall i :: 0 <= i < |rs| ==> Severity(rs[i].decision) <= Severity(t.decision))
            && (t.decision.Proceed? || exists i :: 0 <= i < |rs| && rs[i].decision == t.decision && rs[i].terminal == t.terminal)
            && (t.decision.Defer? <==> t.until.Some?)
            && (t.decision.Defer? ==>
                 && (exists i :: 0 <= i < |rs| && rs[i].until == t.until)
                 && (forall i :: 0 <= i < |rs| && rs[i].until.Some? ==> rs[i].until.value <= t.until.value))
  {
    if rs != [] {
      var n := |rs| - 1;
      WeighedIsWorst(rs[..n]);
      var t, u := Weighed(rs[..n]), Weighed(rs);
      assert forall i :: 0 <= i < n ==> rs[..n][i] == rs[i];
      if u.decision == t.decision && !t.decision.Proceed? {
        var i :| 0 <= i < n && rs[..n][i].decision == t.decision && rs[..n][i].terminal == t.terminal;
        assert rs[i].decision == u.decision && rs[i].terminal == u.terminal;
        if t.decision.Defer? {
          var j :| 0 <= j < n && rs[..n][j].until == t.until;
          assert rs[j].until == t.until;
        }
      }
    }
  }

  predicate ReleaseMinuteOk(c: Context) { 0 <= c.limits.releaseMinute < 60 }

  /** Every hold any rule asks for lies ahead, and every stop closes the case. */
  lemma RulesAdvance(c: Context)
    requires ReleaseMinuteOk(c)
    ensures var rs := Results(c);
            && HoldsDated(rs)
            && (forall i :: 0 <= i < 12 && rs[i].until.Some? ==> rs[i].until.value > c.now)
            && (forall i :: 0 <= i < 12 && rs[i].decision.Stop? ==> rs[i].terminal.Some? && Terminal(rs[i].terminal.value))
  {
    ReleaseEndsTheQuiet(c.now, c.limits.quietStart, c.limits.quietEnd, c.limits.releaseMinute);
    hide NextRelease, InQuietHours;
  }

  /** A DEFER names an instant ahead of now, before the window's end, that no rule's hold outlasts. */
  predicate SoundHold(c: Context, v: Verdict) {
    && v.until.Some? && c.now < v.until.value
    && (c.windowExpiresAt.Some? ==> v.until.value < c.windowExpiresAt.value)
    && (forall i :: 0 <= i < 12 && Results(c)[i].until.Some? ==> Results(c)[i].until.value <= v.until.value)
    && (exists i :: 0 <= i < 12 && Results(c)[i].until == v.until)
  }

  /**
   The verdict is the worst result over all twelve, or STOP in place of a hold that reaches the
   window's end; a DEFER lies strictly between now and that end; the guard on a hold that does not
   advance never applies; and a STOP always names a terminal status.
   */
  lemma VerdictIsWellFormed(c: Context)
    requires ReleaseMinuteOk(c)
    ensures var v, t := Evaluate(c), Weighed(Results(c));
            && (t.decision.Defer? ==> t.until.Some? && c.now < t.until.value)
            && v.decision == (if t.decision.Defer? && c.windowExpiresAt.Some? && t.until.value >= c.windowExpiresAt.value
                              then Stop else t.decision)
            && (forall i :: 0 <= i < 12 ==> Severity(Results(c)[i].decision) <= Severity(v.decision))
            && (t.decision.Proceed? || exists i :: 0 <= i < 12 && Results(c)[i].decision == t.decision)
            && (t.decision.Defer? ==> exists i :: 0 <= i < 12 && Results(c)[i].until == t.until)
            && (v.decision.Defer? ==> SoundHold(c, v))
            && (v.decision.Stop? ==> v.terminal.Some? && Terminal(v.terminal.value))
  {
    RulesAdvance(c);
    WeighedIsWorst(Results(c));
    hide Results, Weighed;
  }

  // --------------------------------------------------------------------------
  // Progress.

  /** A promise thawed and a contact cap aged out by `later` hold nothing then: only quiet hours can. */
  lemma OnlyQuietHoldsLater(c: Context, later: int)
    requires later >= c.now
    requires PromiseFreeze(c).until.Some? ==> PromiseFreeze(c).until.value <= later
    requires ContactCap24h(c).until.Some? ==> ContactCap24h(c).until.value <= later
    ensures var d := c.(now := later);
            forall i :: 0 <= i < 12 && Results(d)[i].until.Some? ==> Results(d)[i] == QuietHoursRule(d)
  {
  }

  /** The holds of the promise and of the contact cap are among those the verdict waits for. */
  lemma DeferCoversHolds(c: Context)
    requires ReleaseMinuteOk(c) && Evaluate(c).decision.Defer?
    ensures Evaluate(c).until.Some?
    ensures PromiseFreeze(c).until.Some? ==> PromiseFreeze(c).until.value <= Evaluate(c).until.value
    ensures ContactCap24h(c).until.Some? ==> ContactCap24h(c).until.value <= Evaluate(c).until.value
  {
    assert Results(c)[8] == PromiseFreeze(c) && Results(c)[9] == ContactCap24h(c);
    hide Results, Evaluate, PromiseFreeze, ContactCap24h;
    VerdictIsWellFormed(c);
  }

  /** The context in which the verdict of `c` asks to be looked at again. */
  function Waited(c: Context): Context {
    match Evaluate(c).until case Some(t) => c.(now := t) case None => c
  }

  /** After one wait any further DEFER is for quiet hours alone, and ends at their release. */
  lemma SecondDeferIsQuiet(c: Context)
    requires ReleaseMinuteOk(c) && Evaluate(c).decision.Defer? && Evaluate(Waited(c)).decision.Defer?
    ensures Evaluate(Waited(c)).until == QuietHoursRule(Waited(c)).until
  {
    VerdictIsWellFormed(c);
    DeferCoversHolds(c);
    var d := Waited(c);
    OnlyQuietHoldsLater(c, d.now);
    hide Results, Evaluate, Weighed, QuietHoursRule, PromiseFreeze, ContactCap24h;
    VerdictIsWellFormed(d);
  }

  /** Waiting out a verdict, then a second one if quiet hours ask for it, ends the waiting. */
  lemma AtMostTwoDefers(c: Context)
    requires ReleaseMinuteOk(c)
    requires Evaluate(c).decision.Defer? && Evaluate(Waited(c)).decision.Defer?
    ensures !Evaluate(Waited(Waited(c))).decision.Defer?
  {
    DeferCoversHolds(c);
    SecondDeferIsQuiet(c);
    var d := Waited(c);
    var e := Waited(d);
    DeferCoversHolds(d);
    ReleaseEndsTheQuiet(d.now, d.limits.quietStart, d.limits.quietEnd, d.limits.releaseMinute);
    assert QuietHoursRule(e) == Ok(S09);
    VerdictIsWellFormed(c);
    VerdictIsWellFormed(d);
    assert e == c.(now := e.now);
    OnlyQuietHoldsLater(c, e.now);
    hide Results, Evaluate, Weighed, QuietHoursRule, PromiseFreeze, ContactCap24h, Waited;
    VerdictIsWellFormed(e);
  }

  const USUAL := Limits(2, 1, 1, 2, 21, 9, 5, 50, 20000000, 24)

  /** The limits a merchant has unless it sets its own, in what they stop. */
  lemma UsuallyStops(c: Context)
    requires c.limits == USUAL
    ensures MustStop(c) <==>
      || !c.autopilotEnabled || (c.orderStatus.Some? && Lower(c.orderStatus.value) in {"paid", "captured"})
      || c.caseStatus.Recovered? || c.caseStatus.ResolvedOrganic?
      || (c.windowExpiresAt.Some? && c.now >= c.windowExpiresAt.value)
      || c.attemptNo >= 2 || c.actionsToday >= 50 || c.discountMonthPaise >= 20000000
      || (c.outbound && (c.optedOut || !c.transactionalConsent || c.contacts48h >= 2))
      || (c.outbound && c.contacts24h >= 1 && c.lastContactAt.None?)
  {
  }

  /** And in what they hold: a second contact for a day, a promise for a day, and anything from nine in the evening to nine in the morning. */
  lemma UsuallyHolds(c: Context)
    requires c.limits == USUAL
    ensures CapHolds(c) <==> c.outbound && c.contacts24h >= 1 && c.lastContactAt.Some? && c.now < c.lastContactAt.value + DAY
    ensures PromiseHolds(c) <==> c.promiseActive && c.promisedAt.Some? && c.now < c.promisedAt.value + DAY
    ensures Quiet(c) <==> c.outbound && (IstHour(c.now) >= 21 || IstHour(c.now) < 9)
    ensures c.discountPct > 0.0 && c.discountAttempts >= 1 ==> Evaluate(c).degrade.discountPct == Some(0.0)
  {
    ReducesExactly(c);
    hide Evaluate;
  }

  /** A promise made at one in the afternoon and frozen for nine hours, looked at the moment it was made. */
  const PROMISED_AT_LUNCH := Context(
    13 * HOUR - IST_OFFSET, USUAL.(promiseFreezeHours := 9), Triaged, 0, 0, None, None, false, false, false, true,
    0, 0, None, true, Some(13 * HOUR - IST_OFFSET), true, 0, 0, Transactional, 0.0, true)

  /** A hold, no stop and no window to run out of make a DEFER. */
  lemma HeldAndNotStopped(c: Context, i: nat)
    requires ReleaseMinuteOk(c) && c.windowExpiresAt.None?
    requires i < 12 && Results(c)[i].decision.Defer?
    requires forall k :: 0 <= k < 12 ==> !Results(c)[k].decision.Stop?
    ensures Evaluate(c).decision.Defer?
  {
    hide Results, Evaluate, Weighed;
    VerdictIsWellFormed(c);
  }

  lemma PromiseHoldsUntilNight()
    ensures var c := PROMISED_AT_LUNCH;
            Evaluate(c).decision.Defer? && Evaluate(c).until == Some(22 * HOUR - IST_OFFSET)
  {
    var c := PROMISED_AT_LUNCH;
    assert Results(c)[8] == Hold(S10, 22 * HOUR - IST_OFFSET);
    assert forall k :: 0 <= k < 12 ==> k == 8 || Results(c)[k].decision.Proceed?;
    hide Results, Evaluate, Weighed, PROMISED_AT_LUNCH;
    HeldAndNotStopped(c, 8);
    VerdictIsWellFormed(c);
  }

  /** Two DEFERs in a row do happen: the hold of a promise may end inside quiet hours. */
  lemma TwoDefersHappen()
    ensures var c := PROMISED_AT_LUNCH;
            && Evaluate(c).decision.Defer? && Quiet(Waited(c)) && Evaluate(Waited(c)).decision.Defer?
  {
    PromiseHoldsUntilNight();
    var d := PROMISED_AT_LUNCH.(now := 22 * HOUR - IST_OFFSET);
    assert Results(d)[10].decision.Defer?;
    assert forall k :: 0 <= k < 12 ==> !Results(d)[k].decision.Stop?;
    hide Results, Evaluate, Weighed;
    HeldAndNotStopped(d, 10);
  }

  // --------------------------------------------------------------------------
  // When acting is permitted.

  /** No brake is on: the facts under which every rule clears or merely degrades. */
  predicate NoBrake(c: Context) {
    && c.autopilotEnabled
    && !Paid(c) && !c.caseStatus.Recovered? && !c.caseStatus.ResolvedOrganic?
    && (c.windowExpiresAt.Some? ==> c.now < c.windowExpiresAt.value)
    && c.attemptNo < c.limits.maxAttempts
    && c.actionsToday < c.limits.dailyActionBudget && c.discountMonthPaise < c.limits.monthlyDiscountPaise
    && (c.promiseActive && c.promisedAt.Some? ==> c.now >= c.promisedAt.value + c.limits.promiseFreezeHours * HOUR)
    && (c.outbound ==> ContactAllowed(c))
  }

  predicate ContactAllowed(c: Context) {
    && !c.optedOut && c.transactionalConsent
    && c.contacts48h < c.limits.maxContacts48h
    && (c.contacts24h < c.limits.maxContacts24h || (c.lastContactAt.Some? && c.lastContactAt.value + DAY <= c.now))
    && !InQuietHours(c.now, c.limits.quietStart, c.limits.quietEnd)
  }

  predicate Clears(r: RuleResult) { r.decision.Proceed? || r.decision.DegradeIt? }

  lemma AllClearExactlyWithoutBrake(c: Context)
    ensures (forall i :: 0 <= i < 12 ==> Clears(Results(c)[i])) <==> NoBrake(c)
  {
    hide NextRelease, InQuietHours;
    var rs := Results(c);
    assert rs[0] == KillSwitch(c) && rs[1] == AlreadyResolved(c) && rs[2] == OptOut(c) && rs[3] == RecoveryWindow(c);
    assert rs[4] == AttemptBudget(c) && rs[5] == MerchantBudget(c) && rs[6] == ContactCap48h(c) && rs[7] == ConsentClass(c);
    assert rs[8] == PromiseFreeze(c) && rs[9] == ContactCap24h(c) && rs[10] == QuietHoursRule(c);
  }

  /** The verdict permits acting exactly when no brake is on. */
  lemma ActsExactlyWithoutBrake(c: Context)
    requires ReleaseMinuteOk(c)
    ensures MayAct(Evaluate(c)) <==> NoBrake(c)
  {
    AllClearExactlyWithoutBrake(c);
    hide Results, Evaluate, Weighed, NoBrake;
    VerdictIsWellFormed(c);
  }

  // --------------------------------------------------------------------------
  // When acting is out of the question, and when it must wait.

  /** A brake that no waiting releases. */
  predicate MustStop(c: Context) {
    || !c.autopilotEnabled
    || (c.orderStatus.Some? && Lower(c.orderStatus.value) in {"paid", "captured"})
    || c.caseStatus.Recovered? || c.caseStatus.ResolvedOrganic?
    || (c.windowExpiresAt.Some? && c.now >= c.windowExpiresAt.value)
    || c.attemptNo >= c.limits.maxAttempts
    || c.actionsToday >= c.limits.dailyActionBudget || c.discountMonthPaise >= c.limits.monthlyDiscountPaise
    || (c.outbound && (c.optedOut || !c.transactionalConsent || c.contacts48h >= c.limits.maxContacts48h))
    || (c.outbound && c.contacts24h >= c.limits.maxContacts24h && c.lastContactAt.None?)
  }

  predicate CapHolds(c: Context) {
    && c.outbound && c.contacts24h >= c.limits.maxContacts24h
    && c.lastContactAt.Some? && c.now < c.lastContactAt.value + 24 * 3600 * 1000000
  }

  predicate PromiseHolds(c: Context) {
    c.promiseActive && c.promisedAt.Some? && c.now < c.promisedAt.value + c.limits.promiseFreezeHours * 3600 * 1000000
  }

  /** Something holds the case until `t`: the contact cap, a promise to pay, or quiet hours. */
  predicate HeldUntil(c: Context, t: int) {
    || (CapHolds(c) && t == c.lastContactAt.value + 24 * 3600 * 1000000)
    || (PromiseHolds(c) && t == c.promisedAt.value + c.limits.promiseFreezeHours * 3600 * 1000000)
    || (c.outbound && InQuietHours(c.now, c.limits.quietStart, c.limits.quietEnd)
        && t == NextRelease(c.now, c.limits.quietStart, c.limits.quietEnd, c.limits.releaseMinute))
  }

  lemma ResultsOnTheFacts(c: Context)
    ensures (exists i :: 0 <= i < 12 && Results(c)[i].decision.Stop?) <==> MustStop(c)
    ensures forall t :: HeldUntil(c, t) <==> exists i :: 0 <= i < 12 && Results(c)[i].until == Some(t)
    ensures HoldsDated(Results(c))
  {
    hide NextRelease, InQuietHours;
    var rs := Results(c);
    assert rs[0] == KillSwitch(c) && rs[1] == AlreadyResolved(c) && rs[2] == OptOut(c) && rs[3] == RecoveryWindow(c);
    assert rs[4] == AttemptBudget(c) && rs[5] == MerchantBudget(c) && rs[6] == ContactCap48h(c) && rs[7] == ConsentClass(c);
    assert rs[8] == PromiseFreeze(c) && rs[9] == ContactCap24h(c) && rs[10] == QuietHoursRule(c) && rs[11] == DiscountAttemptBudget(c);
    forall t ensures HeldUntil(c, t) <==> exists i :: 0 <= i < 12 && rs[i].until == Some(t) {
      assert HeldUntil(c, t) <==> rs[8].until == Some(t) || rs[9].until == Some(t) || rs[10].until == Some(t);
    }
  }

  /**
   The verdict is STOP exactly when a brake is on that no waiting releases, or something holds the case to
   the end of its window; and else DEFER exactly when something holds it, until the last of the holds.
   */
  lemma StopsAndDefersExactlyWhen(c: Context)
    requires ReleaseMinuteOk(c)
    ensures var v := Evaluate(c);
            && (v.decision.Stop? <==>
                 MustStop(c) || exists t :: HeldUntil(c, t) && c.windowExpiresAt.Some? && t >= c.windowExpiresAt.value)
            && (v.decision.Defer? <==> !v.decision.Stop? && exists t :: HeldUntil(c, t))
            && (v.decision.Defer? ==>
                 && v.until.Some? && HeldUntil(c, v.until.value)
                 && forall t :: HeldUntil(c, t) ==> t <= v.until.value)
  {
    ResultsOnTheFacts(c);
    WeighedIsWorst(Results(c));
    RulesAdvance(c);
    var rs, w := Results(c), Weighed(Results(c));
    hide Results, Weighed, MustStop, HeldUntil, HoldsDated;
    assert w.decision.Stop? <==> MustStop(c);
    if w.decision.Defer? {
      assert HeldUntil(c, w.until.value);
      forall t | HeldUntil(c, t) ensures t <= w.until.value {
        var i :| 0 <= i < 12 && rs[i].until == Some(t);
      }
    }
    if t :| HeldUntil(c, t) {
      var i :| 0 <= i < 12 && rs[i].until == Some(t);
      assert Severity(rs[i].decision) <= Severity(w.decision);
    }
  }

  /** Every verdict reports all twelve rules, each under its own name and once, and after them at most the end of the window. */
  lemma EveryRuleReports(c: Context)
    ensures var rs := Evaluate(c).results;
            && |rs| >= 12
            && rs[0].rule.S12? && rs[1].rule.S01? && rs[2].rule.S07? && rs[3].rule.S06? && rs[4].rule.S02? && rs[5].rule.S11?
            && rs[6].rule.S05? && rs[7].rule.S08? && rs[8].rule.S10? && rs[9].rule.S04? && rs[10].rule.S09? && rs[11].rule.S03?
            && rs[..12] == Results(c)
            && (|rs| > 12 ==> |rs| == 13 && rs[12].rule.S06? && rs[12].decision.Stop? && rs[12].terminal == Some(Expired))
  {
    var rs := Results(c);
    assert rs[0] == KillSwitch(c) && rs[1] == AlreadyResolved(c) && rs[2] == OptOut(c) && rs[3] == RecoveryWindow(c);
    assert rs[4] == AttemptBudget(c) && rs[5] == MerchantBudget(c) && rs[6] == ContactCap48h(c) && rs[7] == ConsentClass(c);
    assert rs[8] == PromiseFreeze(c) && rs[9] == ContactCap24h(c) && rs[10] == QuietHoursRule(c) && rs[11] == DiscountAttemptBudget(c);
    RulesAreNamed(c);
    hide Results, Weighed, KillSwitch, AlreadyResolved, OptOut, RecoveryWindow, AttemptBudget, MerchantBudget, ContactCap48h, ConsentClass,
         PromiseFreeze, ContactCap24h, QuietHoursRule, DiscountAttemptBudget;
    var v := Evaluate(c).results;
    assert v == rs || v == rs + [Halt(S06, Expired)];
    assert forall k :: 0 <= k < 12 ==> v[k] == rs[k];
  }

  lemma RulesAreNamed(c: Context)
    ensures KillSwitch(c).rule.S12? && AlreadyResolved(c).rule.S01? && OptOut(c).rule.S07? && RecoveryWindow(c).rule.S06?
    ensures AttemptBudget(c).rule.S02? && MerchantBudget(c).rule.S11? && ContactCap48h(c).rule.S05? && ConsentClass(c).rule.S08?
    ensures PromiseFreeze(c).rule.S10? && ContactCap24h(c).rule.S04? && QuietHoursRule(c).rule.S09? && DiscountAttemptBudget(c).rule.S03?
  {
    hide NextRelease, InQuietHours;
  }

  lemma {:induction false} ProceedsWithoutReduction(rs: seq<RuleResult>)
    requires HoldsDated(rs) && forall k :: 0 <= k < |rs| ==> (rs[k].decision.DegradeIt? <==> rs[k].degrade != NO_CHANGE)
    ensures var t := Weighed(rs);
            && (t.decision.Proceed? ==> t.degrade == NO_CHANGE)
            && (t.decision.DegradeIt? ==> t.degrade != NO_CHANGE)
  {
    if rs != [] {
      ProceedsWithoutReduction(rs[..|rs| - 1]);
    }
  }

  /** Of the verdicts that permit acting, those reduce that have something to reduce. */
  lemma DegradesExactlyWithAReduction(c: Context)
    requires ReleaseMinuteOk(c)
    ensures var v := Evaluate(c); v.decision.DegradeIt? <==> !v.decision.Stop? && !v.decision.Defer? && v.degrade != NO_CHANGE
  {
    RulesAdvance(c);
    WeighedIsWorst(Results(c));
    ReductionsAreNamed(c);
    ProceedsWithoutReduction(Results(c));
    hide Results, Weighed;
  }

  lemma ReductionsAreNamed(c: Context)
    ensures forall k :: 0 <= k < 12 ==> (Results(c)[k].decision.DegradeIt? <==> Results(c)[k].degrade != NO_CHANGE)
  {
    hide NextRelease, InQuietHours;
  }

  lemma {:induction false} FirstStopWins(rs: seq<RuleResult>, i: nat)
    requires i < |rs| && rs[i].decision.Stop? && forall k :: 0 <= k < i ==> !rs[k].decision.Stop?
    ensures Weighed(rs).decision.Stop? && Weighed(rs).terminal == rs[i].terminal
  {
    if i < |rs| - 1 {
      FirstStopWins(rs[..|rs| - 1], i);
    } else {
      NoStopYet(rs[..i]);
    }
  }

  lemma {:induction false} NoStopYet(rs: seq<RuleResult>)
    requires forall k :: 0 <= k < |rs| ==> !rs[k].decision.Stop?
    ensures !Weighed(rs).decision.Stop?
  {
    if rs != [] {
      NoStopYet(rs[..|rs| - 1]);
    }
  }

  /** The first of the reasons to stop, in the order in which the rules are asked. */
  function FirstReason(c: Context): Rule {
    if !c.autopilotEnabled then S12
    else if (c.orderStatus.Some? && Lower(c.orderStatus.value) in {"paid", "captured"})
            || c.caseStatus.Recovered? || c.caseStatus.ResolvedOrganic? then S01
    else if c.outbound && c.optedOut then S07
    else if c.windowExpiresAt.Some? && c.now >= c.windowExpiresAt.value then S06
    else if c.attemptNo >= c.limits.maxAttempts then S02
    else if c.actionsToday >= c.limits.dailyActionBudget || c.discountMonthPaise >= c.limits.monthlyDiscountPaise then S11
    else if c.outbound && c.contacts48h >= c.limits.maxContacts48h then S05
    else if c.outbound && !c.transactionalConsent then S08
    else S04
  }

  /** What each reason closes a case as. */
  function ClosedBy(c: Context, r: Rule): CaseStatus {
    match r
    case S01 => if c.orderStatus.Some? && Lower(c.orderStatus.value) in {"paid", "captured"} then ResolvedOrganic else c.caseStatus
    case S02 => Expired
    case S06 => Expired
    case _ => Suppressed
  }

  lemma FirstStopIsTheFirstReason(c: Context)
    requires MustStop(c)
    ensures exists i :: 0 <= i < 12 && Results(c)[i].decision.Stop? && (forall k :: 0 <= k < i ==> !Results(c)[k].decision.Stop?)
                        && Results(c)[i].rule == FirstReason(c) && Results(c)[i].terminal == Some(ClosedBy(c, FirstReason(c)))
  {
    var rs := Results(c);
    assert rs[0] == KillSwitch(c) && rs[1] == AlreadyResolved(c) && rs[2] == OptOut(c) && rs[3] == RecoveryWindow(c);
    assert rs[4] == AttemptBudget(c) && rs[5] == MerchantBudget(c) && rs[6] == ContactCap48h(c) && rs[7] == ConsentClass(c);
    assert rs[8] == PromiseFreeze(c) && rs[9] == ContactCap24h(c) && rs[10] == QuietHoursRule(c) && rs[11] == DiscountAttemptBudget(c);
    hide Results, NextRelease, InQuietHours;
    var i := match FirstReason(c)
      case S12 => 0 case S01 => 1 case S07 => 2 case S06 => 3 case S02 => 4 case S11 => 5 case S05 => 6 case S08 => 7 case _ => 9;
    assert rs[i].decision.Stop? && rs[i].rule == FirstReason(c) && rs[i].terminal == Some(ClosedBy(c, FirstReason(c)));
  }

  /** The status a stopped case ends in, by the first reason there is to stop it, or by the end of its window. */
  lemma StopsAs(c: Context)
    requires ReleaseMinuteOk(c) && Evaluate(c).decision.Stop?
    ensures Evaluate(c).terminal == Some(if MustStop(c) then ClosedBy(c, FirstReason(c)) else Expired)
  {
    if MustStop(c) {
      FirstStopIsTheFirstReason(c);
      hide Results, Weighed, FirstReason, ClosedBy, MustStop;
      var i :| 0 <= i < 12 && Results(c)[i].decision.Stop? && (forall k :: 0 <= k < i ==> !Results(c)[k].decision.Stop?)
               && Results(c)[i].terminal == Some(ClosedBy(c, FirstReason(c)));
      FirstStopWins(Results(c), i);
    } else {
      ResultsOnTheFacts(c);
      hide Results, Weighed, HeldUntil, HoldsDated, MustStop;
      NoStopYet(Results(c));
    }
  }

  /**
   What a verdict reduces: the class exactly when marketing is barred and the customer can be messaged at
   all, and the discount then too, or when the budget of discounts is spent.
   */
  lemma ReducesExactly(c: Context)
    ensures var barred := c.outbound && c.transactionalConsent && c.messageClass.Marketing? && (!c.marketingConsent || c.dndRegistered);
            && Evaluate(c).degrade.messageClass == (if barred then Some(Transactional) else None)
            && Evaluate(c).degrade.discountPct
               == if barred || (c.discountPct > 0.0 && c.discountAttempts >= c.limits.maxDiscountAttempts) then Some(0.0) else None
  {
    DegradesMerge(c);
    hide Results, Weighed;
  }

  lemma OnlyTwoDegrade(c: Context)
    ensures forall i :: 0 <= i < 12 && i != 7 && i != 11 ==> !Results(c)[i].decision.DegradeIt?
    ensures Results(c)[7] == ConsentClass(c) && Results(c)[11] == DiscountAttemptBudget(c)
  {
  }

  /** Degradations merge key by key: the class only from S-08, the discount from S-08 or S-03. */
  lemma DegradesMerge(c: Context)
    ensures Weighed(Results(c)).degrade == Over(
      if ConsentClass(c).decision.DegradeIt? then ConsentClass(c).degrade else NO_CHANGE,
      if DiscountAttemptBudget(c).decision.DegradeIt? then DiscountAttemptBudget(c).degrade else NO_CHANGE)
  {
    OnlyTwoDegrade(c);
    hide Results;
    var rs := Results(c);
    WeighedQuietDegrade(rs, 0, 7);
    assert rs[..8][..7] == rs[..7] && rs[..8][7] == ConsentClass(c);
    WeighedQuietDegrade(rs, 8, 11);
    assert rs[..12][..11] == rs[..11] && rs[..12] == rs;
  }

  lemma {:induction false} WeighedQuietDegrade(rs: seq<RuleResult>, from: nat, to: nat)
    requires from <= to <= |rs|
    requires forall i :: from <= i < to ==> !rs[i].decision.DegradeIt?
    ensures Weighed(rs[..to]).degrade == Weighed(rs[..from]).degrade
  {
    if from < to {
      WeighedQuietDegrade(rs, from, to - 1);
      assert rs[..to][..to - 1] == rs[..to - 1];
    }
  }

  /** The reductions of a verdict applied to the context, for a second look. */
  function ApplyDegradations(c: Context, v: Verdict): Context {
    c.(discountPct := if v.degrade.discountPct.Some? then v.degrade.discountPct.value else c.discountPct,
       messageClass := if v.degrade.messageClass.Some? then v.degrade.messageClass.value else c.messageClass)
  }

  /** One pass of reductions is enough: the reduced action needs none, and is permitted just as before. */
  lemma DegradedOnceIsEnough(c: Context)
    requires ReleaseMinuteOk(c)
    ensures var d := ApplyDegradations(c, Evaluate(c));
            && (MayAct(Evaluate(d)) <==> MayAct(Evaluate(c)))
            && Evaluate(d).degrade == NO_CHANGE
            && ApplyDegradations(d, Evaluate(d)) == d
  {
    var d := ApplyDegradations(c, Evaluate(c));
    DegradesMerge(c);
    DegradesMerge(d);
    ActsExactlyWithoutBrake(c);
    ActsExactlyWithoutBrake(d);
    hide Results, Weighed, InQuietHours;
  }

  // --------------------------------------------------------------------------
  // Tightening.

  /** Every cap of `tight` is at most that of `loose`, its freeze at least as long, its quiet hours the same. */
  predicate Tighter(tight: Limits, loose: Limits) {
    && tight.maxAttempts <= loose.maxAttempts
    && tight.maxDiscountAttempts <= loose.maxDiscountAttempts
    && tight.maxContacts24h <= loose.maxContacts24h
    && tight.maxContacts48h <= loose.maxContacts48h
    && tight.dailyActionBudget <= loose.dailyActionBudget
    && tight.monthlyDiscountPaise <= loose.monthlyDiscountPaise
    && tight.promiseFreezeHours >= loose.promiseFreezeHours
    && tight.quietStart == loose.quietStart && tight.quietEnd == loose.quietEnd
    && tight.releaseMinute == loose.releaseMinute
  }

  /** A result at least as severe, holding at least as long unless it now stops. */
  predicate AtLeast(r: RuleResult, s: RuleResult) {
    && Severity(r.decision) >= Severity(s.decision)
    && (s.until.Some? ==> r.decision.Stop? || (r.until.Some? && r.until.value >= s.until.value))
  }

  lemma EveryRuleTightens(tight: Context, loose: Context)
    requires tight == loose.(limits := tight.limits) && Tighter(tight.limits, loose.limits)
    ensures forall i :: 0 <= i < 12 ==> AtLeast(Results(tight)[i], Results(loose)[i])
    ensures ConsentClass(tight) == ConsentClass(loose)
  {
    hide NextRelease, InQuietHours;
  }

  /** Lowering caps never turns a STOP into anything else. */
  lemma TighteningKeepsStops(tight: Context, loose: Context)
    requires tight == loose.(limits := tight.limits) && Tighter(tight.limits, loose.limits)
    requires ReleaseMinuteOk(loose) && Evaluate(loose).decision.Stop?
    ensures Evaluate(tight).decision.Stop?
  {
    EveryRuleTightens(tight, loose);
    VerdictIsWellFormed(loose);
    VerdictIsWellFormed(tight);
    var t := Weighed(Results(loose));
    hide Results, Evaluate, Weighed, ReleaseMinuteOk, Tighter;
    if t.decision.Defer? {
      var i :| 0 <= i < 12 && Results(loose)[i].until == t.until;
      assert AtLeast(Results(tight)[i], Results(loose)[i]);
      assert Severity(Results(loose)[i].decision) <= 3;
    } else {
      var i :| 0 <= i < 12 && Results(loose)[i].decision == t.decision;
      assert AtLeast(Results(tight)[i], Results(loose)[i]);
    }
  }
}
