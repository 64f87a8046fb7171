/** The corpus through the agent: one pass, with spend counted per merchant-day and merchant-month. */
module Batch {
  import opened Text
  import opened Enums
  import opened QuietHours
  import opened PolicyEngine
  import opened Graph
  import S = StoppingRules
  import Firewall

  datatype Attempt = Attempt(
    kind: Kind,
    status: PaymentStatus,
    merchant: string,
    amountPaise: int,
    attemptedAt: int,
    marketingConsent: bool,
    dndRegistered: bool,
    optedOut: bool,
    transactionalConsent: bool)

  datatype Kind = Checkout | Invoice | Subscription | RecoveryLink

  datatype PaymentStatus = Created | Authorized | Captured | Failed | Abandoned

  datatype Playbook = PaymentFailure | CheckoutAbandon | Receivable | SubscriptionRenewal

  function PlaybookFor(kind: Kind, status: PaymentStatus): Option<Playbook> {
    match (kind, status)
    case (Checkout, Failed) => Some(PaymentFailure)
    case (Checkout, Abandoned) => Some(CheckoutAbandon)
    case (Invoice, Created) => Some(Receivable)
    case (Subscription, Failed) => Some(SubscriptionRenewal)
    case _ => None
  }

  function WindowHours(p: Playbook): int {
    match p case PaymentFailure => 24 case CheckoutAbandon => 72 case Receivable => 720 case SubscriptionRenewal => 168
  }

  /**
   What the run is given besides the corpus: the dependencies, what the database says of merchants and
   promises, the calendar month of a day, what the world adds to each node of each case, and whether the
   customer of a case pays, acted upon or not.
   */
  datatype Setting = Setting(
    deps: Deps,
    autopilot: map<string, bool>,
    promises: set<string>,
    monthOf: int -> int,
    world: nat -> nat -> Outside,
    pays: (nat, bool) -> bool)

  datatype Action = Action(merchant: string, day: int, month: int, discountPaise: int)

  datatype Row = Row(
    caseId: string, arm: Arm, acted: bool, paid: bool, status: CaseStatus,
    owedPaise: int, recoveredPaise: int, verifiedBy: Option<string>)

  /** The dependencies a case runs with: the same, save that limits and executor fall back to the defaults. */
  function At(d: Deps): Deps {
    Deps(d.key, d.position, d.controlFraction, S.USUAL, Firewall.USUAL, 3, false)
  }

  function Padded(n: nat): string {
    var t := Decimal(n);
    if |t| >= 4 then t else seq(4 - |t|, i => '0') + t
  }

  function CaseId(n: nat): string { "RC-" + Padded(n) }

  /** A case id is `RC-` and its number in four digits, or in as many as it takes. */
  lemma CaseIdReads(n: nat)
    ensures CaseId(n) == "RC-" + (if n < 10 then "000" else if n < 100 then "00" else if n < 1000 then "0" else "") + Decimal(n)
  {
    DigitsOf(n);
    hide Decimal;
    var t := Decimal(n);
    assert |t| == 1 ==> seq(3, i => '0') == "000";
    assert |t| == 2 ==> seq(2, i => '0') == "00";
    assert |t| == 3 ==> seq(1, i => '0') == "0";
  }

  lemma DigitsOf(n: nat)
    ensures (n < 10 <==> |Decimal(n)| == 1) && (10 <= n < 100 <==> |Decimal(n)| == 2) && (100 <= n < 1000 <==> |Decimal(n)| == 3)
  {
    if n >= 1000 {
      AtLeastFourDigits(n);
    } else if n >= 100 {
      assert |Decimal(n)| == |Decimal(n / 10)| + 1 && |Decimal(n / 10)| == |Decimal(n / 10 / 10)| + 1;
    }
  }

  lemma AtLeastFourDigits(n: nat)
    requires n >= 1000
    ensures |Decimal(n)| >= 4
  {
    assert |Decimal(n)| == |Decimal(n / 10)| + 1;
    assert |Decimal(n / 10)| == |Decimal(n / 10 / 10)| + 1;
    assert |Decimal(n / 10 / 10)| == |Decimal(n / 10 / 10 / 10)| + 1;
  }

  function Count<K(==)>(m: map<K, int>, k: K): int { if k in m then m[k] else 0 }

  function ActionsOn(actions: seq<Action>, merchant: string, day: int): nat {
    if actions == [] then 0
    else
      var last := actions[|actions| - 1];
      ActionsOn(actions[..|actions| - 1], merchant, day) + if last.merchant == merchant && last.day == day then 1 else 0
  }

  function DiscountIn(actions: seq<Action>, merchant: string, month: int): int {
    if actions == [] then 0
    else
      var last := actions[|actions| - 1];
      DiscountIn(actions[..|actions| - 1], merchant, month)
      + if last.merchant == merchant && last.month == month then last.discountPaise else 0
  }

  /** A case as the batch first states it, with the spend this run has committed so far. */
  function Opened(a: Attempt, p: Playbook, n: nat, s: Setting, today: int, monthToDate: int): Case {
    var now := a.attemptedAt + 30 * MINUTE;
    Case(CaseId(n), a.amountPaise,
         Facts(Some(now + WindowHours(p) * HOUR), Some("created"), a.optedOut, a.dndRegistered, a.marketingConsent,
               a.transactionalConsent, 0, 0, None, CaseId(n) in s.promises, None,
               if a.merchant in s.autopilot then s.autopilot[a.merchant] else true, today, monthToDate),
         Detected, None, None, None, None, None, [], None, 0, 0, 0, 0, [])
  }

  /**
   A case opens unacted on, half an hour after its attempt, with its customer's consents, its merchant's
   switch (on unless the merchant says otherwise), and a window of one, three, thirty or seven days.
   */
  lemma OpensAs(a: Attempt, p: Playbook, n: nat, s: Setting, today: int, monthToDate: int)
    requires PlaybookFor(a.kind, a.status) == Some(p)
    ensures var c, detected := Opened(a, p, n, s, today, monthToDate), a.attemptedAt + 30 * 60 * 1000000;
            && c.orderPaise == a.amountPaise && c.status.Detected? && c.arm.None? && c.proposal.None? && c.applied.None? && c.token.None?
            && c.attemptNo == 0 && c.discountAttempts == 0 && c.visits == 0 && c.llmCalls == 0 && c.trace == [] && c.reference.None?
            && c.facts.optedOut == a.optedOut && c.facts.dndRegistered == a.dndRegistered
            && c.facts.marketingConsent == a.marketingConsent && c.facts.transactionalConsent == a.transactionalConsent
            && c.facts.contacts24h == 0 && c.facts.contacts48h == 0 && c.facts.lastContactAt.None?
            && c.facts.promiseActive == (CaseId(n) in s.promises) && c.facts.promisedAt.None?
            && c.facts.autopilotEnabled == (a.merchant !in s.autopilot || s.autopilot[a.merchant])
            && c.facts.orderStatus == Some("created")
            && c.facts.actionsToday == today && c.facts.discountMonthPaise == monthToDate
            && c.facts.windowExpiresAt == Some(detected + 24 * 3600 * 1000000 *
                 if a.kind.Invoice? then 30 else if a.kind.Subscription? then 7 else if a.status.Failed? then 1 else 3)
  {
    hide CaseId;
  }

  /** Every case runs under the usual limits, with three model calls at most and no executor. */
  lemma RunsWithTheUsual(d: Deps)
    ensures At(d) == Deps(d.key, d.position, d.controlFraction, S.Limits(2, 1, 1, 2, 21, 9, 5, 50, 20000000, 24),
                          MoneyLimits(1000000, 10000000, 7.0, 5.0, 50000, 30, 15, 1440), 3, false)
  {
  }

  /** The clock of a case stands still at its own time. */
  function Clocked(world: nat -> Outside, now: int): nat -> Outside {
    (k: nat) => world(k).(now := now)
  }

  function FinalArm(f: Case): Arm { if f.arm.Some? then f.arm.value else Treatment }

  predicate WasActedOn(f: Case) { FinalArm(f).Treatment? && f.status.Monitoring? }

  /** What is stored of a case: a payment, or its absence, overrides where the graph left it. */
  function WrittenRow(f: Case, owed: int, paid: bool): Row {
    var acted := WasActedOn(f);
    Row(f.id, FinalArm(f), acted, paid,
        if paid then (if acted then Recovered else ResolvedOrganic)
        else if f.status.ResolvedOrganic? then Expired
        else f.status,
        owed,
        if paid && acted then f.orderPaise else 0,
        if paid && acted then Some("sim_evt_" + Lower(f.id)) else None)
  }

  /** RECOVERED is earned: acted upon and paid. RESOLVED_ORGANIC is paid and not acted upon, and nothing else. */
  predicate HonestRow(r: Row) {
    && (r.acted ==> r.arm.Treatment?)
    && (r.status.Recovered? <==> r.acted && r.paid)
    && (r.status.ResolvedOrganic? <==> !r.acted && r.paid)
    && r.recoveredPaise == (if r.status.Recovered? then r.owedPaise else 0)
    && (r.verifiedBy.Some? <==> r.status.Recovered?)
  }

  /** The written status: what the graph left, unless the customer paid, or it claims a payment that never came. */
  lemma RowClosesAs(f: Case, owed: int, paid: bool)
    ensures var row := WrittenRow(f, owed, paid);
            && row.caseId == f.id && row.owedPaise == owed && row.paid == paid
            && (row.acted <==> f.status.Monitoring? && f.arm != Some(Control))
            && row.status == (if paid && row.acted then Recovered
                              else if paid then ResolvedOrganic
                              else if f.status.ResolvedOrganic? then Expired
                              else f.status)
            && (row.arm.Control? <==> f.arm == Some(Control))
            && row.recoveredPaise == (if paid && row.acted then f.orderPaise else 0)
            && row.verifiedBy == (if paid && row.acted then Some("sim_evt_" + Lower(f.id)) else None)
  {
  }

  datatype Totals = Totals(treated: int, control: int, settled: int, recoveredPaise: int)

  function Tallied(rows: seq<Row>): Totals {
    if rows == [] then Totals(0, 0, 0, 0)
    else
      var t, r := Tallied(rows[..|rows| - 1]), rows[|rows| - 1];
      Plus(t, r)
  }

  function WithStatus(rows: seq<Row>, st: CaseStatus): int {
    if rows == [] then 0
    else WithStatus(rows[..|rows| - 1], st) + if rows[|rows| - 1].status == st then 1 else 0
  }

  function ActedOn(rows: seq<Row>): int {
    if rows == [] then 0 else ActedOn(rows[..|rows| - 1]) + if rows[|rows| - 1].acted then 1 else 0
  }

  const DAILY := S.USUAL.dailyActionBudget
  const MONTHLY := S.USUAL.monthlyDiscountPaise + Firewall.USUAL.absolutePaise

  /** The counters agree with the actions recorded, and no allowance is overspent. */
  ghost predicate InBudget(actions: seq<Action>, byDay: map<(string, int), int>, byMonth: map<(string, int), int>) {
    && (forall m, d :: Count(byDay, (m, d)) == ActionsOn(actions, m, d) <= DAILY)
    && (forall m, y :: 0 <= Count(byMonth, (m, y)) == DiscountIn(actions, m, y) < MONTHLY)
  }

  lemma OneMoreInBudget(actions: seq<Action>, byDay: map<(string, int), int>, byMonth: map<(string, int), int>, a: Action)
    requires InBudget(actions, byDay, byMonth)
    requires Count(byDay, (a.merchant, a.day)) < DAILY
    requires Count(byMonth, (a.merchant, a.month)) < S.USUAL.monthlyDiscountPaise
    requires 0 <= a.discountPaise <= Firewall.USUAL.absolutePaise
    ensures InBudget(actions + [a],
                     byDay[(a.merchant, a.day) := Count(byDay, (a.merchant, a.day)) + 1],
                     byMonth[(a.merchant, a.month) := Count(byMonth, (a.merchant, a.month)) + a.discountPaise])
  {
  }

  lemma Counted<K>(m: map<K, int>, k: K, n: int, other: K)
    ensures Count(m[k := n], other) == if other == k then n else Count(m, other)
  {
  }

  /** The totals and the count by status are those of the rows, and the rows are honest. */
  ghost predicate Booked(rows: seq<Row>, byStatus: map<CaseStatus, int>, totals: Totals) {
    && (forall r :: r in rows ==> HonestRow(r))
    && totals == Tallied(rows) && totals.treated + totals.control == |rows|
    && (forall st :: Count(byStatus, st) == WithStatus(rows, st))
  }

  function Plus(t: Totals, r: Row): Totals {
    Totals(t.treated + (if r.arm.Treatment? then 1 else 0), t.control + (if r.arm.Control? then 1 else 0),
           t.settled + (if r.paid then 1 else 0), t.recoveredPaise + r.recoveredPaise)
  }

  lemma OneMoreBooked(rows: seq<Row>, byStatus: map<CaseStatus, int>, totals: Totals, r: Row)
    requires Booked(rows, byStatus, totals) && HonestRow(r)
    ensures Booked(rows + [r], byStatus[r.status := Count(byStatus, r.status) + 1], Plus(totals, r))
    ensures ActedOn(rows + [r]) == ActedOn(rows) + if r.acted then 1 else 0
  {
    hide HonestRow;
    var more := rows + [r];
    assert more[..|rows|] == rows && more[|more| - 1] == r;
    forall st ensures WithStatus(more, st) == WithStatus(rows, st) + if r.status == st then 1 else 0 {
    }
  }

  lemma InBudgetMeans(actions: seq<Action>, byDay: map<(string, int), int>, byMonth: map<(string, int), int>)
    requires InBudget(actions, byDay, byMonth)
    ensures forall m, d :: ActionsOn(actions, m, d) <= DAILY
    ensures forall m, y :: 0 <= DiscountIn(actions, m, y) < MONTHLY
  {
  }

  lemma BookedMeans(rows: seq<Row>, byStatus: map<CaseStatus, int>, totals: Totals)
    requires Booked(rows, byStatus, totals)
    ensures forall r :: r in rows ==> HonestRow(r)
    ensures totals == Tallied(rows) && totals.treated + totals.control == |rows|
    ensures forall st :: Count(byStatus, st) == WithStatus(rows, st)
  {
  }

  lemma NothingYet()
    ensures InBudget([], map[], map[]) && Booked([], map[], Totals(0, 0, 0, 0)) && ActedOn([]) == 0
  {
  }

  /** A verdict short of STOP leaves both merchant allowances unspent. */
  lemma NotStoppedIsInBudget(c: S.Context)
    requires !S.Evaluate(c).decision.Stop?
    ensures c.actionsToday < c.limits.dailyActionBudget && c.discountMonthPaise < c.limits.monthlyDiscountPaise
  {
    assert S.Results(c)[5] == S.MerchantBudget(c);
    if S.MerchantBudget(c).decision.Stop? {
      Firewall.StopWins(S.Results(c), 5);
    }
  }

  /** An authorised case had allowance left, and spends no more than the absolute cap of it. */
  lemma AuthorisedIsAffordable(f: Case, d: Deps)
    requires Authorised(f, d) && Firewall.SoundLimits(d.money)
    ensures f.facts.actionsToday < d.stopping.dailyActionBudget
    ensures f.facts.discountMonthPaise < d.stopping.monthlyDiscountPaise
    ensures f.applied.Some? && 0 <= f.applied.value.discountAmountPaise <= d.money.absolutePaise
  {
    AuthorisedIsBounded(f, d);
    hide S.Evaluate, AppliedOf, BlockingRule;
    var p, ctx, now :| Decide(p, ctx, d.key, now).verdict.Passed? && MatchesCase(ctx, f, d)
         && f.applied == Decide(p, ctx, d.key, now).applied && f.token == Decide(p, ctx, d.key, now).token;
    assert !S.Evaluate(StoppingView(p, ctx)).decision.Stop?;
    NotStoppedIsInBudget(StoppingView(p, ctx));
  }

  lemma RowIsHonest(f: Case, owed: int, paid: bool)
    requires !f.status.Recovered? && f.orderPaise == owed
    ensures HonestRow(WrittenRow(f, owed, paid))
  {
  }

  /** What the graph makes of one case of the corpus. */
  lemma OneCase(a: Attempt, p: Playbook, n: nat, s: Setting, today: int, monthToDate: int, paid: bool)
    ensures var now := a.attemptedAt + 30 * MINUTE;
            var r := RunCase(Opened(a, p, n, s, today, monthToDate), At(s.deps), Clocked(s.world(n), now));
            && r.Finished?
            && HonestRow(WrittenRow(r.state, a.amountPaise, paid))
            && (WasActedOn(r.state) ==>
                 && r.state.proposal.Some? && today < S.USUAL.dailyActionBudget && monthToDate < S.USUAL.monthlyDiscountPaise
                 && r.state.applied.Some? && 0 <= r.state.applied.value.discountAmountPaise <= Firewall.USUAL.absolutePaise)
  {
    var now := a.attemptedAt + 30 * MINUTE;
    var c, d := Opened(a, p, n, s, today, monthToDate), At(s.deps);
    hide RunCase, Authorised, Walk, Clocked, CaseId, HonestRow, WrittenRow;
    EveryRunSettles(c, d, Clocked(s.world(n), now));
    var f := RunCase(c, d, Clocked(s.world(n), now)).state;
    RowIsHonest(f, a.amountPaise, paid);
    if WasActedOn(f) {
      AuthorisedIsAffordable(f, d);
    }
  }

  // --------------------------------------------------------------------------
  // Which attempts become cases, and what each case is decided on.

  /** A failed or abandoned checkout, an invoice not paid yet, a failed subscription charge. */
  predicate BecomesCase(a: Attempt) {
    || (a.kind.Checkout? && (a.status.Failed? || a.status.Abandoned?))
    || (a.kind.Invoice? && a.status.Created?)
    || (a.kind.Subscription? && a.status.Failed?)
  }

  function CasesOf(attempts: seq<Attempt>): seq<Attempt> {
    if attempts == [] then []
    else
      var last := attempts[|attempts| - 1];
      CasesOf(attempts[..|attempts| - 1]) + if BecomesCase(last) then [last] else []
  }

  lemma PlaybookExactlyForCases(a: Attempt)
    ensures PlaybookFor(a.kind, a.status).Some? <==> BecomesCase(a)
  {
  }

  lemma {:induction false} CasesUpTo(attempts: seq<Attempt>, i: nat)
    requires i < |attempts|
    ensures CasesOf(attempts[..i + 1]) == CasesOf(attempts[..i]) + if BecomesCase(attempts[i]) then [attempts[i]] else []
    ensures CasesOf(attempts[..i + 1]) <= CasesOf(attempts)
    decreases |attempts| - i
  {
    assert attempts[..i + 1][..i] == attempts[..i];
    if i + 1 == |attempts| {
      assert attempts[..i + 1] == attempts;
    } else {
      CasesUpTo(attempts, i + 1);
      assert attempts[..i + 2][..i + 1] == attempts[..i + 1];
    }
  }

  /** Half an hour after the attempt, in the calendar of India. */
  function DecidedAt(a: Attempt): int { a.attemptedAt + 30 * MINUTE }

  function LocalDay(a: Attempt): int { (DecidedAt(a) + IST_OFFSET) / DAY }

  /** What the graph makes of the n-th case when the actions `before` have been taken. */
  function DecidedCase(a: Attempt, n: nat, before: seq<Action>, s: Setting): Graph.Outcome
    requires BecomesCase(a)
  {
    PlaybookExactlyForCases(a);
    RunCase(Opened(a, PlaybookFor(a.kind, a.status).value, n, s, ActionsOn(before, a.merchant, LocalDay(a)),
                   DiscountIn(before, a.merchant, s.monthOf(LocalDay(a)))),
            At(s.deps), Clocked(s.world(n), DecidedAt(a)))
  }

  /** The k-th row is that of the k-th case, decided on just the actions taken for the cases before it. */
  ghost predicate RowOfCase(a: Attempt, k: nat, rows: seq<Row>, actions: seq<Action>, s: Setting)
    requires k < |rows| && BecomesCase(a)
  {
    var taken := ActedOn(rows[..k]);
    && 0 <= taken <= |actions|
    && DecidedCase(a, k + 1, actions[..taken], s).Finished?
    && var f, row := DecidedCase(a, k + 1, actions[..taken], s).state, rows[k];
    && row == WrittenRow(f, a.amountPaise, row.paid) && row.paid == s.pays(k + 1, row.acted)
    && (row.acted ==> taken < |actions| && ActionOf(actions[taken], a, f, s))
  }

  predicate ActionOf(x: Action, a: Attempt, f: Case, s: Setting) {
    && x.merchant == a.merchant && x.day == LocalDay(a) && x.month == s.monthOf(LocalDay(a))
    && f.applied.Some? && x.discountPaise == f.applied.value.discountAmountPaise
  }

  ghost predicate RowsOfCases(cases: seq<Attempt>, rows: seq<Row>, actions: seq<Action>, s: Setting) {
    && |rows| <= |cases|
    && forall k :: 0 <= k < |rows| ==> BecomesCase(cases[k]) && RowOfCase(cases[k], k, rows, actions, s)
  }

  lemma EarlierRowsStay(
    a: Attempt, k: nat, rows: seq<Row>, actions: seq<Action>, moreRows: seq<Row>, moreActions: seq<Action>, s: Setting)
    requires k < |rows| && BecomesCase(a) && RowOfCase(a, k, rows, actions, s)
    requires rows <= moreRows && actions <= moreActions
    ensures RowOfCase(a, k, moreRows, moreActions, s)
  {
    hide DecidedCase, WrittenRow;
    assert moreRows[..k] == rows[..k];
    var taken := ActedOn(rows[..k]);
    assert moreActions[..taken] == actions[..taken];
  }

  lemma OneMoreRow(
    cases: seq<Attempt>, rows: seq<Row>, actions: seq<Action>, row: Row, moreActions: seq<Action>, s: Setting)
    requires RowsOfCases(cases, rows, actions, s) && |rows| < |cases| && BecomesCase(cases[|rows|])
    requires |actions| == ActedOn(rows) && actions <= moreActions
    requires DecidedCase(cases[|rows|], |rows| + 1, actions, s).Finished?
    requires var f := DecidedCase(cases[|rows|], |rows| + 1, actions, s).state;
             && row == WrittenRow(f, cases[|rows|].amountPaise, row.paid) && row.paid == s.pays(|rows| + 1, row.acted)
             && (row.acted ==> |moreActions| > |actions| && ActionOf(moreActions[|actions|], cases[|rows|], f, s))
    ensures RowsOfCases(cases, rows + [row], moreActions, s)
  {
    hide DecidedCase, WrittenRow, ActionOf;
    var more := rows + [row];
    forall k | 0 <= k < |more| ensures BecomesCase(cases[k]) && RowOfCase(cases[k], k, more, moreActions, s) {
      if k < |rows| {
        EarlierRowsStay(cases[k], k, rows, actions, more, moreActions, s);
      } else {
        assert more[..k] == rows && moreActions[..|actions|] == actions;
      }
    }
  }

  /** A row is its own attempt's: numbered in order, owing its amount, on its arm, and acted on only if that was allowed. */
  predicate RowOnTheFacts(row: Row, a: Attempt, n: nat, s: Setting) {
    && row.caseId == CaseId(n) && row.owedPaise == a.amountPaise && row.paid == s.pays(n, row.acted)
    && (row.arm.Control? ==> Assigned(CaseId(n), s.deps).Control?)
    && (row.acted ==>
         && Assigned(CaseId(n), s.deps).Treatment?
         && !a.optedOut && a.transactionalConsent && (a.merchant in s.autopilot ==> s.autopilot[a.merchant]))
  }

  lemma DecidedOnTheFacts(a: Attempt, n: nat, before: seq<Action>, s: Setting)
    requires BecomesCase(a)
    ensures var r := DecidedCase(a, n, before, s);
            && r.Finished?
            && RowOnTheFacts(WrittenRow(r.state, a.amountPaise, s.pays(n, WasActedOn(r.state))), a, n, s)
  {
    PlaybookExactlyForCases(a);
    var today, monthToDate := ActionsOn(before, a.merchant, LocalDay(a)), DiscountIn(before, a.merchant, s.monthOf(LocalDay(a)));
    var c, d := Opened(a, PlaybookFor(a.kind, a.status).value, n, s, today, monthToDate), At(s.deps);
    var world := Clocked(s.world(n), DecidedAt(a));
    hide RunCase, RunFrom, Walk, Clocked, CaseId, PlaybookFor, ActionsOn, DiscountIn;
    EveryRunSettles(c, d, world);
    ArmIsAssigned(Enrich, c, d, world, 0);
    var f := RunCase(c, d, world).state;
    assert RunCase(c, d, world) == RunFrom(Enrich, c, d, world, 0) by {
      CaseRunsFromEnrich(c, d, world);
    }
    if WasActedOn(f) {
      AuthorisedIsUnbraked(f, d);
    }
    hide Authorised;
  }

  lemma CaseRunsFromEnrich(c: Case, d: Deps, world: nat -> Outside)
    requires !Terminal(c.status)
    ensures RunCase(c, d, world) == RunFrom(Enrich, c, d, world, 0)
  {
  }

  lemma RowsOnTheFacts(cases: seq<Attempt>, rows: seq<Row>, actions: seq<Action>, s: Setting)
    requires RowsOfCases(cases, rows, actions, s)
    ensures |rows| <= |cases| && forall k :: 0 <= k < |rows| ==> RowOnTheFacts(rows[k], cases[k], k + 1, s)
  {
    forall k | 0 <= k < |rows| ensures RowOnTheFacts(rows[k], cases[k], k + 1, s) {
      assert RowOfCase(cases[k], k, rows, actions, s);
      var taken := ActedOn(rows[..k]);
      DecidedOnTheFacts(cases[k], k + 1, actions[..taken], s);
      WrittenMeans(DecidedCase(cases[k], k + 1, actions[..taken], s).state, cases[k].amountPaise, rows[k].paid);
      hide DecidedCase, WrittenRow, RowOnTheFacts;
    }
  }

  lemma NoRowsYet(attempts: seq<Attempt>, actions: seq<Action>, s: Setting)
    ensures CasesOf([]) == [] && CasesOf(attempts[..0]) == []
    ensures RowsOfCases(CasesOf(attempts), [], actions, s)
  {
  }

  /** The counters hold just what the actions taken so far have spent. */
  lemma CountsAreSpend(
    actions: seq<Action>, byDay: map<(string, int), int>, byMonth: map<(string, int), int>, merchant: string, day: int, month: int)
    requires InBudget(actions, byDay, byMonth)
    ensures Count(byDay, (merchant, day)) == ActionsOn(actions, merchant, day)
    ensures Count(byMonth, (merchant, month)) == DiscountIn(actions, merchant, month)
  {
  }

  lemma WrittenMeans(f: Case, owed: int, paid: bool)
    ensures var row := WrittenRow(f, owed, paid); row.paid == paid && row.acted == WasActedOn(f)
  {
  }

  /**
   Over any corpus: each merchant-day sees no more actions than its budget, each merchant-month spends
   less than its cap plus one action's, and the rows and totals written say no more than happened. The
   attempts that become cases do so in order, one row each, up to the limit.
   */
  method RunBatch(attempts: seq<Attempt>, s: Setting, limit: Option<int>)
    returns (ran: bool, rows: seq<Row>, actions: seq<Action>, byStatus: map<CaseStatus, int>, totals: Totals)
    ensures ran <==> attempts != []
    ensures forall m, d :: ActionsOn(actions, m, d) <= DAILY
    ensures forall m, y :: 0 <= DiscountIn(actions, m, y) < MONTHLY
    ensures DAILY == 50 && MONTHLY == 20050000
    ensures forall r :: r in rows ==> HonestRow(r)
    ensures totals == Tallied(rows) && totals.treated + totals.control == |rows|
    ensures forall st :: Count(byStatus, st) == WithStatus(rows, st)
    ensures |actions| == ActedOn(rows)
    ensures |rows| == if limit.Some? && limit.value < |CasesOf(attempts)| then (if limit.value > 0 then limit.value else 0) else |CasesOf(attempts)|
    ensures RowsOfCases(CasesOf(attempts), rows, actions, s)
    ensures forall k :: 0 <= k < |rows| ==> RowOnTheFacts(rows[k], CasesOf(attempts)[k], k + 1, s)
  {
    hide RunCase, Opened, HonestRow, Booked, InBudget, Tallied, WithStatus, ActionsOn, DiscountIn, ActedOn, Clocked, CaseId;
    hide RowsOfCases, RowOnTheFacts, CasesOf, PlaybookFor, BecomesCase, WrittenRow;
    rows, actions, byStatus, totals := [], [], map[], Totals(0, 0, 0, 0);
    ghost var cases := CasesOf(attempts);
    NothingYet();
    NoRowsYet(attempts, actions, s);
    InBudgetMeans([], map[], map[]);
    BookedMeans([], map[], totals);
    if attempts == [] {
      return false, rows, actions, byStatus, totals;
    }
    ran := true;
    var byDay: map<(string, int), int> := map[];
    var byMonth: map<(string, int), int> := map[];
    var created: nat := 0;
    for i := 0 to |attempts|
      invariant created == |rows| && (limit.Some? ==> created <= if limit.value > 0 then limit.value else 0)
      invariant created == |CasesOf(attempts[..i])| && CasesOf(attempts[..i]) <= cases
      invariant |actions| == ActedOn(rows)
      invariant InBudget(actions, byDay, byMonth)
      invariant Booked(rows, byStatus, totals)
      invariant RowsOfCases(cases, rows, actions, s)
    {
      var a := attempts[i];
      CasesUpTo(attempts, i);
      PlaybookExactlyForCases(a);
      var playbook := PlaybookFor(a.kind, a.status);
      if playbook.None? {
        continue;
      }
      if limit.Some? && created >= limit.value {
        break;
      }
      assert cases[created] == a;
      created := created + 1;
      var now := a.attemptedAt + 30 * MINUTE;
      var day := (now + IST_OFFSET) / DAY;
      var month := s.monthOf(day);
      var today, monthToDate := Count(byDay, (a.merchant, day)), Count(byMonth, (a.merchant, month));
      CountsAreSpend(actions, byDay, byMonth, a.merchant, day, month);
      var state := Opened(a, playbook.value, created, s, today, monthToDate);
      var outcome := Run(state, At(s.deps), Clocked(s.world(created), now));
      assert outcome == DecidedCase(a, created, actions, s);
      var paid := s.pays(created, outcome.Finished? && WasActedOn(outcome.state));
      OneCase(a, playbook.value, created, s, today, monthToDate, paid);
      var final := outcome.state;
      var row := WrittenRow(final, a.amountPaise, paid);
      WrittenMeans(final, a.amountPaise, paid);
      OneMoreBooked(rows, byStatus, totals, row);
      byStatus := byStatus[row.status := Count(byStatus, row.status) + 1];
      totals := Totals(totals.treated + (if row.arm.Treatment? then 1 else 0),
                       totals.control + (if row.arm.Control? then 1 else 0),
                       totals.settled + (if paid then 1 else 0),
                       totals.recoveredPaise + row.recoveredPaise);
      ghost var before := actions;
      if row.acted && final.proposal.Some? {
        var spent := if final.applied.Some? then final.applied.value.discountAmountPaise else 0;
        OneMoreInBudget(actions, byDay, byMonth, Action(a.merchant, day, month, spent));
        byDay := byDay[(a.merchant, day) := today + 1];
        byMonth := byMonth[(a.merchant, month) := monthToDate + spent];
        actions := actions + [Action(a.merchant, day, month, spent)];
      }
      OneMoreRow(cases, rows, before, row, actions, s);
      rows := rows + [row];
    }
    assert attempts[..|attempts|] == attempts;
    RowsOnTheFacts(cases, rows, actions, s);
    InBudgetMeans(actions, byDay, byMonth);
    BookedMeans(rows, byStatus, totals);
  }
}
