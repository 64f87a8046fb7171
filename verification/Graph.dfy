/** The control flow of one case: eight nodes, one transition function, and a loop that must end. */
module Graph {
  import opened Text
  import opened Enums
  import opened Token
  import opened PolicyEngine
  import opened QuietHours
  import S = StoppingRules
  import Firewall
  import Ids

  datatype Node = Enrich | Triage | Diagnose | Strategise | Policy | Execute | Escalate | Audit

  const MAX_NODE_VISITS := 9

  /** What the stopping rules read besides the clock, the limits and the counters. */
  datatype Facts = Facts(
    windowExpiresAt: Option<int>,
    orderStatus: Option<string>,
    optedOut: bool,
    dndRegistered: bool,
    marketingConsent: bool,
    transactionalConsent: bool,
    contacts24h: int,
    contacts48h: int,
    lastContactAt: Option<int>,
    promiseActive: bool,
    promisedAt: Option<int>,
    autopilotEnabled: bool,
    actionsToday: int,
    discountMonthPaise: int)

  datatype Case = Case(
    id: string,
    orderPaise: int,
    facts: Facts,
    status: CaseStatus,
    arm: Option<Arm>,
    proposal: Option<Proposal>,
    verdict: Option<Verdict>,
    applied: Option<AppliedAction>,
    token: Option<PolicyToken>,
    blocks: seq<Block>,
    reference: Option<string>,
    attemptNo: nat,
    discountAttempts: int,
    visits: int,
    llmCalls: int,
    trace: seq<Node>)

  /** `position` is the hash of a case id scaled into [0, 1). */
  datatype Deps = Deps(
    key: string,
    position: string -> real,
    controlFraction: real,
    stopping: S.Limits,
    money: MoneyLimits,
    maxLlmCalls: int,
    wired: bool)

  datatype Reply = Dispatched | RetryScheduled | DeadLettered

  /** What the world contributes to one node: the time, a crash, a model's words, the executor's reply. */
  datatype Outside = Outside(now: int, crashes: bool, proposal: Proposal, consulted: bool, reply: Reply)

  function Assigned(id: string, d: Deps): Arm {
    if d.position(id) < d.controlFraction then Control else Treatment
  }

  function StoppingContextOf(s: Case, d: Deps, now: int): S.Context {
    var f := s.facts;
    S.Context(now, d.stopping, s.status, s.attemptNo, s.discountAttempts, f.windowExpiresAt, f.orderStatus,
              f.optedOut, f.dndRegistered, f.marketingConsent, f.transactionalConsent, f.contacts24h, f.contacts48h,
              f.lastContactAt, f.promiseActive, f.promisedAt, f.autopilotEnabled, f.actionsToday, f.discountMonthPaise,
              Transactional, 0.0, true)
  }

  function Traced(s: Case, n: Node): Case {
    s.(visits := s.visits + 1, trace := s.trace + [n])
  }

  function TriageNode(s: Case, d: Deps, o: Outside): Case {
    var v := S.Evaluate(StoppingContextOf(s, d, o.now));
    Traced(s, Triage).(
      status := if v.decision.Stop? then (if v.terminal.Some? then v.terminal.value else Suppressed) else Triaged,
      arm := Some(Assigned(s.id, d)))
  }

  function DiagnoseNode(s: Case, d: Deps, o: Outside): Case {
    Traced(s, Diagnose).(
      status := Diagnosing,
      llmCalls := s.llmCalls + if o.consulted && s.llmCalls < d.maxLlmCalls then 1 else 0)
  }

  function StrategiseNode(s: Case, d: Deps, o: Outside): Case {
    Traced(s, Strategise).(
      status := StrategyFormed,
      proposal := Some(o.proposal),
      llmCalls := s.llmCalls + if o.consulted && s.llmCalls < d.maxLlmCalls then 1 else 0)
  }

  const DO_NOTHING := Proposal(NoAction, Finite(0.0), Whole(30), WhatsApp, Transactional)

  function PolicyContextOf(s: Case, d: Deps, now: int): PolicyContext {
    PolicyContext(s.id, s.orderPaise, s.attemptNo + 1, if s.arm.Some? then s.arm.value else Treatment,
                  StoppingContextOf(s, d, now), d.money, None)
  }

  function DecisionFor(s: Case, d: Deps, now: int): PolicyDecision {
    Decide(if s.proposal.Some? then s.proposal.value else DO_NOTHING, PolicyContextOf(s, d, now), d.key, now)
  }

  /** A held-out case is observed; a paid one resolved; a late one expired; anything else suppressed. */
  function BlockedStatus(blocks: seq<Block>): CaseStatus {
    if HeldOut in blocks then ObservedNoAction
    else if StoppedBy(Some(S.S01)) in blocks then ResolvedOrganic
    else if StoppedBy(Some(S.S06)) in blocks then Expired
    else Suppressed
  }

  function PolicyNode(s: Case, d: Deps, o: Outside): Case {
    var dec := DecisionFor(s, d, o.now);
    Traced(s, Policy).(
      status := match dec.verdict
                case Passed => Executing
                case EscalateHitl => AwaitingApproval
                case Blocked => BlockedStatus(dec.blocks),
      verdict := Some(dec.verdict),
      applied := dec.applied,
      token := dec.token,
      blocks := dec.blocks,
      reference := match dec.applied case Some(a) => Some(a.reference) case None => None)
  }

  function Acted(s: Case, a: AppliedAction): Case {
    Traced(s, Execute).(
      status := Monitoring,
      attemptNo := s.attemptNo + 1,
      discountAttempts := s.discountAttempts + if a.discountPct > 0.0 then 1 else 0)
  }

  function ExecuteNode(s: Case, d: Deps, o: Outside): Case {
    if s.applied.None? || s.token.None? then Traced(s, Execute).(status := Suppressed)
    else if !d.wired then Acted(s, s.applied.value)
    else
      match o.reply
      case Dispatched => Acted(s, s.applied.value)
      case RetryScheduled => Traced(s, Execute).(status := Executing)
      case DeadLettered => Traced(s, Execute).(status := FailedPermanent)
  }

  function VisitNode(n: Node, s: Case, d: Deps, o: Outside): Case {
    match n
    case Enrich => Traced(s, Enrich)
    case Triage => TriageNode(s, d, o)
    case Diagnose => DiagnoseNode(s, d, o)
    case Strategise => StrategiseNode(s, d, o)
    case Policy => PolicyNode(s, d, o)
    case Execute => ExecuteNode(s, d, o)
    case Escalate => Traced(s, Escalate).(status := AwaitingApproval)
    case Audit => Traced(s, Audit)
  }

  /** A node raises when the world does, and EXECUTE when the capability does not verify. */
  predicate Raises(n: Node, s: Case, d: Deps, o: Outside) {
    o.crashes || (n.Execute? && s.applied.Some? && s.token.Some? && !Verifies(d.key, s.token.value))
  }

  function NextNode(n: Node, s: Case): Option<Node> {
    match n
    case Enrich => Some(Triage)
    case Triage => Some(if Terminal(s.status) then Audit else Diagnose)
    case Diagnose => Some(Strategise)
    case Strategise => Some(Policy)
    case Policy =>
      Some(if s.verdict == Some(Passed) then Execute else if s.verdict == Some(EscalateHitl) then Escalate else Audit)
    case Execute => Some(Audit)
    case Escalate => Some(Audit)
    case Audit => None
  }

  datatype Outcome = Finished(state: Case) | BoundExceeded

  /** The run from a node on; the world's contribution to the k-th visit of the run is `world(k)`. */
  function RunFrom(n: Node, s: Case, d: Deps, world: nat -> Outside, k: nat): Outcome
    decreases MAX_NODE_VISITS - s.visits
  {
    if s.visits >= MAX_NODE_VISITS then BoundExceeded
    else if Raises(n, s, d, world(k)) then
      Finished(Traced(Traced(s, n).(status := FailedPermanent), Audit))
    else
      var next := VisitNode(n, s, d, world(k));
      if next.llmCalls > d.maxLlmCalls then BoundExceeded
      else
        match NextNode(n, next)
        case None => Finished(next)
        case Some(m) => RunFrom(m, next, d, world, k + 1)
  }

  function RunCase(s: Case, d: Deps, world: nat -> Outside): Outcome {
    if Terminal(s.status) then Finished(s) else RunFrom(Enrich, s, d, world, 0)
  }

  /** Every visit is counted and traced, and changes neither the case nor its facts. */
  lemma VisitCounts(n: Node, s: Case, d: Deps, o: Outside)
    ensures var t := VisitNode(n, s, d, o);
            && t.visits == s.visits + 1 && t.trace == s.trace + [n]
            && t.id == s.id && t.orderPaise == s.orderPaise && t.facts == s.facts
            && t.llmCalls <= (if s.llmCalls < d.maxLlmCalls then d.maxLlmCalls else s.llmCalls)
  {
    hide S.Evaluate, Decide, BlockedStatus;
  }

  method Run(s: Case, d: Deps, world: nat -> Outside) returns (r: Outcome)
    ensures r == RunCase(s, d, world)
  {
    hide TriageNode, PolicyNode, ExecuteNode, Terminal, Raises;
    if Terminal(s.status) {
      return Finished(s);
    }
    var state, current := s, Some(Enrich);
    var k := 0;
    while current.Some?
      invariant current.Some? ==> RunCase(s, d, world) == RunFrom(current.value, state, d, world, k)
      invariant current.None? ==> RunCase(s, d, world) == Finished(state)
      decreases current.Some?, MAX_NODE_VISITS - state.visits
    {
      if state.visits >= MAX_NODE_VISITS {
        return BoundExceeded;
      }
      if Raises(current.value, state, d, world(k)) {
        state := Traced(state, current.value).(status := FailedPermanent);
        return Finished(VisitNode(Audit, state, d, world(k)));
      }
      VisitCounts(current.value, state, d, world(k));
      state := VisitNode(current.value, state, d, world(k));
      if state.llmCalls > d.maxLlmCalls {
        return BoundExceeded;
      }
      current := NextNode(current.value, state);
      k := k + 1;
    }
    return Finished(state);
  }

  // --------------------------------------------------------------------------
  // What is known on arrival at each node, and what every run ends with.

  /** The authorised action comes from the firewall, in this very run, for a treated case. */
  ghost predicate Authorised(s: Case, d: Deps) {
    && s.arm == Some(Treatment) && s.verdict == Some(Passed)
    && exists p, ctx, now ::
         Decide(p, ctx, d.key, now).verdict.Passed? && MatchesCase(ctx, s, d)
         && s.applied == Decide(p, ctx, d.key, now).applied && s.token == Decide(p, ctx, d.key, now).token
  }

  /** The firewall was shown this case, its own attempt, the deployed limits, and no approval. */
  predicate MatchesCase(ctx: PolicyContext, s: Case, d: Deps) {
    && ctx.caseId == s.id && ctx.orderPaise == s.orderPaise && ctx.approvedHash.None?
    && ctx.limits == d.money && ctx.stopping.limits == d.stopping && ctx.arm.Treatment?
    && FactsOf(ctx.stopping) == s.facts && ctx.stopping.outbound
  }

  /** What the stopping rules were shown of the case. */
  function FactsOf(c: S.Context): Facts {
    Facts(c.windowExpiresAt, c.orderStatus, c.optedOut, c.dndRegistered, c.marketingConsent, c.transactionalConsent,
          c.contacts24h, c.contacts48h, c.lastContactAt, c.promiseActive, c.promisedAt, c.autopilotEnabled,
          c.actionsToday, c.discountMonthPaise)
  }

  ghost predicate Arrived(n: Node, s: Case, d: Deps) {
    match n
    case Enrich => !Terminal(s.status)
    case Triage => !Terminal(s.status)
    case Diagnose => s.arm == Some(Assigned(s.id, d))
    case Strategise => s.arm == Some(Assigned(s.id, d))
    case Policy => s.arm == Some(Assigned(s.id, d)) && s.proposal.Some?
    case Execute =>
      Authorised(s, d) && Assigned(s.id, d).Treatment? && s.proposal.Some? && s.applied.Some? && s.applied.value.attemptNo == s.attemptNo + 1
    case Escalate => Assigned(s.id, d).Treatment?
    case Audit => Settled(s, d)
  }

  /** What a finished case can look like. */
  ghost predicate Settled(s: Case, d: Deps) {
    && (Terminal(s.status) || s.status.Monitoring? || s.status.Executing? || s.status.AwaitingApproval?)
    && (!Terminal(s.status) ==> Assigned(s.id, d).Treatment?)
    && (s.status.Monitoring? ==> Authorised(s, d) && s.proposal.Some? && s.applied.Some? && s.applied.value.attemptNo == s.attemptNo)
    && (s.status.Executing? ==> Authorised(s, d))
    && !s.status.Recovered?
  }

  function Rank(n: Node): nat {
    match n
    case Enrich => 7
    case Triage => 6
    case Diagnose => 5
    case Strategise => 4
    case Policy => 3
    case Execute => 2
    case Escalate => 2
    case Audit => 1
  }

  /** TRIAGE stops with a terminal status, never RECOVERED, or lets the case through with its arm on it. */
  lemma TriageKeeps(s: Case, d: Deps, o: Outside)
    requires S.ReleaseMinuteOk(StoppingContextOf(s, d, o.now)) && !Terminal(s.status)
    ensures var t := TriageNode(s, d, o);
            && t.arm == Some(Assigned(s.id, d)) && !t.status.Recovered?
            && (Terminal(t.status) || t.status.Triaged?)
  {
    var c := StoppingContextOf(s, d, o.now);
    S.VerdictIsWellFormed(c);
    if S.Evaluate(c).decision.Stop? {
      NeverStoppedAsRecovered(c);
    }
    hide S.Results, S.Weighed, S.Evaluate;
  }

  /** Only a case already RECOVERED is stopped as RECOVERED. */
  lemma NeverStoppedAsRecovered(c: S.Context)
    requires S.ReleaseMinuteOk(c) && !c.caseStatus.Recovered? && S.Evaluate(c).decision.Stop?
    ensures S.Evaluate(c).terminal != Some(Recovered)
  {
    NoRuleSaysRecovered(c);
    hide S.Results, S.Weighed;
    S.RulesAdvance(c);
    S.WeighedIsWorst(S.Results(c));
  }

  lemma NoRuleSaysRecovered(c: S.Context)
    requires !c.caseStatus.Recovered?
    ensures forall i :: 0 <= i < 12 ==> S.Results(c)[i].terminal != Some(Recovered)
  {
  }

  /** POLICY sends on to EXECUTE only what the firewall passed, and a held-out case straight to the end. */
  lemma PolicyKeeps(s: Case, d: Deps, o: Outside)
    requires Arrived(Policy, s, d)
    ensures var t := PolicyNode(s, d, o);
            Arrived(NextNode(Policy, t).value, t, d)
  {
    var p := if s.proposal.Some? then s.proposal.value else DO_NOTHING;
    var ctx := PolicyContextOf(s, d, o.now);
    var dec := Decide(p, ctx, d.key, o.now);
    var t := PolicyNode(s, d, o);
    NotBlockedMeans(p, ctx, d.key, o.now);
    hide Decide, BlockedStatus;
    if dec.verdict.Passed? {
      assert MatchesCase(ctx, t, d);
      assert Authorised(t, d);
    }
  }

  /** A held-out case that reaches POLICY is observed: blocked, without an action or a reference. */
  lemma HeldOutBlockIsObserved(s: Case, d: Deps, o: Outside)
    requires s.arm == Some(Control)
    ensures var t := PolicyNode(s, d, o);
            && t.verdict == Some(Blocked) && t.status.ObservedNoAction?
            && t.applied.None? && t.token.None? && t.reference.None?
  {
  }

  lemma {:induction false} BlockingRuleIsAResult(v: S.Verdict, from: nat)
    requires BlockingRule(v, from).Some?
    ensures exists i :: from <= i < |v.results| && v.results[i].decision == v.decision
                        && Some(v.results[i].rule) == BlockingRule(v, from)
    decreases |v.results| - from
  {
    if v.results[from].decision != v.decision {
      BlockingRuleIsAResult(v, from + 1);
    }
  }

  lemma OnlyTheFirstRuleIsS01(c: S.Context, i: nat)
    requires i < |S.Evaluate(c).results| && S.Evaluate(c).results[i].rule.S01?
    ensures S.Evaluate(c).results[i] == S.AlreadyResolved(c)
  {
    hide NextRelease, InQuietHours, S.Weighed;
  }

  /** POLICY calls a case resolved without us only when the order was paid, or the case already closed. */
  lemma ResolvedOrganicIsPaid(s: Case, d: Deps, o: Outside)
    requires PolicyNode(s, d, o).status.ResolvedOrganic?
    ensures var c := StoppingContextOf(s, d, o.now); S.Paid(c) || s.status.Recovered? || s.status.ResolvedOrganic?
  {
    var p := if s.proposal.Some? then s.proposal.value else DO_NOTHING;
    var ctx := PolicyContextOf(s, d, o.now);
    var view := StoppingView(p, ctx);
    var v := S.Evaluate(view);
    hide S.Evaluate, AppliedOf, EffectiveClass;
    assert StoppedBy(Some(S.S01)) in Refusals(ctx, v);
    assert v.decision.Stop? && BlockingRule(v, 0) == Some(S.S01);
    BlockingRuleIsAResult(v, 0);
    var i :| 0 <= i < |v.results| && v.results[i].decision == v.decision && v.results[i].rule.S01?;
    OnlyTheFirstRuleIsS01(view, i);
  }

  /** The stopping rules are shown the case as it is, with nothing proposed yet. */
  lemma ShownAsItIs(s: Case, d: Deps, now: int)
    ensures var c := StoppingContextOf(s, d, now);
            && FactsOf(c) == s.facts && c.now == now && c.limits == d.stopping && c.caseStatus == s.status
            && c.attemptNo == s.attemptNo && c.discountAttempts == s.discountAttempts && c.outbound
            && c.messageClass.Transactional? && c.discountPct == 0.0
  {
  }

  /** TRIAGE closes a case that is stopped as the first reason says, and lets any other through. */
  lemma TriageEndsAs(s: Case, d: Deps, o: Outside)
    requires 0 <= d.stopping.releaseMinute < 60 && !s.status.Recovered? && !s.status.ResolvedOrganic?
    ensures var t, c := TriageNode(s, d, o), StoppingContextOf(s, d, o.now);
            t.status == if !S.Evaluate(c).decision.Stop? then Triaged
                        else if S.MustStop(c) then S.ClosedBy(c, S.FirstReason(c))
                        else Expired
  {
    var c := StoppingContextOf(s, d, o.now);
    if S.Evaluate(c).decision.Stop? {
      S.StopsAs(c);
    }
    hide S.Evaluate, S.MustStop, S.FirstReason, S.ClosedBy;
  }

  lemma {:induction false} BlockingRuleIsTheFirst(v: S.Verdict, from: nat, i: nat)
    requires v.decision.Stop? && from <= i < |v.results| && v.results[i].decision.Stop?
    requires forall k :: from <= k < i ==> !v.results[k].decision.Stop?
    ensures BlockingRule(v, from) == Some(v.results[i].rule)
    decreases i - from
  {
    if from < i {
      BlockingRuleIsTheFirst(v, from + 1, i);
    }
  }

  /** The rule a stop is put down to: the first that stops, in the order they are asked, or the end of the window for a hold. */
  lemma StoppedByTheFirst(c: S.Context)
    requires S.ReleaseMinuteOk(c) && S.Evaluate(c).decision.Stop?
    ensures BlockingRule(S.Evaluate(c), 0) == Some(if S.MustStop(c) then S.FirstReason(c) else S.S06)
  {
    var rs, v := S.Results(c), S.Evaluate(c);
    if S.MustStop(c) {
      S.FirstStopIsTheFirstReason(c);
      assert v.results[..12] == rs;
      hide S.Results, S.Weighed, S.Evaluate, S.FirstReason, S.ClosedBy, S.MustStop;
      var i :| 0 <= i < 12 && rs[i].decision.Stop? && (forall k :: 0 <= k < i ==> !rs[k].decision.Stop?) && rs[i].rule == S.FirstReason(c);
      assert forall k :: 0 <= k < 12 ==> v.results[k] == v.results[..12][k];
      BlockingRuleIsTheFirst(v, 0, i);
    } else {
      S.ResultsOnTheFacts(c);
      S.WeighedIsWorst(rs);
      hide S.Results, S.Weighed, S.HeldUntil, S.HoldsDated, S.MustStop;
      assert v.results == rs + [S.Halt(S.S06, Expired)];
      BlockingRuleIsTheFirst(v, 0, 12);
    }
  }

  /** What POLICY makes of a case it blocks, on the facts. */
  lemma PolicyBlocksAs(s: Case, d: Deps, o: Outside)
    requires 0 <= d.stopping.releaseMinute < 60 && PolicyNode(s, d, o).verdict == Some(Blocked)
    ensures var t, c := PolicyNode(s, d, o), StoppingContextOf(s, d, o.now);
            && t.applied.None? && t.token.None? && t.reference.None?
            && t.status ==
               if s.arm == Some(Control) then ObservedNoAction
               else if !ShownStop(s, d, o) then Suppressed
               else if !S.MustStop(c) || S.FirstReason(c).S06? then Expired
               else if S.FirstReason(c).S01? then ResolvedOrganic
               else Suppressed
  {
    var p := if s.proposal.Some? then s.proposal.value else DO_NOTHING;
    var ctx := PolicyContextOf(s, d, o.now);
    var view, c := StoppingView(p, ctx), StoppingContextOf(s, d, o.now);
    Firewall.VerdictExactly(p, ctx, d.key, o.now);
    assert S.MustStop(view) <==> S.MustStop(c);
    assert S.FirstReason(view) == S.FirstReason(c);
    BlockedHasNothing(p, ctx, d.key, o.now);
    if S.Evaluate(view).decision.Stop? {
      StoppedByTheFirst(view);
    }
    hide Decide, S.Evaluate, S.MustStop, S.FirstReason, BlockingRule, Firewall.RungFits;
  }

  lemma BlockedHasNothing(p: Proposal, ctx: PolicyContext, key: string, now: int)
    ensures var dec := Decide(p, ctx, key, now); dec.verdict.Blocked? ==> dec.applied.None? && dec.token.None?
  {
  }

  /** The stopping rules stop the case as POLICY shows it to them. */
  predicate ShownStop(s: Case, d: Deps, o: Outside) {
    S.Evaluate(StoppingView(if s.proposal.Some? then s.proposal.value else DO_NOTHING, PolicyContextOf(s, d, o.now))).decision.Stop?
  }

  /**
   Of a case it does not block, POLICY takes over the firewall's action; passed, the case executes under its
   token, and otherwise awaits approval without one.
   */
  lemma PolicyTakesTheAction(s: Case, d: Deps, o: Outside)
    requires PolicyNode(s, d, o).verdict != Some(Blocked)
    ensures var t, dec := PolicyNode(s, d, o), DecisionFor(s, d, o.now);
            && t.applied == dec.applied && t.applied.Some? && t.applied.value.caseId == s.id
            && t.applied.value.amountPaise == s.orderPaise && t.applied.value.attemptNo == s.attemptNo + 1
            && t.reference == Some(Ids.ReferenceId(s.id, s.attemptNo + 1))
            && (if s.proposal.Some?
                then t.applied.value.strategy == s.proposal.value.strategy && t.applied.value.channel == s.proposal.value.channel
                else t.applied.value.strategy.NoAction? && t.applied.value.channel.WhatsApp? && t.applied.value.chargeAmountPaise == s.orderPaise)
            && (t.verdict == Some(Passed) ==> t.status.Executing? && t.token == dec.token && t.token.Some?)
            && (t.verdict == Some(EscalateHitl) ==> t.status.AwaitingApproval? && t.token.None?)
  {
    var p := if s.proposal.Some? then s.proposal.value else DO_NOTHING;
    var ctx := PolicyContextOf(s, d, o.now);
    Firewall.VerdictExactly(p, ctx, d.key, o.now);
    AppliedIsProposed(p, ctx, d.key, o.now);
    Firewall.WhatIsTakenOff(p, ctx, d.key, o.now);
    hide Firewall.TakesOff, Decide, S.Evaluate, Mint, BlockedStatus, Firewall.RungFits;
  }

  lemma AppliedIsProposed(p: Proposal, ctx: PolicyContext, key: string, now: int)
    ensures var dec := Decide(p, ctx, key, now);
            dec.applied.Some? ==>
              && dec.applied.value.amountPaise == ctx.orderPaise
              && dec.applied.value.strategy == p.strategy && dec.applied.value.channel == p.channel
  {
    hide OfferOf, ValidityOf, EffectiveClass, StoppingView, EscalationRung, AllClamps, S.Evaluate, BlockingRule, HashOf, Mint;
  }

  /**
   EXECUTE without an action and its token suppresses the case; dispatched, or with no executor wired, it is
   monitored with one attempt more, and one discount more if it bears any; else as the executor replies.
   */
  lemma ExecuteEndsAs(s: Case, d: Deps, o: Outside)
    ensures var t := ExecuteNode(s, d, o);
            if s.applied.None? || s.token.None? then t.status.Suppressed? && t.attemptNo == s.attemptNo
            else if !d.wired || o.reply.Dispatched? then
              && t.status.Monitoring? && t.attemptNo == s.attemptNo + 1
              && t.discountAttempts == s.discountAttempts + if s.applied.value.discountPct > 0.0 then 1 else 0
            else
              && t.attemptNo == s.attemptNo && t.discountAttempts == s.discountAttempts
              && (o.reply.RetryScheduled? ==> t.status.Executing?) && (o.reply.DeadLettered? ==> t.status.FailedPermanent?)
  {
  }

  /** Only DIAGNOSE and STRATEGISE consult a model, each once at most and only while calls are left. */
  lemma ModelCallsAreCounted(n: Node, s: Case, d: Deps, o: Outside)
    ensures VisitNode(n, s, d, o).llmCalls
            == s.llmCalls + if (n.Diagnose? || n.Strategise?) && o.consulted && s.llmCalls < d.maxLlmCalls then 1 else 0
    ensures n.Strategise? ==> VisitNode(n, s, d, o).proposal == Some(o.proposal) && VisitNode(n, s, d, o).status.StrategyFormed?
    ensures n.Diagnose? ==> VisitNode(n, s, d, o).status.Diagnosing?
    ensures n.Escalate? ==> VisitNode(n, s, d, o).status.AwaitingApproval?
  {
    hide S.Evaluate, Decide, BlockedStatus;
  }

  lemma NotBlockedMeans(p: Proposal, ctx: PolicyContext, key: string, now: int)
    ensures var dec := Decide(p, ctx, key, now);
            && (!dec.verdict.Blocked? ==> ctx.arm.Treatment?)
            && (dec.verdict.Passed? ==> dec.applied.Some? && dec.applied.value.attemptNo == ctx.attemptNo)
  {
  }

  lemma VisitKeeps(n: Node, s: Case, d: Deps, o: Outside)
    requires S.ReleaseMinuteOk(StoppingContextOf(s, d, o.now))
    requires Arrived(n, s, d) && !Raises(n, s, d, o)
    ensures var t := VisitNode(n, s, d, o);
            match NextNode(n, t)
            case Some(m) => Arrived(m, t, d)
            case None => Settled(t, d)
  {
    hide TriageNode, PolicyNode, ExecuteNode, Decide, Authorised, Verifies;
    VisitCounts(n, s, d, o);
    if n.Triage? {
      TriageKeeps(s, d, o);
    } else if n.Policy? {
      PolicyKeeps(s, d, o);
    } else if n.Execute? {
      ExecuteKeeps(s, d, o);
    } else if n.Audit? {
      AuditKeeps(s, d);
    }
  }

  lemma AuditKeeps(s: Case, d: Deps)
    requires Settled(s, d)
    ensures Settled(Traced(s, Audit), d)
  {
  }

  lemma ExecuteKeeps(s: Case, d: Deps, o: Outside)
    requires Arrived(Execute, s, d)
    ensures Settled(ExecuteNode(s, d, o), d)
  {
    hide Decide;
    var p, ctx, now :| Decide(p, ctx, d.key, now).verdict.Passed? && MatchesCase(ctx, s, d)
         && s.applied == Decide(p, ctx, d.key, now).applied && s.token == Decide(p, ctx, d.key, now).token;
    assert MatchesCase(ctx, ExecuteNode(s, d, o), d);
  }

  predicate Within(s: Case, d: Deps) { s.llmCalls <= d.maxLlmCalls && 0 <= d.stopping.releaseMinute < 60 }

  /** The nodes a run adds to the trace: no EXECUTE for a held-out case, and AUDIT last. */
  predicate Walk(s: Case, f: Case, d: Deps) {
    && |f.trace| > |s.trace| && f.trace[..|s.trace|] == s.trace && f.trace[|f.trace| - 1].Audit?
    && (Assigned(s.id, d).Control? ==> Execute !in f.trace[|s.trace|..])
    && f.visits - s.visits == |f.trace| - |s.trace|
  }

  lemma {:induction false} RunKeeps(n: Node, s: Case, d: Deps, world: nat -> Outside, k: nat)
    requires Arrived(n, s, d) && Within(s, d) && s.visits + Rank(n) <= MAX_NODE_VISITS
    ensures var r := RunFrom(n, s, d, world, k);
            && r.Finished? && Settled(r.state, d) && Walk(s, r.state, d)
            && r.state.visits <= s.visits + Rank(n) + 1
            && r.state.id == s.id && r.state.orderPaise == s.orderPaise && r.state.facts == s.facts
    decreases Rank(n)
  {
    hide VisitNode, Arrived, Settled, Raises, Assigned, NextNode, Walk, S.ReleaseMinuteOk;
    var t := VisitNode(n, s, d, world(k));
    VisitCounts(n, s, d, world(k));
    if Raises(n, s, d, world(k)) {
      RaiseKeeps(n, s, d, world, k);
    } else {
      ReleaseMinuteKept(s, d, world(k).now);
      VisitKeeps(n, s, d, world(k));
      RankFalls(n, s, t, d);
      if NextNode(n, t).Some? {
        var m := NextNode(n, t).value;
        RunKeeps(m, t, d, world, k + 1);
        WalkOn(n, s, t, RunFrom(m, t, d, world, k + 1).state, d);
      }
    }
  }

  lemma ReleaseMinuteKept(s: Case, d: Deps, now: int)
    requires Within(s, d)
    ensures S.ReleaseMinuteOk(StoppingContextOf(s, d, now))
  {
  }

  /** Every transition goes down in rank, and only AUDIT ends the walk; a held-out case is never at EXECUTE. */
  lemma RankFalls(n: Node, s: Case, t: Case, d: Deps)
    requires Arrived(n, s, d) && t.trace == s.trace + [n] && t.visits == s.visits + 1 && t.id == s.id
    ensures Assigned(s.id, d).Control? ==> !n.Execute?
    ensures match NextNode(n, t) case Some(m) => Rank(m) < Rank(n) case None => Walk(s, t, d)
  {
  }

  lemma WalkOn(n: Node, s: Case, t: Case, f: Case, d: Deps)
    requires t.trace == s.trace + [n] && t.visits == s.visits + 1 && t.id == s.id && Walk(t, f, d)
    requires Assigned(s.id, d).Control? ==> !n.Execute?
    ensures Walk(s, f, d)
  {
  }

  lemma RaiseKeeps(n: Node, s: Case, d: Deps, world: nat -> Outside, k: nat)
    requires Arrived(n, s, d) && s.visits + Rank(n) <= MAX_NODE_VISITS && Raises(n, s, d, world(k))
    ensures var r := RunFrom(n, s, d, world, k);
            && r.Finished? && Settled(r.state, d) && Walk(s, r.state, d) && r.state.visits == s.visits + 2
            && r.state.id == s.id && r.state.orderPaise == s.orderPaise && r.state.facts == s.facts
  {
  }

  // --------------------------------------------------------------------------
  // Main results.

  /**
   Every run of a live case finishes, in at most eight visits and within the model-call budget, in a
   status someone will act on; MONITORING means the firewall passed this very action for a treated case.
   */
  lemma EveryRunSettles(s: Case, d: Deps, world: nat -> Outside)
    requires !Terminal(s.status) && Within(s, d) && s.visits <= 2
    ensures var r := RunCase(s, d, world);
            && r.Finished? && Settled(r.state, d) && Walk(s, r.state, d) && r.state.visits <= s.visits + 8
            && r.state.id == s.id && r.state.orderPaise == s.orderPaise && r.state.facts == s.facts
  {
    RunKeeps(Enrich, s, d, world, 0);
  }

  /** A node that crashes, and EXECUTE under a forged token, ends the run: the case has failed for good, and is audited. */
  lemma RaisedRunFails(n: Node, s: Case, d: Deps, world: nat -> Outside, k: nat)
    requires s.visits < 9
    requires world(k).crashes || (n.Execute? && s.applied.Some? && s.token.Some? && !Verifies(d.key, s.token.value))
    ensures RunFrom(n, s, d, world, k)
            == Finished(s.(status := FailedPermanent, visits := s.visits + 2, trace := s.trace + [n] + [Audit]))
  {
    hide VisitNode, Verifies;
  }

  /** Otherwise the run goes on with what the node makes of the case. */
  lemma OneVisit(n: Node, s: Case, d: Deps, world: nat -> Outside, k: nat)
    requires s.visits < 9 && s.llmCalls <= d.maxLlmCalls && !world(k).crashes
    requires n.Execute? && s.applied.Some? && s.token.Some? ==> Verifies(d.key, s.token.value)
    ensures var next := VisitNode(n, s, d, world(k));
            && next.visits == s.visits + 1 && next.trace == s.trace + [n] && next.llmCalls <= d.maxLlmCalls
            && RunFrom(n, s, d, world, k) == match NextNode(n, next) case None => Finished(next) case Some(m) => RunFrom(m, next, d, world, k + 1)
  {
    VisitCounts(n, s, d, world(k));
    hide VisitNode, Verifies, NextNode;
  }

  /** The case as the run has it on arrival at POLICY. */
  function AtPolicy(s: Case, d: Deps, world: nat -> Outside): Case {
    StrategiseNode(DiagnoseNode(TriageNode(Traced(s, Enrich), d, world(1)), d, world(2)), d, world(3))
  }

  predicate Undisturbed(world: nat -> Outside) { forall k :: 0 <= k <= 6 ==> !world(k).crashes }

  lemma ToPolicy(s: Case, d: Deps, world: nat -> Outside)
    requires !Terminal(s.status) && s.visits <= 2 && Within(s, d) && Undisturbed(world)
    requires TriageNode(Traced(s, Enrich), d, world(1)).status.Triaged?
    ensures var p := AtPolicy(s, d, world);
            && RunCase(s, d, world) == RunFrom(Policy, p, d, world, 4)
            && p.visits == s.visits + 4 && p.llmCalls <= d.maxLlmCalls && p.trace == s.trace + [Enrich, Triage, Diagnose, Strategise]
            && p.proposal == Some(world(3).proposal) && p.arm == Some(Assigned(s.id, d)) && p.id == s.id && p.attemptNo == s.attemptNo
  {
    hide RunFrom, S.Evaluate, Decide;
    assert !world(0).crashes && !world(1).crashes && !world(2).crashes && !world(3).crashes;
    OneVisit(Enrich, s, d, world, 0);
    var t := Traced(s, Enrich);
    OneVisit(Triage, t, d, world, 1);
    var u := TriageNode(t, d, world(1));
    OneVisit(Diagnose, u, d, world, 2);
    var v := DiagnoseNode(u, d, world(2));
    OneVisit(Strategise, v, d, world, 3);
  }

  /**
   A run that nothing disturbs goes all the way: stopped at TRIAGE, to AUDIT at once; else to POLICY with the
   model's proposal, and from there to EXECUTE exactly if passed, to ESCALATE exactly if that is asked for.
   */
  lemma UndisturbedRun(s: Case, d: Deps, world: nat -> Outside)
    requires !Terminal(s.status) && s.visits <= 2 && Within(s, d) && Undisturbed(world)
    ensures RunCase(s, d, world).Finished?
    ensures var f, t := RunCase(s, d, world).state, TriageNode(Traced(s, Enrich), d, world(1));
            if !t.status.Triaged? then f.status == t.status && f.trace == s.trace + [Enrich, Triage] + [Audit]
            else
              var p := PolicyNode(AtPolicy(s, d, world), d, world(4));
              if p.verdict == Some(Passed) then
                f.trace == s.trace + [Enrich, Triage, Diagnose, Strategise] + [Policy] + [Execute] + [Audit]
                && f.status == ExecuteNode(p, d, world(5)).status
              else if p.verdict == Some(EscalateHitl) then
                f.trace == s.trace + [Enrich, Triage, Diagnose, Strategise] + [Policy] + [Escalate] + [Audit] && f.status.AwaitingApproval?
              else f.trace == s.trace + [Enrich, Triage, Diagnose, Strategise] + [Policy] + [Audit] && f.status == p.status
  {
    hide RunFrom, TriageNode, S.Evaluate, PolicyNode, ExecuteNode, RunCase, AtPolicy, VisitNode, NextNode, Terminal, DiagnoseNode, StrategiseNode;
    assert !world(0).crashes && !world(1).crashes && !world(2).crashes && !world(4).crashes && !world(5).crashes && !world(6).crashes;
    if TriageNode(Traced(s, Enrich), d, world(1)).status.Triaged? {
      ToPolicy(s, d, world);
      FromPolicy(AtPolicy(s, d, world), d, world);
    } else {
      StoppedAtTriage(s, d, world);
    }
  }

  lemma StoppedAtTriage(s: Case, d: Deps, world: nat -> Outside)
    requires !Terminal(s.status) && s.visits <= 2 && Within(s, d) && !world(0).crashes && !world(1).crashes && !world(2).crashes
    requires !TriageNode(Traced(s, Enrich), d, world(1)).status.Triaged?
    ensures RunCase(s, d, world) == Finished(Traced(TriageNode(Traced(s, Enrich), d, world(1)), Audit))
    ensures TriageNode(Traced(s, Enrich), d, world(1)).trace == s.trace + [Enrich, Triage]
  {
    var t := TriageNode(Traced(s, Enrich), d, world(1));
    ReleaseMinuteKept(Traced(s, Enrich), d, world(1).now);
    TriageKeeps(Traced(s, Enrich), d, world(1));
    hide RunFrom, TriageNode, S.Evaluate;
    OneVisit(Enrich, s, d, world, 0);
    OneVisit(Triage, Traced(s, Enrich), d, world, 1);
    AuditEnds(t, d, world, 2);
  }

  lemma FromPolicy(s: Case, d: Deps, world: nat -> Outside)
    requires s.visits <= 6 && Within(s, d) && !world(4).crashes && !world(5).crashes && !world(6).crashes
    ensures RunFrom(Policy, s, d, world, 4).Finished?
    ensures var f, p := RunFrom(Policy, s, d, world, 4).state, PolicyNode(s, d, world(4));
            if p.verdict == Some(Passed) then
              f.trace == s.trace + [Policy] + [Execute] + [Audit] && f.status == ExecuteNode(p, d, world(5)).status
            else if p.verdict == Some(EscalateHitl) then
              f.trace == s.trace + [Policy] + [Escalate] + [Audit] && f.status.AwaitingApproval?
            else f.trace == s.trace + [Policy] + [Audit] && f.status == p.status
  {
    var p := PolicyNode(s, d, world(4));
    PassedTokenVerifies(s, d, world(4));
    PolicyMoves(s, d, world(4));
    hide RunFrom, PolicyNode, ExecuteNode, Verifies, VisitNode, NextNode;
    OneVisit(Policy, s, d, world, 4);
    if p.verdict == Some(Passed) {
      ExecuteThenAudit(p, d, world, 5);
    } else if p.verdict == Some(EscalateHitl) {
      EscalateThenAudit(p, d, world, 5);
    } else {
      AuditEnds(p, d, world, 5);
    }
  }

  lemma PolicyMoves(s: Case, d: Deps, o: Outside)
    ensures var p := PolicyNode(s, d, o);
            && VisitNode(Policy, s, d, o) == p
            && NextNode(Policy, p) == Some(if p.verdict == Some(Passed) then Execute else if p.verdict == Some(EscalateHitl) then Escalate else Audit)
  {
    hide PolicyNode;
  }

  lemma AuditEnds(s: Case, d: Deps, world: nat -> Outside, k: nat)
    requires s.visits < 9 && s.llmCalls <= d.maxLlmCalls && !world(k).crashes
    ensures RunFrom(Audit, s, d, world, k) == Finished(Traced(s, Audit))
  {
    hide RunFrom;
    OneVisit(Audit, s, d, world, k);
  }

  lemma ExecuteThenAudit(s: Case, d: Deps, world: nat -> Outside, k: nat)
    requires s.visits < 8 && s.llmCalls <= d.maxLlmCalls && !world(k).crashes && !world(k + 1).crashes
    requires s.token.Some? ==> Verifies(d.key, s.token.value)
    ensures RunFrom(Execute, s, d, world, k) == Finished(Traced(ExecuteNode(s, d, world(k)), Audit))
    ensures ExecuteNode(s, d, world(k)).trace == s.trace + [Execute]
  {
    hide RunFrom, ExecuteNode, Verifies;
    OneVisit(Execute, s, d, world, k);
    AuditEnds(ExecuteNode(s, d, world(k)), d, world, k + 1);
  }

  lemma EscalateThenAudit(s: Case, d: Deps, world: nat -> Outside, k: nat)
    requires s.visits < 8 && s.llmCalls <= d.maxLlmCalls && !world(k).crashes && !world(k + 1).crashes
    ensures RunFrom(Escalate, s, d, world, k) == Finished(Traced(Traced(s, Escalate).(status := AwaitingApproval), Audit))
  {
    hide RunFrom;
    OneVisit(Escalate, s, d, world, k);
    AuditEnds(Traced(s, Escalate).(status := AwaitingApproval), d, world, k + 1);
  }

  lemma PassedTokenVerifies(s: Case, d: Deps, o: Outside)
    ensures var p := PolicyNode(s, d, o); p.token.Some? ==> Verifies(d.key, p.token.value)
  {
    hide S.Evaluate, AppliedOf, AllClamps, ClassClamps, BlockingRule, EffectiveClass, HashOf, Refusals, BlockedStatus;
  }

  /** No run starts its ninth visit after eight, or later: the bound is on the case, not on the run. */
  lemma NineVisitsAreTheBound(s: Case, d: Deps, world: nat -> Outside)
    requires !Terminal(s.status)
    ensures s.visits >= 9 ==> RunCase(s, d, world).BoundExceeded?
    ensures s.visits == 8 && !world(0).crashes ==> RunCase(s, d, world).BoundExceeded?
    ensures s.visits == 8 && world(0).crashes ==> RunCase(s, d, world).Finished? && RunCase(s, d, world).state.status.FailedPermanent?
  {
    hide TriageNode, Terminal;
    if s.visits == 8 && !world(0).crashes {
      var next := Traced(s, Enrich);
      assert RunCase(s, d, world) == BoundExceeded || RunCase(s, d, world) == RunFrom(Triage, next, d, world, 1);
    }
  }

  /**
   A case is held out exactly if its position lies below the control fraction: at zero none is, at one every
   one is, and a larger fraction only adds to the control arm.
   */
  lemma HeldOutByPosition(id: string, d: Deps, more: Deps)
    requires 0.0 <= d.position(id) < 1.0 && more.position(id) == d.position(id) && d.controlFraction <= more.controlFraction
    ensures d.position(id) < d.controlFraction <==> Assigned(id, d) == Control
    ensures d.controlFraction == 0.0 ==> Assigned(id, d) == Treatment
    ensures d.controlFraction == 1.0 ==> Assigned(id, d) == Control
    ensures Assigned(id, d) == Control ==> Assigned(id, more) == Control
  {
  }

  /** An arm that a run puts on a case is the assigned one. */
  lemma {:induction false} ArmIsAssigned(n: Node, s: Case, d: Deps, world: nat -> Outside, k: nat)
    requires s.arm.Some? ==> s.arm == Some(Assigned(s.id, d))
    ensures var r := RunFrom(n, s, d, world, k); r.Finished? && r.state.arm.Some? ==> r.state.arm == Some(Assigned(s.id, d))
    decreases MAX_NODE_VISITS - s.visits
  {
    hide S.Evaluate, Decide, BlockedStatus, Assigned, Raises, NextNode;
    if s.visits < MAX_NODE_VISITS {
      var next := VisitNode(n, s, d, world(k));
      VisitCounts(n, s, d, world(k));
      assert next.arm.Some? ==> next.arm == Some(Assigned(s.id, d));
      hide VisitNode;
      if NextNode(n, next).Some? {
        ArmIsAssigned(NextNode(n, next).value, next, d, world, k + 1);
      }
    }
  }

  /** A case of the control arm ends terminal, unrecovered, without an EXECUTE and without a reference. */
  lemma HeldOutIsOnlyObserved(s: Case, d: Deps, world: nat -> Outside)
    requires !Terminal(s.status) && Within(s, d) && s.visits <= 2
    requires Assigned(s.id, d).Control?
    ensures var r := RunCase(s, d, world);
            && r.Finished? && Terminal(r.state.status) && !r.state.status.Recovered?
            && |r.state.trace| > |s.trace| && Execute !in r.state.trace[|s.trace|..]
  {
    EveryRunSettles(s, d, world);
    hide RunFrom;
  }

  /** What is dispatched lies within the deployed limits for the case's own amount, under a valid capability. */
  lemma DispatchedIsWithinLimits(s: Case, d: Deps, world: nat -> Outside)
    requires !Terminal(s.status) && Within(s, d) && s.visits <= 2 && Firewall.SoundLimits(d.money)
    requires RunCase(s, d, world).Finished? && RunCase(s, d, world).state.status.Monitoring?
    ensures var f := RunCase(s, d, world).state;
            && f.applied.Some? && f.token.Some? && Verifies(d.key, f.token.value) && f.token.value.applied == f.applied.value
            && f.applied.value.caseId == s.id
            && Firewall.WithinLimits(f.applied.value, s.orderPaise, d.money)
            && (f.applied.value.strategy.NoAction? || s.orderPaise < d.money.autonomousPaise)
  {
    EveryRunSettles(s, d, world);
    var f := RunCase(s, d, world).state;
    AuthorisedIsBounded(f, d);
    hide RunFrom, Decide, Verifies, Firewall.WithinLimits;
  }

  /** No brake that waiting does not release was on when the case was authorised. */
  lemma AuthorisedIsUnbraked(f: Case, d: Deps)
    requires Authorised(f, d) && 0 <= d.stopping.releaseMinute < 60
    ensures f.facts.autopilotEnabled && !f.facts.optedOut && f.facts.transactionalConsent
    ensures f.facts.contacts48h < d.stopping.maxContacts48h
    ensures f.facts.actionsToday < d.stopping.dailyActionBudget && f.facts.discountMonthPaise < d.stopping.monthlyDiscountPaise
    ensures f.facts.orderStatus.Some? ==> Lower(f.facts.orderStatus.value) != "paid" && Lower(f.facts.orderStatus.value) != "captured"
  {
    hide Decide;
    var p, ctx, now :| Decide(p, ctx, d.key, now).verdict.Passed? && MatchesCase(ctx, f, d)
         && f.applied == Decide(p, ctx, d.key, now).applied && f.token == Decide(p, ctx, d.key, now).token;
    Firewall.PassedIsUnbraked(p, ctx, d.key, now);
  }

  lemma AuthorisedIsBounded(f: Case, d: Deps)
    requires Authorised(f, d) && Firewall.SoundLimits(d.money)
    ensures && f.applied.Some? && f.token.Some? && Verifies(d.key, f.token.value)
            && f.token.value.applied == f.applied.value
            && f.applied.value.caseId == f.id
            && Firewall.WithinLimits(f.applied.value, f.orderPaise, d.money)
            && (f.applied.value.strategy.NoAction? || f.orderPaise < d.money.autonomousPaise)
  {
    hide Decide, Verifies, Firewall.WithinLimits, Firewall.RungFits;
    var p, ctx, now :| Decide(p, ctx, d.key, now).verdict.Passed? && MatchesCase(ctx, f, d)
         && f.applied == Decide(p, ctx, d.key, now).applied && f.token == Decide(p, ctx, d.key, now).token;
    Firewall.FirewallIsClosed(p, ctx, d.key, now);
    Firewall.VerdictExactly(p, ctx, d.key, now);
    if !p.strategy.NoAction? {
      Firewall.UnapprovedMeansSmall(p, ctx, d.key, now);
    }
  }
}
