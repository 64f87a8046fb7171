/**
 Settlement as a system: webhooks delivered more than once, late or foreign, polls, approvals, sweeps
 and the agent's own moves all write the same case rows, one committed transaction at a time.
 */
module Settlement {
  import opened Text
  import opened Enums
  import opened Ids
  import opened Attribution
  import Outbox

  datatype Verifier = Webhook | ApiReconciliation | Simulator

  datatype CaseRow = CaseRow(
    status: CaseStatus,
    amountPaise: int,
    recoveredPaise: int,
    verifiedBy: Option<string>,
    via: Option<Verifier>,
    arm: Arm,
    windowExpiresAt: int)

  datatype Intent = Intent(caseId: string, status: Outbox.Status)

  datatype ActionRef = ActionRef(reference: string, caseId: string)

  datatype ApprovalStatus = Waiting | Approved | Declined | Lapsed

  datatype Approval = Approval(caseId: string, status: ApprovalStatus, hash: string, expiresAt: int)

  datatype Event = Event(id: string, eventType: string, reference: Option<string>, amountPaise: Option<int>)

  /** Audit blocks: the ones that credit a recovery, and the rest by name. */
  datatype Block = RecoveryVerified(caseId: string, amountPaise: int) | Noted(name: string, caseId: string)

  /**
   The tables. `intents` and `observed` are keyed by their UNIQUE references; `inbox` holds the events
   whose background task has not run, `handled` the ids of those whose task did.
   */
  datatype Ledger = Ledger(
    cases: map<string, CaseRow>,
    intents: map<string, Intent>,
    actions: seq<ActionRef>,
    observed: map<string, string>,
    approvals: map<string, Approval>,
    ingested: set<string>,
    inbox: seq<Event>,
    handled: seq<string>,
    polled: set<string>,
    audit: seq<Block>)

  /** 24 hours, in microseconds. */
  const GRACE := 24 * 3600 * 1000000

  datatype Found = Nobody | Issued(caseId: string, reference: string) | Held(caseId: string)

  function FindAction(actions: seq<ActionRef>, needle: string): (r: Option<ActionRef>)
    ensures r.Some? ==> r.value in actions && Lower(r.value.reference) == needle
    ensures r.None? ==> forall x :: x in actions ==> Lower(x.reference) != needle
  {
    if actions == [] then None
    else if Lower(actions[0].reference) == needle then Some(actions[0])
    else FindAction(actions[1..], needle)
  }

  /**
   The case a reference belongs to, and the reference as issued; none was issued to a held-out case.
   Keys are emitted in lower case, so the case-insensitive query is a lookup of the needle.
   */
  function FindCase(l: Ledger, reference: string): Found {
    var needle := Lower(Strip(reference));
    if needle in l.intents then Issued(l.intents[needle].caseId, needle)
    else
      match FindAction(l.actions, needle)
      case Some(x) => Issued(x.caseId, x.reference)
      case None => if needle in l.observed then Held(l.observed[needle]) else Nobody
  }

  datatype SettleOutcome = NotSettling | NotOurs | Uncounted | Credited(caseId: string, amountPaise: int) | RolledBack

  /** What a settling event does to the case it was matched to. */
  function SettleCase(l: Ledger, c: string, issued: Option<string>, e: Event, now: int): (Ledger, SettleOutcome)
    requires c in l.cases
  {
    var row := l.cases[c];
    match Attribute(true, e.eventType, e.reference, e.amountPaise, issued, row.status, row.amountPaise,
                    row.verifiedBy.Some?, now, Some(row.windowExpiresAt), GRACE)
    case NotCounted(organic) =>
      if organic && !row.status.Recovered? && !row.status.ResolvedOrganic? then
        (l.(cases := l.cases[c := row.(status := ResolvedOrganic)]), Uncounted)
      else (l, Uncounted)
    case Counted(amount) =>
      // CHECK(recovered_amount_paise >= 0) refuses the row, and the transaction rolls back.
      if amount < 0 then (l, RolledBack)
      else
        var after := row.(status := Recovered, recoveredPaise := amount, verifiedBy := Some(e.id), via := Some(Webhook));
        (l.(cases := l.cases[c := after], audit := l.audit + [RecoveryVerified(c, amount)]), Credited(c, amount))
  }

  function IssuedOf(found: Found): Option<string> {
    if found.Issued? then Some(found.reference) else None
  }

  /** One verified event, in its own transaction. */
  function Settle(l: Ledger, e: Event, now: int): (Ledger, SettleOutcome) {
    if e.eventType !in SETTLING_EVENTS || e.reference.None? || e.reference.value == "" then (l, NotSettling)
    else
      var found := FindCase(l, e.reference.value);
      if found.Nobody? || found.caseId !in l.cases then (l, NotOurs)
      else SettleCase(l, found.caseId, IssuedOf(found), e, now)
  }

  /** The cases a poll asks about: dispatched to, watched, and without proof so far. */
  function Outstanding(l: Ledger): set<string> {
    set r | r in l.intents && Pollable(l, r) :: l.intents[r].caseId
  }

  predicate Pollable(l: Ledger, r: string) {
    r in l.intents &&
    var i := l.intents[r];
    && (i.status.Sent? || i.status.Sending?)
    && i.caseId in l.cases && l.cases[i.caseId].status.Monitoring? && l.cases[i.caseId].verifiedBy.None?
  }

  /** A link of an outstanding case was found paid; the write re-checks only the verifier. */
  function SettleByPoll(l: Ledger, c: string, proof: string): (Ledger, bool) {
    if c !in l.cases || l.cases[c].verifiedBy.Some? then (l, false)
    else
      var row := l.cases[c];
      var after := row.(status := Recovered, recoveredPaise := row.amountPaise,
                        verifiedBy := Some(proof), via := Some(ApiReconciliation));
      (l.(cases := l.cases[c := after], audit := l.audit + [RecoveryVerified(c, row.amountPaise)]), true)
  }

  datatype DecideAnswer = NoSuchApproval | AlreadyDecided | TooLate | HashMismatch | Done

  function WithStatus(l: Ledger, c: string, from: CaseStatus, to: CaseStatus): Ledger {
    if c in l.cases && l.cases[c].status == from then
      l.(cases := l.cases[c := l.cases[c].(status := to)])
    else l
  }

  function DecisionName(approve: bool): string {
    if approve then "approval.approved" else "approval.rejected"
  }

  /** The decision lands on the approval, on a case still waiting for it, and in the log. */
  function Decided(l: Ledger, id: string, approve: bool): Ledger
    requires id in l.approvals
  {
    var a := l.approvals[id];
    var decided := l.(approvals := l.approvals[id := a.(status := if approve then Approved else Declined)]);
    var moved := WithStatus(decided, a.caseId, AwaitingApproval, if approve then StrategyFormed else Rejected);
    moved.(audit := moved.audit + [Noted(DecisionName(approve), a.caseId)])
  }

  /** A reviewer's decision. Acting on an expired one marks it and leaves its case waiting. */
  function Decide(l: Ledger, id: string, approve: bool, presented: string, now: int): (Ledger, DecideAnswer) {
    if id !in l.approvals then (l, NoSuchApproval)
    else
      var a := l.approvals[id];
      if !a.status.Waiting? then (l, AlreadyDecided)
      else if a.expiresAt <= now then (l.(approvals := l.approvals[id := a.(status := Lapsed)]), TooLate)
      else if presented != a.hash then (l, HashMismatch)
      else (Decided(l, id, approve), Done)
  }

  /** One approval past its TTL, in the sweep. */
  function Lapse(l: Ledger, id: string, now: int): Ledger {
    if id !in l.approvals || !l.approvals[id].status.Waiting? || l.approvals[id].expiresAt > now then l
    else
      var a := l.approvals[id];
      var moved := WithStatus(l.(approvals := l.approvals[id := a.(status := Lapsed)]), a.caseId, AwaitingApproval, Expired);
      moved.(audit := moved.audit + [Noted("approval.expired", a.caseId)])
  }

  /** A case as the database first sees it: unproven, or proven by the simulator in the treatment arm. */
  predicate Fresh(row: CaseRow) {
    && row.amountPaise > 0
    && (|| (!row.status.Recovered? && row.verifiedBy.None? && row.via.None? && row.recoveredPaise == 0)
        || (&& row.status.Recovered? && row.verifiedBy.Some? && row.via == Some(Simulator)
            && row.recoveredPaise == row.amountPaise && row.arm.Treatment?))
  }

  datatype Step =
    | OpenCase(caseId: string, row: CaseRow)
    | HoldOut(caseId: string)
    | Deliver(e: Event)
    | RunTask(i: nat, now: int)
    | LoseTask(i: nat)
    | PollRead
    | PollWrite(caseId: string, proof: string)
    | Review(approvalId: string, approve: bool, presented: string, now: int)
    | AskApproval(approvalId: string, a: Approval)
    | LapseOne(approvalId: string, now: int)
    | Issue(caseId: string, attemptNo: nat)
    | IntentMoves(reference: string, status: Outbox.Status)
    | RecordAction(caseId: string, attemptNo: nat)
    | AgentMoves(caseId: string, to: CaseStatus)

  function Without<T>(s: seq<T>, i: nat): seq<T>
    requires i < |s|
  {
    s[..i] + s[i + 1..]
  }

  predicate InTreatment(l: Ledger, c: string) {
    c in l.cases && l.cases[c].arm.Treatment?
  }

  /** One step; a step that is not enabled changes nothing. */
  function Apply(l: Ledger, step: Step): Ledger {
    match step
    case OpenCase(c, row) => if c in l.cases || !Fresh(row) then l else l.(cases := l.cases[c := row])
    case HoldOut(c) =>
      // The reference of a held-out case's own checkout.
      if c in l.cases && l.cases[c].arm.Control? && ObservedReferenceId(c) !in l.observed
      then l.(observed := l.observed[ObservedReferenceId(c) := c]) else l
    case Deliver(e) =>
      // UNIQUE(event_id) is the check; a duplicate queues nothing.
      if e.id in l.ingested then l else l.(ingested := l.ingested + {e.id}, inbox := l.inbox + [e])
    case RunTask(i, now) =>
      if i >= |l.inbox| then l
      else
        var e := l.inbox[i];
        Settle(l.(inbox := Without(l.inbox, i), handled := l.handled + [e.id]), e, now).0
    case LoseTask(i) => if i >= |l.inbox| then l else l.(inbox := Without(l.inbox, i))
    case PollRead => l.(polled := l.polled + Outstanding(l))
    case PollWrite(c, proof) => if c in l.polled then SettleByPoll(l, c, proof).0 else l
    case Review(id, approve, presented, now) => Decide(l, id, approve, presented, now).0
    case AskApproval(id, a) => if id in l.approvals then l else l.(approvals := l.approvals[id := a])
    case LapseOne(id, now) => Lapse(l, id, now)
    case Issue(c, n) =>
      // The firewall blocks the control arm; an existing row for the reference is reused.
      if InTreatment(l, c) && ReferenceId(c, n) !in l.intents
      then l.(intents := l.intents[ReferenceId(c, n) := Intent(c, Outbox.Pending)]) else l
    case IntentMoves(r, st) =>
      if r in l.intents then l.(intents := l.intents[r := l.intents[r].(status := st)]) else l
    case RecordAction(c, n) =>
      if InTreatment(l, c) then l.(actions := l.actions + [ActionRef(ReferenceId(c, n), c)]) else l
    case AgentMoves(c, st) =>
      if c in l.cases && !Terminal(l.cases[c].status) && !st.Recovered?
      then l.(cases := l.cases[c := l.cases[c].(status := st)]) else l
  }

  function Exec(l: Ledger, steps: seq<Step>): Ledger {
    if steps == [] then l else Apply(Exec(l, steps[..|steps| - 1]), steps[|steps| - 1])
  }

  const EMPTY_LEDGER := Ledger(map[], map[], [], map[], map[], {}, [], [], {}, [])

  // --------------------------------------------------------------------------
  // What every run keeps.

  predicate RowOk(row: CaseRow) {
    && row.amountPaise > 0
    && 0 <= row.recoveredPaise <= row.amountPaise
    && (row.status.Recovered? <==> row.verifiedBy.Some?)
    && (row.via.Some? <==> row.verifiedBy.Some?)
    && (row.verifiedBy.None? ==> row.recoveredPaise == 0)
    && (row.arm.Control? ==> row.verifiedBy.None?)
  }

  /** The reference is one of ours, for a case of the treatment arm. */
  ghost predicate OwnReference(l: Ledger, r: string, c: string) {
    InTreatment(l, c) && exists n: nat :: r == ReferenceId(c, n)
  }

  ghost predicate ReferencesOk(l: Ledger) {
    && (forall r :: r in l.intents ==> OwnReference(l, r, l.intents[r].caseId))
    && (forall x :: x in l.actions ==> OwnReference(l, x.reference, x.caseId))
    && (forall o :: o in l.observed ==>
         o == ObservedReferenceId(l.observed[o]) && l.observed[o] in l.cases && l.cases[l.observed[o]].arm.Control?)
    && (forall c :: c in l.polled ==> InTreatment(l, c))
  }

  /** The amounts credited to one case in the audit log, in order. */
  function CreditsOf(audit: seq<Block>, c: string): seq<int> {
    if audit == [] then []
    else
      var last := audit[|audit| - 1];
      CreditsOf(audit[..|audit| - 1], c) + if last.RecoveryVerified? && last.caseId == c then [last.amountPaise] else []
  }

  predicate ProvenByProvider(row: CaseRow) {
    row.via == Some(Webhook) || row.via == Some(ApiReconciliation)
  }

  /** Each case is credited in the log once, with its recovered amount, or never. */
  ghost predicate CreditsMatch(l: Ledger) {
    forall c :: CreditsOf(l.audit, c)
      == if c in l.cases && ProvenByProvider(l.cases[c]) then [l.cases[c].recoveredPaise] else []
  }

  function Queue(l: Ledger): seq<string> {
    l.handled + seq(|l.inbox|, i requires 0 <= i < |l.inbox| => l.inbox[i].id)
  }

  /** Every event id is handled or waiting at most once, and was ingested. */
  ghost predicate EventsOnce(l: Ledger) {
    && (forall i, j :: 0 <= i < j < |Queue(l)| ==> Queue(l)[i] != Queue(l)[j])
    && (forall i :: 0 <= i < |Queue(l)| ==> Queue(l)[i] in l.ingested)
  }

  ghost predicate Honest(l: Ledger) {
    && (forall c :: c in l.cases ==> RowOk(l.cases[c]))
    && ReferencesOk(l)
    && CreditsMatch(l)
  }

  /** No row is lost or changes arm or amount; a RECOVERED row never changes at all. */
  predicate Frozen(l: Ledger, m: Ledger) {
    forall c | c in l.cases ::
      && c in m.cases
      && m.cases[c].arm == l.cases[c].arm && m.cases[c].amountPaise == l.cases[c].amountPaise
      && (l.cases[c].verifiedBy.Some? ==> m.cases[c] == l.cases[c])
  }

  lemma CreditsAppend(audit: seq<Block>, b: Block, c: string)
    ensures CreditsOf(audit + [b], c)
            == CreditsOf(audit, c) + if b.RecoveryVerified? && b.caseId == c then [b.amountPaise] else []
  {
  }

  /** One row changes, nothing is credited: what a status move, a new case or an organic close does. */
  lemma RowMoveHonest(l: Ledger, m: Ledger, c: string)
    requires Honest(l) && c in m.cases && m == l.(cases := l.cases[c := m.cases[c]])
    requires RowOk(m.cases[c]) && !ProvenByProvider(m.cases[c])
    requires c in l.cases ==>
      m.cases[c].arm == l.cases[c].arm && m.cases[c].amountPaise == l.cases[c].amountPaise && l.cases[c].verifiedBy.None?
    ensures Honest(m) && Frozen(l, m)
  {
    OwnershipKept(l, m);
  }

  /** Ownership only reads arms, which never change. */
  lemma OwnershipKept(l: Ledger, m: Ledger)
    requires ReferencesOk(l) && m.intents == l.intents && m.actions == l.actions && m.observed == l.observed
    requires m.polled == l.polled
    requires forall c :: c in l.cases ==> c in m.cases && m.cases[c].arm == l.cases[c].arm
    ensures ReferencesOk(m)
  {
  }

  lemma CreditMatches(l: Ledger, m: Ledger, c: string)
    requires CreditsMatch(l) && c in l.cases && !ProvenByProvider(l.cases[c])
    requires c in m.cases && ProvenByProvider(m.cases[c])
    requires m == l.(cases := l.cases[c := m.cases[c]], audit := l.audit + [RecoveryVerified(c, m.cases[c].recoveredPaise)])
    ensures CreditsMatch(m)
  {
  }

  /** One case is credited, in its row and in the log, by one transaction. */
  lemma CreditHonest(l: Ledger, m: Ledger, c: string)
    requires Honest(l) && c in l.cases && l.cases[c].verifiedBy.None? && InTreatment(l, c)
    requires c in m.cases && RowOk(m.cases[c]) && ProvenByProvider(m.cases[c])
    requires m.cases[c].arm == l.cases[c].arm && m.cases[c].amountPaise == l.cases[c].amountPaise
    requires m == l.(cases := l.cases[c := m.cases[c]], audit := l.audit + [RecoveryVerified(c, m.cases[c].recoveredPaise)])
    ensures Honest(m) && Frozen(l, m)
  {
    assert RowOk(l.cases[c]);
    assert !ProvenByProvider(l.cases[c]);
    hide RowOk, CreditsMatch, ReferencesOk, ProvenByProvider;
    OwnershipKept(l, m);
    CreditMatches(l, m, c);
  }

  /** Who a settling reference belongs to: the one treatment case it was issued for, or a held-out case. */
  lemma FoundIsOwn(l: Ledger, reference: string)
    requires ReferencesOk(l)
    ensures var f := FindCase(l, reference);
            && (f.Issued? ==>
                 && InTreatment(l, f.caseId)
                 && exists n: nat :: Lower(Strip(reference)) == ReferenceId(f.caseId, n))
            && (f.Held? ==> f.caseId in l.cases && l.cases[f.caseId].arm.Control?)
  {
  }

  lemma SettleCaseHonest(l: Ledger, c: string, issued: Option<string>, e: Event, now: int)
    requires Honest(l) && c in l.cases && (issued.Some? ==> InTreatment(l, c))
    ensures Honest(SettleCase(l, c, issued, e, now).0) && Frozen(l, SettleCase(l, c, issued, e, now).0)
  {
    var (m, o) := SettleCase(l, c, issued, e, now);
    var row := l.cases[c];
    assert RowOk(row);
    CountedExactlyWhen(true, e.eventType, e.reference, e.amountPaise, issued, row.status, row.amountPaise,
                       row.verifiedBy.Some?, now, Some(row.windowExpiresAt), GRACE);
    if o.Credited? {
      CreditHonest(l, m, c);
    } else if m != l {
      RowMoveHonest(l, m, c);
    }
  }

  lemma SettleHonest(l: Ledger, e: Event, now: int)
    requires Honest(l)
    ensures Honest(Settle(l, e, now).0) && Frozen(l, Settle(l, e, now).0)
  {
    if e.reference.Some? {
      FoundIsOwn(l, e.reference.value);
      var found := FindCase(l, e.reference.value);
      if !found.Nobody? && found.caseId in l.cases {
        SettleCaseHonest(l, found.caseId, IssuedOf(found), e, now);
      }
    }
  }

  lemma PollHonest(l: Ledger, c: string, proof: string)
    requires Honest(l) && c in l.polled
    ensures Honest(SettleByPoll(l, c, proof).0) && Frozen(l, SettleByPoll(l, c, proof).0)
  {
    var (m, settled) := SettleByPoll(l, c, proof);
    if settled {
      CreditHonest(l, m, c);
    }
  }

  lemma NoteHonest(l: Ledger, m: Ledger, b: Block)
    requires Honest(l) && b.Noted? && m == l.(audit := l.audit + [b])
    ensures Honest(m)
  {
    OwnershipKept(l, m);
    forall x ensures CreditsOf(m.audit, x) == CreditsOf(l.audit, x) {
      CreditsAppend(l.audit, b, x);
    }
  }

  lemma WithStatusHonest(l: Ledger, c: string, to: CaseStatus)
    requires Honest(l) && !to.Recovered?
    ensures var m := WithStatus(l, c, AwaitingApproval, to); Honest(m) && Frozen(l, m)
  {
    var m := WithStatus(l, c, AwaitingApproval, to);
    if m != l {
      assert RowOk(l.cases[c]);
      RowMoveHonest(l, m, c);
    }
  }

  lemma DecidedHonest(l: Ledger, id: string, approve: bool)
    requires Honest(l) && id in l.approvals
    ensures Honest(Decided(l, id, approve)) && Frozen(l, Decided(l, id, approve))
  {
    var a := l.approvals[id];
    var decided := l.(approvals := l.approvals[id := a.(status := if approve then Approved else Declined)]);
    ApprovalHonest(l, decided);
    StatusNoted(decided, a.caseId, if approve then StrategyFormed else Rejected, DecisionName(approve));
  }

  lemma ReviewHonest(l: Ledger, id: string, approve: bool, presented: string, now: int)
    requires Honest(l)
    ensures Honest(Decide(l, id, approve, presented, now).0) && Frozen(l, Decide(l, id, approve, presented, now).0)
  {
    hide Honest, Frozen, Decided;
    var (m, answer) := Decide(l, id, approve, presented, now);
    if answer.Done? {
      DecidedHonest(l, id, approve);
    } else {
      ApprovalHonest(l, m);
    }
  }

  lemma StatusNoted(l: Ledger, c: string, to: CaseStatus, name: string)
    requires Honest(l) && !to.Recovered?
    ensures var moved := WithStatus(l, c, AwaitingApproval, to);
            var m := moved.(audit := moved.audit + [Noted(name, c)]);
            Honest(m) && Frozen(l, m)
  {
    WithStatusHonest(l, c, to);
    var moved := WithStatus(l, c, AwaitingApproval, to);
    NoteHonest(moved, moved.(audit := moved.audit + [Noted(name, c)]), Noted(name, c));
  }

  lemma LapseHonest(l: Ledger, id: string, now: int)
    requires Honest(l)
    ensures Honest(Lapse(l, id, now)) && Frozen(l, Lapse(l, id, now))
  {
    if Lapse(l, id, now) != l {
      var a := l.approvals[id];
      var lapsed := l.(approvals := l.approvals[id := a.(status := Lapsed)]);
      ApprovalHonest(l, lapsed);
      StatusNoted(lapsed, a.caseId, Expired, "approval.expired");
    }
  }

  /** References change, rows and log do not. */
  lemma ReferencesHonest(l: Ledger, m: Ledger)
    requires Honest(l) && ReferencesOk(m) && m.cases == l.cases && m.audit == l.audit
    ensures Honest(m) && Frozen(l, m)
  {
  }

  lemma OwnIntro(l: Ledger, c: string, n: nat)
    requires InTreatment(l, c)
    ensures OwnReference(l, ReferenceId(c, n), c)
  {
  }

  lemma IssueHonest(l: Ledger, c: string, n: nat)
    requires Honest(l)
    ensures Honest(Apply(l, Issue(c, n))) && Frozen(l, Apply(l, Issue(c, n)))
  {
    hide ReferenceId, ObservedReferenceId, CreditsOf, RowOk, Decide, Settle, Lapse, SettleByPoll, Outstanding;
    var m := Apply(l, Issue(c, n));
    if m != l {
      OwnershipKept(l, m.(intents := l.intents));
      OwnIntro(m, c, n);
      forall r | r in m.intents ensures OwnReference(m, r, m.intents[r].caseId) {
        assert r in l.intents ==> OwnReference(l, r, l.intents[r].caseId);
      }
      ReferencesHonest(l, m);
    }
  }

  lemma IntentMovesHonest(l: Ledger, r: string, st: Outbox.Status)
    requires Honest(l)
    ensures Honest(Apply(l, IntentMoves(r, st))) && Frozen(l, Apply(l, IntentMoves(r, st)))
  {
    hide ReferenceId, ObservedReferenceId, CreditsOf, RowOk;
    var m := Apply(l, IntentMoves(r, st));
    if m != l {
      OwnershipKept(l, m.(intents := l.intents));
      forall x | x in m.intents ensures OwnReference(m, x, m.intents[x].caseId) {
        assert OwnReference(l, x, l.intents[x].caseId);
      }
      ReferencesHonest(l, m);
    }
  }

  lemma RecordActionHonest(l: Ledger, c: string, n: nat)
    requires Honest(l)
    ensures Honest(Apply(l, RecordAction(c, n))) && Frozen(l, Apply(l, RecordAction(c, n)))
  {
    hide ReferenceId, ObservedReferenceId, CreditsOf, RowOk, Decide, Settle, Lapse, SettleByPoll, Outstanding;
    var m := Apply(l, RecordAction(c, n));
    if m != l {
      OwnershipKept(l, m.(actions := l.actions));
      forall x | x in m.actions ensures OwnReference(m, x.reference, x.caseId) {
        assert x in l.actions ==> OwnReference(l, x.reference, x.caseId);
      }
      ReferencesHonest(l, m);
    }
  }

  lemma HoldOutHonest(l: Ledger, c: string)
    requires Honest(l)
    ensures Honest(Apply(l, HoldOut(c))) && Frozen(l, Apply(l, HoldOut(c)))
  {
    hide ReferenceId, ObservedReferenceId, CreditsOf, RowOk;
    var m := Apply(l, HoldOut(c));
    if m != l {
      OwnershipKept(l, m.(observed := l.observed));
      ReferencesHonest(l, m);
    }
  }

  lemma PollReadHonest(l: Ledger)
    requires Honest(l)
    ensures Honest(Apply(l, PollRead)) && Frozen(l, Apply(l, PollRead))
  {
    hide ReferenceId, ObservedReferenceId, CreditsOf, RowOk;
    var m := Apply(l, PollRead);
    forall c | c in Outstanding(l) ensures InTreatment(l, c) {
      var r :| r in l.intents && Pollable(l, r) && l.intents[r].caseId == c;
      assert OwnReference(l, r, c);
    }
    OwnershipKept(l, m.(polled := l.polled));
    ReferencesHonest(l, m);
  }

  lemma InboxHonest(l: Ledger, m: Ledger)
    requires Honest(l) && m == l.(inbox := m.inbox, handled := m.handled, ingested := m.ingested)
    ensures Honest(m) && Frozen(l, m)
  {
    OwnershipKept(l, m);
  }

  lemma ApprovalHonest(l: Ledger, m: Ledger)
    requires Honest(l) && m == l.(approvals := m.approvals)
    ensures Honest(m) && Frozen(l, m)
  {
    OwnershipKept(l, m);
  }

  lemma AgentMovesHonest(l: Ledger, c: string, to: CaseStatus)
    requires Honest(l)
    ensures Honest(Apply(l, AgentMoves(c, to))) && Frozen(l, Apply(l, AgentMoves(c, to)))
  {
    var m := Apply(l, AgentMoves(c, to));
    if m != l {
      assert RowOk(l.cases[c]);
      RowMoveHonest(l, m, c);
    }
  }

  lemma RunTaskHonest(l: Ledger, i: nat, now: int)
    requires Honest(l)
    ensures Honest(Apply(l, RunTask(i, now))) && Frozen(l, Apply(l, RunTask(i, now)))
  {
    hide Honest, Settle;
    if i < |l.inbox| {
      var taken := l.(inbox := Without(l.inbox, i), handled := l.handled + [l.inbox[i].id]);
      InboxHonest(l, taken);
      SettleHonest(taken, l.inbox[i], now);
    }
  }

  lemma Unmoved(l: Ledger)
    ensures Frozen(l, l)
  {
  }

  lemma StepHonest(l: Ledger, step: Step)
    requires Honest(l)
    ensures Honest(Apply(l, step)) && Frozen(l, Apply(l, step))
  {
    hide Honest, Frozen, Settle, SettleByPoll, Decide, Lapse, Outstanding, Fresh, InTreatment, ReferenceId, ObservedReferenceId;
    Unmoved(l);
    match step
    case OpenCase(c, row) =>
      if c !in l.cases && Fresh(row) {
        OpenHonest(l, c, row);
      }
    case Deliver(e) => InboxHonest(l, Apply(l, step));
    case RunTask(i, now) => RunTaskHonest(l, i, now);
    case LoseTask(i) => InboxHonest(l, Apply(l, step));
    case PollWrite(c, proof) =>
      if c in l.polled {
        PollHonest(l, c, proof);
      }
    case Review(id, approve, presented, now) => ReviewHonest(l, id, approve, presented, now);
    case AskApproval(id, a) => ApprovalHonest(l, Apply(l, step));
    case LapseOne(id, now) => LapseHonest(l, id, now);
    case AgentMoves(c, st) => AgentMovesHonest(l, c, st);
    case HoldOut(c) => HoldOutHonest(l, c);
    case PollRead => PollReadHonest(l);
    case Issue(c, n) => IssueHonest(l, c, n);
    case IntentMoves(r, st) => IntentMovesHonest(l, r, st);
    case RecordAction(c, n) => RecordActionHonest(l, c, n);
  }

  lemma OpenHonest(l: Ledger, c: string, row: CaseRow)
    requires Honest(l) && c !in l.cases && Fresh(row)
    ensures var m := l.(cases := l.cases[c := row]); Honest(m) && Frozen(l, m)
  {
    RowMoveHonest(l, l.(cases := l.cases[c := row]), c);
  }

  /**
   Every run: each row has 0 <= recovered <= amount, is RECOVERED exactly when proven, and is credited
   in the audit log exactly once with that amount; references belong to treatment cases only, so a
   control case is never issued one, never RECOVERED, and never credited.
   */
  lemma {:induction false} EveryRunIsHonest(steps: seq<Step>)
    ensures Honest(Exec(EMPTY_LEDGER, steps))
  {
    if steps != [] {
      EveryRunIsHonest(steps[..|steps| - 1]);
      StepHonest(Exec(EMPTY_LEDGER, steps[..|steps| - 1]), steps[|steps| - 1]);
    }
  }
}
