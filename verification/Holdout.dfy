/**
 The control arm across the whole system: agent runs decide by themselves what they issue, and every
 other writer of the tables interleaves with them.
 */
module Holdout {
  import opened Enums
  import opened Ids
  import opened Settlement
  import Attribution
  import Outbox
  import G = Graph

  /** The transactions of one run of the agent: its intent, its recorded action, and the status it ends in. */
  datatype Part = CommitsIntent | RecordsAction | SavesStatus

  /**
   One transaction: of an agent run on a case, of a drainer that dispatches a committed intent again, or any
   other step of the ledger. A run may crash after any of its transactions, and others fall in between.
   */
  datatype Move =
    | Elsewhere(step: Step)
    | AgentRun(state: G.Case, world: nat -> G.Outside, attemptNo: nat, part: Part)
    | Resumed(caseId: string, attemptNo: nat)

  /** EXECUTE was among the nodes the run visited. */
  predicate ReachedExecute(s: G.Case, f: G.Case) {
    |f.trace| >= |s.trace| && G.Execute in f.trace[|s.trace|..]
  }

  /** The intent of a run that reached EXECUTE, whatever the arm of the case: no guard here. */
  function Intended(l: Ledger, c: string, n: nat): Ledger {
    var r := ReferenceId(c, n);
    l.(intents := if r in l.intents then l.intents else l.intents[r := Intent(c, Outbox.Pending)])
  }

  /** The dispatch is recorded on a committed row; no guard here either. */
  function Recorded(l: Ledger, c: string, n: nat): Ledger {
    if ReferenceId(c, n) in l.intents then l.(actions := l.actions + [ActionRef(ReferenceId(c, n), c)]) else l
  }

  function Moved(l: Ledger, c: string, to: CaseStatus): Ledger {
    if c in l.cases && !Terminal(l.cases[c].status) then l.(cases := l.cases[c := l.cases[c].(status := to)]) else l
  }

  /** The drainer rebuilds case and action from the row itself. */
  predicate CommittedFor(l: Ledger, c: string, n: nat) {
    ReferenceId(c, n) in l.intents && l.intents[ReferenceId(c, n)].caseId == c
  }

  function TakePart(l: Ledger, s: G.Case, f: G.Case, n: nat, part: Part): Ledger {
    match part
    case CommitsIntent => if ReachedExecute(s, f) then Intended(l, s.id, n) else l
    case RecordsAction => if ReachedExecute(s, f) then Recorded(l, s.id, n) else l
    case SavesStatus => Moved(l, s.id, f.status)
  }

  function Take(l: Ledger, m: Move, d: G.Deps): Ledger {
    match m
    case Elsewhere(step) => Apply(l, step)
    case Resumed(c, n) => if CommittedFor(l, c, n) then Recorded(l, c, n) else l
    case AgentRun(s, world, n, part) =>
      match G.RunCase(s, d, world)
      case BoundExceeded => l
      case Finished(f) => if s.id !in l.cases then l else TakePart(l, s, f, n, part)
  }

  function Play(moves: seq<Move>, d: G.Deps): Ledger {
    if moves == [] then EMPTY_LEDGER else Take(Play(moves[..|moves| - 1], d), moves[|moves| - 1], d)
  }

  /**
   Every writer of an arm uses the one assignment; only agent runs issue references, and only they and
   drainers record actions; and the agent is handed live cases, fresh to the graph and within the
   model-call budget.
   */
  predicate Lawful(m: Move, d: G.Deps) {
    match m
    case Elsewhere(step) =>
      && (step.OpenCase? ==> step.row.arm == G.Assigned(step.caseId, d))
      && !step.Issue? && !step.RecordAction?
    case Resumed(_, _) => true
    case AgentRun(s, world, n, part) => !Terminal(s.status) && s.visits <= 2 && G.Within(s, d)
  }

  ghost predicate ArmsAgree(l: Ledger, d: G.Deps) {
    forall c :: c in l.cases ==> l.cases[c].arm == G.Assigned(c, d)
  }

  /** The guarded steps one transaction of a run amounts to: one, or none. */
  function GuardedSteps(l: Ledger, s: G.Case, f: G.Case, n: nat, part: Part): (r: seq<Step>)
    ensures |r| <= 1 && forall i :: 0 <= i < |r| ==> !r[i].OpenCase?
  {
    match part
    case CommitsIntent => if ReachedExecute(s, f) then [Issue(s.id, n)] else []
    case RecordsAction => if ReachedExecute(s, f) && ReferenceId(s.id, n) in l.intents then [RecordAction(s.id, n)] else []
    case SavesStatus => [AgentMoves(s.id, f.status)]
  }

  lemma GraphGuards(s: G.Case, world: nat -> G.Outside, d: G.Deps)
    requires !Terminal(s.status) && s.visits <= 2 && G.Within(s, d)
    ensures var r := G.RunCase(s, d, world);
            && r.Finished? && !r.state.status.Recovered?
            && (ReachedExecute(s, r.state) ==> G.Assigned(s.id, d).Treatment?)
  {
    G.EveryRunSettles(s, d, world);
    hide G.RunCase, G.Authorised;
  }

  lemma OneStep(l: Ledger, step: Step)
    ensures Exec(l, []) == l && Exec(l, [step]) == Apply(l, step)
  {
    assert [step][..0] == [];
    assert Exec(l, [step][..0]) == l;
    hide Apply;
  }

  /** What the graph promises makes the guards of the guarded steps hold, one transaction at a time. */
  lemma RunIsGuarded(l: Ledger, s: G.Case, world: nat -> G.Outside, n: nat, part: Part, d: G.Deps)
    requires ArmsAgree(l, d) && Lawful(AgentRun(s, world, n, part), d) && s.id in l.cases
    ensures G.RunCase(s, d, world).Finished?
    ensures Take(l, AgentRun(s, world, n, part), d) == Exec(l, GuardedSteps(l, s, G.RunCase(s, d, world).state, n, part))
  {
    hide G.RunCase, ReachedExecute, Exec, TakePart, GuardedSteps, ReferenceId, Apply;
    GraphGuards(s, world, d);
    PartIsGuarded(l, s, G.RunCase(s, d, world).state, n, part);
  }

  lemma PartIsGuarded(l: Ledger, s: G.Case, f: G.Case, n: nat, part: Part)
    requires s.id in l.cases && !f.status.Recovered? && (ReachedExecute(s, f) ==> InTreatment(l, s.id))
    ensures Exec(l, GuardedSteps(l, s, f, n, part)) == TakePart(l, s, f, n, part)
  {
    hide ReachedExecute, ReferenceId, Exec;
    OneStep(l, Issue(s.id, n));
    OneStep(l, RecordAction(s.id, n));
    OneStep(l, AgentMoves(s.id, f.status));
  }

  /** A drainer's transaction is guarded as well: an intent is that of a treatment case. */
  lemma ResumedIsGuarded(l: Ledger, c: string, n: nat, d: G.Deps)
    requires Honest(l)
    ensures Take(l, Resumed(c, n), d) == if CommittedFor(l, c, n) then Apply(l, RecordAction(c, n)) else l
  {
    hide ReferenceId, G.RunCase, TakePart, RowOk, CreditsMatch;
    if CommittedFor(l, c, n) {
      assert OwnReference(l, ReferenceId(c, n), c);
    }
  }

  lemma ArmsKept(l: Ledger, step: Step, d: G.Deps)
    requires Honest(l) && ArmsAgree(l, d) && (step.OpenCase? ==> step.row.arm == G.Assigned(step.caseId, d))
    ensures ArmsAgree(Apply(l, step), d)
  {
    StepHonest(l, step);
    OnlyOpenAdds(l, step);
    hide Apply, Honest;
  }

  lemma OnlyOpenAdds(l: Ledger, step: Step)
    ensures forall c | c in Apply(l, step).cases && c !in l.cases ::
              step.OpenCase? && step.caseId == c && Apply(l, step).cases[c] == step.row
  {
    if step.RunTask? && step.i < |l.inbox| {
      hide Attribution.Attribute, FindCase;
    }
  }

  lemma {:induction false} ArmsKeptBy(l: Ledger, steps: seq<Step>, d: G.Deps)
    requires Honest(l) && ArmsAgree(l, d) && forall i :: 0 <= i < |steps| ==> !steps[i].OpenCase?
    ensures Honest(Exec(l, steps)) && ArmsAgree(Exec(l, steps), d)
  {
    hide Honest, ArmsAgree, Apply;
    if steps != [] {
      ArmsKeptBy(l, steps[..|steps| - 1], d);
      ArmsKept(Exec(l, steps[..|steps| - 1]), steps[|steps| - 1], d);
      StepHonest(Exec(l, steps[..|steps| - 1]), steps[|steps| - 1]);
    }
  }

  lemma TakeKeeps(l: Ledger, m: Move, d: G.Deps)
    requires Honest(l) && ArmsAgree(l, d) && Lawful(m, d)
    ensures Honest(Take(l, m, d)) && ArmsAgree(Take(l, m, d), d)
  {
    hide Honest, ArmsAgree, Apply, Exec, G.RunCase, TakePart, Recorded, CommittedFor, GuardedSteps;
    match m
    case Elsewhere(step) =>
      StepHonest(l, step);
      ArmsKept(l, step, d);
    case Resumed(c, n) =>
      ResumedIsGuarded(l, c, n, d);
      StepHonest(l, RecordAction(c, n));
      ArmsKept(l, RecordAction(c, n), d);
    case AgentRun(s, world, n, part) =>
      if s.id in l.cases {
        RunIsGuarded(l, s, world, n, part, d);
        ArmsKeptBy(l, GuardedSteps(l, s, G.RunCase(s, d, world).state, n, part), d);
      }
  }

  lemma {:induction false} EveryPlayIsHonest(moves: seq<Move>, d: G.Deps)
    requires forall i :: 0 <= i < |moves| ==> Lawful(moves[i], d)
    ensures Honest(Play(moves, d)) && ArmsAgree(Play(moves, d), d)
  {
    hide Honest, Take, Lawful;
    if moves != [] {
      EveryPlayIsHonest(moves[..|moves| - 1], d);
      TakeKeeps(Play(moves[..|moves| - 1], d), moves[|moves| - 1], d);
    } else {
      EveryRunIsHonest([]);
    }
  }

  /**
   No interleaving of the transactions of agent runs, drainers, webhooks, polls, approvals and sweeps ever
   issues a reference for a case of the control arm, recovers it, or credits a paisa to it.
   */
  lemma ControlIsNeverCredited(moves: seq<Move>, d: G.Deps, c: string)
    requires forall i :: 0 <= i < |moves| ==> Lawful(moves[i], d)
    requires G.Assigned(c, d).Control?
    ensures var l := Play(moves, d);
            && (forall r :: r in l.intents ==> l.intents[r].caseId != c)
            && (forall x :: x in l.actions ==> x.caseId != c)
            && c !in l.polled
            && CreditsOf(l.audit, c) == []
            && (c in l.cases ==> !l.cases[c].status.Recovered? && l.cases[c].recoveredPaise == 0)
  {
    EveryPlayIsHonest(moves, d);
    var l := Play(moves, d);
    hide Play, Lawful;
    forall r | r in l.intents ensures l.intents[r].caseId != c {
      assert OwnReference(l, r, l.intents[r].caseId);
    }
    forall x | x in l.actions ensures x.caseId != c {
      assert OwnReference(l, x.reference, x.caseId);
    }
    if c in l.cases {
      assert RowOk(l.cases[c]);
    }
  }

  /** The reference on a held-out checkout is never that of an intent or an action of ours. */
  lemma ControlPaymentMatchesNoIntent(moves: seq<Move>, d: G.Deps, c: string)
    requires forall i :: 0 <= i < |moves| ==> Lawful(moves[i], d)
    ensures ObservedReferenceId(c) !in Play(moves, d).intents
    ensures forall x :: x in Play(moves, d).actions ==> x.reference != ObservedReferenceId(c)
  {
    EveryPlayIsHonest(moves, d);
    var l := Play(moves, d);
    hide Play, Lawful;
    if ObservedReferenceId(c) in l.intents {
      var owner := l.intents[ObservedReferenceId(c)].caseId;
      assert OwnReference(l, ObservedReferenceId(c), owner);
      var n: nat :| ObservedReferenceId(c) == ReferenceId(owner, n);
      NamespacesDisjoint(owner, n, c);
    }
    forall x | x in l.actions ensures x.reference != ObservedReferenceId(c) {
      assert OwnReference(l, x.reference, x.caseId);
      var n: nat :| x.reference == ReferenceId(x.caseId, n);
      NamespacesDisjoint(x.caseId, n, c);
    }
  }
}
