/** Human decisions: made once, on fresh information, on the very action shown. */
module Approvals {
  import opened Enums
  import opened Settlement
  import Attribution

  /** A decision lands if and only if the approval is waiting, in time, and the presented hash is its own. */
  lemma DecidedExactlyWhen(l: Ledger, id: string, approve: bool, presented: string, now: int)
    ensures var (m, answer) := Decide(l, id, approve, presented, now);
            && (answer.Done? <==>
                 && id in l.approvals && l.approvals[id].status.Waiting?
                 && now < l.approvals[id].expiresAt && presented == l.approvals[id].hash)
            && (id in m.approvals && m.approvals[id].status.Approved? <==>
                 id in l.approvals && (l.approvals[id].status.Approved? || (answer.Done? && approve)))
            && (!answer.Done? ==> m.cases == l.cases && m.audit == l.audit)
  {
  }

  /** A decision moves only the case it is about, and that only from AWAITING_APPROVAL. */
  lemma DecisionMovesItsCase(l: Ledger, id: string, approve: bool, presented: string, now: int, c: string)
    requires c in l.cases && Decide(l, id, approve, presented, now).1.Done?
    ensures var m := Decide(l, id, approve, presented, now).0;
            && c in m.cases
            && m.cases[c] == if c == l.approvals[id].caseId && l.cases[c].status.AwaitingApproval?
                             then l.cases[c].(status := if approve then StrategyFormed else Rejected) else l.cases[c]
  {
  }

  /** Each answer for its reason, and what it leaves: a decision is recorded and logged, a late one lapses, the rest changes nothing. */
  lemma DecisionLeaves(l: Ledger, id: string, approve: bool, presented: string, now: int)
    ensures var (m, answer) := Decide(l, id, approve, presented, now);
            if id !in l.approvals then answer.NoSuchApproval? && m == l
            else
              var a := l.approvals[id];
              if !a.status.Waiting? then answer.AlreadyDecided? && m == l
              else if now >= a.expiresAt then
                answer.TooLate? && m == l.(approvals := l.approvals[id := a.(status := Lapsed)])
              else if presented != a.hash then answer.HashMismatch? && m == l
              else
                && answer.Done? && m == l.(approvals := m.approvals, cases := m.cases, audit := m.audit)
                && m.approvals == l.approvals[id := a.(status := if approve then Approved else Declined)]
                && m.audit == l.audit + [Noted(if approve then "approval.approved" else "approval.rejected", a.caseId)]
  {
  }

  /** Overdue and waiting, an approval lapses, is logged, and expires its own case if that waits for it; no other is touched. */
  lemma LapseExpiresItsCase(l: Ledger, id: string, now: int, c: string)
    ensures var m := Lapse(l, id, now);
            if id !in l.approvals || !l.approvals[id].status.Waiting? || now < l.approvals[id].expiresAt then m == l
            else
              var a := l.approvals[id];
              && m == l.(approvals := l.approvals[id := a.(status := Lapsed)], cases := m.cases,
                         audit := l.audit + [Noted("approval.expired", a.caseId)])
              && m.cases.Keys == l.cases.Keys
              && (c in l.cases ==>
                   m.cases[c] == if c == a.caseId && l.cases[c].status.AwaitingApproval? then l.cases[c].(status := Expired) else l.cases[c])
  {
  }

  lemma SettlementKeepsApprovals(l: Ledger, e: Event, now: int)
    ensures Settle(l, e, now).0.approvals == l.approvals
  {
    hide Attribution.Attribute, FindCase;
  }

  /** What one step can do to a decided approval: nothing. */
  lemma StepKeepsDecisions(l: Ledger, step: Step, id: string)
    requires id in l.approvals && !l.approvals[id].status.Waiting?
    ensures var m := Apply(l, step); id in m.approvals && m.approvals[id] == l.approvals[id]
  {
    hide Settle, Outstanding, Fresh;
    if step.RunTask? && step.i < |l.inbox| {
      var e := l.inbox[step.i];
      SettlementKeepsApprovals(l.(inbox := Without(l.inbox, step.i), handled := l.handled + [e.id]), e, step.now);
    }
  }

  /** In every run an approval is decided, or lapses, once: afterwards it never changes. */
  lemma {:induction false} DecisionIsFinal(l: Ledger, steps: seq<Step>, id: string)
    requires id in l.approvals && !l.approvals[id].status.Waiting?
    ensures var m := Exec(l, steps); id in m.approvals && m.approvals[id] == l.approvals[id]
  {
    if steps != [] {
      DecisionIsFinal(l, steps[..|steps| - 1], id);
      StepKeepsDecisions(Exec(l, steps[..|steps| - 1]), steps[|steps| - 1], id);
    }
  }

  /**
   Acting on an expired approval lapses it and leaves its case as it was, and that is for good: in no
   continuation does a decision on it, or a lapse of it, move any case or change anything else.
   */
  lemma ExpiredDecisionStrandsItsCase(l: Ledger, id: string, approve: bool, presented: string, now: int, more: seq<Step>)
    requires id in l.approvals && l.approvals[id].status.Waiting? && l.approvals[id].expiresAt <= now
    ensures var m := Decide(l, id, approve, presented, now).0;
            && m == l.(approvals := l.approvals[id := l.approvals[id].(status := Lapsed)])
            && var later := Exec(m, more);
               && id in later.approvals && later.approvals[id].status.Lapsed?
               && (forall yes, hash, at :: Apply(later, Review(id, yes, hash, at)) == later)
               && (forall at :: Apply(later, LapseOne(id, at)) == later)
  {
    DecisionIsFinal(Decide(l, id, approve, presented, now).0, more, id);
    hide Exec;
  }
}
