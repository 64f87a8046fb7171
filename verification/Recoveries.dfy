/** Consequences of honest settlement: what is final, what is credited, and what the totals say. */
module Recoveries {
  import opened Text
  import opened Enums
  import opened Ids
  import opened Attribution
  import opened Settlement

  lemma {:induction false} RunsExtend(l: Ledger, steps: seq<Step>, more: seq<Step>)
    ensures Exec(l, steps + more) == Exec(Exec(l, steps), more)
  {
    if more == [] {
      assert steps + more == steps;
    } else {
      RunsExtend(l, steps, more[..|more| - 1]);
      assert (steps + more)[..|steps + more| - 1] == steps + more[..|more| - 1];
    }
  }

  lemma {:induction false} HonestRun(l: Ledger, steps: seq<Step>)
    requires Honest(l)
    ensures Honest(Exec(l, steps)) && Frozen(l, Exec(l, steps))
  {
    hide Honest;
    if steps != [] {
      HonestRun(l, steps[..|steps| - 1]);
      StepHonest(Exec(l, steps[..|steps| - 1]), steps[|steps| - 1]);
    }
  }

  /**
   RECOVERED is absorbing, and the proof, the verifier and the amount are written once: whatever
   follows a run that left a case RECOVERED, its row stays exactly as it is.
   */
  lemma RecoveredIsFinal(steps: seq<Step>, more: seq<Step>, c: string)
    requires c in Exec(EMPTY_LEDGER, steps).cases && Exec(EMPTY_LEDGER, steps).cases[c].status.Recovered?
    ensures c in Exec(EMPTY_LEDGER, steps + more).cases
    ensures Exec(EMPTY_LEDGER, steps + more).cases[c] == Exec(EMPTY_LEDGER, steps).cases[c]
  {
    EveryRunIsHonest(steps);
    HonestRun(Exec(EMPTY_LEDGER, steps), more);
    RunsExtend(EMPTY_LEDGER, steps, more);
    assert RowOk(Exec(EMPTY_LEDGER, steps).cases[c]);
  }

  /** The poll re-checks the verifier alone, so it overwrites any unproven status, closed or not. */
  lemma PollCreditsWhateverTheStatus(l: Ledger, c: string, proof: string)
    requires Honest(l) && c in l.cases
    ensures var (m, settled) := SettleByPoll(l, c, proof);
            && (settled <==> !l.cases[c].status.Recovered?)
            && m.cases[c].status.Recovered?
            && (settled ==> m.cases[c].recoveredPaise == l.cases[c].amountPaise)
  {
  }

  // --------------------------------------------------------------------------
  // Totals.

  ghost function SumOver(keys: set<string>, f: string -> int): int
    decreases |keys|
  {
    if keys == {} then 0 else var k :| k in keys; f(k) + SumOver(keys - {k}, f)
  }

  lemma {:induction false} SumPick(keys: set<string>, f: string -> int, k: string)
    requires k in keys
    ensures SumOver(keys, f) == f(k) + SumOver(keys - {k}, f)
    decreases |keys|
  {
    var j :| j in keys && SumOver(keys, f) == f(j) + SumOver(keys - {j}, f);
    if j != k {
      SumPick(keys - {j}, f, k);
      SumPick(keys - {k}, f, j);
      assert keys - {j} - {k} == keys - {k} - {j};
    }
  }

  lemma {:induction false} SumAgrees(keys: set<string>, f: string -> int, g: string -> int)
    requires forall k :: k in keys ==> f(k) == g(k)
    ensures SumOver(keys, f) == SumOver(keys, g)
    decreases |keys|
  {
    if keys != {} {
      var k :| k in keys;
      SumPick(keys, f, k);
      SumPick(keys, g, k);
      SumAgrees(keys - {k}, f, g);
    }
  }

  function Total(amounts: seq<int>): int {
    if amounts == [] then 0 else Total(amounts[..|amounts| - 1]) + amounts[|amounts| - 1]
  }

  /** The sum over the `recovery.verified` blocks. */
  function CreditTotal(audit: seq<Block>): int {
    if audit == [] then 0
    else
      var last := audit[|audit| - 1];
      CreditTotal(audit[..|audit| - 1]) + if last.RecoveryVerified? then last.amountPaise else 0
  }

  ghost function CreditsTotal(audit: seq<Block>): string -> int {
    c => Total(CreditsOf(audit, c))
  }

  lemma {:induction false} CreditsByCase(audit: seq<Block>, keys: set<string>)
    requires forall b :: b in audit && b.RecoveryVerified? ==> b.caseId in keys
    ensures CreditTotal(audit) == SumOver(keys, CreditsTotal(audit))
  {
    if audit == [] {
      ZeroSum(keys, CreditsTotal(audit));
    } else {
      var before, last := audit[..|audit| - 1], audit[|audit| - 1];
      CreditsByCase(before, keys);
      var f, g := CreditsTotal(before), CreditsTotal(audit);
      forall c ensures g(c) == f(c) + if last.RecoveryVerified? && last.caseId == c then last.amountPaise else 0 {
        var cs := CreditsOf(before, c);
        if last.RecoveryVerified? {
          assert (cs + [last.amountPaise])[..|cs|] == cs;
        }
        assert cs + [] == cs;
      }
      if last.RecoveryVerified? {
        SumPick(keys, f, last.caseId);
        SumPick(keys, g, last.caseId);
        SumAgrees(keys - {last.caseId}, f, g);
      } else {
        SumAgrees(keys, f, g);
      }
    }
  }

  lemma {:induction false} ZeroSum(keys: set<string>, f: string -> int)
    requires forall k :: k in keys ==> f(k) == 0
    ensures SumOver(keys, f) == 0
    decreases |keys|
  {
    if keys != {} {
      var k :| k in keys;
      SumPick(keys, f, k);
      ZeroSum(keys - {k}, f);
    }
  }

  /** What a case adds to the provider-proven total. */
  ghost function ProvenAmount(cases: map<string, CaseRow>): string -> int {
    c => if c in cases && ProvenByProvider(cases[c]) then cases[c].recoveredPaise else 0
  }

  lemma {:induction false} CreditedCase(audit: seq<Block>, b: Block)
    requires b in audit && b.RecoveryVerified?
    ensures CreditsOf(audit, b.caseId) != []
  {
    if audit[|audit| - 1] != b {
      CreditedCase(audit[..|audit| - 1], b);
    }
  }

  /** In every run the provider-proven recoveries of all cases sum to the audit log's credits. */
  lemma TotalsAgree(steps: seq<Step>)
    ensures var l := Exec(EMPTY_LEDGER, steps);
            SumOver(l.cases.Keys, ProvenAmount(l.cases)) == CreditTotal(l.audit)
  {
    EveryRunIsHonest(steps);
    var l := Exec(EMPTY_LEDGER, steps);
    forall b | b in l.audit && b.RecoveryVerified? ensures b.caseId in l.cases.Keys {
      CreditedCase(l.audit, b);
    }
    CreditsByCase(l.audit, l.cases.Keys);
    forall c | c in l.cases.Keys ensures CreditsTotal(l.audit)(c) == ProvenAmount(l.cases)(c) {
      assert CreditsOf(l.audit, c) == if ProvenByProvider(l.cases[c]) then [l.cases[c].recoveredPaise] else [];
      assert forall x: int :: Total([x]) == x by {
        forall x: int ensures Total([x]) == x {
          assert [x][..0] == [];
        }
      }
    }
    SumAgrees(l.cases.Keys, CreditsTotal(l.audit), ProvenAmount(l.cases));
  }

  // --------------------------------------------------------------------------
  // Whose payment it was.

  /** A webhook credits a case only for a reference we issued to that case, in treatment, while monitoring it. */
  lemma CreditIsEarned(l: Ledger, e: Event, now: int)
    requires Honest(l) && Settle(l, e, now).1.Credited?
    ensures var o := Settle(l, e, now).1;
            && InTreatment(l, o.caseId) && l.cases[o.caseId].status.Monitoring?
            && now <= l.cases[o.caseId].windowExpiresAt + GRACE
            && 0 <= o.amountPaise <= l.cases[o.caseId].amountPaise
            && (e.amountPaise.Some? ==> o.amountPaise <= e.amountPaise.value)
            && e.reference.Some? && exists n: nat :: Lower(Strip(e.reference.value)) == ReferenceId(o.caseId, n)
  {
    FoundIsOwn(l, e.reference.value);
    var found := FindCase(l, e.reference.value);
    var row := l.cases[found.caseId];
    assert RowOk(row);
    CountedExactlyWhen(true, e.eventType, e.reference, e.amountPaise, IssuedOf(found), row.status, row.amountPaise,
                       row.verifiedBy.Some?, now, Some(row.windowExpiresAt), GRACE);
  }

  lemma HeldReferenceFindsItsCase(l: Ledger, c: string, reference: string)
    requires ReferencesOk(l) && ObservedReferenceId(c) in l.observed && l.observed[ObservedReferenceId(c)] == c
    requires Lower(Strip(reference)) == ObservedReferenceId(c)
    ensures FindCase(l, reference) == Held(c)
  {
    hide ReferenceId, ObservedReferenceId, Lower, Strip;
    var needle := ObservedReferenceId(c);
    if needle in l.intents {
      assert OwnReference(l, needle, l.intents[needle].caseId);
      var n: nat :| needle == ReferenceId(l.intents[needle].caseId, n);
      NamespacesDisjoint(l.intents[needle].caseId, n, c);
    } else if FindAction(l.actions, needle).Some? {
      var x := FindAction(l.actions, needle).value;
      assert OwnReference(l, x.reference, x.caseId);
      var n: nat :| x.reference == ReferenceId(x.caseId, n);
      ReferenceIdCanonical(x.caseId, n);
      NamespacesDisjoint(x.caseId, n, c);
    }
  }

  lemma HeldCaseClosesOrganic(l: Ledger, c: string, e: Event, now: int)
    requires c in l.cases && RowOk(l.cases[c]) && l.cases[c].arm.Control?
    requires e.eventType in SETTLING_EVENTS && e.reference.Some? && e.reference.value != ""
    requires FindCase(l, e.reference.value) == Held(c)
    ensures var (m, o) := Settle(l, e, now);
            && o.Uncounted?
            && m == l.(cases := l.cases[c := l.cases[c].(status := ResolvedOrganic)])
  {
  }

  /**
   A payment on a held-out case's own checkout closes that case as organic and touches no other: its
   reference is never one of ours, because the two namespaces are disjoint.
   */
  lemma ControlPaymentIsOrganic(l: Ledger, c: string, e: Event, now: int)
    requires Honest(l) && ObservedReferenceId(c) in l.observed && l.observed[ObservedReferenceId(c)] == c
    requires e.eventType in SETTLING_EVENTS && e.reference.Some?
    requires Lower(Strip(e.reference.value)) == ObservedReferenceId(c)
    ensures c in l.cases
    ensures var (m, o) := Settle(l, e, now);
            && o.Uncounted?
            && m == l.(cases := l.cases[c := l.cases[c].(status := ResolvedOrganic)])
  {
    assert e.reference.value != "" by {
      assert |ObservedReferenceId(c)| == |"rvpo_" + c|;
    }
    HeldReferenceFindsItsCase(l, c, e.reference.value);
    assert RowOk(l.cases[c]);
    hide Lower, Strip, FindCase, Settle, RowOk, ObservedReferenceId;
    HeldCaseClosesOrganic(l, c, e, now);
  }

  // --------------------------------------------------------------------------
  // Deliveries.

  lemma {:induction false} EventsHandledOnce(steps: seq<Step>)
    ensures EventsOnce(Exec(EMPTY_LEDGER, steps))
  {
    if steps != [] {
      EventsHandledOnce(steps[..|steps| - 1]);
      EventStep(Exec(EMPTY_LEDGER, steps[..|steps| - 1]), steps[|steps| - 1]);
    }
  }

  lemma QueueKept(l: Ledger, m: Ledger)
    requires EventsOnce(l) && m.inbox == l.inbox && m.handled == l.handled && m.ingested == l.ingested
    ensures EventsOnce(m)
  {
    assert Queue(m) == Queue(l);
  }

  lemma DeliveredOnce(l: Ledger, e: Event)
    requires EventsOnce(l)
    ensures EventsOnce(Apply(l, Deliver(e)))
  {
    var m := Apply(l, Deliver(e));
    if m != l {
      assert Queue(m) == Queue(l) + [e.id];
    }
  }

  lemma TaskLost(l: Ledger, i: nat)
    requires EventsOnce(l)
    ensures EventsOnce(Apply(l, LoseTask(i)))
  {
    var m := Apply(l, LoseTask(i));
    if i < |l.inbox| {
      var k := |l.handled|;
      assert forall j :: 0 <= j < |Queue(m)| ==> Queue(m)[j] == Queue(l)[if j < k + i then j else j + 1];
    }
  }

  lemma SettleKeepsQueue(l: Ledger, e: Event, now: int)
    ensures var m := Settle(l, e, now).0; m.inbox == l.inbox && m.handled == l.handled && m.ingested == l.ingested
  {
    hide Attribute, FindCase;
  }

  /** Delivering an id twice queues one task; running or losing a task takes exactly one away. */
  lemma EventStep(l: Ledger, step: Step)
    requires EventsOnce(l)
    ensures EventsOnce(Apply(l, step))
  {
    hide EventsOnce, Settle, Decided;
    match step
    case Deliver(e) => DeliveredOnce(l, e);
    case RunTask(i, now) =>
      if i < |l.inbox| {
        var e := l.inbox[i];
        var taken := l.(inbox := Without(l.inbox, i), handled := l.handled + [e.id]);
        TaskTaken(l, taken, i);
        SettleKeepsQueue(taken, e, now);
        QueueKept(taken, Apply(l, step));
      }
    case LoseTask(i) => TaskLost(l, i);
    case Review(id, approve, presented, now) =>
      ReviewKeepsQueue(l, id, approve, presented, now);
      QueueKept(l, Apply(l, step));
    case _ => QueueKept(l, Apply(l, step));
  }

  lemma ReviewKeepsQueue(l: Ledger, id: string, approve: bool, presented: string, now: int)
    ensures var m := Decide(l, id, approve, presented, now).0;
            m.inbox == l.inbox && m.handled == l.handled && m.ingested == l.ingested
  {
  }

  lemma TaskTaken(l: Ledger, m: Ledger, i: nat)
    requires EventsOnce(l) && i < |l.inbox|
    requires m == l.(inbox := Without(l.inbox, i), handled := l.handled + [l.inbox[i].id])
    ensures EventsOnce(m)
  {
    var k := |l.handled|;
    assert forall j :: 0 <= j < |Queue(m)| ==>
      Queue(m)[j] == Queue(l)[if j < k then j else if j == k then k + i else if j <= k + i then j - 1 else j];
  }
}
