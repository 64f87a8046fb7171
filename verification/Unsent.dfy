/**
 When the one-action law holds over a run: four transactions can take a SENT row back, and the law holds
 throughout exactly when none of them does.
 */
module Unsent {
  import opened Token
  import opened Outbox
  import opened Protocol
  import opened Exclusive

  /** The step is a retry, dead letter, drop or replay whose commit meets `r` while its row is SENT. */
  predicate Unsends(s: Sys, step: Step, r: string) {
    && r in s.db.rows && s.db.rows[r].status.Sent?
    && match step
       case Retry(w, _, _) => At(s, w).phase.Retryable? && At(s, w).phase.a.reference == r && FailureCommits(s.db, r)
       case Bury(w) => At(s, w).phase.Permanent? && At(s, w).phase.a.reference == r && FailureCommits(s.db, r)
       case Drop(w) => At(s, w).phase.Dropping? && At(s, w).phase.r == r
       case ReplayLetter(i, _) => i < |s.db.letters| && !s.db.letters[i].replayed && s.db.letters[i].reference == r
       case _ => false
  }

  predicate FailureCommits(db: Db, r: string)
    requires r in db.rows
  {
    !AttemptTaken(db, db.rows[r].caseId, db.rows[r].attempt + 1, r)
  }

  /** A transaction on another reference leaves this one's record alone. */
  lemma OthersKeepRecord(db: Db, x: string, r: string, max: int, now: int, jitter: real)
    requires RecordedOnce(db, r) && x != r
    ensures RecordedOnce(ScheduleRetry(db, x, max, now, jitter).0, r)
    ensures RecordedOnce(DeadLetter(db, x).0, r) && RecordedOnce(MarkDead(db, x), r)
  {
    hide ActionsOn, BackoffMicros;
  }

  lemma FailureStepKeepsRecordIff(s: Sys, step: Step, max: int, r: string)
    requires RecordedOnce(s.db, r) && (step.Retry? || step.Bury? || step.Drop?)
    ensures RecordedOnce(Apply(s, step, max).db, r) <==> !Unsends(s, step, r)
  {
    hide ActionsOn, BackoffMicros, RecordedOnce, AttemptTaken, ScheduleRetry, DeadLetter, MarkDead;
    var p := At(s, step.w).phase;
    var now, jitter := if step.Retry? then step.now else 0, if step.Retry? then step.jitter else 0.0;
    if (step.Retry? && p.Retryable?) || (step.Bury? && p.Permanent?) {
      FailureOf(s.db, p.a.reference, r, max, now, jitter);
    } else if step.Drop? && p.Dropping? {
      FailureOf(s.db, p.r, r, max, now, jitter);
    }
  }

  lemma FailureOf(db: Db, x: string, r: string, max: int, now: int, jitter: real)
    requires RecordedOnce(db, r)
    ensures var hit := x == r && r in db.rows && db.rows[r].status.Sent?;
            && (RecordedOnce(ScheduleRetry(db, x, max, now, jitter).0, r) <==> !(hit && FailureCommits(db, r)))
            && (RecordedOnce(DeadLetter(db, x).0, r) <==> !(hit && FailureCommits(db, r)))
            && (RecordedOnce(MarkDead(db, x), r) <==> !hit)
  {
    if x != r {
      OthersKeepRecord(db, x, r, max, now, jitter);
    } else if r in db.rows {
      FailureKeepsRecordIff(db, r, max, now, jitter);
    }
    hide ActionsOn, BackoffMicros;
  }

  /** One step keeps the law exactly when it does not take a SENT row back. */
  lemma StepKeepsRecordIff(s: Sys, step: Step, max: int, r: string)
    requires RecordedOnce(s.db, r)
    ensures RecordedOnce(Apply(s, step, max).db, r) <==> !Unsends(s, step, r)
  {
    match step
    case Retry(_, _, _) => FailureStepKeepsRecordIff(s, step, max, r);
    case Bury(_) => FailureStepKeepsRecordIff(s, step, max, r);
    case Drop(_) => FailureStepKeepsRecordIff(s, step, max, r);
    case ReplayLetter(i, now) => ReplayKeepsRecordIff(s.db, i, now, r);
    case Commit(w, now) =>
      if At(s, w).phase.Ready? {
        IntentKeepsRecord(s.db, At(s, w).phase.a, now, r);
      }
    case SweepDeferrals(now) => SweepKeepsRecord(s.db, now, r);
    case Record(w, now) =>
      if At(s, w).phase.Linked? {
        PhaseTwoKeepsRecord(s.db, At(s, w).phase.a, At(s, w).phase.link, now, r);
      }
    case _ =>
      assert Apply(s, step, max).db.actions == s.db.actions && Apply(s, step, max).db.rows == s.db.rows;
  }

  ghost predicate RecordedThroughout(s: Sys, steps: seq<Step>, max: int, r: string) {
    forall k :: 0 <= k <= |steps| ==> RecordedOnce(Exec(s, steps[..k], max).db, r)
  }

  ghost predicate NeverUnsent(s: Sys, steps: seq<Step>, max: int, r: string) {
    forall k :: 0 <= k < |steps| ==> !Unsends(Exec(s, steps[..k], max), steps[k], r)
  }

  lemma PrefixSteps(s: Sys, steps: seq<Step>, max: int, k: nat)
    requires k < |steps|
    ensures Exec(s, steps[..k + 1], max) == Apply(Exec(s, steps[..k], max), steps[k], max)
  {
    assert steps[..k + 1] == steps[..k] + [steps[k]];
    ExecStep(s, steps[..k], steps[k], max);
  }

  lemma {:induction false} KeptUpTo(s: Sys, steps: seq<Step>, max: int, r: string, k: nat)
    requires RecordedOnce(s.db, r) && NeverUnsent(s, steps, max, r) && k <= |steps|
    ensures RecordedOnce(Exec(s, steps[..k], max).db, r)
  {
    if k == 0 {
      assert steps[..0] == [];
    } else {
      assert !Unsends(Exec(s, steps[..k - 1], max), steps[k - 1], r);
      hide RecordedOnce, Apply, Unsends, Exec, NeverUnsent;
      KeptUpTo(s, steps, max, r, k - 1);
      PrefixSteps(s, steps, max, k - 1);
      StepKeepsRecordIff(Exec(s, steps[..k - 1], max), steps[k - 1], max, r);
    }
  }

  /**
   Every run, of any interleaving: one recorded action while the row is SENT and none otherwise holds at
   every moment if and only if no retry, dead letter, drop or replay of the run commits on the SENT row.
   */
  lemma RecordedThroughoutExactlyWhenNeverUnsent(cases: map<string, CaseFacts>, steps: seq<Step>, max: int, r: string)
    ensures RecordedThroughout(Start(cases), steps, max, r) <==> NeverUnsent(Start(cases), steps, max, r)
  {
    var s := Start(cases);
    if NeverUnsent(s, steps, max, r) {
      forall k | 0 <= k <= |steps| ensures RecordedOnce(Exec(s, steps[..k], max).db, r) {
        KeptUpTo(s, steps, max, r, k);
      }
    }
    if RecordedThroughout(s, steps, max, r) {
      forall k | 0 <= k < |steps| ensures !Unsends(Exec(s, steps[..k], max), steps[k], r) {
        PrefixSteps(s, steps, max, k);
        assert RecordedOnce(Exec(s, steps[..k], max).db, r) && RecordedOnce(Exec(s, steps[..k + 1], max).db, r);
        StepKeepsRecordIff(Exec(s, steps[..k], max), steps[k], max, r);
      }
    }
  }

  // --------------------------------------------------------------------------
  // A replay after a late success.

  /** Two workers execute one action; one is refused and buries it, the other then dispatches it. */
  function BuriedThenSent(a: AppliedAction, id: string): seq<Step> {
    [Begin(0, a), Commit(0, 0)] + [Begin(1, a), Commit(1, 0)] + [Create(1, BadRequest, "")] + [Bury(1)]
    + [Create(0, Answered, id)] + [Record(0, 0)]
  }

  lemma BuriedAndLinked(s: Sys, a: AppliedAction, id: string, max: int)
    requires At(s, 0).phase == Intended(a) && At(s, 1).phase == Intended(a) && At(s, 2).phase.Idle?
    requires s.links == [] && s.db.rows.Keys == {a.reference} && s.db.actions == [] && s.db.letters == []
    requires s.db.rows[a.reference].status.Pending?
    ensures var t := Apply(Apply(Apply(s, Create(1, BadRequest, ""), max), Bury(1), max), Create(0, Answered, id), max);
            && t.db.rows.Keys == {a.reference} && t.db.rows[a.reference].status.Dead? && t.db.actions == []
            && t.db.letters == [Letter(a.reference, s.db.rows[a.reference].attempt + 1, false)]
            && t.links == [Link(a.reference, id, a.chargeAmountPaise)]
            && At(t, 0).phase == Linked(a, Link(a.reference, id, a.chargeAmountPaise)) && At(t, 2).phase.Idle?
  {
  }

  lemma BuriedThenSentReached(cases: map<string, CaseFacts>, a: AppliedAction, id: string, max: int)
    ensures var s := Exec(Start(cases), BuriedThenSent(a, id), max);
            && s.db.rows.Keys == {a.reference} && s.db.rows[a.reference].status.Sent?
            && s.db.actions == [ActionFor(a, id, 0)]
            && |s.db.letters| == 1 && s.db.letters[0].reference == a.reference && !s.db.letters[0].replayed
            && s.links == [Link(a.reference, id, a.chargeAmountPaise)] && At(s, 2).phase.Idle?
  {
    var s0 := Start(cases);
    var t := [Begin(0, a), Commit(0, 0)] + [Begin(1, a), Commit(1, 0)];
    BothIntended(cases, a, max);
    BuriedAndLinked(Exec(s0, t, max), a, id, max);
    ExecStep(s0, t, Create(1, BadRequest, ""), max);
    ExecStep(s0, t + [Create(1, BadRequest, "")], Bury(1), max);
    ExecStep(s0, t + [Create(1, BadRequest, "")] + [Bury(1)], Create(0, Answered, id), max);
    ExecStep(s0, t + [Create(1, BadRequest, "")] + [Bury(1)] + [Create(0, Answered, id)], Record(0, 0), max);
  }

  /** Put back by an operator, the letter of a row SENT in the meantime has its one link recorded twice. */
  lemma ReplayRecordsTwice(cases: map<string, CaseFacts>, a: AppliedAction, id: string, now: int, max: int)
    ensures var again := [Begin(2, a), Commit(2, 0)] + [Create(2, Answered, "")] + [Fetch(2, Answered)] + [Record(2, 0)];
            var s := Exec(Start(cases), BuriedThenSent(a, id) + ([ReplayLetter(0, now)] + again), max);
            |s.links| == 1 && ActionsOn(s.db.actions, a.reference) == 2
  {
    var again := [Begin(2, a), Commit(2, 0)] + [Create(2, Answered, "")] + [Fetch(2, Answered)] + [Record(2, 0)];
    var s := Exec(Start(cases), BuriedThenSent(a, id), max);
    BuriedThenSentReached(cases, a, id, max);
    hide BuriedThenSent;
    var t := Apply(s, ReplayLetter(0, now), max);
    assert t.db.actions == s.db.actions && t.links == s.links && !t.db.rows[a.reference].status.Sent? && At(t, 2).phase.Idle?;
    RerunRecords(t, a, max);
    ExecCons(s, ReplayLetter(0, now), again, max);
    ExecConcat(Start(cases), BuriedThenSent(a, id), [ReplayLetter(0, now)] + again, max);
    hide Exec, Apply;
    var actions := Exec(t, again, max).db.actions;
    assert actions == [] + [actions[0]] + [actions[1]];
    ActionsOnAppend([], actions[0], a.reference);
    ActionsOnAppend([] + [actions[0]], actions[1], a.reference);
  }
}
