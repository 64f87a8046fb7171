/**
 What the uniqueness of case, action type and attempt makes of several references of one case: intents
 that are refused, and failures that are rolled back so that no attempt is spent.
 */
module Siblings {
  import opened Text
  import opened Enums
  import opened Token
  import opened Outbox
  import opened Protocol
  import opened Exclusive

  // --------------------------------------------------------------------------
  // Phase one.

  /**
   After any run: a fresh intent is refused if and only if its reference has no row and some row of the
   same case has had no committed failure, a row SENT at its first try included.
   */
  lemma IntentRefusedExactlyWhen(cases: map<string, CaseFacts>, steps: seq<Step>, max: int, a: AppliedAction, now: int)
    ensures var db := Exec(Start(cases), steps, max).db;
            PhaseOne(db, a, now).1.Refused? <==>
              && a.reference !in db.rows
              && exists r | r in db.rows :: db.rows[r].caseId == a.caseId && FailuresIn(Start(cases), steps, max, r) == 0
  {
    hide Exec, FailuresIn;
    forall r {
      AttemptCountsFailures(cases, steps, max, r);
    }
  }

  function Dispatch(a: AppliedAction, id: string): seq<Step> {
    [Begin(0, a), Commit(0, 0)] + [Create(0, Answered, id)] + [Record(0, 0)]
  }

  lemma LinkedAndRecorded(s: Sys, a: AppliedAction, id: string, max: int)
    requires s.db.rows.Keys == {a.reference} && s.db.rows[a.reference].status.Pending? && s.links == []
    requires At(s, 0).phase == Intended(a)
    ensures var t := Apply(Apply(s, Create(0, Answered, id), max), Record(0, 0), max);
            && t.db.rows.Keys == {a.reference} && t.db.rows[a.reference].status.Sent?
            && t.db.rows[a.reference].attempt == s.db.rows[a.reference].attempt
            && t.db.rows[a.reference].caseId == s.db.rows[a.reference].caseId
  {
  }

  /** A case whose first reference was dispatched at once has no second one. */
  lemma SecondReferenceRefused(cases: map<string, CaseFacts>, a: AppliedAction, b: AppliedAction, id: string, now: int, max: int)
    requires b.caseId == a.caseId && b.reference != a.reference
    ensures var db := Exec(Start(cases), Dispatch(a, id), max).db;
            && db.rows.Keys == {a.reference} && db.rows[a.reference].status.Sent? && db.rows[a.reference].attempt == 0
            && PhaseOne(db, b, now) == (db, Refused)
  {
    var first := [Begin(0, a), Commit(0, 0)];
    BeginCommit(Start(cases), 0, a, 0, max);
    ExecStep(Start(cases), first, Create(0, Answered, id), max);
    ExecStep(Start(cases), first + [Create(0, Answered, id)], Record(0, 0), max);
    hide Exec, Apply, AsPayload;
    LinkedAndRecorded(Exec(Start(cases), first, max), a, id, max);
    assert a.reference in Exec(Start(cases), Dispatch(a, id), max).db.rows;
  }

  lemma {:induction false} OpenLetterCounts(letters: seq<Letter>, i: nat, r: string)
    requires i < |letters| && letters[i].reference == r && !letters[i].replayed
    ensures LettersOn(letters, r, false) > 0
  {
    if i < |letters| - 1 {
      OpenLetterCounts(letters[..|letters| - 1], i, r);
    }
  }

  /** No step touches a SENT row that nobody works on and that has no open letter. */
  lemma SentRowStays(s: Sys, step: Step, max: int, r: string)
    requires Solo(s, max, r) && r in s.db.rows && s.db.rows[r].status.Sent?
    ensures r in Apply(s, step, max).db.rows && Apply(s, step, max).db.rows[r] == s.db.rows[r]
  {
    assert !Busy(s, r) && LettersOn(s.db.letters, r, false) == 0;
    hide RecordedOnce, AttemptTaken, BackoffMicros, LettersOn, Solo, SoloRow;
    match step
    case ReplayLetter(i, _) =>
      if i < |s.db.letters| && !s.db.letters[i].replayed && s.db.letters[i].reference == r {
        OpenLetterCounts(s.db.letters, i, r);
      }
    case Retry(w, _, _) => assert At(s, w).phase.Retryable? ==> w in s.workers;
    case Bury(w) => assert At(s, w).phase.Permanent? ==> w in s.workers;
    case Drop(w) => assert At(s, w).phase.Dropping? ==> w in s.workers;
    case _ =>
  }

  lemma NoNewReference(s: Sys, step: Step, max: int, r: string, x: string)
    requires r in s.db.rows && s.db.rows[r].attempt == 0
    requires x in Apply(s, step, max).db.rows && Apply(s, step, max).db.rows[x].caseId == s.db.rows[r].caseId
    ensures x in s.db.rows
  {
    if x !in s.db.rows {
      RowsComeFromCommit(s, step, max, x);
      assert AttemptTaken(s.db, At(s, step.w).phase.a.caseId, 0, x);
    }
  }

  lemma CaseOfARowStays(s: Sys, step: Step, max: int, x: string)
    requires Safe(s) && x in s.db.rows
    ensures x in Apply(s, step, max).db.rows && Apply(s, step, max).db.rows[x].caseId == s.db.rows[x].caseId
  {
    StepSafe(s, step, max);
  }

  /**
   For ever after, in every disciplined run: once a row is SENT at its first try it stays as it is, and
   its case gets no further reference, however many attempts its stopping rules would still permit.
   */
  lemma {:induction false} SentAtFirstTryClosesItsCase(
    cases: map<string, CaseFacts>, steps: seq<Step>, more: seq<Step>, max: int, r: string, x: string)
    requires DisciplinedRun(Start(cases), steps + more, max)
    requires var db := Exec(Start(cases), steps, max).db; r in db.rows && db.rows[r].status.Sent? && db.rows[r].attempt == 0
    ensures var before, after := Exec(Start(cases), steps, max).db, Exec(Start(cases), steps + more, max).db;
            && r in after.rows && after.rows[r] == before.rows[r]
            && (x in after.rows && after.rows[x].caseId == before.rows[r].caseId ==> x in before.rows)
  {
    if more == [] {
      assert steps + more == steps;
    } else {
      var run, n := steps + more, |more| - 1;
      assert run[..|run| - 1] == steps + more[..n] && run[|run| - 1] == more[n];
      var s := Exec(Start(cases), steps + more[..n], max);
      assert Exec(Start(cases), run, max) == Apply(s, more[n], max);
      assert DisciplinedRun(Start(cases), steps + more[..n], max);
      hide Exec, DisciplinedRun, Apply, Solo, Safe;
      SentAtFirstTryClosesItsCase(cases, steps, more[..n], max, r, x);
      EveryDisciplinedRun(cases, steps + more[..n], max, r);
      EveryRunIsSafe(cases, steps + more[..n], max);
      SentRowStays(s, more[n], max, r);
      var after := Apply(s, more[n], max).db;
      if x in after.rows && after.rows[x].caseId == s.db.rows[r].caseId {
        NoNewReference(s, more[n], max, r, x);
        CaseOfARowStays(s, more[n], max, x);
      }
    }
  }

  // --------------------------------------------------------------------------
  // Failures.

  /** The step ends a failing execute of `r`. */
  predicate Fails(s: Sys, step: Step, r: string) {
    match step
    case Retry(w, _, _) => At(s, w).phase.Retryable? && At(s, w).phase.a.reference == r
    case Bury(w) => At(s, w).phase.Permanent? && At(s, w).phase.a.reference == r
    case _ => false
  }

  /** It fails while another row of the case holds the next counter. */
  predicate Collides(s: Sys, step: Step, r: string) {
    Fails(s, step, r) && r in s.db.rows && AttemptTaken(s.db, s.db.rows[r].caseId, s.db.rows[r].attempt + 1, r)
  }

  function FailingExecutes(s: Sys, steps: seq<Step>, max: int, r: string): nat {
    if steps == [] then 0
    else
      var n := |steps| - 1;
      FailingExecutes(s, steps[..n], max, r) + if Fails(Exec(s, steps[..n], max), steps[n], r) then 1 else 0
  }

  function Collisions(s: Sys, steps: seq<Step>, max: int, r: string): nat {
    if steps == [] then 0
    else
      var n := |steps| - 1;
      Collisions(s, steps[..n], max, r) + if Collides(Exec(s, steps[..n], max), steps[n], r) then 1 else 0
  }

  lemma CommittedOrCollides(s: Sys, step: Step, max: int, r: string)
    requires Safe(s)
    ensures (if Fails(s, step, r) then 1 else 0)
            == (if FailsOn(s, step, max, r) then 1 else 0) + (if Collides(s, step, r) then 1 else 0)
  {
    if Fails(s, step, r) {
      assert PhaseSound(s.workers[step.w].phase, s.db.rows, s.links);
    }
    hide Safe, BackoffMicros;
  }

  /** In every run each failing execute has spent an attempt or collided; none did both, none neither. */
  lemma {:induction false} FailuresAreSpentOrCollide(cases: map<string, CaseFacts>, steps: seq<Step>, max: int, r: string)
    ensures var rows := Exec(Start(cases), steps, max).db.rows;
            FailingExecutes(Start(cases), steps, max, r)
            == (if r in rows then rows[r].attempt else 0) + Collisions(Start(cases), steps, max, r)
  {
    AttemptCountsFailures(cases, steps, max, r);
    FailuresSplit(cases, steps, max, r);
  }

  lemma {:induction false} FailuresSplit(cases: map<string, CaseFacts>, steps: seq<Step>, max: int, r: string)
    ensures FailingExecutes(Start(cases), steps, max, r)
            == FailuresIn(Start(cases), steps, max, r) + Collisions(Start(cases), steps, max, r)
  {
    if steps != [] {
      var n := |steps| - 1;
      FailuresSplit(cases, steps[..n], max, r);
      EveryRunIsSafe(cases, steps[..n], max);
      CommittedOrCollides(Exec(Start(cases), steps[..n], max), steps[n], max, r);
    }
  }

  ghost predicate NeverCollides(s: Sys, steps: seq<Step>, max: int, r: string) {
    forall k :: 0 <= k < |steps| ==> !Collides(Exec(s, steps[..k], max), steps[k], r)
  }

  lemma {:induction false} NoCollisions(s: Sys, steps: seq<Step>, max: int, r: string)
    ensures Collisions(s, steps, max, r) == 0 <==> NeverCollides(s, steps, max, r)
  {
    hide Exec, Collides;
    if steps != [] {
      var n := |steps| - 1;
      NoCollisions(s, steps[..n], max, r);
      assert forall k :: 0 <= k < n ==> steps[..n][..k] == steps[..k] && steps[..n][k] == steps[k];
      assert NeverCollides(s, steps, max, r) ==> NeverCollides(s, steps[..n], max, r);
      assert NeverCollides(s, steps[..n], max, r) && !Collides(Exec(s, steps[..n], max), steps[n], r) ==> NeverCollides(s, steps, max, r) by {
        if NeverCollides(s, steps[..n], max, r) && !Collides(Exec(s, steps[..n], max), steps[n], r) {
          forall k | 0 <= k < |steps| ensures !Collides(Exec(s, steps[..k], max), steps[k], r) {
            assert k < n ==> !Collides(Exec(s, steps[..n][..k], max), steps[..n][k], r);
          }
        }
      }
    }
  }

  /**
   Every failing execute spends an attempt if and only if none of the run collides; and then, with one
   executor a reference, no more execute than the budget and the replays allow.
   */
  lemma BudgetHoldsExactlyWhen(cases: map<string, CaseFacts>, steps: seq<Step>, max: int, r: string)
    ensures var t := Exec(Start(cases), steps, max);
            var spent := if r in t.db.rows then t.db.rows[r].attempt else 0;
            var failing := FailingExecutes(Start(cases), steps, max, r);
            && (failing == spent <==> NeverCollides(Start(cases), steps, max, r))
            && (NeverCollides(Start(cases), steps, max, r) && DisciplinedRun(Start(cases), steps, max) ==>
                 failing <= Budget(max) + LettersOn(t.db.letters, r, true))
  {
    FailuresAreSpentOrCollide(cases, steps, max, r);
    NoCollisions(Start(cases), steps, max, r);
    if DisciplinedRun(Start(cases), steps, max) {
      EveryDisciplinedRun(cases, steps, max, r);
    }
    hide Exec, FailingExecutes, Collisions, NeverCollides, DisciplinedRun;
  }

  // --------------------------------------------------------------------------
  // Failing without bound.

  /** One failing execute, fresh or resumed by a drain pass; the provider times out or refuses. */
  datatype Round = Round(resumed: bool, refused: bool, now: int, jitter: real)

  function Upto(w: nat, a: AppliedAction, f: Round): seq<Step> {
    (if f.resumed then [Select(w, [a.reference], f.now), Take(w)] else [Begin(w, a)])
    + [Commit(w, f.now)] + [Create(w, if f.refused then BadRequest else TimedOut, "")]
  }

  function Ending(w: nat, f: Round): Step {
    if f.refused then Bury(w) else Retry(w, f.now, f.jitter)
  }

  function RoundSteps(w: nat, a: AppliedAction, f: Round): seq<Step> {
    Upto(w, a, f) + [Ending(w, f)]
  }

  function Rounds(w: nat, a: AppliedAction, fs: seq<Round>): seq<Step> {
    if fs == [] then [] else RoundSteps(w, a, fs[0]) + Rounds(w, a, fs[1..])
  }

  /** The reference is committed, and a round that resumes it finds it due, live and readable. */
  predicate CanRun(db: Db, a: AppliedAction, f: Round) {
    && a.reference in db.rows
    && (f.resumed ==>
         && Due(db.rows[a.reference], f.now) && CaseLive(db, db.rows[a.reference].caseId)
         && FromPayload(db.rows[a.reference].payload) == Some(a))
  }

  predicate Free(s: Sys, w: nat) {
    At(s, w) == Worker(Idle, [])
  }

  lemma TakenUp(s: Sys, w: nat, a: AppliedAction, now: int, max: int)
    requires Free(s, w) && CanRun(s.db, a, Round(true, false, now, 0.0))
    ensures Apply(Apply(s, Select(w, [a.reference], now), max), Take(w), max) == Moved(s, w, Ready(a))
  {
    var s1 := Apply(s, Select(w, [a.reference], now), max);
    assert s1 == s.(workers := s.workers[w := Worker(Idle, [a.reference])]);
    assert [a.reference][1..] == [];
    hide FromPayload, Due;
    assert TakeStep(s1, w) == Moved(s1.(workers := s1.workers[w := Worker(Idle, [])]), w, Ready(a));
    assert TakeStep(s1, w).workers == s.workers[w := Worker(Ready(a), [])];
  }

  lemma PickedUp(s: Sys, w: nat, a: AppliedAction, f: Round, max: int)
    requires Free(s, w) && CanRun(s.db, a, f)
    ensures var start := if f.resumed then [Select(w, [a.reference], f.now), Take(w)] else [Begin(w, a)];
            Exec(s, start, max) == Moved(s, w, Ready(a))
  {
    if f.resumed {
      TakenUp(s, w, a, f.now, max);
      hide Apply, CanRun;
      ExecStep(s, [], Select(w, [a.reference], f.now), max);
      ExecStep(s, [] + [Select(w, [a.reference], f.now)], Take(w), max);
      assert [Select(w, [a.reference], f.now), Take(w)] == [] + [Select(w, [a.reference], f.now)] + [Take(w)];
    } else {
      ExecStep(s, [], Begin(w, a), max);
      assert [] + [Begin(w, a)] == [Begin(w, a)];
    }
  }

  /** Every round does call the provider, and nothing has changed when the call has failed. */
  lemma CallFails(s: Sys, w: nat, a: AppliedAction, f: Round, max: int)
    requires Free(s, w) && CanRun(s.db, a, f)
    ensures Exec(s, Upto(w, a, f), max) == Moved(s, w, if f.refused then Permanent(a) else Retryable(a))
  {
    var start := if f.resumed then [Select(w, [a.reference], f.now), Take(w)] else [Begin(w, a)];
    PickedUp(s, w, a, f, max);
    ExecStep(s, start, Commit(w, f.now), max);
    ExecStep(s, start + [Commit(w, f.now)], Create(w, if f.refused then BadRequest else TimedOut, ""), max);
    hide Exec, CanRun;
    var s1 := Moved(s, w, Ready(a));
    var s2 := Apply(s1, Commit(w, f.now), max);
    assert PhaseOne(s.db, a, f.now) == (s.db, Committed);
    assert s2.workers == Moved(s, w, Intended(a)).workers;
  }

  lemma EndingCommitsOrNot(s: Sys, w: nat, a: AppliedAction, f: Round, max: int)
    requires Free(s, w) && a.reference in s.db.rows
    ensures var row := s.db.rows[a.reference];
            var t := Apply(Moved(s, w, if f.refused then Permanent(a) else Retryable(a)), Ending(w, f), max);
            && (AttemptTaken(s.db, row.caseId, row.attempt + 1, a.reference) ==>
                 t.db == s.db && t.links == s.links && (forall v :: At(t, v) == At(s, v)))
            && (!AttemptTaken(s.db, row.caseId, row.attempt + 1, a.reference) ==>
                 a.reference in t.db.rows && t.db.rows[a.reference].attempt == row.attempt + 1)
  {
    hide AttemptTaken, BackoffMicros;
  }

  lemma OneRound(s: Sys, w: nat, a: AppliedAction, f: Round, max: int)
    requires Free(s, w) && CanRun(s.db, a, f)
    ensures var row, t := s.db.rows[a.reference], Exec(s, RoundSteps(w, a, f), max);
            && (AttemptTaken(s.db, row.caseId, row.attempt + 1, a.reference) ==>
                 t.db == s.db && t.links == s.links && (forall v :: At(t, v) == At(s, v)))
            && (!AttemptTaken(s.db, row.caseId, row.attempt + 1, a.reference) ==>
                 a.reference in t.db.rows && t.db.rows[a.reference].attempt == row.attempt + 1)
  {
    CallFails(s, w, a, f, max);
    ExecStep(s, Upto(w, a, f), Ending(w, f), max);
    EndingCommitsOrNot(s, w, a, f, max);
    hide Exec, Apply, Upto, Ending, AttemptTaken;
  }

  lemma AttemptNeverShrinks(s: Sys, step: Step, max: int, r: string)
    requires r in s.db.rows
    ensures r in Apply(s, step, max).db.rows && Apply(s, step, max).db.rows[r].attempt >= s.db.rows[r].attempt
  {
    AttemptStep(s, step, max, r);
    hide AttemptTaken, BackoffMicros, FailsOn, FromPayload;
  }

  lemma {:induction false} AttemptsNeverShrink(s: Sys, steps: seq<Step>, max: int, r: string)
    requires r in s.db.rows
    ensures r in Exec(s, steps, max).db.rows && Exec(s, steps, max).db.rows[r].attempt >= s.db.rows[r].attempt
  {
    if steps != [] {
      var n := |steps| - 1;
      hide Apply;
      AttemptsNeverShrink(s, steps[..n], max, r);
      AttemptNeverShrinks(Exec(s, steps[..n], max), steps[n], max, r);
    }
  }

  lemma {:induction false} FailingConcat(s: Sys, first: seq<Step>, second: seq<Step>, max: int, r: string)
    ensures FailingExecutes(s, first + second, max, r)
            == FailingExecutes(s, first, max, r) + FailingExecutes(Exec(s, first, max), second, max, r)
  {
    if second == [] {
      assert first + second == first;
    } else {
      var n := |second| - 1;
      hide Exec, Fails;
      FailingConcat(s, first, second[..n], max, r);
      ExecConcat(s, first, second[..n], max);
      assert (first + second)[..|first| + n] == first + second[..n];
    }
  }

  lemma {:induction false} NoneFail(s: Sys, steps: seq<Step>, max: int, r: string)
    requires forall step :: step in steps ==> !step.Retry? && !step.Bury?
    ensures FailingExecutes(s, steps, max, r) == 0
  {
    if steps != [] {
      hide Exec;
      assert steps[|steps| - 1] in steps;
      NoneFail(s, steps[..|steps| - 1], max, r);
    }
  }

  lemma OneRoundFailsOnce(s: Sys, w: nat, a: AppliedAction, f: Round, max: int)
    requires Free(s, w) && CanRun(s.db, a, f)
    ensures FailingExecutes(s, RoundSteps(w, a, f), max, a.reference) == 1
  {
    CallFails(s, w, a, f, max);
    NoneFail(s, Upto(w, a, f), max, a.reference);
    assert RoundSteps(w, a, f)[..|Upto(w, a, f)|] == Upto(w, a, f);
    hide Exec, CanRun, Upto;
  }

  /**
   However many executes fail in a row, fresh or resumed, timed out or refused: they leave tables, links
   and workers as they were if and only if another row of the case holds the next counter.
   */
  lemma {:induction false} FailuresLeaveNoTraceExactlyWhen(s: Sys, w: nat, a: AppliedAction, fs: seq<Round>, max: int)
    requires Free(s, w) && fs != [] && a.reference in s.db.rows && forall f :: f in fs ==> CanRun(s.db, a, f)
    ensures var row, t := s.db.rows[a.reference], Exec(s, Rounds(w, a, fs), max);
            && (t.db == s.db <==> AttemptTaken(s.db, row.caseId, row.attempt + 1, a.reference))
            && (t.db == s.db ==>
                 && t.links == s.links && (forall v :: At(t, v) == At(s, v))
                 && FailingExecutes(s, Rounds(w, a, fs), max, a.reference) == |fs|)
    decreases |fs|
  {
    var first, rest := RoundSteps(w, a, fs[0]), fs[1..];
    var t := Exec(s, first, max);
    assert fs[0] in fs;
    OneRound(s, w, a, fs[0], max);
    OneRoundFailsOnce(s, w, a, fs[0], max);
    ExecConcat(s, first, Rounds(w, a, rest), max);
    FailingConcat(s, first, Rounds(w, a, rest), max, a.reference);
    hide Exec, RoundSteps, AttemptTaken, FailingExecutes, CanRun;
    AttemptsNeverShrink(t, Rounds(w, a, rest), max, a.reference);
    if AttemptTaken(s.db, s.db.rows[a.reference].caseId, s.db.rows[a.reference].attempt + 1, a.reference) {
      if rest == [] {
        RunOfNothing(t, max, a.reference);
      } else {
        assert forall f :: f in rest ==> f in fs;
        FailuresLeaveNoTraceExactlyWhen(t, w, a, rest, max);
      }
    }
  }

  lemma RunOfNothing(s: Sys, max: int, r: string)
    ensures Exec(s, [], max) == s && FailingExecutes(s, [], max, r) == 0
  {
  }

  /** The first reference of a case fails once; the second is committed, and its worker crashes. */
  function Stuck(a: AppliedAction, b: AppliedAction, jitter: real): seq<Step> {
    [Begin(0, a), Commit(0, 0)] + [Create(0, TimedOut, "")] + [Retry(0, 0, jitter)] + [Begin(1, b), Commit(1, 0)] + [Crash(1)]
  }

  lemma OneTimesOut(s: Sys, a: AppliedAction, jitter: real, max: int)
    requires s.db.rows.Keys == {a.reference} && s.db.rows[a.reference].attempt == 0 && s.db.letters == [] && s.links == []
    requires At(s, 0).phase == Intended(a)
    ensures var t := Apply(Apply(s, Create(0, TimedOut, ""), max), Retry(0, 0, jitter), max);
            && t.db.rows.Keys == {a.reference} && t.db.rows[a.reference].attempt == 1
            && t.db.rows[a.reference].caseId == s.db.rows[a.reference].caseId
            && (forall l :: l in t.db.letters ==> l.reference == a.reference)
            && t.links == [] && At(t, 1) == At(s, 1) && t.db.cases == s.db.cases
  {
    hide BackoffMicros;
  }

  lemma FirstFails(cases: map<string, CaseFacts>, a: AppliedAction, jitter: real, max: int)
    ensures var s := Exec(Start(cases), [Begin(0, a), Commit(0, 0)] + [Create(0, TimedOut, "")] + [Retry(0, 0, jitter)], max);
            && s.db.rows.Keys == {a.reference} && s.db.rows[a.reference].attempt == 1
            && s.db.rows[a.reference].caseId == a.caseId
            && (forall l :: l in s.db.letters ==> l.reference == a.reference)
            && s.links == [] && At(s, 1).phase.Idle? && s.db.cases == cases
  {
    var first := [Begin(0, a), Commit(0, 0)];
    BeginCommit(Start(cases), 0, a, 0, max);
    ExecStep(Start(cases), first, Create(0, TimedOut, ""), max);
    ExecStep(Start(cases), first + [Create(0, TimedOut, "")], Retry(0, 0, jitter), max);
    hide Exec, Apply, AsPayload;
    OneTimesOut(Exec(Start(cases), first, max), a, jitter, max);
  }

  lemma StuckReached(cases: map<string, CaseFacts>, a: AppliedAction, b: AppliedAction, jitter: real, max: int)
    requires b.caseId == a.caseId && b.reference != a.reference
    ensures var s := Exec(Start(cases), Stuck(a, b, jitter), max);
            && b.reference in s.db.rows && s.db.rows[b.reference] == Row(b.caseId, AsPayload(b), Pending, 0, None, 0, 0)
            && AttemptTaken(s.db, b.caseId, 1, b.reference) && Free(s, 1)
            && s.links == [] && s.db.cases == cases && (forall l :: l in s.db.letters ==> l.reference == a.reference)
  {
    var first := [Begin(0, a), Commit(0, 0)] + [Create(0, TimedOut, "")] + [Retry(0, 0, jitter)];
    var s := Exec(Start(cases), first, max);
    FirstFails(cases, a, jitter, max);
    BeginCommit(s, 1, b, 0, max);
    ExecConcat(Start(cases), first, [Begin(1, b), Commit(1, 0)], max);
    ExecStep(Start(cases), first + [Begin(1, b), Commit(1, 0)], Crash(1), max);
    hide Exec, AsPayload;
    var t := PhaseOne(s.db, b, 0).0;
    assert a.reference in t.rows && t.rows[a.reference].attempt == 1;
  }

  /**
   For any two references of a case there is a run after which the second one fails as often as it is
   executed, at any times after its commit, and is still PENDING with no attempt spent and no letter.
   */
  lemma FailsWithoutBound(
    cases: map<string, CaseFacts>, a: AppliedAction, b: AppliedAction, jitter: real, fs: seq<Round>, max: int)
    requires b.caseId == a.caseId && b.reference != a.reference
    requires b.caseId in cases && !Terminal(cases[b.caseId].status) && forall f :: f in fs ==> f.now >= 0
    ensures var t := Exec(Start(cases), Stuck(a, b, jitter) + Rounds(1, b, fs), max);
            && b.reference in t.db.rows && t.db.rows[b.reference].status.Pending? && t.db.rows[b.reference].attempt == 0
            && (forall l :: l in t.db.letters ==> l.reference != b.reference) && t.links == []
            && FailingExecutes(Start(cases), Stuck(a, b, jitter) + Rounds(1, b, fs), max, b.reference) >= |fs|
  {
    var s := Exec(Start(cases), Stuck(a, b, jitter), max);
    StuckReached(cases, a, b, jitter, max);
    PayloadRoundTrip(b);
    ExecConcat(Start(cases), Stuck(a, b, jitter), Rounds(1, b, fs), max);
    FailingConcat(Start(cases), Stuck(a, b, jitter), Rounds(1, b, fs), max, b.reference);
    hide FailingExecutes, AsPayload, FromPayload, Stuck, AttemptTaken;
    if fs == [] {
      RunOfNothing(s, max, b.reference);
    } else {
      hide Exec;
      FailuresLeaveNoTraceExactlyWhen(s, 1, b, fs, max);
    }
  }
}
