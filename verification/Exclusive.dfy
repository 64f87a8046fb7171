/**
 What needs one executor a reference: exactly one recorded action for a SENT row, the retry budget
 and the dead letters. The discipline is stated on steps, and a run without it is shown to break.
 */
module Exclusive {
  import opened Token
  import opened Outbox
  import opened Protocol

  predicate ActiveOn(p: Phase, r: string) {
    match p
    case Idle => false
    case Dropping(x) => x == r
    case p => p.a.reference == r
  }

  predicate Busy(s: Sys, r: string) {
    exists w | w in s.workers :: ActiveOn(s.workers[w].phase, r)
  }

  predicate Startable(s: Sys, r: string) {
    && !Busy(s, r)
    && (r in s.db.rows ==> s.db.rows[r].status.Pending? || s.db.rows[r].status.Sending?)
  }

  /** An execute, fresh or drained, starts only on a reference nobody works on whose row is absent, PENDING or SENDING. */
  predicate Disciplined(s: Sys, step: Step) {
    match step
    case Begin(w, a) => At(s, w).phase.Idle? ==> Startable(s, a.reference)
    case Take(w) => At(s, w).phase.Idle? && At(s, w).queue != [] ==> Startable(s, At(s, w).queue[0])
    case _ => true
  }

  ghost predicate DisciplinedRun(s: Sys, steps: seq<Step>, max: int) {
    steps != [] ==>
      && DisciplinedRun(s, steps[..|steps| - 1], max)
      && Disciplined(Exec(s, steps[..|steps| - 1], max), steps[|steps| - 1])
  }

  function LettersOn(letters: seq<Letter>, r: string, replayed: bool): nat {
    if letters == [] then 0
    else
      var last := letters[|letters| - 1];
      LettersOn(letters[..|letters| - 1], r, replayed) + if last.reference == r && last.replayed == replayed then 1 else 0
  }

  lemma LettersOnAppend(letters: seq<Letter>, x: Letter, r: string, replayed: bool)
    ensures LettersOn(letters + [x], r, replayed)
            == LettersOn(letters, r, replayed) + if x.reference == r && x.replayed == replayed then 1 else 0
  {
  }

  lemma {:induction false} LettersOnReplay(letters: seq<Letter>, i: nat, r: string)
    requires i < |letters| && !letters[i].replayed
    ensures var after := letters[i := letters[i].(replayed := true)];
            var d := if letters[i].reference == r then 1 else 0;
            && LettersOn(after, r, false) == LettersOn(letters, r, false) - d
            && LettersOn(after, r, true) == LettersOn(letters, r, true) + d
  {
    var after := letters[i := letters[i].(replayed := true)];
    var n := |letters| - 1;
    if i < n {
      LettersOnReplay(letters[..n], i, r);
      assert after[..n] == letters[..n][i := letters[i].(replayed := true)];
    } else {
      assert after[..n] == letters[..n];
    }
  }

  /** A first failure is always allowed: the source compares after counting it. */
  function Budget(max: int): nat {
    if max < 1 then 1 else max
  }

  /** What holds of one reference. */
  ghost predicate Solo(s: Sys, max: int, r: string) {
    && (forall v, w :: v in s.workers && w in s.workers && v != w ==>
         !(ActiveOn(s.workers[v].phase, r) && ActiveOn(s.workers[w].phase, r)))
    && RecordedOnce(s.db, r)
    && (r in s.db.rows ==> SoloRow(s.db.rows[r], s.db.letters, Busy(s, r), max, r))
    && (r !in s.db.rows ==> LettersOn(s.db.letters, r, false) == 0)
  }

  /** At most one open letter, on an idle DEAD row; never a SENT row under execution; the budget holds. */
  ghost predicate SoloRow(row: Row, letters: seq<Letter>, busy: bool, max: int, r: string) {
    && (busy ==> !row.status.Sent?)
    && LettersOn(letters, r, false) <= 1
    && (LettersOn(letters, r, false) == 1 ==> row.status.Dead? && !busy)
    && row.attempt <= Budget(max) + LettersOn(letters, r, true)
    && (busy || row.status.Pending? || row.status.Sending? ==> row.attempt < Budget(max) + LettersOn(letters, r, true))
  }

  /** A worker that goes idle, or stays where it was, leaves no new work on any reference. */
  lemma BusyShrinks(s: Sys, t: Sys, w: nat, r: string)
    requires forall v :: v in t.workers && v != w ==> v in s.workers && t.workers[v] == s.workers[v]
    requires w in t.workers && ActiveOn(t.workers[w].phase, r) ==> ActiveOn(At(s, w).phase, r)
    ensures Busy(t, r) ==> Busy(s, r)
  {
  }

  lemma AloneAfter(s: Sys, t: Sys, max: int, w: nat, r: string)
    requires Solo(s, max, r) && w in s.workers && ActiveOn(s.workers[w].phase, r)
    requires forall v :: v in t.workers && v != w ==> v in s.workers && t.workers[v] == s.workers[v]
    requires w in t.workers && !ActiveOn(t.workers[w].phase, r)
    ensures Busy(s, r) && !Busy(t, r)
  {
  }

  /** Steps that change no table and add no work. */
  lemma LocalSolo(s: Sys, t: Sys, max: int, w: nat, r: string)
    requires Solo(s, max, r) && t.db == s.db
    requires forall v :: v in t.workers && v != w ==> v in s.workers && t.workers[v] == s.workers[v]
    requires w in t.workers && ActiveOn(t.workers[w].phase, r) ==> ActiveOn(At(s, w).phase, r)
    ensures Solo(t, max, r)
  {
  }

  lemma StartSolo(s: Sys, t: Sys, max: int, w: nat, x: string, r: string)
    requires Solo(s, max, r) && t.db == s.db && Startable(s, x)
    requires forall v :: v in t.workers && v != w ==> v in s.workers && t.workers[v] == s.workers[v]
    requires w in t.workers ==> forall y :: ActiveOn(t.workers[w].phase, y) ==> y == x
    ensures Solo(t, max, r)
  {
  }

  lemma CommitSolo(s: Sys, max: int, w: nat, now: int, r: string)
    requires Solo(s, max, r)
    ensures Solo(Apply(s, Commit(w, now), max), max, r)
  {
    if At(s, w).phase.Ready? {
      var t := Apply(s, Commit(w, now), max);
      BusyShrinks(s, t, w, r);
      assert t.db.actions == s.db.actions && t.db.letters == s.db.letters;
      if r in t.db.rows && r !in s.db.rows {
        assert t.db.rows[r].status.Pending? && t.db.rows[r].attempt == 0;
      }
    }
  }

  lemma RecordSolo(s: Sys, max: int, w: nat, now: int, r: string)
    requires Solo(s, max, r)
    ensures Solo(Apply(s, Record(w, now), max), max, r)
  {
    if At(s, w).phase.Linked? {
      var p := At(s, w).phase;
      var t := Apply(s, Record(w, now), max);
      BusyShrinks(s, t, w, r);
      PhaseTwoKeepsRecord(s.db, p.a, p.link, now, r);
      if p.a.reference == r {
        AloneAfter(s, t, max, w, r);
      }
    }
  }

  /** The end of a failing execute: the worker leaves, the counter moves, and a letter may open. */
  lemma FailureSolo(s: Sys, t: Sys, max: int, w: nat, x: string, r: string)
    requires Solo(s, max, r) && w in s.workers
    requires ActiveOn(s.workers[w].phase, x) && x in s.db.rows && x in t.db.rows
    requires t.workers == s.workers[w := s.workers[w].(phase := Idle)]
    requires t.db.actions == s.db.actions
    requires t.db.rows == s.db.rows[x := t.db.rows[x]]
    requires
      || t.db == s.db
      || (&& t.db.rows[x].attempt == s.db.rows[x].attempt + 1
          && t.db.rows[x].status.Dead?
          && t.db.letters == s.db.letters + [Letter(x, t.db.rows[x].attempt, false)])
      || (&& t.db.rows[x].attempt == s.db.rows[x].attempt + 1 < max
          && t.db.rows[x].status.Pending? && t.db.letters == s.db.letters)
      || (t.db.rows[x].attempt == s.db.rows[x].attempt && t.db.rows[x].status.Dead? && t.db.letters == s.db.letters)
    ensures Solo(t, max, r)
  {
    BusyShrinks(s, t, w, r);
    assert RecordedOnce(t.db, r);
    hide RecordedOnce;
    if |t.db.letters| > |s.db.letters| {
      LettersOnAppend(s.db.letters, t.db.letters[|s.db.letters|], r, false);
      LettersOnAppend(s.db.letters, t.db.letters[|s.db.letters|], r, true);
    }
    if x == r {
      AloneAfter(s, t, max, w, r);
    }
  }

  lemma RetrySolo(s: Sys, max: int, w: nat, now: int, jitter: real, r: string)
    requires Safe(s) && Solo(s, max, r)
    ensures Solo(Apply(s, Retry(w, now, jitter), max), max, r)
  {
    if At(s, w).phase.Retryable? {
      assert PhaseSound(s.workers[w].phase, s.db.rows, s.links);
      FailureSolo(s, Apply(s, Retry(w, now, jitter), max), max, w, At(s, w).phase.a.reference, r);
    }
  }

  lemma BurySolo(s: Sys, max: int, w: nat, r: string)
    requires Safe(s) && Solo(s, max, r)
    ensures Solo(Apply(s, Bury(w), max), max, r)
  {
    if At(s, w).phase.Permanent? {
      assert PhaseSound(s.workers[w].phase, s.db.rows, s.links);
      FailureSolo(s, Apply(s, Bury(w), max), max, w, At(s, w).phase.a.reference, r);
    }
  }

  lemma DropSolo(s: Sys, max: int, w: nat, r: string)
    requires Safe(s) && Solo(s, max, r)
    ensures Solo(Apply(s, Drop(w), max), max, r)
  {
    if At(s, w).phase.Dropping? {
      assert PhaseSound(s.workers[w].phase, s.db.rows, s.links);
      FailureSolo(s, Apply(s, Drop(w), max), max, w, At(s, w).phase.r, r);
    }
  }

  lemma ReplaySolo(s: Sys, max: int, i: nat, now: int, r: string)
    requires Solo(s, max, r)
    ensures Solo(Apply(s, ReplayLetter(i, now), max), max, r)
  {
    var t := Apply(s, ReplayLetter(i, now), max);
    if t.db != s.db {
      LettersOnReplay(s.db.letters, i, r);
      assert Busy(t, r) == Busy(s, r);
    }
  }

  lemma SweepSolo(s: Sys, max: int, now: int, r: string)
    requires Solo(s, max, r)
    ensures Solo(Apply(s, SweepDeferrals(now), max), max, r)
  {
  }

  lemma CreateSolo(s: Sys, max: int, w: nat, fate: Fate, linkId: string, r: string)
    requires Solo(s, max, r)
    ensures Solo(Apply(s, Create(w, fate, linkId), max), max, r)
    ensures Solo(Apply(s, Fetch(w, fate), max), max, r)
  {
    if At(s, w).phase.Intended? {
      LocalSolo(s, Apply(s, Create(w, fate, linkId), max), max, w, r);
    }
    if At(s, w).phase.Duplicate? {
      LocalSolo(s, Apply(s, Fetch(w, fate), max), max, w, r);
    }
  }

  lemma BeginSolo(s: Sys, max: int, w: nat, a: AppliedAction, r: string)
    requires Solo(s, max, r) && Disciplined(s, Begin(w, a))
    ensures Solo(Apply(s, Begin(w, a), max), max, r)
  {
  }

  lemma TakeSolo(s: Sys, max: int, w: nat, r: string)
    requires Solo(s, max, r) && RowsReadable(s.db) && Disciplined(s, Take(w))
    ensures Solo(Apply(s, Take(w), max), max, r)
  {
    var t := TakeStep(s, w);
    if t != s {
      StartSolo(s, t, max, w, At(s, w).queue[0], r);
    }
  }

  lemma StepSolo(s: Sys, step: Step, max: int, r: string)
    requires Safe(s) && RowsReadable(s.db) && Solo(s, max, r) && Disciplined(s, step)
    ensures Solo(Apply(s, step, max), max, r)
  {
    match step
    case Begin(w, a) => BeginSolo(s, max, w, a, r);
    case Commit(w, now) => CommitSolo(s, max, w, now, r);
    case Create(w, fate, linkId) => CreateSolo(s, max, w, fate, linkId, r);
    case Fetch(w, fate) => CreateSolo(s, max, w, fate, "", r);
    case Record(w, now) => RecordSolo(s, max, w, now, r);
    case Retry(w, now, jitter) => RetrySolo(s, max, w, now, jitter, r);
    case Bury(w) => BurySolo(s, max, w, r);
    case Select(w, picked, now) => LocalSolo(s, Apply(s, step, max), max, w, r);
    case Take(w) => TakeSolo(s, max, w, r);
    case Drop(w) => DropSolo(s, max, w, r);
    case Crash(w) => LocalSolo(s, Apply(s, step, max), max, w, r);
    case SweepDeferrals(now) => SweepSolo(s, max, now, r);
    case ReplayLetter(i, now) => ReplaySolo(s, max, i, now, r);
    case CaseMoves(c, facts) => CaseMoveSolo(s, c, facts, max, r);
  }

  lemma CaseMoveSolo(s: Sys, c: string, facts: CaseFacts, max: int, r: string)
    requires Solo(s, max, r)
    ensures Solo(Apply(s, CaseMoves(c, facts), max), max, r)
  {
  }

  /**
   Every disciplined run of execute, crash, drain, sweep and replay: one action if SENT and none
   otherwise; an open letter only on a DEAD row; and the counter within the budget plus the replays.
   */
  lemma {:induction false} EveryDisciplinedRun(cases: map<string, CaseFacts>, steps: seq<Step>, max: int, r: string)
    requires DisciplinedRun(Start(cases), steps, max)
    ensures Solo(Exec(Start(cases), steps, max), max, r)
  {
    if steps != [] {
      var before := steps[..|steps| - 1];
      EveryDisciplinedRun(cases, before, max, r);
      EveryRunIsSafe(cases, before, max);
      EveryRunIsReadable(cases, before, max);
      StepSolo(Exec(Start(cases), before, max), steps[|steps| - 1], max, r);
    }
  }

  // --------------------------------------------------------------------------
  // The retry counter counts the failures that committed, in every run, disciplined or not.

  /** The step is the end of a failing execute of `r`, and its commit is accepted. */
  predicate FailsOn(s: Sys, step: Step, max: int, r: string) {
    match step
    case Retry(w, now, jitter) =>
      && At(s, w).phase.Retryable? && At(s, w).phase.a.reference == r && r in s.db.rows
      && ScheduleRetry(s.db, r, max, now, jitter).1.Committed?
    case Bury(w) =>
      && At(s, w).phase.Permanent? && At(s, w).phase.a.reference == r && r in s.db.rows
      && DeadLetter(s.db, r).1.Committed?
    case _ => false
  }

  function FailuresIn(s: Sys, steps: seq<Step>, max: int, r: string): nat {
    if steps == [] then 0
    else
      var n := |steps| - 1;
      FailuresIn(s, steps[..n], max, r) + if FailsOn(Exec(s, steps[..n], max), steps[n], max, r) then 1 else 0
  }

  lemma AttemptStep(s: Sys, step: Step, max: int, r: string)
    ensures var before := if r in s.db.rows then s.db.rows[r].attempt else 0;
            var rows := Apply(s, step, max).db.rows;
            (if r in rows then rows[r].attempt else 0) == before + (if FailsOn(s, step, max, r) then 1 else 0)
  {
  }

  lemma {:induction false} AttemptCountsFailures(cases: map<string, CaseFacts>, steps: seq<Step>, max: int, r: string)
    ensures var rows := Exec(Start(cases), steps, max).db.rows;
            (if r in rows then rows[r].attempt else 0) == FailuresIn(Start(cases), steps, max, r)
  {
    if steps != [] {
      var n := |steps| - 1;
      AttemptCountsFailures(cases, steps[..n], max, r);
      AttemptStep(Exec(Start(cases), steps[..n], max), steps[n], max, r);
    }
  }

  // --------------------------------------------------------------------------
  // Two executors on one reference.

  /** Two workers execute the same action; the second times out, the first records. */
  function Overlap(a: AppliedAction, id: string): seq<Step> {
    [Begin(0, a), Commit(0, 0)] + [Begin(1, a), Commit(1, 0)] + [Create(1, TimedOut, "")]
    + [Create(0, Answered, id)] + [Record(0, 0)]
  }

  /** A third execute, after the second worker's retry. */
  function Rerun(a: AppliedAction, jitter: real): seq<Step> {
    [Retry(1, 0, jitter)] + [Begin(2, a), Commit(2, 0)] + [Create(2, Answered, "")] + [Fetch(2, Answered)] + [Record(2, 0)]
  }

  lemma BothIntended(cases: map<string, CaseFacts>, a: AppliedAction, max: int)
    ensures var s := Exec(Start(cases), [Begin(0, a), Commit(0, 0)] + [Begin(1, a), Commit(1, 0)], max);
            && s.db == PhaseOne(Start(cases).db, a, 0).0 && s.links == []
            && At(s, 0).phase == Intended(a) && At(s, 1).phase == Intended(a) && At(s, 2).phase.Idle?
  {
    BeginCommit(Start(cases), 0, a, 0, max);
    BeginCommit(Exec(Start(cases), [Begin(0, a), Commit(0, 0)], max), 1, a, 0, max);
    ExecConcat(Start(cases), [Begin(0, a), Commit(0, 0)], [Begin(1, a), Commit(1, 0)], max);
  }

  lemma TimeoutThenLink(s: Sys, a: AppliedAction, id: string, max: int)
    requires At(s, 0).phase == Intended(a) && At(s, 1).phase == Intended(a) && s.links == []
    ensures var t := Apply(Apply(s, Create(1, TimedOut, ""), max), Create(0, Answered, id), max);
            && t.db == s.db && t.links == [Link(a.reference, id, a.chargeAmountPaise)]
            && At(t, 0).phase == Linked(a, Link(a.reference, id, a.chargeAmountPaise))
            && At(t, 1).phase == Retryable(a) && At(t, 2) == At(s, 2)
  {
  }

  lemma OverlapReached(cases: map<string, CaseFacts>, a: AppliedAction, id: string, max: int)
    ensures var s := Exec(Start(cases), Overlap(a, id), max);
            && s.db.rows.Keys == {a.reference} && s.db.rows[a.reference].status.Sent?
            && s.db.actions == [ActionFor(a, id, 0)]
            && s.links == [Link(a.reference, id, a.chargeAmountPaise)]
            && At(s, 1).phase == Retryable(a) && At(s, 2).phase.Idle?
  {
    var s0 := Start(cases);
    var t := [Begin(0, a), Commit(0, 0)] + [Begin(1, a), Commit(1, 0)];
    BothIntended(cases, a, max);
    TimeoutThenLink(Exec(s0, t, max), a, id, max);
    ExecStep(s0, t, Create(1, TimedOut, ""), max);
    ExecStep(s0, t + [Create(1, TimedOut, "")], Create(0, Answered, id), max);
    ExecStep(s0, t + [Create(1, TimedOut, "")] + [Create(0, Answered, id)], Record(0, 0), max);
  }

  lemma RetryUnsends(s: Sys, a: AppliedAction, jitter: real, max: int)
    requires At(s, 1).phase == Retryable(a) && At(s, 2).phase.Idle?
    requires s.db.rows.Keys == {a.reference}
    ensures var t := Apply(s, Retry(1, 0, jitter), max);
            && t.db.rows.Keys == {a.reference} && !t.db.rows[a.reference].status.Sent?
            && t.db.actions == s.db.actions && t.links == s.links && At(t, 2).phase.Idle?
  {
  }

  lemma RerunRecords(s: Sys, a: AppliedAction, max: int)
    requires At(s, 2).phase.Idle? && a.reference in s.db.rows && !s.db.rows[a.reference].status.Sent?
    requires FindLink(s.links, a.reference).Some?
    ensures var t := Exec(s, [Begin(2, a), Commit(2, 0)] + [Create(2, Answered, "")] + [Fetch(2, Answered)] + [Record(2, 0)], max);
            && |t.db.actions| == |s.db.actions| + 1 && t.db.actions[..|s.db.actions|] == s.db.actions
            && t.db.actions[|s.db.actions|].reference == a.reference
            && t.links == s.links
  {
    hide ActionsOn, BackoffMicros;
    var t := [Begin(2, a), Commit(2, 0)];
    BeginCommit(s, 2, a, 0, max);
    ExecStep(s, t, Create(2, Answered, ""), max);
    ExecStep(s, t + [Create(2, Answered, "")], Fetch(2, Answered), max);
    ExecStep(s, t + [Create(2, Answered, "")] + [Fetch(2, Answered)], Record(2, 0), max);
  }

  /** Without the discipline the dispatch of one link is recorded twice, for every action. */
  lemma OverlapRecordsTwice(cases: map<string, CaseFacts>, a: AppliedAction, id: string, jitter: real, max: int)
    ensures var s := Exec(Start(cases), Overlap(a, id) + Rerun(a, jitter), max);
            |s.links| == 1 && ActionsOn(s.db.actions, a.reference) == 2
  {
    var s := Exec(Start(cases), Overlap(a, id), max);
    OverlapReached(cases, a, id, max);
    RetryUnsends(s, a, jitter, max);
    var t := Apply(s, Retry(1, 0, jitter), max);
    RerunRecords(t, a, max);
    var rest := [Begin(2, a), Commit(2, 0)] + [Create(2, Answered, "")] + [Fetch(2, Answered)] + [Record(2, 0)];
    ExecCons(s, Retry(1, 0, jitter), rest, max);
    assert Rerun(a, jitter) == [Retry(1, 0, jitter)] + rest;
    ExecConcat(Start(cases), Overlap(a, id), Rerun(a, jitter), max);
    var actions := Exec(Start(cases), Overlap(a, id) + Rerun(a, jitter), max).db.actions;
    assert actions == [] + [actions[0]] + [actions[1]];
    ActionsOnAppend([], actions[0], a.reference);
    ActionsOnAppend([] + [actions[0]], actions[1], a.reference);
  }
}
