/**
 What the provider charges. The executor passes its caller's action to the provider, not the row's
 payload, so a link bears the committed charge as long as one reference is always charged the same.
 */
module Amounts {
  import opened Text
  import opened Token
  import opened Outbox
  import opened Protocol

  /** Every fresh execute of a reference charges what `intent` gives for it; all else about it may differ. */
  ghost predicate Intends(steps: seq<Step>, intent: map<string, int>) {
    forall i :: 0 <= i < |steps| && steps[i].Begin? ==> Meant(steps[i].a, intent)
  }

  predicate Meant(a: AppliedAction, intent: map<string, int>) {
    a.reference in intent && a.chargeAmountPaise == intent[a.reference]
  }

  ghost predicate PhaseMeant(p: Phase, intent: map<string, int>) {
    p.Idle? || p.Dropping? || Meant(p.a, intent)
  }

  ghost predicate AsMeant(s: Sys, intent: map<string, int>) {
    && (forall w :: w in s.workers ==> PhaseMeant(s.workers[w].phase, intent))
    && (forall r :: r in s.db.rows ==> RowMeant(s.db.rows[r], r, intent))
    && (forall l :: l in s.links ==> LinkMeant(l, intent))
  }

  ghost predicate RowMeant(row: Row, r: string, intent: map<string, int>) {
    match FromPayload(row.payload)
    case Some(a) => a.reference == r && Meant(a, intent)
    case None => false
  }

  predicate LinkMeant(l: Link, intent: map<string, int>) {
    l.reference in intent && l.amountPaise == intent[l.reference]
  }

  lemma TakeMeant(s: Sys, w: nat, intent: map<string, int>)
    requires AsMeant(s, intent)
    ensures AsMeant(TakeStep(s, w), intent)
  {
    var t := TakeStep(s, w);
    if t != s {
      var r := At(s, w).queue[0];
      assert RowMeant(s.db.rows[r], r, intent);
      hide FromPayload;
      assert PhaseMeant(t.workers[w].phase, intent);
    }
  }

  lemma CreateMeant(s: Sys, w: nat, a: AppliedAction, fate: Fate, linkId: string, intent: map<string, int>)
    requires AsMeant(s, intent) && At(s, w).phase == Intended(a)
    ensures AsMeant(CreateStep(s, w, a, fate, linkId), intent)
  {
  }

  /** Steps that leave the links and every payload alone, and give a worker no other action. */
  lemma QuietMeant(s: Sys, t: Sys, w: nat, intent: map<string, int>)
    requires AsMeant(s, intent) && t.links == s.links
    requires forall r :: r in t.db.rows ==> r in s.db.rows && t.db.rows[r].payload == s.db.rows[r].payload
    requires forall v :: v in t.workers && v != w ==> v in s.workers && t.workers[v] == s.workers[v]
    requires w in t.workers ==> PhaseMeant(t.workers[w].phase, intent)
    ensures AsMeant(t, intent)
  {
  }

  lemma RetryMeant(s: Sys, w: nat, max: int, now: int, jitter: real, intent: map<string, int>)
    requires AsMeant(s, intent)
    ensures AsMeant(Apply(s, Retry(w, now, jitter), max), intent)
  {
    hide FromPayload, BackoffMicros, FindLink, RowMeant, LinkMeant, AttemptTaken;
    if At(s, w).phase.Retryable? {
      QuietMeant(s, Apply(s, Retry(w, now, jitter), max), w, intent);
    }
  }

  lemma BuryMeant(s: Sys, w: nat, max: int, intent: map<string, int>)
    requires AsMeant(s, intent)
    ensures AsMeant(Apply(s, Bury(w), max), intent)
    ensures AsMeant(Apply(s, Drop(w), max), intent)
  {
    hide FromPayload, BackoffMicros, FindLink, RowMeant, LinkMeant, AttemptTaken;
    if At(s, w).phase.Permanent? {
      QuietMeant(s, Apply(s, Bury(w), max), w, intent);
    }
    if At(s, w).phase.Dropping? {
      QuietMeant(s, Apply(s, Drop(w), max), w, intent);
    }
  }

  lemma IntentMeant(db: Db, a: AppliedAction, now: int, intent: map<string, int>, r: string)
    requires Meant(a, intent) && (r in db.rows ==> RowMeant(db.rows[r], r, intent))
    ensures var t := PhaseOne(db, a, now).0; r in t.rows ==> RowMeant(t.rows[r], r, intent)
  {
    PayloadRoundTrip(a);
    assert forall row: Row :: row.payload == AsPayload(a) ==> RowMeant(row, a.reference, intent);
    hide RowMeant;
  }

  lemma CommitMeant(s: Sys, w: nat, max: int, now: int, intent: map<string, int>)
    requires AsMeant(s, intent)
    ensures AsMeant(Apply(s, Commit(w, now), max), intent)
  {
    if At(s, w).phase.Ready? {
      var a := At(s, w).phase.a;
      assert PhaseMeant(s.workers[w].phase, intent);
      var t := Apply(s, Commit(w, now), max);
      hide PhaseOne, RowMeant, LinkMeant;
      forall r | r in t.db.rows ensures RowMeant(t.db.rows[r], r, intent) {
        IntentMeant(s.db, a, now, intent, r);
      }
    }
  }

  lemma RecordMeant(s: Sys, w: nat, max: int, now: int, fate: Fate, intent: map<string, int>)
    requires AsMeant(s, intent)
    ensures AsMeant(Apply(s, Record(w, now), max), intent)
    ensures AsMeant(Apply(s, Fetch(w, fate), max), intent)
  {
    hide RowMeant, LinkMeant, FromPayload;
    assert w in s.workers ==> PhaseMeant(s.workers[w].phase, intent);
    QuietMeant(s, Apply(s, Record(w, now), max), w, intent);
    QuietMeant(s, Apply(s, Fetch(w, fate), max), w, intent);
  }

  lemma EnvironmentMeant(s: Sys, step: Step, max: int, intent: map<string, int>)
    requires AsMeant(s, intent)
    requires step.SweepDeferrals? || step.ReplayLetter? || step.CaseMoves?
    ensures AsMeant(Apply(s, step, max), intent)
  {
    hide RowMeant, LinkMeant, FromPayload;
    QuietMeant(s, Apply(s, step, max), 0, intent);
  }

  lemma LocalMeant(s: Sys, step: Step, max: int, intent: map<string, int>)
    requires AsMeant(s, intent) && (step.Begin? || step.Select? || step.Crash?)
    requires step.Begin? ==> Meant(step.a, intent)
    ensures AsMeant(Apply(s, step, max), intent)
  {
  }

  lemma StepMeant(s: Sys, step: Step, max: int, intent: map<string, int>)
    requires AsMeant(s, intent) && (step.Begin? ==> Meant(step.a, intent))
    ensures AsMeant(Apply(s, step, max), intent)
  {
    match step
    case Commit(w, now) => CommitMeant(s, w, max, now, intent);
    case Create(w, fate, linkId) =>
      if At(s, w).phase.Intended? {
        CreateMeant(s, w, At(s, w).phase.a, fate, linkId, intent);
      }
    case Fetch(w, fate) => RecordMeant(s, w, max, 0, fate, intent);
    case Record(w, now) => RecordMeant(s, w, max, now, Answered, intent);
    case Retry(w, now, jitter) => RetryMeant(s, w, max, now, jitter, intent);
    case Bury(w) => BuryMeant(s, w, max, intent);
    case Drop(w) => BuryMeant(s, w, max, intent);
    case Take(w) => TakeMeant(s, w, intent);
    case SweepDeferrals(_) => EnvironmentMeant(s, step, max, intent);
    case ReplayLetter(_, _) => EnvironmentMeant(s, step, max, intent);
    case CaseMoves(_, _) => EnvironmentMeant(s, step, max, intent);
    case _ => LocalMeant(s, step, max, intent);
  }

  lemma {:induction false} EveryRunAsMeant(cases: map<string, CaseFacts>, steps: seq<Step>, max: int, intent: map<string, int>)
    requires Intends(steps, intent)
    ensures AsMeant(Exec(Start(cases), steps, max), intent)
  {
    if steps != [] {
      var before := steps[..|steps| - 1];
      assert Intends(before, intent);
      EveryRunAsMeant(cases, before, max, intent);
      StepMeant(Exec(Start(cases), before, max), steps[|steps| - 1], max, intent);
    }
  }

  /** What the row's payload says the customer is charged. */
  function CommittedCharge(row: Row): Option<int> {
    match FromPayload(row.payload) case Some(a) => Some(a.chargeAmountPaise) case None => None
  }

  /**
   When one reference is always charged the same, every link of every run bears the charge committed on
   its row, through any number of crashes, drains and replays.
   */
  lemma EveryLinkBearsTheCommittedCharge(
    cases: map<string, CaseFacts>, steps: seq<Step>, max: int, intent: map<string, int>, l: Link)
    requires Intends(steps, intent)
    requires l in Exec(Start(cases), steps, max).links
    ensures var rows := Exec(Start(cases), steps, max).db.rows;
            l.reference in rows && CommittedCharge(rows[l.reference]) == Some(l.amountPaise)
  {
    var s := Exec(Start(cases), steps, max);
    EveryRunIsSafe(cases, steps, max);
    EveryRunAsMeant(cases, steps, max, intent);
    assert RowMeant(s.db.rows[l.reference], l.reference, intent);
    hide FromPayload;
  }

  // --------------------------------------------------------------------------
  // Without any such promise: the condition on the run itself.

  ghost predicate LinkBears(rows: map<string, Row>, l: Link) {
    l.reference in rows && CommittedCharge(rows[l.reference]) == Some(l.amountPaise)
  }

  ghost predicate AllLinksBear(s: Sys) {
    forall l :: l in s.links ==> LinkBears(s.db.rows, l)
  }

  /** The step creates a link, for a worker whose action charges something else than its committed row. */
  predicate Overcalls(s: Sys, step: Step) {
    && step.Create? && At(s, step.w).phase.Intended?
    && (step.fate.Answered? || step.fate.AnswerLost?)
    && var a := At(s, step.w).phase.a;
       && FindLink(s.links, a.reference).None? && a.reference in s.db.rows
       && CommittedCharge(s.db.rows[a.reference]) != Some(a.chargeAmountPaise)
  }

  /** Links once there stay, and so does what their rows say. */
  lemma ChargesStay(s: Sys, t: Sys, l: Link)
    requires Safe(s) && Grows(s, t) && l in s.links
    ensures l in t.links && (LinkBears(t.db.rows, l) <==> LinkBears(s.db.rows, l))
  {
    assert HasRow(s, l);
    assert l in t.links[..|s.links|];
    hide FromPayload;
  }

  predicate HasRow(s: Sys, l: Link) { l.reference in s.db.rows }

  lemma CreationBears(s: Sys, step: Step, max: int)
    requires Safe(s) && step.Create? && At(s, step.w).phase.Intended?
    ensures var t := Apply(s, step, max);
            && t.db == s.db
            && (t.links == s.links || exists l :: t.links == s.links + [l] && (LinkBears(s.db.rows, l) <==> !Overcalls(s, step)))
            && (t.links == s.links ==> !Overcalls(s, step))
  {
    var a := At(s, step.w).phase.a;
    assert PhaseSound(s.workers[step.w].phase, s.db.rows, s.links);
    var t := Apply(s, step, max);
    hide CommittedCharge;
    if t.links != s.links {
      var l := Link(a.reference, step.linkId, a.chargeAmountPaise);
      assert t.links == s.links + [l];
      assert LinkBears(s.db.rows, l) <==> !Overcalls(s, step);
    }
  }

  lemma StepBearsExactlyWhen(s: Sys, step: Step, max: int)
    requires Safe(s)
    ensures AllLinksBear(Apply(s, step, max)) <==> AllLinksBear(s) && !Overcalls(s, step)
  {
    var t := Apply(s, step, max);
    StepSafe(s, step, max);
    forall l | l in s.links ensures l in t.links && (LinkBears(t.db.rows, l) <==> LinkBears(s.db.rows, l)) {
      ChargesStay(s, t, l);
    }
    if step.Create? && At(s, step.w).phase.Intended? {
      CreationBears(s, step, max);
      hide LinkBears, Overcalls, Safe, Grows, Apply;
      if t.links != s.links {
        var l :| t.links == s.links + [l] && (LinkBears(s.db.rows, l) <==> !Overcalls(s, step));
        assert l in t.links;
      }
    } else {
      OnlyCreationAdds(s, step, max);
      hide LinkBears, Safe, Grows, Apply;
    }
  }

  lemma OnlyCreationAdds(s: Sys, step: Step, max: int)
    requires !(step.Create? && At(s, step.w).phase.Intended?)
    ensures Apply(s, step, max).links == s.links
  {
    hide FromPayload, BackoffMicros, AttemptTaken;
  }

  ghost predicate NeverOvercalls(s: Sys, steps: seq<Step>, max: int) {
    forall k :: 0 <= k < |steps| ==> !Overcalls(Exec(s, steps[..k], max), steps[k])
  }

  lemma NeverOvercallsSplit(s: Sys, steps: seq<Step>, max: int)
    requires steps != []
    ensures var n := |steps| - 1;
            NeverOvercalls(s, steps, max) <==> NeverOvercalls(s, steps[..n], max) && !Overcalls(Exec(s, steps[..n], max), steps[n])
  {
    hide Exec, Overcalls;
    var n := |steps| - 1;
    forall k | 0 <= k < n ensures steps[..n][..k] == steps[..k] && steps[..n][k] == steps[k] {
    }
    if NeverOvercalls(s, steps[..n], max) && !Overcalls(Exec(s, steps[..n], max), steps[n]) {
      forall k | 0 <= k < |steps| ensures !Overcalls(Exec(s, steps[..k], max), steps[k]) {
        assert k < n ==> !Overcalls(Exec(s, steps[..n][..k], max), steps[..n][k]);
      }
    }
    if NeverOvercalls(s, steps, max) {
      forall k | 0 <= k < n ensures !Overcalls(Exec(s, steps[..n][..k], max), steps[..n][k]) {
        assert !Overcalls(Exec(s, steps[..k], max), steps[k]);
      }
    }
  }

  /**
   Every run of any actions: all links bear the charge committed on their rows if and only if no call that
   created one was made for an action charging something else.
   */
  lemma {:induction false} LinksBearExactlyWhen(cases: map<string, CaseFacts>, steps: seq<Step>, max: int)
    ensures AllLinksBear(Exec(Start(cases), steps, max)) <==> NeverOvercalls(Start(cases), steps, max)
  {
    if steps != [] {
      var n := |steps| - 1;
      var s := Start(cases);
      assert Exec(s, steps, max) == Apply(Exec(s, steps[..n], max), steps[n], max);
      hide AllLinksBear, Overcalls, Apply, NeverOvercalls, Safe, Exec, Start;
      LinksBearExactlyWhen(cases, steps[..n], max);
      EveryRunIsSafe(cases, steps[..n], max);
      StepBearsExactlyWhen(Exec(s, steps[..n], max), steps[n], max);
      NeverOvercallsSplit(s, steps, max);
    }
  }

  /** One worker commits `a` and crashes; another executes `b` under the same reference. */
  function TwoIntents(a: AppliedAction, b: AppliedAction, id: string): seq<Step> {
    [Begin(0, a), Commit(0, 0), Crash(0), Begin(1, b), Commit(1, 1), Create(1, Answered, id)]
  }

  lemma CreateOne(s: Sys, w: nat, b: AppliedAction, id: string, max: int)
    requires At(s, w).phase == Intended(b) && s.links == []
    ensures var t := Exec(s, [Create(w, Answered, id)], max);
            t.links == [Link(b.reference, id, b.chargeAmountPaise)] && t.db == s.db
  {
  }

  lemma FirstIntentRun(cases: map<string, CaseFacts>, a: AppliedAction, max: int)
    ensures var s := Exec(Start(cases), [Begin(0, a), Commit(0, 0)] + [Crash(0)], max);
            && s.db == PhaseOne(Start(cases).db, a, 0).0
            && s.links == [] && At(s, 1).phase.Idle?
  {
    BeginCommit(Start(cases), 0, a, 0, max);
    ExecStep(Start(cases), [Begin(0, a), Commit(0, 0)], Crash(0), max);
  }

  lemma SecondIntentRun(s: Sys, b: AppliedAction, id: string, max: int)
    requires s.links == [] && At(s, 1).phase.Idle? && b.reference in s.db.rows
    ensures var t := Exec(s, [Begin(1, b), Commit(1, 1)] + [Create(1, Answered, id)], max);
            t.links == [Link(b.reference, id, b.chargeAmountPaise)] && t.db == s.db
  {
    BeginCommit(s, 1, b, 1, max);
    CreateOne(Exec(s, [Begin(1, b), Commit(1, 1)], max), 1, b, id, max);
    ExecConcat(s, [Begin(1, b), Commit(1, 1)], [Create(1, Answered, id)], max);
  }

  lemma TwoIntentsRun(cases: map<string, CaseFacts>, a: AppliedAction, b: AppliedAction, id: string, max: int)
    requires a.reference == b.reference
    ensures var s := Exec(Start(cases), TwoIntents(a, b, id), max);
            && s.links == [Link(a.reference, id, b.chargeAmountPaise)]
            && s.db == PhaseOne(Start(cases).db, a, 0).0
  {
    var first := [Begin(0, a), Commit(0, 0)] + [Crash(0)];
    FirstIntentRun(cases, a, max);
    SecondIntentRun(Exec(Start(cases), first, max), b, id, max);
    ExecConcat(Start(cases), first, [Begin(1, b), Commit(1, 1)] + [Create(1, Answered, id)], max);
    assert TwoIntents(a, b, id) == first + ([Begin(1, b), Commit(1, 1)] + [Create(1, Answered, id)]);
  }

  /** Without that, the link bears the second caller's charge: the committed one exactly when they agree. */
  lemma SecondIntentDecidesTheAmount(cases: map<string, CaseFacts>, a: AppliedAction, b: AppliedAction, id: string, max: int)
    requires a.reference == b.reference
    ensures var s := Exec(Start(cases), TwoIntents(a, b, id), max);
            && |s.links| == 1 && a.reference in s.db.rows
            && (CommittedCharge(s.db.rows[a.reference]) == Some(s.links[0].amountPaise)
                <==> a.chargeAmountPaise == b.chargeAmountPaise)
  {
    TwoIntentsRun(cases, a, b, id, max);
    PayloadRoundTrip(a);
  }
}
