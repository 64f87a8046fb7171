/**
 The execution protocol as an asynchronous system: any number of workers, one step at a time, in any
 order. A worker may crash between two steps, a provider call may take effect and lose its answer,
 and sweeps, replays and changes of case status fall anywhere in between.
 */
module Protocol {
  import opened Text
  import opened Token
  import opened Outbox

  /** Where a worker stands. `Dropping` is the drainer about to mark a row of a finished case DEAD. */
  datatype Phase =
    | Idle
    | Ready(a: AppliedAction)
    | Intended(a: AppliedAction)
    | Duplicate(a: AppliedAction)
    | Linked(a: AppliedAction, link: Link)
    | Retryable(a: AppliedAction)
    | Permanent(a: AppliedAction)
    | Dropping(r: string)

  /** `queue` holds the references the worker's drain pass selected and has not reached yet. */
  datatype Worker = Worker(phase: Phase, queue: seq<string>)

  datatype Sys = Sys(db: Db, links: seq<Link>, workers: map<nat, Worker>)

  /** What becomes of a provider call. `AnswerLost` takes effect and is seen as a timeout. */
  datatype Fate = Answered | AnswerLost | TimedOut | BadRequest

  datatype Step =
    | Begin(w: nat, a: AppliedAction)
    | Commit(w: nat, now: int)
    | Create(w: nat, fate: Fate, linkId: string)
    | Fetch(w: nat, fate: Fate)
    | Record(w: nat, now: int)
    | Retry(w: nat, now: int, jitter: real)
    | Bury(w: nat)
    | Select(w: nat, picked: seq<string>, now: int)
    | Take(w: nat)
    | Drop(w: nat)
    | Crash(w: nat)
    | SweepDeferrals(now: int)
    | ReplayLetter(letter: nat, now: int)
    | CaseMoves(caseId: string, facts: CaseFacts)

  function At(s: Sys, w: nat): Worker {
    if w in s.workers then s.workers[w] else Worker(Idle, [])
  }

  function Moved(s: Sys, w: nat, p: Phase): Sys {
    s.(workers := s.workers[w := At(s, w).(phase := p)])
  }

  /** The first link created for a reference, as a lookup by reference returns it. */
  function FindLink(links: seq<Link>, reference: string): (r: Option<Link>)
    ensures r.Some? ==> r.value in links && r.value.reference == reference
    ensures r.None? <==> forall l :: l in links ==> l.reference != reference
  {
    if links == [] then None
    else if links[0].reference == reference then Some(links[0])
    else FindLink(links[1..], reference)
  }

  /** The provider creates a link only for a reference it does not hold. */
  function CreateStep(s: Sys, w: nat, a: AppliedAction, fate: Fate, linkId: string): Sys {
    if fate.TimedOut? then Moved(s, w, Retryable(a))
    else if fate.BadRequest? then Moved(s, w, Permanent(a))
    else if FindLink(s.links, a.reference).Some? then
      Moved(s, w, if fate.Answered? then Duplicate(a) else Retryable(a))
    else
      var link := Link(a.reference, linkId, a.chargeAmountPaise);
      Moved(s.(links := s.links + [link]), w, if fate.Answered? then Linked(a, link) else Retryable(a))
  }

  function FetchStep(s: Sys, w: nat, a: AppliedAction, fate: Fate): Sys {
    var found := FindLink(s.links, a.reference);
    if fate.BadRequest? then Moved(s, w, Permanent(a))
    else if fate.Answered? && found.Some? then Moved(s, w, Linked(a, found.value))
    else Moved(s, w, Retryable(a))
  }

  /** The drainer reaches the next row it selected and re-reads its case. */
  function TakeStep(s: Sys, w: nat): Sys {
    var me := At(s, w);
    if !me.phase.Idle? || me.queue == [] || me.queue[0] !in s.db.rows then s
    else
      var r := me.queue[0];
      var row := s.db.rows[r];
      var popped := s.(workers := s.workers[w := Worker(Idle, me.queue[1..])]);
      if !CaseLive(s.db, row.caseId) then Moved(popped, w, Dropping(r))
      else
        match FromPayload(row.payload)
        case Some(a) => Moved(popped, w, Ready(a))
        case None => s.(workers := s.workers[w := Worker(Idle, [])])
  }

  /** One step; a step that is not enabled changes nothing. */
  function Apply(s: Sys, step: Step, max: int): Sys {
    match step
    case Begin(w, a) => if At(s, w).phase.Idle? then Moved(s, w, Ready(a)) else s
    case Commit(w, now) =>
      (match At(s, w).phase
       case Ready(a) =>
         var (db, o) := PhaseOne(s.db, a, now);
         Moved(s.(db := db), w, if o.Committed? then Intended(a) else Idle)
       case _ => s)
    case Create(w, fate, linkId) =>
      (match At(s, w).phase case Intended(a) => CreateStep(s, w, a, fate, linkId) case _ => s)
    case Fetch(w, fate) =>
      (match At(s, w).phase case Duplicate(a) => FetchStep(s, w, a, fate) case _ => s)
    case Record(w, now) =>
      (match At(s, w).phase
       case Linked(a, link) => Moved(s.(db := PhaseTwo(s.db, a, link, now)), w, Idle)
       case _ => s)
    case Retry(w, now, jitter) =>
      (match At(s, w).phase
       case Retryable(a) => Moved(s.(db := ScheduleRetry(s.db, a.reference, max, now, jitter).0), w, Idle)
       case _ => s)
    case Bury(w) =>
      (match At(s, w).phase
       case Permanent(a) => Moved(s.(db := DeadLetter(s.db, a.reference).0), w, Idle)
       case _ => s)
    case Select(w, picked, now) =>
      if && At(s, w).phase.Idle?
         && forall r :: r in picked ==> r in s.db.rows && (Due(s.db.rows[r], now) || Stale(s.db.rows[r], now))
      then s.(workers := s.workers[w := Worker(Idle, picked)]) else s
    case Take(w) => TakeStep(s, w)
    case Drop(w) =>
      (match At(s, w).phase
       case Dropping(r) => Moved(s.(db := MarkDead(s.db, r)), w, Idle)
       case _ => s)
    case Crash(w) => s.(workers := s.workers[w := Worker(Idle, [])])
    case SweepDeferrals(now) => s.(db := Sweep(s.db, now))
    case ReplayLetter(i, now) => s.(db := Replay(s.db, i, now).0)
    case CaseMoves(c, facts) => s.(db := s.db.(cases := s.db.cases[c := facts]))
  }

  /** The system after a run. */
  function Exec(s: Sys, steps: seq<Step>, max: int): Sys {
    if steps == [] then s
    else Apply(Exec(s, steps[..|steps| - 1], max), steps[|steps| - 1], max)
  }

  /** Nothing intended, nothing sent; any cases. */
  function Start(cases: map<string, CaseFacts>): Sys {
    Sys(Db(map[], [], [], [], cases), [], map[])
  }

  // --------------------------------------------------------------------------
  // What every run keeps, whatever the interleaving.

  ghost predicate HasLink(links: seq<Link>, reference: string, id: string) {
    exists l :: l in links && l.reference == reference && l.id == id
  }

  ghost predicate LinksUnique(links: seq<Link>) {
    forall i, j :: 0 <= i < j < |links| ==> links[i].reference != links[j].reference
  }

  /** SENT only with the provider's link, whose id is on the row. */
  ghost predicate RowBacked(row: Row, r: string, links: seq<Link>) {
    && (row.status.Sent? ==> row.providerRef.Some?)
    && (row.providerRef.Some? ==> HasLink(links, r, row.providerRef.value))
  }

  /** The payload on a row is an action under the row's own reference and case. */
  ghost predicate RowReadable(row: Row, r: string) {
    var a := FromPayload(row.payload);
    a.Some? && a.value.reference == r && a.value.caseId == row.caseId
  }

  /** The contact ledger is the dispatched actions that used a channel, in order. */
  function ContactsOf(actions: seq<Action>): seq<Contact> {
    if actions == [] then []
    else ContactsOf(actions[..|actions| - 1]) + ContactOf(actions[|actions| - 1])
  }

  ghost predicate TablesSafe(db: Db, links: seq<Link>) {
    && LinksUnique(links)
    && (forall l :: l in links ==> l.reference in db.rows)
    && (forall r :: r in db.rows ==> RowBacked(db.rows[r], r, links))
    && (forall x :: x in db.actions ==> HasLink(links, x.reference, x.linkId))
    && db.contacts == ContactsOf(db.actions)
  }

  ghost predicate PhaseSound(p: Phase, rows: map<string, Row>, links: seq<Link>) {
    match p
    case Idle => true
    case Ready(a) => true
    case Dropping(r) => r in rows
    case Linked(a, link) => a.reference in rows && link in links && link.reference == a.reference
    case p => p.a.reference in rows
  }

  ghost predicate Safe(s: Sys) {
    && TablesSafe(s.db, s.links)
    && forall w :: w in s.workers ==> PhaseSound(s.workers[w].phase, s.db.rows, s.links)
  }

  /** Rows are never lost and keep their case and payload; links and actions are only added. */
  ghost predicate RowsGrow(a: Db, b: Db) {
    && (forall r :: r in a.rows ==>
         r in b.rows && b.rows[r].caseId == a.rows[r].caseId && b.rows[r].payload == a.rows[r].payload)
    && |a.actions| <= |b.actions| && b.actions[..|a.actions|] == a.actions
  }

  ghost predicate Grows(s: Sys, t: Sys) {
    RowsGrow(s.db, t.db) && |s.links| <= |t.links| && t.links[..|s.links|] == s.links
  }

  /** Changes of status, counters and times alone, none of them to SENT, keep the tables safe. */
  lemma StatusChangesSafe(a: Db, b: Db, links: seq<Link>)
    requires TablesSafe(a, links)
    requires a.rows.Keys == b.rows.Keys && a.actions == b.actions && a.contacts == b.contacts
    requires forall r :: r in a.rows ==>
      && b.rows[r].caseId == a.rows[r].caseId && b.rows[r].payload == a.rows[r].payload
      && b.rows[r].providerRef == a.rows[r].providerRef
      && (b.rows[r].status.Sent? ==> a.rows[r].status.Sent?)
    ensures TablesSafe(b, links) && RowsGrow(a, b)
  {
  }

  lemma PhaseOneSafe(db: Db, links: seq<Link>, a: AppliedAction, now: int)
    requires TablesSafe(db, links)
    ensures TablesSafe(PhaseOne(db, a, now).0, links) && RowsGrow(db, PhaseOne(db, a, now).0)
  {
    var after := PhaseOne(db, a, now).0;
    forall r | r in after.rows ensures RowBacked(after.rows[r], r, links) {
      assert r in db.rows ==> RowBacked(db.rows[r], r, links);
    }
  }

  lemma PhaseTwoSafe(db: Db, links: seq<Link>, a: AppliedAction, link: Link, now: int)
    requires TablesSafe(db, links) && link in links && link.reference == a.reference
    ensures TablesSafe(PhaseTwo(db, a, link, now), links) && RowsGrow(db, PhaseTwo(db, a, link, now))
  {
    var after := PhaseTwo(db, a, link, now);
    if after != db {
      assert HasLink(links, a.reference, link.id);
      assert after.actions[..|after.actions| - 1] == db.actions;
      forall r | r in after.rows ensures RowBacked(after.rows[r], r, links) {
        assert RowBacked(db.rows[r], r, links);
      }
    }
  }

  lemma NewLinkSafe(db: Db, links: seq<Link>, link: Link)
    requires TablesSafe(db, links) && link.reference in db.rows
    requires FindLink(links, link.reference).None?
    ensures TablesSafe(db, links + [link])
  {
  }

  /** A worker that did not move stays sound while rows and links only grow. */
  lemma WorkersStaySound(s: Sys, t: Sys, w: nat)
    requires Safe(s) && Grows(s, t) && TablesSafe(t.db, t.links)
    requires forall v :: v in t.workers && v != w ==> v in s.workers && t.workers[v] == s.workers[v]
    requires w in t.workers ==> PhaseSound(t.workers[w].phase, t.db.rows, t.links)
    ensures Safe(t)
  {
  }

  lemma CreateSafe(s: Sys, w: nat, a: AppliedAction, fate: Fate, linkId: string)
    requires Safe(s) && At(s, w).phase == Intended(a)
    ensures Safe(CreateStep(s, w, a, fate, linkId)) && Grows(s, CreateStep(s, w, a, fate, linkId))
  {
    var t := CreateStep(s, w, a, fate, linkId);
    assert PhaseSound(s.workers[w].phase, s.db.rows, s.links);
    if t.links != s.links {
      NewLinkSafe(s.db, s.links, Link(a.reference, linkId, a.chargeAmountPaise));
    }
    WorkersStaySound(s, t, w);
  }

  /** The tables after a failure, a drop, a sweep, a replay or a change of case status. */
  lemma TablesStepSafe(s: Sys, db: Db, w: nat, p: Phase)
    requires Safe(s) && PhaseSound(p, db.rows, s.links)
    requires TablesSafe(db, s.links) && RowsGrow(s.db, db)
    ensures var t := Moved(s.(db := db), w, p); Safe(t) && Grows(s, t)
  {
  }

  lemma RetrySafe(s: Sys, w: nat, max: int, now: int, jitter: real)
    requires Safe(s)
    ensures Safe(Apply(s, Retry(w, now, jitter), max)) && Grows(s, Apply(s, Retry(w, now, jitter), max))
  {
    if At(s, w).phase.Retryable? {
      var db := ScheduleRetry(s.db, At(s, w).phase.a.reference, max, now, jitter).0;
      StatusChangesSafe(s.db, db, s.links);
      TablesStepSafe(s, db, w, Idle);
    }
  }

  lemma BurySafe(s: Sys, w: nat, max: int)
    requires Safe(s)
    ensures Safe(Apply(s, Bury(w), max)) && Grows(s, Apply(s, Bury(w), max))
  {
    if At(s, w).phase.Permanent? {
      var db := DeadLetter(s.db, At(s, w).phase.a.reference).0;
      StatusChangesSafe(s.db, db, s.links);
      TablesStepSafe(s, db, w, Idle);
    }
  }

  lemma DropSafe(s: Sys, w: nat, max: int)
    requires Safe(s)
    ensures Safe(Apply(s, Drop(w), max)) && Grows(s, Apply(s, Drop(w), max))
  {
    if At(s, w).phase.Dropping? {
      var db := MarkDead(s.db, At(s, w).phase.r);
      StatusChangesSafe(s.db, db, s.links);
      TablesStepSafe(s, db, w, Idle);
    }
  }

  lemma CommitSafe(s: Sys, w: nat, max: int, now: int)
    requires Safe(s)
    ensures Safe(Apply(s, Commit(w, now), max)) && Grows(s, Apply(s, Commit(w, now), max))
  {
    if At(s, w).phase.Ready? {
      var a := At(s, w).phase.a;
      var (db, o) := PhaseOne(s.db, a, now);
      PhaseOneSafe(s.db, s.links, a, now);
      TablesStepSafe(s, db, w, if o.Committed? then Intended(a) else Idle);
    }
  }

  lemma RecordSafe(s: Sys, w: nat, max: int, now: int)
    requires Safe(s)
    ensures Safe(Apply(s, Record(w, now), max)) && Grows(s, Apply(s, Record(w, now), max))
  {
    if At(s, w).phase.Linked? {
      var p := At(s, w).phase;
      PhaseTwoSafe(s.db, s.links, p.a, p.link, now);
      TablesStepSafe(s, PhaseTwo(s.db, p.a, p.link, now), w, Idle);
    }
  }

  lemma WorkerStepSafe(s: Sys, w: nat, me: Worker)
    requires Safe(s) && PhaseSound(me.phase, s.db.rows, s.links)
    ensures var t := s.(workers := s.workers[w := me]); Safe(t) && Grows(s, t)
  {
  }

  lemma FetchSafe(s: Sys, w: nat, fate: Fate, max: int)
    requires Safe(s)
    ensures Safe(Apply(s, Fetch(w, fate), max)) && Grows(s, Apply(s, Fetch(w, fate), max))
  {
    if At(s, w).phase.Duplicate? {
      assert PhaseSound(s.workers[w].phase, s.db.rows, s.links);
      WorkerStepSafe(s, w, At(FetchStep(s, w, At(s, w).phase.a, fate), w));
    }
  }

  lemma LocalSafe(s: Sys, step: Step, max: int)
    requires Safe(s) && (step.Begin? || step.Select? || step.Crash?)
    ensures Safe(Apply(s, step, max)) && Grows(s, Apply(s, step, max))
  {
    match step
    case Begin(w, a) => WorkerStepSafe(s, w, At(s, w).(phase := Ready(a)));
    case Select(w, picked, now) => WorkerStepSafe(s, w, Worker(Idle, picked));
    case Crash(w) => WorkerStepSafe(s, w, Worker(Idle, []));
  }

  lemma TakeSafe(s: Sys, w: nat)
    requires Safe(s)
    ensures Safe(TakeStep(s, w)) && Grows(s, TakeStep(s, w))
  {
    var t := TakeStep(s, w);
    assert t.db == s.db && t.links == s.links;
    assert t == s || (w in t.workers && (t.workers[w].phase.Idle? || t.workers[w].phase.Ready? || t.workers[w].phase.Dropping?));
    assert w in t.workers && t.workers[w].phase.Dropping? ==> t == s || t.workers[w].phase.r in s.db.rows;
    if t != s {
      assert PhaseSound(t.workers[w].phase, s.db.rows, s.links);
      hide TakeStep, TablesSafe, PhaseSound;
      WorkersStaySound(s, t, w);
    }
  }

  /** Tables in which only statuses, counters and letters differ, and nothing has become SENT. */
  predicate OnlyStatuses(a: Db, b: Db) {
    && a.rows.Keys == b.rows.Keys && a.actions == b.actions && a.contacts == b.contacts
    && forall r :: r in a.rows ==>
         && b.rows[r].caseId == a.rows[r].caseId && b.rows[r].payload == a.rows[r].payload
         && b.rows[r].providerRef == a.rows[r].providerRef
         && (b.rows[r].status.Sent? ==> a.rows[r].status.Sent?)
  }

  lemma TablesChangeSafe(s: Sys, db: Db)
    requires Safe(s) && OnlyStatuses(s.db, db)
    ensures Safe(s.(db := db)) && Grows(s, s.(db := db))
  {
  }

  lemma EnvironmentSafe(s: Sys, step: Step, max: int)
    requires Safe(s)
    requires step.SweepDeferrals? || step.ReplayLetter? || step.CaseMoves?
    ensures Safe(Apply(s, step, max)) && Grows(s, Apply(s, step, max))
  {
    var t := Apply(s, step, max);
    assert t == s.(db := t.db);
    assert OnlyStatuses(s.db, t.db);
    hide Safe, Grows, OnlyStatuses, Apply;
    TablesChangeSafe(s, t.db);
  }

  lemma StepSafe(s: Sys, step: Step, max: int)
    requires Safe(s)
    ensures Safe(Apply(s, step, max)) && Grows(s, Apply(s, step, max))
  {
    match step
    case Commit(w, now) => CommitSafe(s, w, max, now);
    case Create(w, fate, linkId) =>
      if At(s, w).phase.Intended? {
        CreateSafe(s, w, At(s, w).phase.a, fate, linkId);
      }
    case Record(w, now) => RecordSafe(s, w, max, now);
    case Retry(w, now, jitter) => RetrySafe(s, w, max, now, jitter);
    case Bury(w) => BurySafe(s, w, max);
    case Drop(w) => DropSafe(s, w, max);
    case Fetch(w, fate) => FetchSafe(s, w, fate, max);
    case Take(w) => TakeSafe(s, w);
    case SweepDeferrals(_) => EnvironmentSafe(s, step, max);
    case ReplayLetter(_, _) => EnvironmentSafe(s, step, max);
    case CaseMoves(_, _) => EnvironmentSafe(s, step, max);
    case _ => LocalSafe(s, step, max);
  }

  /**
   Every run of every interleaving: at most one link a reference, each link's reference committed
   first, SENT only with the link the provider holds, and a contact exactly for each contacting action.
   */
  lemma {:induction false} EveryRunIsSafe(cases: map<string, CaseFacts>, steps: seq<Step>, max: int)
    ensures Safe(Exec(Start(cases), steps, max))
  {
    if steps != [] {
      EveryRunIsSafe(cases, steps[..|steps| - 1], max);
      StepSafe(Exec(Start(cases), steps[..|steps| - 1], max), steps[|steps| - 1], max);
    }
  }

  ghost predicate RowsReadable(db: Db) {
    forall r :: r in db.rows ==> RowReadable(db.rows[r], r)
  }

  lemma RowsComeFromCommit(s: Sys, step: Step, max: int, r: string)
    requires r in Apply(s, step, max).db.rows && r !in s.db.rows
    ensures step.Commit? && At(s, step.w).phase.Ready?
    ensures var a := At(s, step.w).phase.a; var row := Apply(s, step, max).db.rows[r];
            r == a.reference && row.caseId == a.caseId && row.payload == AsPayload(a)
  {
  }

  lemma SameIntentReadable(a: Row, b: Row, r: string)
    requires RowReadable(a, r) && b.caseId == a.caseId && b.payload == a.payload
    ensures RowReadable(b, r)
  {
  }

  lemma CommittedReadable(a: AppliedAction, row: Row)
    requires row.caseId == a.caseId && row.payload == AsPayload(a)
    ensures RowReadable(row, a.reference)
  {
    PayloadRoundTrip(a);
  }

  lemma ReadableStep(s: Sys, step: Step, max: int)
    requires Safe(s) && RowsReadable(s.db)
    ensures RowsReadable(Apply(s, step, max).db)
  {
    var db := Apply(s, step, max).db;
    StepSafe(s, step, max);
    forall r | r in db.rows ensures RowReadable(db.rows[r], r) {
      if r in s.db.rows {
        SameIntentReadable(s.db.rows[r], db.rows[r], r);
      } else {
        RowsComeFromCommit(s, step, max, r);
        CommittedReadable(At(s, step.w).phase.a, db.rows[r]);
      }
    }
  }

  /** Every committed row, in every run, can be resumed: its payload is an action under its own key. */
  lemma {:induction false} EveryRunIsReadable(cases: map<string, CaseFacts>, steps: seq<Step>, max: int)
    ensures RowsReadable(Exec(Start(cases), steps, max).db)
  {
    if steps != [] {
      EveryRunIsReadable(cases, steps[..|steps| - 1], max);
      EveryRunIsSafe(cases, steps[..|steps| - 1], max);
      ReadableStep(Exec(Start(cases), steps[..|steps| - 1], max), steps[|steps| - 1], max);
    }
  }

  /** A worker takes up only rows a drain would select, and only when it is idle. */
  lemma DrainsSelectOnlyTheirOwn(s: Sys, w: nat, picked: seq<string>, now: int, max: int)
    ensures var t := Apply(s, Select(w, picked, now), max);
            if At(s, w).phase.Idle? && forall r :: r in picked ==> r in Picked(s.db.rows, now, true)
            then t == s.(workers := s.workers[w := Worker(Idle, picked)]) else t == s
  {
  }

  /** Reaching a row, it goes to drop it exactly if its case is not live, and else to execute what the row says. */
  lemma TakenIsDroppedOrResumed(s: Sys, w: nat)
    requires At(s, w).phase.Idle? && At(s, w).queue != [] && At(s, w).queue[0] in s.db.rows
    ensures var r, t := At(s, w).queue[0], TakeStep(s, w);
            var row := s.db.rows[r];
            && t.db == s.db && t.links == s.links
            && (!CaseLive(s.db, row.caseId) ==> At(t, w) == Worker(Dropping(r), At(s, w).queue[1..]))
            && (CaseLive(s.db, row.caseId) && FromPayload(row.payload).Some? ==>
                 At(t, w) == Worker(Ready(FromPayload(row.payload).value), At(s, w).queue[1..]))
            && (CaseLive(s.db, row.caseId) && FromPayload(row.payload).None? ==> At(t, w) == Worker(Idle, []))
  {
    hide FromPayload, CaseLive;
  }

  // --------------------------------------------------------------------------
  // Reading runs step by step.

  lemma ExecStep(s: Sys, steps: seq<Step>, step: Step, max: int)
    ensures Exec(s, steps + [step], max) == Apply(Exec(s, steps, max), step, max)
  {
  }

  /** A run read from its first step. */
  lemma {:induction false} ExecFirst(s: Sys, steps: seq<Step>, max: int)
    requires steps != []
    ensures Exec(s, steps, max) == Exec(Apply(s, steps[0], max), steps[1..], max)
  {
    var n := |steps| - 1;
    if n == 0 {
      assert steps[..0] == [] && steps[1..] == [];
    } else {
      ExecFirst(s, steps[..n], max);
      assert steps[..n][1..] == steps[1..][..n - 1];
    }
  }

  lemma ExecCons(s: Sys, step: Step, rest: seq<Step>, max: int)
    ensures Exec(s, [step] + rest, max) == Exec(Apply(s, step, max), rest, max)
  {
    ExecFirst(s, [step] + rest, max);
    assert ([step] + rest)[1..] == rest;
  }

  lemma BeginCommit(s: Sys, w: nat, a: AppliedAction, now: int, max: int)
    requires At(s, w).phase.Idle? && PhaseOne(s.db, a, now).1.Committed?
    ensures Exec(s, [Begin(w, a), Commit(w, now)], max) == Moved(s.(db := PhaseOne(s.db, a, now).0), w, Intended(a))
  {
    var s1 := Apply(s, Begin(w, a), max);
    assert s1 == Moved(s, w, Ready(a));
    ExecCons(s, Begin(w, a), [Commit(w, now)], max);
    ExecCons(s1, Commit(w, now), [], max);
    assert [Commit(w, now)] == [Commit(w, now)] + [];
    var t := Apply(s1, Commit(w, now), max);
    assert t.workers == Moved(s, w, Intended(a)).workers;
  }

  lemma {:induction false} ExecConcat(s: Sys, first: seq<Step>, second: seq<Step>, max: int)
    ensures Exec(s, first + second, max) == Exec(Exec(s, first, max), second, max)
  {
    if second == [] {
      assert first + second == first;
    } else {
      var n := |second| - 1;
      ExecConcat(s, first, second[..n], max);
      assert (first + second)[..|first + second| - 1] == first + second[..n];
    }
  }
}
