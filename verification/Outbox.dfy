/**
 The database transactions of two-phase execution. Each function is one committed session: it maps
 the tables before to the tables after, and says when the commit is refused instead.
 */
module Outbox {
  import opened Text
  import opened Enums
  import opened Token

  datatype Status = Pending | Sending | Sent | Dead

  datatype Row = Row(
    caseId: string,
    payload: Payload,
    status: Status,
    attempt: nat,
    providerRef: Option<string>,
    nextAttemptAt: int,
    createdAt: int)

  /** What the provider holds for a reference. */
  datatype Link = Link(reference: string, id: string, amountPaise: int)

  datatype Action = Action(
    reference: string,
    caseId: string,
    strategy: Strategy,
    discountPct: real,
    discountAmountPaise: int,
    channel: Channel,
    messageClass: MessageClass,
    linkId: string,
    executedAt: int)

  datatype Contact = Contact(caseId: string, channel: Channel, messageClass: MessageClass, sentAt: int)

  datatype Letter = Letter(reference: string, attempts: nat, replayed: bool)

  datatype CaseFacts = CaseFacts(status: CaseStatus, windowExpiresAt: int)

  /** Rows are keyed by reference, which is UNIQUE; they are never deleted. */
  datatype Db = Db(
    rows: map<string, Row>,
    actions: seq<Action>,
    contacts: seq<Contact>,
    letters: seq<Letter>,
    cases: map<string, CaseFacts>)

  /** Seconds of back-off as microseconds: 0.5, 2, 8, 30 and then 30 for ever, with jitter. */
  function BackoffMicros(attempt: nat, jitter: real): int {
    var base := if attempt == 0 then 500000 else if attempt == 1 then 2000000
                else if attempt == 2 then 8000000 else 30000000;
    (base as real * (1.0 + jitter)).Floor
  }

  /** Whatever the jitter of a quarter either way, each of the first four delays is longer than the one before. */
  lemma BackoffGrows(attempt: nat, jitter: real, next: real)
    requires -0.25 <= jitter <= 0.25 && -0.25 <= next <= 0.25
    ensures 375000 <= BackoffMicros(attempt, jitter) <= 37500000
    ensures attempt < 3 ==> BackoffMicros(attempt, jitter) < BackoffMicros(attempt + 1, next)
    ensures attempt >= 3 ==> BackoffMicros(attempt, jitter) >= 22500000
  {
  }

  /** More jitter never shortens the wait. */
  lemma BackoffFollowsJitter(attempt: nat, less: real, more: real)
    requires less <= more
    ensures BackoffMicros(attempt, less) <= BackoffMicros(attempt, more)
  {
    var base := if attempt == 0 then 500000.0 else if attempt == 1 then 2000000.0 else if attempt == 2 then 8000000.0 else 30000000.0;
    assert base * (1.0 + less) <= base * (1.0 + more);
  }

  /** UNIQUE(case_id, action_type, attempt): another row of the case already holds this counter. */
  predicate AttemptTaken(db: Db, caseId: string, attempt: nat, reference: string) {
    exists r | r in db.rows :: r != reference && db.rows[r].caseId == caseId && db.rows[r].attempt == attempt
  }

  datatype Outcome = Committed | Refused

  /** Commits the intent with its key, or reuses the row an earlier attempt committed. */
  function PhaseOne(db: Db, a: AppliedAction, now: int): (Db, Outcome) {
    if a.reference in db.rows then (db, Committed)
    else if AttemptTaken(db, a.caseId, 0, a.reference) then (db, Refused)
    else
      var row := Row(a.caseId, AsPayload(a), Pending, 0, None, now, now);
      (db.(rows := db.rows[a.reference := row]), Committed)
  }

  function ActionFor(a: AppliedAction, linkId: string, now: int): Action {
    Action(a.reference, a.caseId, a.strategy, a.discountPct, a.discountAmountPaise,
           a.channel, a.messageClass, linkId, now)
  }

  function ContactOf(x: Action): seq<Contact> {
    if x.channel.NoChannel? then [] else [Contact(x.caseId, x.channel, x.messageClass, x.executedAt)]
  }

  /** Records the dispatch, its action and its contact together; a SENT row is left alone. */
  function PhaseTwo(db: Db, a: AppliedAction, link: Link, now: int): Db {
    if a.reference !in db.rows || db.rows[a.reference].status.Sent? then db
    else
      var row := db.rows[a.reference].(status := Sent, providerRef := Some(link.id));
      var action := ActionFor(a, link.id, now);
      db.(rows := db.rows[a.reference := row],
          actions := db.actions + [action],
          contacts := db.contacts + ContactOf(action))
  }

  /** Backs off, or dead-letters once the budget is spent. Does not look at the status. */
  function ScheduleRetry(db: Db, reference: string, max: int, now: int, jitter: real): (Db, Outcome) {
    if reference !in db.rows then (db, Committed)
    else
      var row := db.rows[reference];
      var n := row.attempt + 1;
      if AttemptTaken(db, row.caseId, n, reference) then (db, Refused)
      else if n >= max then
        (db.(rows := db.rows[reference := row.(attempt := n, status := Dead)],
             letters := db.letters + [Letter(reference, n, false)]), Committed)
      else
        var next := now + BackoffMicros(n - 1, jitter);
        (db.(rows := db.rows[reference := row.(attempt := n, status := Pending, nextAttemptAt := next)]), Committed)
  }

  function DeadLetter(db: Db, reference: string): (Db, Outcome) {
    if reference !in db.rows then (db, Committed)
    else
      var row := db.rows[reference];
      var n := row.attempt + 1;
      if AttemptTaken(db, row.caseId, n, reference) then (db, Refused)
      else
        (db.(rows := db.rows[reference := row.(attempt := n, status := Dead)],
             letters := db.letters + [Letter(reference, n, false)]), Committed)
  }

  /** The drainer's drop of a row whose case is over. Does not look at the status either. */
  function MarkDead(db: Db, reference: string): Db {
    if reference in db.rows then db.(rows := db.rows[reference := db.rows[reference].(status := Dead)]) else db
  }

  predicate CaseLive(db: Db, caseId: string) {
    caseId in db.cases && !Terminal(db.cases[caseId].status)
  }

  predicate Due(row: Row, now: int) {
    row.status.Pending? && row.nextAttemptAt <= now
  }

  predicate Stale(row: Row, now: int) {
    (row.status.Pending? || row.status.Sending?) && row.createdAt <= now - 60000000
  }

  /** What a drain pass selects: the rows that are due, and on request the interrupted ones. */
  function Picked(rows: map<string, Row>, now: int, includeStale: bool): set<string> {
    set r | r in rows && (Due(rows[r], now) || (includeStale && Stale(rows[r], now)))
  }

  /** A held send of a case that is over, or whose window closes before the release. */
  predicate StaleDeferral(db: Db, row: Row, now: int) {
    && row.status.Pending?
    && row.nextAttemptAt > now
    && row.caseId in db.cases
    && (Terminal(db.cases[row.caseId].status) || row.nextAttemptAt > db.cases[row.caseId].windowExpiresAt)
  }

  function Sweep(db: Db, now: int): Db {
    db.(rows := map r | r in db.rows ::
      if StaleDeferral(db, db.rows[r], now) then db.rows[r].(status := Dead) else db.rows[r])
  }

  datatype ReplayAnswer = NotFound | Conflict | Requeued

  /** An operator puts a dead letter back, under its original reference, whatever the row now says. */
  function Replay(db: Db, i: nat, now: int): (Db, ReplayAnswer) {
    if i >= |db.letters| then (db, NotFound)
    else if db.letters[i].replayed || db.letters[i].reference !in db.rows then (db, Conflict)
    else
      var r := db.letters[i].reference;
      (db.(rows := db.rows[r := db.rows[r].(status := Pending, nextAttemptAt := now)],
           letters := db.letters[i := db.letters[i].(replayed := true)]), Requeued)
  }

  // --------------------------------------------------------------------------
  // The law the tables keep for one reference: recorded once if SENT, and not at all otherwise.

  function ActionsOn(actions: seq<Action>, reference: string): nat {
    if actions == [] then 0
    else ActionsOn(actions[..|actions| - 1], reference) + if actions[|actions| - 1].reference == reference then 1 else 0
  }

  lemma ActionsOnAppend(actions: seq<Action>, x: Action, reference: string)
    ensures ActionsOn(actions + [x], reference) == ActionsOn(actions, reference) + if x.reference == reference then 1 else 0
  {
  }

  predicate RecordedOnce(db: Db, reference: string) {
    ActionsOn(db.actions, reference) == if reference in db.rows && db.rows[reference].status.Sent? then 1 else 0
  }

  /** Whatever the link and the time, recording keeps the law, for this reference and every other. */
  lemma PhaseTwoKeepsRecord(db: Db, a: AppliedAction, link: Link, now: int, reference: string)
    requires RecordedOnce(db, reference)
    ensures RecordedOnce(PhaseTwo(db, a, link, now), reference)
  {
  }

  /**
   The retry, the dead letter and the drop do not test for SENT. Each keeps the law exactly when the
   row is not SENT (or the commit was refused), which is what a caller must make sure of.
   */
  lemma FailureKeepsRecordIff(db: Db, reference: string, max: int, now: int, jitter: real)
    requires reference in db.rows && RecordedOnce(db, reference)
    ensures RecordedOnce(ScheduleRetry(db, reference, max, now, jitter).0, reference)
            <==> !db.rows[reference].status.Sent? || AttemptTaken(db, db.rows[reference].caseId, db.rows[reference].attempt + 1, reference)
    ensures RecordedOnce(DeadLetter(db, reference).0, reference)
            <==> !db.rows[reference].status.Sent? || AttemptTaken(db, db.rows[reference].caseId, db.rows[reference].attempt + 1, reference)
    ensures RecordedOnce(MarkDead(db, reference), reference) <==> !db.rows[reference].status.Sent?
  {
  }

  /**
   A replay does not test for SENT either: it breaks the law exactly when it puts back a letter whose
   row has been SENT in the meantime, and for no other reference.
   */
  lemma ReplayKeepsRecordIff(db: Db, i: nat, now: int, reference: string)
    requires RecordedOnce(db, reference)
    ensures RecordedOnce(Replay(db, i, now).0, reference)
            <==> !(&& i < |db.letters| && !db.letters[i].replayed && db.letters[i].reference == reference
                   && reference in db.rows && db.rows[reference].status.Sent?)
  {
  }

  /** Committing an intent and sweeping deferrals never break it. */
  lemma IntentKeepsRecord(db: Db, a: AppliedAction, now: int, reference: string)
    requires RecordedOnce(db, reference)
    ensures RecordedOnce(PhaseOne(db, a, now).0, reference)
  {
  }

  lemma SweepKeepsRecord(db: Db, now: int, reference: string)
    requires RecordedOnce(db, reference)
    ensures RecordedOnce(Sweep(db, now), reference)
  {
  }

  /**
   A failing execute, retryable or permanent, spends one unit of the budget exactly when no other row of
   the case sits at the next counter; otherwise the uniqueness constraint rolls it back and nothing changes.
   */
  lemma FailureSpendsBudgetIff(db: Db, reference: string, max: int, now: int, jitter: real)
    requires reference in db.rows
    ensures var row := db.rows[reference];
            var (after, o) := ScheduleRetry(db, reference, max, now, jitter);
            && (o.Committed? <==> !AttemptTaken(db, row.caseId, row.attempt + 1, reference))
            && (o.Committed? ==> after.rows[reference].attempt == row.attempt + 1)
            && (o.Refused? ==> after == db)
            && (o.Committed? ==> (after.rows[reference].status.Dead? <==> row.attempt + 1 >= max))
    ensures var row := db.rows[reference];
            var (after, o) := DeadLetter(db, reference);
            && (o.Committed? <==> !AttemptTaken(db, row.caseId, row.attempt + 1, reference))
            && (o.Committed? ==>
                 && after.rows[reference].attempt == row.attempt + 1 && after.rows[reference].status.Dead?
                 && after.letters == db.letters + [Letter(reference, row.attempt + 1, false)])
            && (o.Refused? ==> after == db)
  {
  }
}
