/**
 What each transaction of the outbox means for the provider and for the drains to come: what is recorded,
 who is tried again, when, and who never is.
 */
module Effects {
  import opened Text
  import opened Enums
  import opened Token
  import opened Outbox

  // --------------------------------------------------------------------------
  // Waiting.

  /** Microseconds from a failure to its retry, at the least and at the most, by the number of failures. */
  function LeastWait(failures: nat): int {
    match failures case 0 => 0 case 1 => 375000 case 2 => 1500000 case 3 => 6000000 case _ => 22500000
  }

  function MostWait(failures: nat): int {
    match failures case 0 => 0 case 1 => 625000 case 2 => 2500000 case 3 => 10000000 case _ => 37500000
  }

  /** No drain selects the row before the least wait is over, unless it asks for interrupted rows, and every drain does after the most. */
  ghost predicate WaitsOut(rows: map<string, Row>, r: string, failedAt: int) {
    && r in rows && rows[r].status.Pending?
    && (forall t, includeStale :: t >= failedAt + MostWait(rows[r].attempt) ==> r in Picked(rows, t, includeStale))
    && (forall t, includeStale :: t < failedAt + LeastWait(rows[r].attempt) ==>
         (r in Picked(rows, t, includeStale) <==> includeStale && rows[r].createdAt + 60000000 <= t))
  }

  /**
   A failed row that may be tried again waits: 0.375 to 0.625 seconds after its first failure, 1.5 to 2.5
   after the second, 6 to 10 after the third, and 22.5 to 37.5 after any later one.
   */
  lemma RetryWaits(db: Db, r: string, max: int, now: int, jitter: real)
    requires r in db.rows && -0.25 <= jitter <= 0.25
    requires ScheduleRetry(db, r, max, now, jitter).1.Committed?
    ensures var after := ScheduleRetry(db, r, max, now, jitter).0;
            && r in after.rows && after.rows[r].attempt == db.rows[r].attempt + 1
            && (after.rows[r].attempt < max ==> WaitsOut(after.rows, r, now))
            && (after.rows[r].attempt >= max ==> forall later, includeStale :: r !in Picked(after.rows, later, includeStale))
  {
    var after := ScheduleRetry(db, r, max, now, jitter).0;
    var row := after.rows[r];
    if row.attempt < max {
      assert now + LeastWait(row.attempt) <= row.nextAttemptAt <= now + MostWait(row.attempt);
      assert row.createdAt == db.rows[r].createdAt;
      hide BackoffMicros, ScheduleRetry;
    }
  }

  /**
   The wait grows from each of the first three failures to the next: once a drain would select the row of
   the earlier one, however long after it, none selects that of the later one as long after it.
   */
  lemma EachWaitIsLonger(
    rows: map<string, Row>, r: string, failedAt: int, later: map<string, Row>, failedAgainAt: int, wait: int)
    requires WaitsOut(rows, r, failedAt) && WaitsOut(later, r, failedAgainAt)
    requires 1 <= rows[r].attempt <= 3 && rows[r].attempt < later[r].attempt
    ensures r in Picked(later, failedAgainAt + wait, false) ==> r in Picked(rows, failedAt + wait, false)
    ensures r in Picked(rows, failedAt + MostWait(rows[r].attempt), false)
    ensures r !in Picked(later, failedAgainAt + MostWait(rows[r].attempt), false)
  {
  }

  /** Nothing but `r`'s row differs, if that does. */
  predicate OnlyRow(db: Db, after: Db, r: string) {
    && (forall x :: x in after.rows && x != r ==> x in db.rows && after.rows[x] == db.rows[x])
    && (forall x :: x in db.rows ==> x in after.rows)
    && after.cases == db.cases
  }

  /** Refused because of a sibling, or for want of a row, a transaction leaves the tables as they were. */
  lemma RefusalsChangeNothing(db: Db, a: AppliedAction, link: Link, r: string, max: int, now: int, jitter: real)
    ensures PhaseOne(db, a, now).1.Refused? ==> PhaseOne(db, a, now).0 == db
    ensures a.reference in db.rows ==> PhaseOne(db, a, now) == (db, Committed)
    ensures a.reference !in db.rows ==> PhaseTwo(db, a, link, now) == db
    ensures r !in db.rows ==> ScheduleRetry(db, r, max, now, jitter) == (db, Committed) && DeadLetter(db, r) == (db, Committed)
    ensures r !in db.rows ==> MarkDead(db, r) == db
  {
  }

  /** A committed intent waits for nothing: every drain from then on selects it, and rebuilds the action from it. */
  lemma IntentIsDueAtOnce(db: Db, a: AppliedAction, now: int, later: int, includeStale: bool)
    requires a.reference !in db.rows && PhaseOne(db, a, now).1.Committed?
    ensures var after := PhaseOne(db, a, now).0;
            && OnlyRow(db, after, a.reference) && a.reference in after.rows
            && after.actions == db.actions && after.contacts == db.contacts && after.letters == db.letters
            && var row := after.rows[a.reference];
            && row.caseId == a.caseId && FromPayload(row.payload) == Some(a) && row.attempt == 0 && row.providerRef.None?
            && (a.reference in Picked(after.rows, later, includeStale) <==> later >= now)
  {
    PayloadRoundTrip(a);
    hide AsPayload, FromPayload, AttemptTaken;
  }

  /**
   A dispatch is recorded once with what was sent: the action's own case, strategy, discount, channel and
   class, the link and the time; with a contact exactly if a channel was used; and no drain selects it again.
   */
  lemma DispatchIsRecordedAsSent(db: Db, a: AppliedAction, link: Link, now: int, later: int, includeStale: bool)
    requires a.reference in db.rows
    ensures var row, after := db.rows[a.reference], PhaseTwo(db, a, link, now);
            && OnlyRow(db, after, a.reference) && after.letters == db.letters
            && a.reference in after.rows && after.rows[a.reference].status.Sent?
            && a.reference !in Picked(after.rows, later, includeStale)
            && (row.status.Sent? ==> after == db)
            && (!row.status.Sent? ==>
                 && after.rows[a.reference].providerRef == Some(link.id)
                 && after.rows[a.reference].attempt == row.attempt && after.rows[a.reference].payload == row.payload
                 && |after.actions| == |db.actions| + 1 && db.actions <= after.actions
                 && var x := after.actions[|db.actions|];
                 && x.reference == a.reference && x.caseId == a.caseId && x.strategy == a.strategy
                 && x.discountPct == a.discountPct && x.discountAmountPaise == a.discountAmountPaise
                 && x.channel == a.channel && x.messageClass == a.messageClass && x.linkId == link.id && x.executedAt == now
                 && if a.channel.NoChannel? then after.contacts == db.contacts
                    else after.contacts == db.contacts + [Contact(a.caseId, a.channel, a.messageClass, now)])
  {
  }

  /** A permanent failure ends the row and opens one letter; nothing is sent, recorded or tried again. */
  lemma DeadLetterEndsTheRow(db: Db, r: string, later: int, includeStale: bool)
    requires r in db.rows && DeadLetter(db, r).1.Committed?
    ensures var after := DeadLetter(db, r).0;
            && OnlyRow(db, after, r) && after.actions == db.actions && after.contacts == db.contacts
            && after.rows[r].status.Dead? && after.rows[r].attempt == db.rows[r].attempt + 1
            && after.letters == db.letters + [Letter(r, db.rows[r].attempt + 1, false)]
            && r !in Picked(after.rows, later, includeStale)
  {
  }

  /** The end of the budget does the same; before it, the row waits and no letter opens. */
  lemma RetryOrLetter(db: Db, r: string, max: int, now: int, jitter: real)
    requires r in db.rows && ScheduleRetry(db, r, max, now, jitter).1.Committed?
    ensures var n, after := db.rows[r].attempt + 1, ScheduleRetry(db, r, max, now, jitter).0;
            && OnlyRow(db, after, r) && after.actions == db.actions && after.contacts == db.contacts
            && after.rows[r].attempt == n && after.rows[r].payload == db.rows[r].payload
            && (n >= max ==> after.rows[r].status.Dead? && after.letters == db.letters + [Letter(r, n, false)])
            && (n < max ==> after.rows[r].status.Pending? && after.letters == db.letters)
  {
  }

  /** A drop ends the row without a letter. */
  lemma DropEndsTheRow(db: Db, r: string, later: int, includeStale: bool)
    requires r in db.rows
    ensures var after := MarkDead(db, r);
            && after == db.(rows := after.rows) && OnlyRow(db, after, r)
            && after.rows[r] == db.rows[r].(status := Dead) && r !in Picked(after.rows, later, includeStale)
  {
  }

  /**
   An open letter put back is due at once, with attempts and payload as they were; it is then spent, and
   putting it back again, like one without a row, is a conflict; there is none beyond the list.
   */
  lemma ReplayIsDueAtOnce(db: Db, i: nat, now: int, again: int, later: int)
    ensures var (after, answer) := Replay(db, i, now);
            && (answer.NotFound? <==> i >= |db.letters|)
            && (answer.Requeued? <==> i < |db.letters| && !db.letters[i].replayed && db.letters[i].reference in db.rows)
            && (!answer.Requeued? ==> after == db)
            && (answer.Requeued? ==>
                 var r := db.letters[i].reference;
                 && OnlyRow(db, after, r) && after.actions == db.actions && after.contacts == db.contacts
                 && after.rows[r].attempt == db.rows[r].attempt && after.rows[r].payload == db.rows[r].payload
                 && after.rows[r].status.Pending? && (r in Picked(after.rows, later, false) <==> later >= now)
                 && |after.letters| == |db.letters| && after.letters[i].replayed && after.letters[i].reference == r
                 && (forall j :: 0 <= j < |db.letters| && j != i ==> after.letters[j] == db.letters[j])
                 && Replay(after, i, again) == (after, Conflict))
  {
  }

  /**
   The sweep kills a row exactly when it is PENDING and waiting, its case is known, and the case is over or
   no drain within the case's window would ever select the row; and it changes nothing else.
   */
  lemma SweepKillsTheHopeless(db: Db, now: int, r: string)
    requires r in db.rows
    ensures var after := Sweep(db, now);
            && after == db.(rows := after.rows) && after.rows.Keys == db.rows.Keys
            && (after.rows[r] == db.rows[r] || after.rows[r] == db.rows[r].(status := Dead))
            && (after.rows[r] != db.rows[r] <==>
                 && db.rows[r].status.Pending? && r !in Picked(db.rows, now, false)
                 && db.rows[r].caseId in db.cases
                 && var c := db.cases[db.rows[r].caseId];
                    Terminal(c.status) || forall t :: t <= c.windowExpiresAt ==> r !in Picked(db.rows, t, false))
  {
    var row := db.rows[r];
    if row.caseId in db.cases {
      var ends := db.cases[row.caseId].windowExpiresAt;
      assert r in Picked(db.rows, ends, false) <==> row.status.Pending? && row.nextAttemptAt <= ends;
    }
  }

  /** A case is over in seven statuses; in the other seven, if it is known at all, it is live. */
  lemma LiveExactly(db: Db, c: string)
    ensures CaseLive(db, c) <==>
      && c in db.cases
      && var st := db.cases[c].status;
         st.Detected? || st.Triaged? || st.Diagnosing? || st.StrategyFormed? || st.AwaitingApproval? || st.Executing? || st.Monitoring?
  {
  }

  /** Only PENDING and interrupted rows are ever selected: never one that is SENT or DEAD. */
  lemma FinishedIsNeverPicked(rows: map<string, Row>, r: string, now: int, includeStale: bool)
    requires r in Picked(rows, now, includeStale)
    ensures r in rows && !rows[r].status.Sent? && !rows[r].status.Dead?
    ensures !includeStale ==> rows[r].status.Pending? && rows[r].nextAttemptAt <= now
    ensures (rows[r].status.Pending? && rows[r].nextAttemptAt <= now) || (includeStale && rows[r].createdAt + 60000000 <= now)
  {
  }

  /** A SENDING row, left by a crash, is selected exactly by the passes that ask for it, from a minute after its commit on. */
  lemma InterruptedIsPickedOnRequest(rows: map<string, Row>, r: string, now: int, includeStale: bool)
    requires r in rows && rows[r].status.Sending?
    ensures r in Picked(rows, now, includeStale) <==> includeStale && now >= rows[r].createdAt + 60000000
  {
  }
}
