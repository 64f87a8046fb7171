/** The two ways to settle a case, webhook and poll: when they leave the same amount, and whether it matters which is first. */
module Paths {
  import opened Text
  import opened Enums
  import opened Ids
  import opened Attribution
  import opened Settlement
  import Outbox

  /** The event is found under a reference issued to the case, which nothing has settled so far. */
  predicate OwnEvent(l: Ledger, c: string, e: Event) {
    && c in l.cases && l.cases[c].verifiedBy.None?
    && e.eventType in SETTLING_EVENTS && e.reference.Some?
    && FindCase(l, e.reference.value).Issued? && FindCase(l, e.reference.value).caseId == c
  }

  /** The case is monitored and its window, with the grace, not over. */
  predicate InTime(row: CaseRow, now: int) {
    row.status.Monitoring? && now <= row.windowExpiresAt + GRACE
  }

  function Reported(row: CaseRow, e: Event): int {
    if e.amountPaise.Some? then e.amountPaise.value else row.amountPaise
  }

  function WebhookAmount(row: CaseRow, e: Event, now: int): int {
    if !InTime(row, now) || Reported(row, e) < 0 then 0
    else if Reported(row, e) < row.amountPaise then Reported(row, e)
    else row.amountPaise
  }

  lemma ActionCanonical(l: Ledger, needle: string)
    requires ReferencesOk(l) && FindAction(l.actions, needle).Some?
    ensures FindAction(l.actions, needle).value.reference == needle
  {
    var x := FindAction(l.actions, needle).value;
    assert OwnReference(l, x.reference, x.caseId);
    var n: nat :| x.reference == ReferenceId(x.caseId, n);
    ReferenceIdCanonical(x.caseId, n);
  }

  /**
   Whose a reference is, blanks and letter case aside: that of the intent under it, else of an action under it,
   else of the held-out case that was given it, else nobody's.
   */
  lemma FoundExactly(l: Ledger, reference: string)
    requires ReferencesOk(l)
    ensures var f, key := FindCase(l, reference), Lower(Strip(reference));
            && (key in l.intents ==> f == Issued(l.intents[key].caseId, key))
            && (f.Issued? <==> key in l.intents || exists x :: x in l.actions && x.reference == key)
            && (f.Issued? && key !in l.intents ==> ActionRef(key, f.caseId) in l.actions && f.reference == key)
            && (f.Held? <==> !f.Issued? && key in l.observed)
            && (f.Held? ==> f.caseId == l.observed[key])
  {
    var key := Lower(Strip(reference));
    if FindAction(l.actions, key).Some? {
      ActionCanonical(l, key);
    }
    forall x | x in l.actions && x.reference == key ensures Lower(x.reference) == key {
      assert OwnReference(l, x.reference, x.caseId);
      var n: nat :| x.reference == ReferenceId(x.caseId, n);
      ReferenceIdCanonical(x.caseId, n);
    }
    hide Lower, Strip;
  }

  /** A reference of ours is found as it was issued: trimmed, in lower case and not empty. */
  lemma FoundAsIssued(l: Ledger, reference: string)
    requires ReferencesOk(l) && FindCase(l, reference).Issued?
    ensures Normalised(Some(FindCase(l, reference).reference)) == Normalised(Some(reference)) != ""
    ensures reference != ""
  {
    var needle, c := Lower(Strip(reference)), FindCase(l, reference).caseId;
    FoundIsOwn(l, reference);
    if needle !in l.intents {
      ActionCanonical(l, needle);
    }
    var n: nat :| needle == ReferenceId(c, n);
    ReferenceIdCanonical(c, n);
    ReferenceIdShape(c, n);
    hide ReferenceId;
  }

  lemma SettleCaseAmount(l: Ledger, c: string, issued: string, e: Event, now: int)
    requires c in l.cases && RowOk(l.cases[c]) && l.cases[c].verifiedBy.None? && e.eventType in SETTLING_EVENTS
    requires Normalised(Some(issued)) == Normalised(e.reference) != ""
    ensures var row, m := l.cases[c], SettleCase(l, c, Some(issued), e, now).0;
            && m.cases.Keys == l.cases.Keys
            && m.cases[c].amountPaise == row.amountPaise
            && m.cases[c].recoveredPaise == WebhookAmount(row, e, now)
            && (m.cases[c].verifiedBy.Some? <==> InTime(row, now) && Reported(row, e) >= 0)
  {
    hide Normalised;
  }

  lemma WebhookLeaves(l: Ledger, c: string, e: Event, now: int)
    requires Honest(l) && OwnEvent(l, c, e)
    ensures var row, m := l.cases[c], Settle(l, e, now).0;
            && c in m.cases
            && m.cases[c].amountPaise == row.amountPaise
            && m.cases[c].recoveredPaise == WebhookAmount(row, e, now)
            && (m.cases[c].verifiedBy.Some? <==> InTime(row, now) && Reported(row, e) >= 0)
  {
    assert RowOk(l.cases[c]);
    hide RowOk, CreditsMatch, Normalised, SettleCase, FindCase;
    FoundAsIssued(l, e.reference.value);
    assert e.reference == Some(e.reference.value);
    SettleCaseAmount(l, c, FindCase(l, e.reference.value).reference, e, now);
    hide ReferencesOk;
  }

  /**
   For every unproven case and every settling event of its own: webhook and poll leave the same recovered
   amount if and only if the case is monitored, the event is in time and reports no less than the case.
   */
  lemma PathsAgreeExactlyWhen(l: Ledger, c: string, e: Event, now: int, proof: string)
    requires Honest(l) && OwnEvent(l, c, e)
    ensures var webhook, poll := Settle(l, e, now).0, SettleByPoll(l, c, proof).0;
            && c in webhook.cases && c in poll.cases
            && (webhook.cases[c].recoveredPaise == poll.cases[c].recoveredPaise <==>
                 && l.cases[c].status.Monitoring? && now <= l.cases[c].windowExpiresAt + GRACE
                 && (e.amountPaise.Some? ==> e.amountPaise.value >= l.cases[c].amountPaise))
  {
    WebhookLeaves(l, c, e, now);
    assert RowOk(l.cases[c]);
    hide Settle, FindCase, ReferencesOk, CreditsMatch;
  }

  lemma SettleCaseEnds(l: Ledger, c: string, issued: string, e: Event, now: int)
    requires c in l.cases && RowOk(l.cases[c]) && l.cases[c].verifiedBy.None? && e.eventType in SETTLING_EVENTS
    requires Normalised(Some(issued)) == Normalised(e.reference) != ""
    ensures PaymentEnds(l, c, e, now, SettleCase(l, c, Some(issued), e, now).0)
    ensures var (m, o) := SettleCase(l, c, Some(issued), e, now);
            o == if m.cases[c].status.Recovered? then Credited(c, m.cases[c].recoveredPaise)
                 else if l.cases[c].status.Monitoring? && now <= l.cases[c].windowExpiresAt + 24 * 3600 * 1000000 then RolledBack
                 else Uncounted
  {
    hide Normalised;
    assert l.cases == l.cases[c := l.cases[c]];
  }

  /**
   Monitored and within 24 hours of its window, the case is RECOVERED by this event, for no more than its
   amount, and credited; a negative report rolls back; else the payment is organic, and the case closed so.
   */
  predicate PaymentEnds(l: Ledger, c: string, e: Event, now: int, m: Ledger)
    requires c in l.cases
  {
    var row := l.cases[c];
    var live := row.status.Monitoring? && now <= row.windowExpiresAt + 24 * 3600 * 1000000;
    && m == l.(cases := m.cases, audit := m.audit)
    && c in m.cases && m.cases == l.cases[c := m.cases[c]]
    && (live && (e.amountPaise.Some? ==> e.amountPaise.value >= 0) ==>
         && m.cases[c].status.Recovered? && m.cases[c].verifiedBy == Some(e.id) && m.cases[c].via == Some(Webhook)
         && m.cases[c].recoveredPaise <= row.amountPaise
         && (e.amountPaise.Some? ==> m.cases[c].recoveredPaise <= e.amountPaise.value)
         && (m.cases[c].recoveredPaise == row.amountPaise || Some(m.cases[c].recoveredPaise) == e.amountPaise)
         && m.audit == l.audit + [RecoveryVerified(c, m.cases[c].recoveredPaise)])
    && (live && e.amountPaise.Some? && e.amountPaise.value < 0 ==> m == l)
    && (!live ==> m.cases[c] == row.(status := ResolvedOrganic) && m.audit == l.audit)
  }

  /** Of every honest ledger and settling event found under a reference issued to an unproven case. */
  lemma OwnPaymentEnds(l: Ledger, c: string, e: Event, now: int)
    requires Honest(l) && OwnEvent(l, c, e)
    ensures PaymentEnds(l, c, e, now, Settle(l, e, now).0)
    ensures var (m, o) := Settle(l, e, now);
            o == if m.cases[c].status.Recovered? then Credited(c, m.cases[c].recoveredPaise)
                 else if l.cases[c].status.Monitoring? && now <= l.cases[c].windowExpiresAt + 24 * 3600 * 1000000 then RolledBack
                 else Uncounted
    ensures Settle(l, e, now).0.cases[c].status.Recovered? <==>
              && l.cases[c].status.Monitoring? && now <= l.cases[c].windowExpiresAt + 24 * 3600 * 1000000
              && (e.amountPaise.Some? ==> e.amountPaise.value >= 0)
  {
    assert RowOk(l.cases[c]);
    hide RowOk, CreditsMatch, Normalised, SettleCase, FindCase;
    FoundAsIssued(l, e.reference.value);
    assert e.reference == Some(e.reference.value);
    SettleCaseEnds(l, c, FindCase(l, e.reference.value).reference, e, now);
    hide ReferencesOk;
  }

  /** Whatever else arrives changes nothing: no settling event, no reference, nobody's reference, or a proven case's. */
  lemma OtherPaymentsChangeNothing(l: Ledger, e: Event, now: int)
    requires Honest(l)
    requires
      || e.eventType !in SETTLING_EVENTS || e.reference.None?
      || FindCase(l, e.reference.value).Nobody?
      || (var c := FindCase(l, e.reference.value).caseId; c in l.cases ==> l.cases[c].verifiedBy.Some?)
    ensures Settle(l, e, now).0 == l
    ensures Settle(l, e, now).1 ==
              if e.eventType !in {"payment_link.paid", "invoice.paid", "subscription.charged"} || e.reference.None? || e.reference == Some("")
              then NotSettling
              else if FindCase(l, e.reference.value).Nobody? || FindCase(l, e.reference.value).caseId !in l.cases then NotOurs
              else Uncounted
  {
    hide FindCase;
    forall c | c in l.cases && l.cases[c].verifiedBy.Some? ensures l.cases[c].status.Recovered? {
      assert RowOk(l.cases[c]);
    }
  }

  lemma ProvenStays(l: Ledger, c: string, e: Event, now: int)
    requires c in l.cases && l.cases[c].status.Recovered? && l.cases[c].verifiedBy.Some?
    ensures c in Settle(l, e, now).0.cases && Settle(l, e, now).0.cases[c] == l.cases[c]
  {
    hide FindCase;
  }

  /**
   It matters which path is first exactly when a monitored case is paid in part, in time: then the first
   one decides, and in all other cases both orders leave the whole amount.
   */
  lemma OrderMattersExactlyWhen(l: Ledger, c: string, e: Event, now: int, proof: string)
    requires Honest(l) && OwnEvent(l, c, e)
    ensures var row := l.cases[c];
            var webhookFirst := SettleByPoll(Settle(l, e, now).0, c, proof).0;
            var pollFirst := Settle(SettleByPoll(l, c, proof).0, e, now).0;
            var inPart := && row.status.Monitoring? && now <= row.windowExpiresAt + GRACE
                          && e.amountPaise.Some? && 0 <= e.amountPaise.value < row.amountPaise;
            && c in webhookFirst.cases && c in pollFirst.cases
            && pollFirst.cases[c].recoveredPaise == row.amountPaise
            && webhookFirst.cases[c].recoveredPaise == if inPart then e.amountPaise.value else row.amountPaise
  {
    WebhookLeaves(l, c, e, now);
    ProvenStays(SettleByPoll(l, c, proof).0, c, e, now);
    hide Settle, FindCase, Honest;
  }

  /** The poll asks about a case exactly while it is monitored, unproven, and has been dispatched to or is being. */
  lemma OutstandingExactly(l: Ledger, c: string)
    ensures c in Outstanding(l) <==>
      && c in l.cases && l.cases[c].status.Monitoring? && l.cases[c].verifiedBy.None?
      && exists r :: r in l.intents && l.intents[r].caseId == c && (l.intents[r].status == Outbox.Sent || l.intents[r].status == Outbox.Sending)
  {
  }

  /** A held-out case's checkout is known by its own reference once it is opened, and no other case's ever is. */
  lemma HeldOutIsKnown(l: Ledger, c: string)
    requires c in l.cases
    ensures var m := Apply(l, HoldOut(c));
            if l.cases[c].arm.Control? && ObservedReferenceId(c) !in l.observed
            then m == l.(observed := l.observed[ObservedReferenceId(c) := c]) else m == l
  {
  }

  // --------------------------------------------------------------------------
  // A run for each order.

  /** A treatment case is dispatched to, monitored and asked about by the poll, and an event arrives. */
  function Watched(c: string, n: nat, row: CaseRow, e: Event): seq<Step> {
    [OpenCase(c, row)] + [Issue(c, n)] + [IntentMoves(ReferenceId(c, n), Outbox.Sent)] + [AgentMoves(c, Monitoring)]
    + [PollRead] + [Deliver(e)]
  }

  lemma ExecStep(steps: seq<Step>, step: Step)
    ensures Exec(EMPTY_LEDGER, steps + [step]) == Apply(Exec(EMPTY_LEDGER, steps), step)
  {
    assert (steps + [step])[..|steps|] == steps;
  }

  function MonitoredLedger(c: string, n: nat, row: CaseRow): Ledger {
    EMPTY_LEDGER.(cases := map[c := row.(status := Monitoring)], intents := map[ReferenceId(c, n) := Intent(c, Outbox.Sent)])
  }

  lemma MonitoredReached(c: string, n: nat, row: CaseRow)
    requires Fresh(row) && row.status.Detected? && row.arm.Treatment?
    ensures Exec(EMPTY_LEDGER, [OpenCase(c, row)] + [Issue(c, n)] + [IntentMoves(ReferenceId(c, n), Outbox.Sent)] + [AgentMoves(c, Monitoring)])
            == MonitoredLedger(c, n, row)
  {
    hide ReferenceId;
    var s := [OpenCase(c, row)];
    ExecStep([], OpenCase(c, row));
    assert [] + s == s;
    ExecStep(s, Issue(c, n));
    ExecStep(s + [Issue(c, n)], IntentMoves(ReferenceId(c, n), Outbox.Sent));
    ExecStep(s + [Issue(c, n)] + [IntentMoves(ReferenceId(c, n), Outbox.Sent)], AgentMoves(c, Monitoring));
    assert Exec(EMPTY_LEDGER, []) == EMPTY_LEDGER;
    hide Exec;
  }

  lemma MonitoredIsOutstanding(c: string, n: nat, row: CaseRow)
    requires row.verifiedBy.None?
    ensures Outstanding(MonitoredLedger(c, n, row)) == {c}
  {
    var l := MonitoredLedger(c, n, row);
    assert Pollable(l, ReferenceId(c, n));
    hide ReferenceId;
  }

  lemma WatchedReached(c: string, n: nat, row: CaseRow, e: Event)
    requires Fresh(row) && row.status.Detected? && row.arm.Treatment?
    ensures Exec(EMPTY_LEDGER, Watched(c, n, row, e))
            == MonitoredLedger(c, n, row).(polled := {c}, ingested := {e.id}, inbox := [e])
  {
    var s := [OpenCase(c, row)] + [Issue(c, n)] + [IntentMoves(ReferenceId(c, n), Outbox.Sent)] + [AgentMoves(c, Monitoring)];
    MonitoredReached(c, n, row);
    MonitoredIsOutstanding(c, n, row);
    ExecStep(s, PollRead);
    ExecStep(s + [PollRead], Deliver(e));
    hide Exec, Outstanding, ReferenceId;
  }

  /** For every such case and every part of its amount, two runs of the same steps leave different amounts. */
  lemma TheFirstPathDecides(c: string, n: nat, row: CaseRow, id: string, part: nat, now: int, proof: string)
    requires Fresh(row) && row.status.Detected? && row.arm.Treatment?
    requires part < row.amountPaise && now <= row.windowExpiresAt + GRACE
    ensures var e := Event(id, "payment_link.paid", Some(ReferenceId(c, n)), Some(part));
            var webhookFirst := Exec(EMPTY_LEDGER, Watched(c, n, row, e) + [RunTask(0, now)] + [PollWrite(c, proof)]);
            var pollFirst := Exec(EMPTY_LEDGER, Watched(c, n, row, e) + [PollWrite(c, proof)] + [RunTask(0, now)]);
            && c in webhookFirst.cases && webhookFirst.cases[c].recoveredPaise == part
            && c in pollFirst.cases && pollFirst.cases[c].recoveredPaise == row.amountPaise
  {
    var e := Event(id, "payment_link.paid", Some(ReferenceId(c, n)), Some(part));
    var s := Watched(c, n, row, e);
    WatchedReached(c, n, row, e);
    EveryRunIsHonest(s);
    ExecStep(s, RunTask(0, now));
    ExecStep(s + [RunTask(0, now)], PollWrite(c, proof));
    ExecStep(s, PollWrite(c, proof));
    ExecStep(s + [PollWrite(c, proof)], RunTask(0, now));
    hide Exec, Watched, Apply, Honest, ReferenceId;
    assert Fresh(row);
    BothOrders(Exec(EMPTY_LEDGER, s), c, n, e, now, proof);
  }

  lemma OwnThere(l: Ledger, c: string, n: nat, e: Event)
    requires ReferenceId(c, n) in l.intents && l.intents[ReferenceId(c, n)].caseId == c
    requires c in l.cases && l.cases[c].verifiedBy.None?
    requires e.eventType == "payment_link.paid" && e.reference == Some(ReferenceId(c, n))
    ensures OwnEvent(l, c, e)
  {
    ReferenceIdCanonical(c, n);
    hide ReferenceId;
  }

  lemma SettleKeepsPolled(l: Ledger, e: Event, now: int)
    ensures Settle(l, e, now).0.polled == l.polled
  {
    hide FindCase, Attribute;
  }

  lemma BothOrders(l: Ledger, c: string, n: nat, e: Event, now: int, proof: string)
    requires Honest(l) && c in l.cases && l.cases[c].status.Monitoring? && l.cases[c].verifiedBy.None?
    requires l.inbox == [e] && c in l.polled && ReferenceId(c, n) in l.intents && l.intents[ReferenceId(c, n)].caseId == c
    requires e.eventType == "payment_link.paid" && e.reference == Some(ReferenceId(c, n)) && e.amountPaise.Some?
    requires 0 <= e.amountPaise.value < l.cases[c].amountPaise && now <= l.cases[c].windowExpiresAt + GRACE
    ensures var webhookFirst := Apply(Apply(l, RunTask(0, now)), PollWrite(c, proof));
            var pollFirst := Apply(Apply(l, PollWrite(c, proof)), RunTask(0, now));
            && c in webhookFirst.cases && webhookFirst.cases[c].recoveredPaise == e.amountPaise.value
            && c in pollFirst.cases && pollFirst.cases[c].recoveredPaise == l.cases[c].amountPaise
  {
    var taken := l.(inbox := [], handled := l.handled + [e.id]);
    hide Honest, OwnEvent, Settle, SettleByPoll, ReferenceId, FindCase, Apply;
    InboxHonest(l, taken);
    OwnThere(taken, c, n, e);
    OrderMattersExactlyWhen(taken, c, e, now, proof);
    TwoOrders(l, e, c, now, proof);
  }

  lemma TwoOrders(l: Ledger, e: Event, c: string, now: int, proof: string)
    requires l.inbox == [e] && c in l.polled
    ensures var taken := l.(inbox := [], handled := l.handled + [e.id]);
            && Apply(Apply(l, RunTask(0, now)), PollWrite(c, proof)) == SettleByPoll(Settle(taken, e, now).0, c, proof).0
            && Apply(Apply(l, PollWrite(c, proof)), RunTask(0, now)) == Settle(SettleByPoll(taken, c, proof).0, e, now).0
  {
    var taken := l.(inbox := [], handled := l.handled + [e.id]);
    assert Without([e], 0) == [];
    SettleKeepsPolled(taken, e, now);
    hide Settle;
  }
}
