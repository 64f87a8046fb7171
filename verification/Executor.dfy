/**
 The executor, the drainer, the stale-deferral sweep and the replay endpoint over mutable tables,
 and the in-memory provider they call. Each run of a method is a run of the protocol's steps.
 */
module Executor {
  import opened Text
  import opened Enums
  import opened Token
  import opened Outbox
  import opened Effects
  import opened Protocol

  datatype FaultKind = Timeout | ServerError | Rejecting

  datatype Fault = Fault(kind: FaultKind, remaining: int)

  /** What the next call meets, and what is left for the calls after it. */
  function Met(f: Option<Fault>): Option<FaultKind> {
    if f.Some? && f.value.remaining > 0 then Some(f.value.kind) else None
  }

  function Left(f: Option<Fault>): Option<Fault> {
    if Met(f).None? then f
    else if f.value.remaining == 1 then None
    else Some(f.value.(remaining := f.value.remaining - 1))
  }

  datatype Answer = Created(link: Link) | DuplicateReference | Transient | Refusal

  datatype Lookup = Held(link: Link) | Unknown | LookupTransient | LookupRefusal

  /** Provider with a uniqueness rule on references and a fault to inject on the next calls. */
  class MockProvider {
    var linksByReference: map<string, Link>
    var fault: Option<Fault>
    var callCount: nat
    ghost var ledger: seq<Link>

    ghost predicate Valid()
      reads this
    {
      && LinksUnique(ledger)
      && forall r :: FindLink(ledger, r) == if r in linksByReference then Some(linksByReference[r]) else None
    }

    constructor ()
      ensures Valid() && ledger == [] && fault == None
    {
      linksByReference, fault, callCount, ledger := map[], None, 0, [];
    }

    /** Counts the call; spends one injected fault if any is left. */
    method Tick() returns (raised: Option<FaultKind>)
      modifies this`fault, this`callCount
      ensures callCount == old(callCount) + 1
      ensures raised == Met(old(fault)) && fault == Left(old(fault))
    {
      callCount := callCount + 1;
      raised := None;
      if fault.Some? && fault.value.remaining > 0 {
        raised := Some(fault.value.kind);
        fault := Some(fault.value.(remaining := fault.value.remaining - 1));
        if fault.value.remaining <= 0 {
          fault := None;
        }
      }
    }

    /** A new link is one longer ledger; every other answer leaves what the provider holds alone. */
    method CreatePaymentLink(reference: string, amountPaise: int, freshId: string) returns (answer: Answer)
      requires Valid()
      modifies this
      ensures Valid()
      ensures answer.Created? ==>
        && FindLink(old(ledger), reference).None?
        && answer.link == Link(reference, freshId, amountPaise) && ledger == old(ledger) + [answer.link]
      ensures !answer.Created? ==> ledger == old(ledger)
      ensures callCount == old(callCount) + 1 && fault == Left(old(fault))
      ensures answer.Refusal? <==> Met(old(fault)) == Some(Rejecting)
      ensures answer.Transient? <==> Met(old(fault)).Some? && Met(old(fault)) != Some(Rejecting)
      ensures answer.DuplicateReference? <==> Met(old(fault)).None? && FindLink(old(ledger), reference).Some?
    {
      var raised := Tick();
      if raised.Some? {
        return if raised.value.Rejecting? then Refusal else Transient;
      }
      if reference in linksByReference {
        assert FindLink(ledger, reference).Some?;
        return DuplicateReference;
      }
      var link := Link(reference, freshId, amountPaise);
      assert FindLink(ledger, reference).None?;
      forall r ensures FindLink(ledger + [link], r) == if r == reference then Some(link) else FindLink(ledger, r) {
        FindLinkAppend(ledger, link, r);
      }
      ledger := ledger + [link];
      linksByReference := linksByReference[reference := link];
      return Created(link);
    }

    method GetPaymentLinkByReference(reference: string) returns (found: Lookup)
      requires Valid()
      modifies this`fault, this`callCount
      ensures Valid()
      ensures callCount == old(callCount) + 1 && fault == Left(old(fault))
      ensures found.Held? <==> Met(old(fault)).None? && FindLink(ledger, reference).Some?
      ensures found.Held? ==> FindLink(ledger, reference) == Some(found.link)
      ensures found.Unknown? <==> Met(old(fault)).None? && FindLink(ledger, reference).None?
      ensures found.LookupRefusal? <==> Met(old(fault)) == Some(Rejecting)
    {
      var raised := Tick();
      if raised.Some? {
        return if raised.value.Rejecting? then LookupRefusal else LookupTransient;
      }
      assert FindLink(ledger, reference) == if reference in linksByReference then Some(linksByReference[reference]) else None;
      return if reference in linksByReference then Held(linksByReference[reference]) else Unknown;
    }
  }

  lemma {:induction false} FindLinkAppend(links: seq<Link>, link: Link, r: string)
    requires FindLink(links, link.reference).None?
    ensures FindLink(links + [link], r) == if r == link.reference then Some(link) else FindLink(links, r)
  {
    if links == [] {
      assert links + [link] == [link];
    } else {
      assert (links + [link])[1..] == links[1..] + [link];
      if links[0].reference != r {
        assert FindLink(links[1..], link.reference).None?;
        FindLinkAppend(links[1..], link, r);
      }
    }
  }

  /** How an execute ends. `Aborted` is a uniqueness violation escaping to the caller. */
  datatype Ending = NotAuthorised | BadToken | WillRetry | DeadLettered | Dispatched | Aborted

  datatype DrainReport = DrainReport(considered: nat, retried: nat, recovered: nat, failed: nat, skipped: nat, aborted: bool)

  /** What a pass counts a row as. `Raised` ends the pass. */
  datatype Mark = Skipped | Resumed | Buried | StillOpen | Raised

  class OutboxExecutor {
    var rows: map<string, Row>
    var actions: seq<Action>
    var contacts: seq<Contact>
    var letters: seq<Letter>
    var cases: map<string, CaseFacts>
    const provider: MockProvider
    const maxAttempts: int
    const signingKey: string

    constructor (provider: MockProvider, cases: map<string, CaseFacts>, maxAttempts: int, signingKey: string)
      requires provider.Valid()
      ensures Valid() && Tables() == Start(cases).db && this.provider == provider && this.maxAttempts == maxAttempts
    {
      this.provider, this.maxAttempts, this.signingKey := provider, maxAttempts, signingKey;
      this.rows, this.actions, this.contacts, this.letters, this.cases := map[], [], [], [], cases;
    }

    ghost predicate Valid()
      reads this, provider
    {
      provider.Valid()
    }

    function Tables(): Db
      reads this
    {
      Db(rows, actions, contacts, letters, cases)
    }

    /** The protocol state this executor stands for, as worker 0, between two of its calls. */
    ghost function View(): Sys
      reads this, provider
    {
      Sys(Tables(), provider.ledger, map[0 := Worker(Idle, [])])
    }

    method Taken(caseId: string, attempt: nat, reference: string) returns (taken: bool)
      ensures taken == AttemptTaken(Tables(), caseId, attempt, reference)
    {
      taken := exists r | r in rows :: r != reference && rows[r].caseId == caseId && rows[r].attempt == attempt;
    }

    method CommitIntent(a: AppliedAction, now: int) returns (o: Outcome)
      modifies this
      ensures (Tables(), o) == PhaseOne(old(Tables()), a, now)
      ensures OnlyTouches(old(rows), rows, a.reference)
    {
      if a.reference in rows {
        return Committed;
      }
      var clash := Taken(a.caseId, 0, a.reference);
      if clash {
        return Refused;
      }
      rows := rows[a.reference := Row(a.caseId, AsPayload(a), Pending, 0, None, now, now)];
      return Committed;
    }

    method RecordDispatch(a: AppliedAction, link: Link, now: int)
      modifies this
      ensures Tables() == PhaseTwo(old(Tables()), a, link, now)
    {
      if a.reference !in rows {
        return;
      }
      var row := rows[a.reference];
      if row.status.Sent? {
        return;
      }
      rows := rows[a.reference := row.(status := Sent, providerRef := Some(link.id))];
      var action := ActionFor(a, link.id, now);
      actions := actions + [action];
      if !a.channel.NoChannel? {
        contacts := contacts + [Contact(a.caseId, a.channel, a.messageClass, now)];
      } else {
        assert contacts == contacts + ContactOf(action);
      }
    }

    method BackOff(reference: string, now: int, jitter: real) returns (o: Outcome)
      modifies this
      ensures (Tables(), o) == ScheduleRetry(old(Tables()), reference, maxAttempts, now, jitter)
      ensures o.Committed? && -0.25 <= jitter <= 0.25 && reference in old(rows) && rows[reference].attempt < maxAttempts ==>
                WaitsOut(rows, reference, now)
    {
      if reference in rows && -0.25 <= jitter <= 0.25 && ScheduleRetry(Tables(), reference, maxAttempts, now, jitter).1.Committed? {
        RetryWaits(Tables(), reference, maxAttempts, now, jitter);
      }
      if reference !in rows {
        return Committed;
      }
      var row := rows[reference];
      var n := row.attempt + 1;
      var clash := Taken(row.caseId, n, reference);
      if clash {
        return Refused;
      }
      if n >= maxAttempts {
        rows := rows[reference := row.(attempt := n, status := Dead)];
        letters := letters + [Letter(reference, n, false)];
      } else {
        rows := rows[reference := row.(attempt := n, status := Pending, nextAttemptAt := now + BackoffMicros(n - 1, jitter))];
      }
      return Committed;
    }

    method GiveUp(reference: string) returns (o: Outcome)
      modifies this
      ensures (Tables(), o) == DeadLetter(old(Tables()), reference)
    {
      if reference !in rows {
        return Committed;
      }
      var row := rows[reference];
      var clash := Taken(row.caseId, row.attempt + 1, reference);
      if clash {
        return Refused;
      }
      rows := rows[reference := row.(attempt := row.attempt + 1, status := Dead)];
      letters := letters + [Letter(reference, row.attempt + 1, false)];
      return Committed;
    }

    /** The protocol state with this executor's worker in phase `p`. */
    ghost function ViewIn(p: Phase): Sys
      reads this, provider
    {
      Sys(Tables(), provider.ledger, map[0 := Worker(p, [])])
    }

    /** Creates the link, or fetches the one a previous attempt created. */
    method CallProvider(a: AppliedAction, freshId: string) returns (reply: Reply, ghost steps: seq<Step>)
      requires Valid()
      modifies provider
      ensures Valid()
      ensures ViewIn(AfterReply(a, reply)) == Exec(old(ViewIn(Intended(a))), steps, maxAttempts)
      ensures reply.GotLink? ==> FindLink(provider.ledger, a.reference) == Some(reply.link)
      ensures provider.fault == Left(old(provider.fault)) && Answers(reply, Met(old(provider.fault)))
      ensures reply.GotLink? ==> (reply.wasExisting <==> FindLink(old(provider.ledger), a.reference).Some?)
    {
      hide Exec, FindLink;
      ghost var s := ViewIn(Intended(a));
      var answer := provider.CreatePaymentLink(a.reference, a.chargeAmountPaise, freshId);
      match answer
      case Created(link) =>
        CreateRun(s, a, freshId, Answered, maxAttempts);
        FindLinkAppend(s.links, link, a.reference);
        return GotLink(link, false), [Create(0, Answered, freshId)];
      case Transient =>
        CreateRun(s, a, freshId, TimedOut, maxAttempts);
        return RetryableFailure, [Create(0, TimedOut, freshId)];
      case Refusal =>
        CreateRun(s, a, freshId, BadRequest, maxAttempts);
        return PermanentFailure, [Create(0, BadRequest, freshId)];
      case DuplicateReference =>
        reply, steps := Recover(s, a, freshId);
    }

    /** A duplicate is not an error: an earlier attempt got further than was recorded. */
    method Recover(ghost s: Sys, a: AppliedAction, freshId: string) returns (reply: Reply, ghost steps: seq<Step>)
      requires Valid() && s == ViewIn(Intended(a)) && FindLink(provider.ledger, a.reference).Some? && Met(provider.fault).None?
      modifies provider`fault, provider`callCount
      ensures Valid()
      ensures ViewIn(AfterReply(a, reply)) == Exec(s, steps, maxAttempts)
      ensures provider.fault == old(provider.fault)
      ensures reply.GotLink? && reply.wasExisting && FindLink(provider.ledger, a.reference) == Some(reply.link)
    {
      var found := provider.GetPaymentLinkByReference(a.reference);
      ghost var fate := if found.Held? then Answered else if found.LookupRefusal? then BadRequest else TimedOut;
      DuplicateRun(s, a, freshId, fate, maxAttempts);
      steps := [Create(0, Answered, freshId), Fetch(0, fate)];
      match found
      case Held(link) => reply := GotLink(link, true);
      case LookupRefusal => reply := PermanentFailure;
      case _ => reply := RetryableFailure;
    }

    /** Commits what became of the call. */
    method Conclude(a: AppliedAction, reply: Reply, now: int, jitter: real) returns (ending: Ending, ghost step: Step)
      modifies this
      ensures View() == Apply(old(ViewIn(AfterReply(a, reply))), step, maxAttempts)
      ensures cases == old(cases) && !ending.NotAuthorised? && !ending.BadToken?
      ensures reply.GotLink? <==> ending.Dispatched?
      ensures ending.Dispatched? ==> Tables() == PhaseTwo(old(Tables()), a, reply.link, now)
      ensures reply.RetryableFailure? ==>
        Tables() == ScheduleRetry(old(Tables()), a.reference, maxAttempts, now, jitter).0
        && ending == if ScheduleRetry(old(Tables()), a.reference, maxAttempts, now, jitter).1.Committed? then WillRetry else Aborted
      ensures reply.PermanentFailure? ==>
        Tables() == DeadLetter(old(Tables()), a.reference).0
        && ending == if DeadLetter(old(Tables()), a.reference).1.Committed? then DeadLettered else Aborted
      ensures OnlyTouches(old(rows), rows, a.reference)
    {
      match reply
      case GotLink(link, _) =>
        RecordDispatch(a, link, now);
        ending, step := Dispatched, Record(0, now);
      case RetryableFailure =>
        var o := BackOff(a.reference, now, jitter);
        ending, step := if o.Committed? then WillRetry else Aborted, Retry(0, now, jitter);
      case PermanentFailure =>
        var o := GiveUp(a.reference);
        ending, step := if o.Committed? then DeadLettered else Aborted, Bury(0);
    }

    /**
     One authorised action, both phases. Whatever the provider does, the tables and the ledger end
     where protocol steps of a fresh execute lead; without a fault, a committed row is dispatched.
     */
    method Execute(applied: Option<AppliedAction>, token: Option<PolicyToken>, now: int, freshId: string, jitter: real)
      returns (ending: Ending, ghost steps: seq<Step>)
      requires Valid()
      modifies this, provider
      ensures Valid() && cases == old(cases)
      ensures ending == NotAuthorised <==> applied.None? || token.None?
      ensures ending == BadToken <==> applied.Some? && token.Some? && !Verifies(signingKey, token.value)
      ensures ending.NotAuthorised? || ending.BadToken? ==> steps == []
      ensures !ending.NotAuthorised? && !ending.BadToken? ==> steps != [] && steps[0] == Begin(0, applied.value)
      ensures View() == Exec(old(View()), steps, maxAttempts)
      ensures if applied.Some? then OnlyTouches(old(rows), rows, applied.value.reference) else rows == old(rows)
      ensures applied.Some? && token.Some? && Verifies(signingKey, token.value) ==>
        EndsAs(ending, applied.value, old(Tables()), Tables(), maxAttempts, now, jitter, Met(old(provider.fault)))
        && provider.fault == if ending.Aborted? && Refusing(old(Tables()), applied.value) then old(provider.fault) else Left(old(provider.fault))
      ensures ending.NotAuthorised? || ending.BadToken? ==> Tables() == old(Tables()) && provider.fault == old(provider.fault)
    {
      if applied.None? || token.None? {
        return NotAuthorised, [];
      }
      if !Verifies(signingKey, token.value) {
        return BadToken, [];
      }
      ending, steps := Dispatch(applied.value, now, freshId, jitter);
    }

    /** An action whose token verified: intent, call, record. */
    method Dispatch(a: AppliedAction, now: int, freshId: string, jitter: real) returns (ending: Ending, ghost steps: seq<Step>)
      requires Valid()
      modifies this, provider
      ensures Valid() && cases == old(cases)
      ensures !ending.NotAuthorised? && !ending.BadToken?
      ensures steps != [] && steps[0] == Begin(0, a)
      ensures View() == Exec(old(View()), steps, maxAttempts)
      ensures OnlyTouches(old(rows), rows, a.reference)
      ensures EndsAs(ending, a, old(Tables()), Tables(), maxAttempts, now, jitter, Met(old(provider.fault)))
      ensures provider.fault == if ending.Aborted? && Refusing(old(Tables()), a) then old(provider.fault) else Left(old(provider.fault))
    {
      ghost var s0, met := View(), Met(provider.fault);
      ghost var start := Tables();
      var intent := CommitIntent(a, now);
      CommitRun(s0, a, now, maxAttempts);
      steps := [Begin(0, a), Commit(0, now)];
      if intent.Refused? {
        return Aborted, steps;
      }
      assert a.reference in rows;
      ghost var committed := Tables();
      var reply, more := CallProvider(a, freshId);
      var e, last := Conclude(a, reply, now, jitter);
      ending := e;
      OneExecute(start, committed, a, reply, met, Tables(), ending, maxAttempts, now, jitter);
      ExecConcat(s0, steps, more, maxAttempts);
      ExecStep(s0, steps + more, last, maxAttempts);
      steps := steps + more + [last];
    }

    /** Drops a selected row whose case is over. */
    method DropRow(r: string, now: int) returns (ghost steps: seq<Step>)
      requires r in rows && (Due(rows[r], now) || Stale(rows[r], now)) && !CaseLive(Tables(), rows[r].caseId)
      modifies this
      ensures Tables() == MarkDead(old(Tables()), r)
      ensures View() == Exec(old(View()), steps, maxAttempts)
    {
      DropRun(View(), r, now, maxAttempts);
      steps := [Select(0, [r], now), Take(0), Drop(0)];
      rows := rows[r := rows[r].(status := Dead)];
    }

    /** One selected row: dropped, or re-executed from its own payload. */
    method DrainRow(r: string, now: int, freshId: string, jitter: real) returns (mark: Mark, ghost steps: seq<Step>)
      requires Valid() && r in rows && (Due(rows[r], now) || Stale(rows[r], now))
      modifies this, provider
      ensures Valid() && cases == old(cases)
      ensures View() == Exec(old(View()), steps, maxAttempts)
      ensures OnlyTouches(old(rows), rows, r)
      ensures provider.fault == if CaseLive(old(Tables()), old(rows)[r].caseId) && !(mark.Raised? && steps == [])
                                then Left(old(provider.fault)) else old(provider.fault)
      ensures RowReadable(old(rows)[r], r) ==>
        (mark.Raised? ==> steps != []) &&
        RowHandled(mark, r, old(Tables()), Tables(), maxAttempts, now, jitter, Met(old(provider.fault)))
      ensures FromPayload(old(rows)[r].payload).None? && CaseLive(old(Tables()), old(rows)[r].caseId) ==>
        mark.Raised? && Tables() == old(Tables())
    {
      var row := rows[r];
      ghost var before, met := Tables(), Met(provider.fault);
      if row.caseId !in cases || Terminal(cases[row.caseId].status) {
        steps := DropRow(r, now);
        return Skipped, steps;
      }
      var again := ReissueFromCommittedIntent(signingKey, row.payload, now);
      if again.None? || again.value.0.reference != r {
        return Raised, [];
      }
      var ending, more := Execute(Some(again.value.0), Some(again.value.1), now, freshId, jitter);
      steps := more;
      mark :=
        if ending.Dispatched? then Resumed
        else if ending.DeadLettered? then Buried
        else if ending.Aborted? then Raised
        else StillOpen;
      ExecuteHandles(ending, again.value.0, before, Tables(), maxAttempts, now, jitter, met, mark);
    }

    /** The next row of a pass, and its place in the report; a row that raises aborts the pass. */
    method DrainNext(
      r: string, now: int, freshId: string, jitter: real, report: DrainReport, ghost start: Db, ghost view: Sys,
      ghost taken: seq<Step>, ghost done: set<string>, ghost picked: set<string>, ghost f: Option<Fault>, ghost plain: bool)
      returns (next: DrainReport, ghost steps: seq<Step>)
      requires Valid() && !report.aborted && cases == start.cases && View() == Exec(view, taken, maxAttempts)
      requires r in start.rows && r in rows && rows[r] == start.rows[r] && (Due(rows[r], now) || Stale(rows[r], now))
      requires plain ==>
        && RowsReadable(start) && (Met(f).None? || Lonely(start.rows, picked)) && r in picked && r !in done && done <= picked
        && GoingThrough(start, rows, done, report, provider.fault, f, maxAttempts, now, jitter)
      modifies this, provider
      ensures Valid() && cases == start.cases && OnlyTouches(old(rows), rows, r)
      ensures View() == Exec(view, steps, maxAttempts)
      ensures next.considered == report.considered + 1 && (!next.aborted && Balanced(report) ==> Balanced(next))
      ensures plain ==>
        !next.aborted && GoingThrough(start, rows, done + {r}, next, provider.fault, f, maxAttempts, now, jitter)
    {
      hide Exec, Lonely, RowHandled, CaseLive, Due, Stale, RowReadable, RowsReadable, Left, Met, FromPayload, GoingThrough;
      ghost var before, fault := Tables(), provider.fault;
      if plain {
        ReadableStays(start, rows, done, report, fault, f, maxAttempts, now, jitter, r);
      }
      var mark, more := DrainRow(r, now, freshId, jitter);
      ExecConcat(view, taken, more, maxAttempts);
      steps := taken + more;
      if plain {
        OneMoreDrained(r, start, before, Tables(), done, mark, report, maxAttempts, now, jitter, f, fault, picked);
      }
      next := Tally(report, mark);
      if mark.Raised? {
        next := next.(aborted := true);
      }
    }

    /**
     One pass over the rows that are due, and over the interrupted ones too when asked, in an open order.
     If all are readable and no two selected or sibling rows share a case, it goes through: it drops the rows
     of cases that are over, and of the others as many fail as there are faults to meet and the rest are SENT.
     The rest of the table stays as it was in any pass.
     */
    method DrainOnce(now: int, includeStale: bool, idOf: nat -> string, jitter: real)
      returns (report: DrainReport, ghost picked: set<string>, ghost steps: seq<Step>)
      requires Valid()
      modifies this, provider
      ensures Valid() && cases == old(cases)
      ensures picked == Picked(old(rows), now, includeStale)
      ensures View() == Exec(old(View()), steps, maxAttempts)
      ensures !report.aborted ==> report.considered == |picked| && Balanced(report)
      ensures forall r :: r in old(rows) && r !in picked ==> r in rows && rows[r] == old(rows)[r]
      ensures RowsReadable(old(Tables())) && (Met(old(provider.fault)).None? || Lonely(old(rows), picked)) ==>
        && !report.aborted
        && Counted(report, |picked|, |Live(old(Tables()), picked)|, old(provider.fault))
        && forall r :: r in picked ==> RowDrained(r, old(Tables()), rows, maxAttempts, now, jitter, old(provider.fault))
    {
      hide Balanced, GoingThrough, Exec, RowDrained, Counted, LeftAfter, SameOwners, Lonely, Picked, RowHandled, CaseLive, Due, Stale, RowReadable, RowsReadable,
           Left, Met, Live, FromPayload, Start;
      var todo := Picked(rows, now, includeStale);
      picked, steps := todo, [];
      report := DrainReport(0, 0, 0, 0, 0, false);
      ghost var start := Tables();
      ghost var view, faults := View(), provider.fault;
      ghost var plain := RowsReadable(start) && (Met(faults).None? || Lonely(start.rows, picked));
      ghost var done: set<string> := {};
      NothingDrained(start, faults, maxAttempts, now, jitter);
      EmptyRun(view, maxAttempts);
      while todo != {} && !report.aborted
        invariant Valid() && cases == start.cases && Halves(picked, done, todo)
        invariant !report.aborted ==> report.considered == |done| && Balanced(report)
        invariant View() == Exec(view, steps, maxAttempts)
        invariant forall r :: r in start.rows && (r !in picked || r in todo) ==> r in rows && rows[r] == start.rows[r]
        invariant plain ==>
          !report.aborted && GoingThrough(start, rows, done, report, provider.fault, faults, maxAttempts, now, jitter)
        decreases |todo|
      {
        hide View, OnlyTouches, Halves;
        var r :| r in todo;
        OneOver(picked, done, todo, r);
        PickedIsSelectable(start.rows, r, now, includeStale);
        ghost var before := rows;
        ghost var more;
        report, more := DrainNext(r, now, idOf(provider.callCount), jitter, report, start, view, steps, done, picked, faults, plain);
        steps := more;
        OthersStay(start.rows, before, rows, picked, todo, r);
        todo, done := todo - {r}, done + {r};
      }
      if report.aborted {
        return;
      }
      AllOver(picked, done, todo);
      if plain {
        WentThrough(start, rows, picked, report, provider.fault, faults, maxAttempts, now, jitter);
      }
    }

    /** Kills the held sends of cases that are over or will be by the release. */
    method KillStaleDeferrals(now: int) returns (count: nat, ghost killed: set<string>)
      modifies this
      ensures Tables() == Sweep(old(Tables()), now)
      ensures count == |killed|
      ensures killed == set r | r in old(rows) && StaleDeferral(old(Tables()), old(rows)[r], now)
    {
      ghost var start := Tables();
      var held := set r | r in rows && rows[r].status.Pending? && rows[r].nextAttemptAt > now;
      var todo := held;
      count, killed := 0, {};
      while todo != {}
        invariant todo <= held && count == |killed|
        invariant forall r :: r in killed <==> r in held && r !in todo && StaleDeferral(start, start.rows[r], now)
        invariant Tables() == start.(rows := rows)
        invariant rows.Keys == start.rows.Keys
        invariant forall r :: r in rows ==>
          rows[r] == if r in killed then start.rows[r].(status := Dead) else start.rows[r]
      {
        var r :| r in todo;
        todo := todo - {r};
        var entry := rows[r];
        if entry.caseId in cases
           && (Terminal(cases[entry.caseId].status) || entry.nextAttemptAt > cases[entry.caseId].windowExpiresAt)
        {
          rows := rows[r := entry.(status := Dead)];
          count := count + 1;
          killed := killed + {r};
        }
      }
    }

    /** Puts a dead letter back under its original reference; twice is a conflict. */
    method ReplayLetter(i: nat, now: int) returns (answer: ReplayAnswer)
      modifies this
      ensures (Tables(), answer) == Replay(old(Tables()), i, now)
    {
      if i >= |letters| {
        return NotFound;
      }
      if letters[i].replayed || letters[i].reference !in rows {
        return Conflict;
      }
      var r := letters[i].reference;
      rows := rows[r := rows[r].(status := Pending, nextAttemptAt := now)];
      letters := letters[i := letters[i].(replayed := true)];
      return Requeued;
    }
  }

  /** The call comes to a link unless it meets a fault, and a fault decides what kind of failure it is. */
  predicate Answers(reply: Reply, met: Option<FaultKind>) {
    match met
    case None => reply.GotLink?
    case Some(kind) => if kind.Rejecting? then reply.PermanentFailure? else reply.RetryableFailure?
  }

  /** The uniqueness constraint refuses the intent. */
  predicate Refusing(db: Db, a: AppliedAction) {
    a.reference !in db.rows && exists r | r in db.rows :: db.rows[r].caseId == a.caseId && db.rows[r].attempt == 0
  }

  /** Another row of the case holds the next counter. */
  predicate NextIsTaken(db: Db, r: string, caseId: string, attempt: nat) {
    exists x | x in db.rows :: x != r && db.rows[x].caseId == caseId && db.rows[x].attempt == attempt + 1
  }

  /**
   What one execute comes to, on the facts: refused with its intent; dispatched if the provider met no fault;
   else one attempt more, waiting or dead, or rolled back because of a sibling.
   */
  ghost predicate EndsAs(
    ending: Ending, a: AppliedAction, before: Db, after: Db, max: int, now: int, jitter: real, met: Option<FaultKind>)
  {
    var r := a.reference;
    var known := r in before.rows;
    var n, owner := if known then before.rows[r].attempt else 0, if known then before.rows[r].caseId else a.caseId;
    if Refusing(before, a) then ending.Aborted? && after == before
    else
      && r in after.rows && after.rows[r].caseId == owner && (known ==> after.rows[r].payload == before.rows[r].payload)
      && after.rows.Keys == before.rows.Keys + {r}
      && (met.None? ==> ending.Dispatched? && after.rows[r].status.Sent? && after.rows[r].attempt == n && after.letters == before.letters)
      && (met.Some? && NextIsTaken(before, r, owner, n) ==> ending.Aborted? && after.rows[r].attempt == n && (known ==> after == before))
      && (met.Some? && !NextIsTaken(before, r, owner, n) ==>
           && after.rows[r].attempt == n + 1 && after.actions == before.actions
           && (met == Some(Rejecting) || n + 1 >= max ==>
                after.rows[r].status.Dead? && after.letters == before.letters + [Letter(r, n + 1, false)])
           && (met == Some(Rejecting) ==> ending.DeadLettered?)
           && (met != Some(Rejecting) ==>
                && ending.WillRetry?
                && (n + 1 < max ==>
                     && after.rows[r].status.Pending? && after.letters == before.letters
                     && (-0.25 <= jitter <= 0.25 ==> WaitsOut(after.rows, r, now)))))
  }

  lemma OneExecute(
    before: Db, committed: Db, a: AppliedAction, reply: Reply, met: Option<FaultKind>, after: Db, ending: Ending,
    max: int, now: int, jitter: real)
    requires PhaseOne(before, a, now) == (committed, Committed) && Answers(reply, met)
    requires reply.GotLink? ==> after == PhaseTwo(committed, a, reply.link, now) && ending.Dispatched?
    requires reply.RetryableFailure? ==>
               var (db, o) := ScheduleRetry(committed, a.reference, max, now, jitter);
               after == db && ending == if o.Committed? then WillRetry else Aborted
    requires reply.PermanentFailure? ==>
               var (db, o) := DeadLetter(committed, a.reference);
               after == db && ending == if o.Committed? then DeadLettered else Aborted
    ensures EndsAs(ending, a, before, after, max, now, jitter, met)
  {
    hide PhaseOne, PhaseTwo, ScheduleRetry, DeadLetter, EndsAs;
    match reply
    case GotLink(link, _) => DispatchedEnds(before, committed, a, link, after, max, now, jitter);
    case RetryableFailure => RetriedEnds(before, committed, a, met, after, ending, max, now, jitter);
    case PermanentFailure => BuriedEnds(before, committed, a, after, ending, max, now, jitter);
  }

  lemma DispatchedEnds(before: Db, committed: Db, a: AppliedAction, link: Link, after: Db, max: int, now: int, jitter: real)
    requires PhaseOne(before, a, now) == (committed, Committed) && after == PhaseTwo(committed, a, link, now)
    ensures EndsAs(Dispatched, a, before, after, max, now, jitter, None)
  {
    IntentKeepsCounters(before, committed, a, now);
    hide PhaseOne, WaitsOut, Refusing, NextIsTaken;
  }

  /** The counter a failure wants is taken by just the same siblings before and after the intent. */
  lemma SiblingsStand(before: Db, committed: Db, a: AppliedAction, now: int)
    requires PhaseOne(before, a, now) == (committed, Committed)
    ensures a.reference in committed.rows
    ensures var r, row := a.reference, committed.rows[a.reference];
            AttemptTaken(committed, row.caseId, row.attempt + 1, r) <==> NextIsTaken(before, r, row.caseId, row.attempt)
  {
    IntentKeepsCounters(before, committed, a, now);
    hide PhaseOne, Refusing;
  }

  lemma RetriedEnds(
    before: Db, committed: Db, a: AppliedAction, met: Option<FaultKind>, after: Db, ending: Ending, max: int, now: int, jitter: real)
    requires PhaseOne(before, a, now) == (committed, Committed) && met.Some? && met != Some(Rejecting)
    requires var (db, o) := ScheduleRetry(committed, a.reference, max, now, jitter);
             after == db && ending == if o.Committed? then WillRetry else Aborted
    ensures EndsAs(ending, a, before, after, max, now, jitter, met)
  {
    IntentKeepsCounters(before, committed, a, now);
    SiblingsStand(before, committed, a, now);
    hide PhaseOne, WaitsOut, BackoffMicros, Refusing, AttemptTaken, NextIsTaken;
    if ending.WillRetry? && -0.25 <= jitter <= 0.25 {
      RetryWaits(committed, a.reference, max, now, jitter);
    }
  }

  lemma BuriedEnds(before: Db, committed: Db, a: AppliedAction, after: Db, ending: Ending, max: int, now: int, jitter: real)
    requires PhaseOne(before, a, now) == (committed, Committed)
    requires var (db, o) := DeadLetter(committed, a.reference);
             after == db && ending == if o.Committed? then DeadLettered else Aborted
    ensures EndsAs(ending, a, before, after, max, now, jitter, Some(Rejecting))
  {
    IntentKeepsCounters(before, committed, a, now);
    SiblingsStand(before, committed, a, now);
    hide PhaseOne, WaitsOut, Refusing, AttemptTaken, NextIsTaken;
  }

  lemma IntentKeepsCounters(before: Db, committed: Db, a: AppliedAction, now: int)
    requires PhaseOne(before, a, now) == (committed, Committed)
    ensures var r := a.reference;
            && !Refusing(before, a) && r in committed.rows && committed.rows.Keys == before.rows.Keys + {r}
            && (forall x :: x in before.rows ==> committed.rows[x] == before.rows[x])
            && (r in before.rows ==> committed == before)
            && (r !in before.rows ==> committed.rows[r].attempt == 0 && committed.rows[r].caseId == a.caseId)
            && committed.actions == before.actions && committed.letters == before.letters
  {
    hide AsPayload;
  }

  /** What becomes of one selected row, readable and under its own reference. */
  ghost predicate RowHandled(
    mark: Mark, r: string, before: Db, after: Db, max: int, now: int, jitter: real, met: Option<FaultKind>)
    requires r in before.rows
  {
    var row := before.rows[r];
    && r in after.rows && after.rows.Keys == before.rows.Keys && after.cases == before.cases
    && after.rows[r].caseId == row.caseId && after.rows[r].payload == row.payload
    && if !CaseLive(before, row.caseId) then
         mark.Skipped? && after.rows[r] == row.(status := Dead) && after.letters == before.letters
       else if met.None? then mark.Resumed? && after.rows[r].status.Sent? && after.rows[r].attempt == row.attempt
       else if NextIsTaken(before, r, row.caseId, row.attempt) then mark.Raised? && after.rows[r] == row
       else
         && (mark.Buried? <==> met == Some(Rejecting)) && (mark.StillOpen? <==> met != Some(Rejecting))
         && FailedOnce(row, after.rows, r, max, now, jitter, met.value)
  }

  /** One attempt more, and dead with the last or if the provider refused, else waiting its time. */
  ghost predicate FailedOnce(row: Row, after: map<string, Row>, r: string, max: int, now: int, jitter: real, kind: FaultKind)
    requires r in after
  {
    && after[r].attempt == row.attempt + 1
    && if kind.Rejecting? || row.attempt + 1 >= max then after[r].status.Dead?
       else after[r].status.Pending? && (-0.25 <= jitter <= 0.25 ==> WaitsOut(map[r := after[r]], r, now))
  }

  ghost predicate RowDrained(r: string, before: Db, after: map<string, Row>, max: int, now: int, jitter: real, f: Option<Fault>) {
    && r in before.rows && r in after
    && if !CaseLive(before, before.rows[r].caseId) then after[r].status.Dead?
       else (after[r].status.Sent? && after[r].attempt == before.rows[r].attempt)
            || (Met(f).Some? && FailedOnce(before.rows[r], after, r, max, now, jitter, Met(f).value))
  }

  /** No other row of the table belongs to the case of a selected row. */
  predicate Lonely(rows: map<string, Row>, picked: set<string>) {
    forall r, x :: r in picked && r in rows && x in rows && x != r ==> rows[x].caseId != rows[r].caseId
  }

  predicate SameOwners(before: map<string, Row>, after: map<string, Row>) {
    after.Keys == before.Keys
    && forall r :: r in before ==> after[r].caseId == before[r].caseId && after[r].payload == before[r].payload
  }

  /** The selected rows whose cases are live. */
  function Live(db: Db, picked: set<string>): set<string> {
    set r | r in picked && r in db.rows && CaseLive(db, db.rows[r].caseId)
  }

  function Faults(f: Option<Fault>): nat {
    if f.Some? && f.value.remaining > 0 then f.value.remaining else 0
  }

  /** The faults left when `n` calls have been made that could meet one. */
  predicate LeftAfter(now: Option<Fault>, f: Option<Fault>, n: nat) {
    && Faults(now) == (if Faults(f) > n then Faults(f) - n else 0)
    && (Met(now).Some? ==> Met(now) == Met(f))
  }

  /** Of `live` executes, as many fail as there are faults, all of one kind; the rest are resumed, and the other rows skipped. */
  predicate Counted(report: DrainReport, considered: nat, live: nat, f: Option<Fault>) {
    var failing := if live < Faults(f) then live else Faults(f);
    && report.considered == considered && live <= considered && report.skipped == considered - live
    && report.recovered == live - failing
    && report.failed == (if Met(f) == Some(Rejecting) then failing else 0)
    && report.retried == (if Met(f) == Some(Rejecting) then 0 else failing)
  }

  lemma PickedIsSelectable(rows: map<string, Row>, r: string, now: int, includeStale: bool)
    requires r in Picked(rows, now, includeStale)
    ensures r in rows && (Due(rows[r], now) || Stale(rows[r], now))
  {
  }

  /** The rows handled so far are as they must be, and the report and the faults left agree with them. */
  ghost predicate GoingThrough(
    start: Db, rows: map<string, Row>, done: set<string>, report: DrainReport, fault: Option<Fault>, f: Option<Fault>,
    max: int, now: int, jitter: real)
  {
    && SameOwners(start.rows, rows)
    && Counted(report, |done|, |Live(start, done)|, f) && LeftAfter(fault, f, |Live(start, done)|)
    && forall r :: r in done ==> RowDrained(r, start, rows, max, now, jitter, f)
  }

  /** Handling one row leaves the rows still to do, and those never selected, as they were. */
  lemma OthersStay(start: map<string, Row>, before: map<string, Row>, after: map<string, Row>, picked: set<string>, todo: set<string>, r: string)
    requires OnlyTouches(before, after, r) && r in todo && r in picked
    requires forall x :: x in start && (x !in picked || x in todo) ==> x in before && before[x] == start[x]
    ensures forall x :: x in start && (x !in picked || x in todo - {r}) ==> x in after && after[x] == start[x]
  {
  }

  lemma EmptyRun(s: Sys, max: int)
    ensures Exec(s, [], max) == s
  {
  }

  /** Each selected row is either done or still to do. */
  ghost predicate Halves(picked: set<string>, done: set<string>, todo: set<string>) {
    done !! todo && forall x :: x in picked <==> x in done || x in todo
  }

  lemma OneOver(picked: set<string>, done: set<string>, todo: set<string>, r: string)
    requires Halves(picked, done, todo) && r in todo
    ensures Halves(picked, done + {r}, todo - {r}) && |done + {r}| == |done| + 1 && |todo - {r}| < |todo|
    ensures r in picked && r !in done && done <= picked && todo <= picked
  {
  }

  lemma AllOver(picked: set<string>, done: set<string>, todo: set<string>)
    requires Halves(picked, done, todo)
    ensures todo == {} ==> done == picked
  {
  }

  lemma NothingDrained(start: Db, f: Option<Fault>, max: int, now: int, jitter: real)
    ensures Balanced(DrainReport(0, 0, 0, 0, 0, false))
    ensures GoingThrough(start, start.rows, {}, DrainReport(0, 0, 0, 0, 0, false), f, f, max, now, jitter)
  {
    assert Live(start, {}) == {};
  }

  lemma WentThrough(
    start: Db, rows: map<string, Row>, done: set<string>, report: DrainReport, fault: Option<Fault>, f: Option<Fault>,
    max: int, now: int, jitter: real)
    requires GoingThrough(start, rows, done, report, fault, f, max, now, jitter)
    ensures Counted(report, |done|, |Live(start, done)|, f)
    ensures forall r :: r in done ==> RowDrained(r, start, rows, max, now, jitter, f)
  {
  }

  lemma OneMoreLive(start: Db, done: set<string>, r: string)
    requires r !in done && r in start.rows
    ensures |Live(start, done + {r})| == |Live(start, done)| + if CaseLive(start, start.rows[r].caseId) then 1 else 0
    ensures |done + {r}| == |done| + 1
  {
    hide CaseLive;
    assert Live(start, done + {r}) == Live(start, done) + if CaseLive(start, start.rows[r].caseId) then {r} else {};
  }

  lemma ReadableStays(
    start: Db, rows: map<string, Row>, done: set<string>, report: DrainReport, fault: Option<Fault>, f: Option<Fault>,
    max: int, now: int, jitter: real, r: string)
    requires RowsReadable(start) && r in start.rows && r in rows
    requires GoingThrough(start, rows, done, report, fault, f, max, now, jitter)
    ensures RowReadable(rows[r], r)
  {
    assert RowReadable(start.rows[r], r);
    hide FromPayload;
  }

  lemma LonelyIsFree(start: Db, before: Db, picked: set<string>, r: string)
    requires Lonely(start.rows, picked) && r in picked && r in start.rows && SameOwners(start.rows, before.rows)
    ensures !NextIsTaken(before, r, before.rows[r].caseId, before.rows[r].attempt)
  {
  }

  lemma DrainedStays(x: string, start: Db, before: map<string, Row>, after: map<string, Row>, r: string, max: int, now: int, jitter: real, f: Option<Fault>)
    requires RowDrained(x, start, before, max, now, jitter, f) && x != r && OnlyTouches(before, after, r)
    ensures RowDrained(x, start, after, max, now, jitter, f)
  {
    hide CaseLive, WaitsOut;
    assert after[x] == before[x];
  }

  lemma HandledIsDrained(
    mark: Mark, r: string, start: Db, before: Db, after: Db, max: int, now: int, jitter: real, fault: Option<Fault>, f: Option<Fault>)
    requires r in start.rows && r in before.rows && before.rows[r] == start.rows[r] && before.cases == start.cases
    requires RowHandled(mark, r, before, after, max, now, jitter, Met(fault)) && !mark.Raised?
    requires Met(fault).Some? ==> Met(fault) == Met(f)
    ensures RowDrained(r, start, after.rows, max, now, jitter, f)
  {
    hide WaitsOut, NextIsTaken, FailedOnce;
    assert CaseLive(before, before.rows[r].caseId) <==> CaseLive(start, start.rows[r].caseId);
  }

  lemma OneMoreDrained(
    r: string, start: Db, before: Db, after: Db, done: set<string>, mark: Mark, report: DrainReport,
    max: int, now: int, jitter: real, f: Option<Fault>, fault: Option<Fault>, picked: set<string>)
    requires r in picked && r !in done && done <= picked && r in start.rows
    requires r in before.rows && before.rows[r] == start.rows[r] && before.cases == start.cases
    requires Met(f).None? || Lonely(start.rows, picked)
    requires GoingThrough(start, before.rows, done, report, fault, f, max, now, jitter)
    requires RowHandled(mark, r, before, after, max, now, jitter, Met(fault)) && OnlyTouches(before.rows, after.rows, r)
    ensures !mark.Raised?
    ensures GoingThrough(start, after.rows, done + {r}, Tally(report, mark),
                         if CaseLive(before, before.rows[r].caseId) then Left(fault) else fault, f, max, now, jitter)
  {
    var isLive := CaseLive(start, start.rows[r].caseId);
    assert isLive <==> CaseLive(before, before.rows[r].caseId);
    if Met(f).Some? {
      LonelyIsFree(start, before, picked, r);
    }
    OneMoreLive(start, done, r);
    hide CaseLive, NextIsTaken, FailedOnce, RowDrained, Counted, Live, Lonely;
    assert !mark.Raised?;
    OneMoreCounted(report, mark, |done|, |Live(start, done)|, f, fault, isLive);
    HandledIsDrained(mark, r, start, before, after, max, now, jitter, fault, f);
    hide RowHandled, LeftAfter;
    forall x | x in done + {r} ensures RowDrained(x, start, after.rows, max, now, jitter, f) {
      if x != r {
        DrainedStays(x, start, before.rows, after.rows, r, max, now, jitter, f);
      }
    }
    assert SameOwners(start.rows, after.rows);
  }

  /** The row's wait is its own, whatever else is in the table. */
  lemma WaitsAlone(rows: map<string, Row>, r: string, failedAt: int)
    requires WaitsOut(rows, r, failedAt)
    ensures WaitsOut(map[r := rows[r]], r, failedAt)
  {
    var alone := map[r := rows[r]];
    forall t, includeStale ensures r in Picked(alone, t, includeStale) <==> r in Picked(rows, t, includeStale) {
    }
  }

  /** One execute of a readable row's own action handles the row. */
  lemma ExecuteHandles(
    ending: Ending, a: AppliedAction, before: Db, after: Db, max: int, now: int, jitter: real, met: Option<FaultKind>, mark: Mark)
    requires a.reference in before.rows && CaseLive(before, before.rows[a.reference].caseId) && after.cases == before.cases
    requires EndsAs(ending, a, before, after, max, now, jitter, met)
    requires mark == if ending.Dispatched? then Resumed else if ending.DeadLettered? then Buried else if ending.Aborted? then Raised else StillOpen
    ensures RowHandled(mark, a.reference, before, after, max, now, jitter, met)
  {
    hide WaitsOut, CaseLive, NextIsTaken;
    var r := a.reference;
    assert !Refusing(before, a);
    hide Refusing;
    if ending.WillRetry? && after.rows[r].attempt < max && -0.25 <= jitter <= 0.25 {
      WaitsAlone(after.rows, r, now);
    }
  }

  lemma OneMoreCounted(report: DrainReport, mark: Mark, considered: nat, live: nat, f: Option<Fault>, fault: Option<Fault>, isLive: bool)
    requires Counted(report, considered, live, f) && LeftAfter(fault, f, live) && !mark.Raised?
    requires mark.Skipped? <==> !isLive
    requires isLive ==> (mark.Resumed? <==> Met(fault).None?) && (mark.Buried? <==> Met(fault) == Some(Rejecting))
    ensures Counted(Tally(report, mark), considered + 1, if isLive then live + 1 else live, f)
    ensures LeftAfter(if isLive then Left(fault) else fault, f, if isLive then live + 1 else live)
  {
  }

  function Tally(report: DrainReport, mark: Mark): (r: DrainReport)
    ensures !mark.Raised? && Balanced(report) ==> Balanced(r)
    ensures r.considered == report.considered + 1 && r.aborted == report.aborted
  {
    var next := report.(considered := report.considered + 1);
    match mark
    case Skipped => next.(skipped := next.skipped + 1)
    case Resumed => next.(recovered := next.recovered + 1)
    case Buried => next.(failed := next.failed + 1)
    case StillOpen => next.(retried := next.retried + 1)
    case Raised => next
  }

  /** Every considered row is counted under exactly one outcome. */
  predicate Balanced(r: DrainReport) {
    r.considered == r.retried + r.recovered + r.failed + r.skipped
  }

  /** Every other row is as it was. */
  predicate OnlyTouches(before: map<string, Row>, after: map<string, Row>, r: string) {
    forall x | x in before :: x != r ==> x in after && after[x] == before[x]
  }

  lemma TakeToDrop(s: Sys, r: string)
    requires s.workers == map[0 := Worker(Idle, [r])] && r in s.db.rows && !CaseLive(s.db, s.db.rows[r].caseId)
    ensures TakeStep(s, 0) == s.(workers := map[0 := Worker(Dropping(r), [])])
  {
    assert [r][1..] == [];
  }

  lemma DropRun(s: Sys, r: string, now: int, max: int)
    requires s.workers == map[0 := Worker(Idle, [])]
    requires r in s.db.rows && (Due(s.db.rows[r], now) || Stale(s.db.rows[r], now)) && !CaseLive(s.db, s.db.rows[r].caseId)
    ensures Exec(s, [Select(0, [r], now), Take(0), Drop(0)], max) == s.(db := MarkDead(s.db, r))
  {
    var s1 := s.(workers := map[0 := Worker(Idle, [r])]);
    var s2 := s.(workers := map[0 := Worker(Dropping(r), [])]);
    SelectOne(s, r, now, max);
    TakeToDrop(s1, r);
    TakenIsDropped(s2, r, max);
    hide Exec, MarkDead;
    TwoSteps(s, Select(0, [r], now), Take(0), max);
    assert Apply(s1, Take(0), max) == s2;
    hide Apply;
    assert [Select(0, [r], now), Take(0), Drop(0)] == [Select(0, [r], now), Take(0)] + [Drop(0)];
    ExecStep(s, [Select(0, [r], now), Take(0)], Drop(0), max);
    assert s.workers == map[0 := Worker(Idle, [])];
  }

  lemma SelectOne(s: Sys, r: string, now: int, max: int)
    requires s.workers == map[0 := Worker(Idle, [])]
    requires r in s.db.rows && (Due(s.db.rows[r], now) || Stale(s.db.rows[r], now))
    ensures Apply(s, Select(0, [r], now), max) == s.(workers := map[0 := Worker(Idle, [r])])
  {
  }

  lemma TakenIsDropped(s: Sys, r: string, max: int)
    requires s.workers == map[0 := Worker(Dropping(r), [])]
    ensures Apply(s, Drop(0), max) == Sys(MarkDead(s.db, r), s.links, map[0 := Worker(Idle, [])])
  {
  }

  /** What the provider call came to. */
  datatype Reply = GotLink(link: Link, wasExisting: bool) | RetryableFailure | PermanentFailure

  function AfterReply(a: AppliedAction, reply: Reply): Phase {
    match reply
    case GotLink(link, _) => Linked(a, link)
    case RetryableFailure => Retryable(a)
    case PermanentFailure => Permanent(a)
  }

  lemma CommitRun(s: Sys, a: AppliedAction, now: int, max: int)
    requires s.workers == map[0 := Worker(Idle, [])]
    ensures var (db, o) := PhaseOne(s.db, a, now);
            Exec(s, [Begin(0, a), Commit(0, now)], max)
            == Sys(db, s.links, map[0 := Worker(if o.Committed? then Intended(a) else Idle, [])])
  {
    TwoSteps(s, Begin(0, a), Commit(0, now), max);
  }

  /** The state a single call leads to, read off its fate. */
  function Called(s: Sys, a: AppliedAction, freshId: string, fate: Fate): Sys {
    var link := Link(a.reference, freshId, a.chargeAmountPaise);
    match fate
    case TimedOut => Sys(s.db, s.links, map[0 := Worker(Retryable(a), [])])
    case BadRequest => Sys(s.db, s.links, map[0 := Worker(Permanent(a), [])])
    case _ => Sys(s.db, s.links + [link], map[0 := Worker(Linked(a, link), [])])
  }

  lemma CreateRun(s: Sys, a: AppliedAction, freshId: string, fate: Fate, max: int)
    requires s.workers == map[0 := Worker(Intended(a), [])]
    requires !fate.AnswerLost? && (fate.Answered? ==> FindLink(s.links, a.reference).None?)
    ensures Exec(s, [Create(0, fate, freshId)], max) == Called(s, a, freshId, fate)
  {
  }

  lemma DuplicateRun(s: Sys, a: AppliedAction, freshId: string, fate: Fate, max: int)
    requires s.workers == map[0 := Worker(Intended(a), [])] && FindLink(s.links, a.reference).Some?
    ensures Exec(s, [Create(0, Answered, freshId), Fetch(0, fate)], max)
            == Sys(s.db, s.links, map[0 := Worker(
                 if fate.BadRequest? then Permanent(a)
                 else if fate.Answered? then Linked(a, FindLink(s.links, a.reference).value)
                 else Retryable(a), [])])
  {
    hide Exec;
    TwoSteps(s, Create(0, Answered, freshId), Fetch(0, fate), max);
    var s1 := Sys(s.db, s.links, map[0 := Worker(Duplicate(a), [])]);
    CreateMeetsDuplicate(s, a, freshId, max);
    FetchAnswers(s1, a, fate, max);
    hide Apply, FindLink;
  }

  lemma CreateMeetsDuplicate(s: Sys, a: AppliedAction, freshId: string, max: int)
    requires s.workers == map[0 := Worker(Intended(a), [])] && FindLink(s.links, a.reference).Some?
    ensures Apply(s, Create(0, Answered, freshId), max) == Sys(s.db, s.links, map[0 := Worker(Duplicate(a), [])])
  {
    hide FindLink;
  }

  lemma FetchAnswers(s: Sys, a: AppliedAction, fate: Fate, max: int)
    requires s.workers == map[0 := Worker(Duplicate(a), [])] && FindLink(s.links, a.reference).Some?
    ensures Apply(s, Fetch(0, fate), max)
            == Sys(s.db, s.links, map[0 := Worker(
                 if fate.BadRequest? then Permanent(a)
                 else if fate.Answered? then Linked(a, FindLink(s.links, a.reference).value)
                 else Retryable(a), [])])
  {
    hide FindLink;
  }

  lemma TwoSteps(s: Sys, first: Step, second: Step, max: int)
    ensures Exec(s, [first, second], max) == Apply(Apply(s, first, max), second, max)
  {
    assert [first, second] == [first] + [second] && [first] == [] + [first];
    ExecStep(s, [first], second, max);
    ExecStep(s, [], first, max);
  }
}
