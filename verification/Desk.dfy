/** The settlement handlers over mutable tables: webhook, poll, reviewer's decision and expiry sweep. */
module Desk {
  import opened Text
  import opened Enums
  import opened Attribution
  import opened Settlement
  import opened Recoveries
  import opened Approvals

  /** What the provider says of a reference. A paid link names its payment or itself as proof. */
  datatype LinkReply = LookupFailed | NotKnown | Unpaid | Paid(proof: string)

  datatype PollResult = PollResult(checked: nat, settled: nat, stillOpen: nat, errors: nat, recoveredPaise: int)

  class SettlementDesk {
    var cases: map<string, CaseRow>
    var intents: map<string, Intent>
    var actions: seq<ActionRef>
    var observed: map<string, string>
    var approvals: map<string, Approval>
    var ingested: set<string>
    var inbox: seq<Event>
    var handled: seq<string>
    var polled: set<string>
    var audit: seq<Block>

    constructor ()
      ensures View() == EMPTY_LEDGER
    {
      cases, intents, actions, observed, approvals := map[], map[], [], map[], map[];
      ingested, inbox, handled, polled, audit := {}, [], [], {}, [];
    }

    function View(): Ledger
      reads this
    {
      Ledger(cases, intents, actions, observed, approvals, ingested, inbox, handled, polled, audit)
    }

    /** Stores a verified event once and queues its background task. */
    method ReceiveWebhook(e: Event) returns (accepted: bool)
      modifies this`ingested, this`inbox
      ensures View() == Apply(old(View()), Deliver(e))
      ensures accepted <==> e.id !in old(ingested)
    {
      if e.id in ingested {
        return false;
      }
      ingested := ingested + {e.id};
      inbox := inbox + [e];
      return true;
    }

    /** Attributes one verified event, or says why it does not count. */
    method ProcessSettlement(e: Event, now: int) returns (outcome: SettleOutcome)
      modifies this`cases, this`audit
      ensures (View(), outcome) == Settle(old(View()), e, now)
    {
      if e.eventType !in SETTLING_EVENTS || e.reference.None? || e.reference.value == "" {
        return NotSettling;
      }
      var found := FindCase(View(), e.reference.value);
      if found.Nobody? || found.caseId !in cases {
        return NotOurs;
      }
      var row := cases[found.caseId];
      var verdict := Attribute(true, e.eventType, e.reference, e.amountPaise, IssuedOf(found), row.status,
                               row.amountPaise, row.verifiedBy.Some?, now, Some(row.windowExpiresAt), GRACE);
      match verdict
      case NotCounted(organic) =>
        if organic && row.status != Recovered && row.status != ResolvedOrganic {
          cases := cases[found.caseId := row.(status := ResolvedOrganic)];
        }
        return Uncounted;
      case Counted(amount) =>
        if amount < 0 {
          return RolledBack;
        }
        cases := cases[found.caseId :=
          row.(status := Recovered, recoveredPaise := amount, verifiedBy := Some(e.id), via := Some(Webhook))];
        audit := audit + [RecoveryVerified(found.caseId, amount)];
        return Credited(found.caseId, amount);
    }

    /** Writes one paid link, unless something else settled the case first. */
    method WritePaid(c: string, proof: string) returns (settled: bool)
      modifies this`cases, this`audit
      ensures (View(), settled) == SettleByPoll(old(View()), c, proof)
    {
      if c !in cases || cases[c].verifiedBy.Some? {
        return false;
      }
      var row := cases[c];
      cases := cases[c := row.(status := Recovered, recoveredPaise := row.amountPaise,
                               verifiedBy := Some(proof), via := Some(ApiReconciliation))];
      audit := audit + [RecoveryVerified(c, row.amountPaise)];
      return true;
    }

    /** One outstanding reference: looked up, and written if its link is paid. */
    method PollOne(c: string, reply: LinkReply) returns (mark: PollMark)
      modifies this`cases, this`audit
      ensures (View(), mark) == Polled(old(View()), c, reply)
    {
      match reply
      case LookupFailed => return PollError;
      case NotKnown => return PollError;
      case Unpaid => return PollOpen;
      case Paid(proof) =>
        var settled := WritePaid(c, proof);
        return if settled then PollSettled(cases[c].amountPaise) else PollOpen;
    }

    /** What other writers commit meanwhile. */
    method OthersCommit(steps: seq<Step>)
      modifies this
      ensures View() == Exec(old(View()), steps)
    {
      var l := Exec(View(), steps);
      cases, intents, actions, observed, approvals := l.cases, l.intents, l.actions, l.observed, l.approvals;
      ingested, inbox, handled, polled, audit := l.ingested, l.inbox, l.handled, l.polled, l.audit;
    }

    /**
     Reads the outstanding references once and asks the provider about each, up to the limit, in an order
     left open. Others commit `between(k)` before the k-th write.
     */
    method ReconcileOutstanding(linkOf: string -> LinkReply, between: nat -> seq<Step>, limit: nat)
      returns (result: PollResult, ghost order: seq<string>)
      modifies this
      ensures (View(), result) == Pass(old(View()), order, linkOf, between)
      ensures Distinct(order) && |order| <= limit
      ensures forall r :: r in order ==> r in OutstandingReferences(old(View()))
      ensures |order| < limit ==> forall r :: r in OutstandingReferences(old(View())) ==> r in order
    {
      hide OutstandingReferences, Polled, InProgress, Distinct, Exec;
      ghost var start := View();
      ghost var all := OutstandingReferences(start);
      var read := intents;
      var todo := OutstandingReferences(View());
      result, order := NOTHING_POLLED, [];
      NothingDone(all);
      while todo != {} && result.checked < limit
        invariant InProgress(all, todo, order)
        invariant result.checked == |order| <= limit
        invariant (View(), result) == Pass(start, order, linkOf, between)
      {
        hide Pass, View;
        var r :| r in todo;
        OneFewer(all, todo, order, r);
        todo := todo - {r};
        OthersCommit(between(result.checked));
        var mark := PollOne(CaseOf(read, r), linkOf(r));
        OneMorePolled(start, order, r, linkOf, between);
        order := order + [r];
        result := Marked(result, mark);
      }
      DoneOrLeft(all, todo, order);
    }

    /** Records a human decision. */
    method ActionApproval(id: string, approve: bool, presented: string, now: int) returns (answer: DecideAnswer)
      modifies this`cases, this`approvals, this`audit
      ensures (View(), answer) == Decide(old(View()), id, approve, presented, now)
    {
      if id !in approvals {
        return NoSuchApproval;
      }
      var a := approvals[id];
      if a.status != Waiting {
        return AlreadyDecided;
      }
      if a.expiresAt <= now {
        approvals := approvals[id := a.(status := Lapsed)];
        return TooLate;
      }
      if presented != a.hash {
        return HashMismatch;
      }
      approvals := approvals[id := a.(status := if approve then Approved else Declined)];
      if a.caseId in cases && cases[a.caseId].status == AwaitingApproval {
        cases := cases[a.caseId := cases[a.caseId].(status := if approve then StrategyFormed else Rejected)];
      }
      audit := audit + [Noted(DecisionName(approve), a.caseId)];
      return Done;
    }

    method ExpireOne(id: string, now: int)
      requires id in approvals && approvals[id].status.Waiting? && approvals[id].expiresAt <= now
      modifies this`cases, this`approvals, this`audit
      ensures View() == Lapse(old(View()), id, now)
      ensures approvals == old(approvals)[id := old(approvals)[id].(status := Lapsed)]
    {
      var a := approvals[id];
      approvals := approvals[id := a.(status := Lapsed)];
      if a.caseId in cases && cases[a.caseId].status == AwaitingApproval {
        cases := cases[a.caseId := cases[a.caseId].(status := Expired)];
      }
      audit := audit + [Noted("approval.expired", a.caseId)];
    }

    /** Expires every approval past its TTL; a decided one is never touched. */
    method ExpireApprovals(now: int) returns (count: nat, ghost order: seq<string>)
      modifies this`cases, this`approvals, this`audit
      ensures View() == LapseAll(old(View()), order, now)
      ensures count == |order|
      ensures approvals.Keys == old(approvals).Keys
      ensures forall id :: id in approvals ==> approvals[id] == Swept(old(approvals)[id], now)
      ensures forall id :: id in order <==> Overdue(old(View()), id, now)
      ensures forall c :: c in old(cases) ==> c in cases && cases[c] == AfterSweep(old(View()), order, now, c)
    {
      ghost var start := View();
      var todo := set id | id in approvals && approvals[id].status.Waiting? && approvals[id].expiresAt <= now;
      count, order := 0, [];
      while todo != {}
        invariant forall id :: id in todo ==> id in approvals && approvals[id] == start.approvals[id]
        invariant forall id :: id in todo ==> approvals[id].status.Waiting? && approvals[id].expiresAt <= now
        invariant count == |order|
        invariant View() == LapseAll(start, order, now)
        invariant forall id :: id in order <==> Overdue(start, id, now) && id !in todo
        invariant approvals.Keys == start.approvals.Keys
        invariant forall id :: id in approvals && id !in todo ==> approvals[id] == Swept(start.approvals[id], now)
      {
        hide Lapse;
        var id :| id in todo;
        todo := todo - {id};
        ExpireOne(id, now);
        assert (order + [id])[..|order|] == order;
        order := order + [id];
        count := count + 1;
      }
      forall c | c in start.cases ensures c in cases && cases[c] == AfterSweep(start, order, now, c) {
        SweepExpiresExactly(start, order, now, c);
      }
    }
  }

  /** What the sweep makes of one approval. */
  function Swept(a: Approval, now: int): Approval {
    if a.status.Waiting? && a.expiresAt <= now then a.(status := Lapsed) else a
  }

  datatype PollMark = PollError | PollOpen | PollSettled(amountPaise: int) {
    function Amount(): int {
      if PollSettled? then amountPaise else 0
    }
  }

  const NOTHING_POLLED := PollResult(0, 0, 0, 0, 0)

  function Marked(r: PollResult, mark: PollMark): PollResult {
    var next := r.(checked := r.checked + 1, recoveredPaise := r.recoveredPaise + mark.Amount());
    match mark
    case PollError => next.(errors := next.errors + 1)
    case PollOpen => next.(stillOpen := next.stillOpen + 1)
    case PollSettled(_) => next.(settled := next.settled + 1)
  }

  function OutstandingReferences(l: Ledger): set<string> {
    set r | r in l.intents && Pollable(l, r)
  }

  function CaseOf(intents: map<string, Intent>, r: string): string {
    if r in intents then intents[r].caseId else ""
  }

  /** Each of `all` is either still to do or done, once. */
  predicate InProgress(all: set<string>, todo: set<string>, order: seq<string>) {
    && todo <= all && Distinct(order)
    && (forall r :: r in all ==> (r in order <==> r !in todo))
    && (forall r :: r in order ==> r in all)
  }

  lemma NothingDone(all: set<string>)
    ensures InProgress(all, all, [])
  {
  }

  lemma DoneOrLeft(all: set<string>, todo: set<string>, order: seq<string>)
    requires InProgress(all, todo, order)
    ensures Distinct(order) && (forall r :: r in order ==> r in all) && (todo == {} ==> forall r :: r in all ==> r in order)
  {
  }

  lemma OneFewer(all: set<string>, todo: set<string>, order: seq<string>, r: string)
    requires InProgress(all, todo, order) && r in todo
    ensures InProgress(all, todo - {r}, order + [r])
  {
  }

  predicate Distinct(order: seq<string>) {
    forall i, j :: 0 <= i < j < |order| ==> order[i] != order[j]
  }

  function Polled(l: Ledger, c: string, reply: LinkReply): (Ledger, PollMark) {
    match reply
    case LookupFailed => (l, PollError)
    case NotKnown => (l, PollError)
    case Unpaid => (l, PollOpen)
    case Paid(proof) =>
      var (m, settled) := SettleByPoll(l, c, proof);
      (m, if settled then PollSettled(l.cases[c].amountPaise) else PollOpen)
  }

  /**
   The pass over the references read at its start, in the given order. What other writers commit between
   the lookup before and the k-th write is `between(k)`.
   */
  function Pass(l: Ledger, order: seq<string>, linkOf: string -> LinkReply, between: nat -> seq<Step>): (Ledger, PollResult) {
    if order == [] then (l, NOTHING_POLLED)
    else
      var k := |order| - 1;
      var (before, result) := Pass(l, order[..k], linkOf, between);
      var (after, mark) := Polled(Exec(before, between(k)), CaseOf(l.intents, order[k]), linkOf(order[k]));
      (after, Marked(result, mark))
  }

  /** The tables the k-th write of the pass finds. */
  function Reached(l: Ledger, order: seq<string>, linkOf: string -> LinkReply, between: nat -> seq<Step>, k: nat): Ledger
    requires k < |order|
  {
    Exec(Pass(l, order[..k], linkOf, between).0, between(k))
  }

  lemma OneMorePolled(l: Ledger, order: seq<string>, r: string, linkOf: string -> LinkReply, between: nat -> seq<Step>)
    ensures var (before, result) := Pass(l, order, linkOf, between);
            var (m, mark) := Polled(Exec(before, between(|order|)), CaseOf(l.intents, r), linkOf(r));
            Pass(l, order + [r], linkOf, between) == (m, Marked(result, mark))
  {
    assert (order + [r])[..|order|] == order;
    hide Polled, Marked, Exec;
  }

  /** The last write of a pass, by the tables it finds. */
  lemma LastWrite(l: Ledger, order: seq<string>, linkOf: string -> LinkReply, between: nat -> seq<Step>)
    requires order != []
    ensures var k := |order| - 1;
            var (m, mark) := Polled(Reached(l, order, linkOf, between, k), CaseOf(l.intents, order[k]), linkOf(order[k]));
            Pass(l, order, linkOf, between) == (m, Marked(Pass(l, order[..k], linkOf, between).1, mark))
  {
    hide Polled, Exec, Marked;
  }

  function Undisturbed(): nat -> seq<Step> { (k: nat) => [] }

  /** The intents read at the start are those of treatment cases, and stay so whatever others write. */
  ghost predicate StillOurs(l: Ledger, m: Ledger) {
    Honest(m) && Frozen(l, m)
  }

  lemma PolledHonest(l: Ledger, c: string, reply: LinkReply)
    requires Honest(l) && InTreatment(l, c)
    ensures var (m, mark) := Polled(l, c, reply);
            && Honest(m) && Frozen(l, m)
            && CreditTotal(m.audit) == CreditTotal(l.audit) + mark.Amount()
            && (reply.Paid? ==> m.cases[c].status.Recovered?)
            && m.cases == l.cases[c := m.cases[c]]
            && (!reply.Paid? ==> m == l)
  {
    hide Honest, CreditTotal;
    if reply.Paid? {
      SettleOwn(l, c, reply.proof);
      CreditedOnce(l.audit, RecoveryVerified(c, l.cases[c].amountPaise));
    }
    assert l.cases[c := l.cases[c]] == l.cases;
  }

  lemma FrozenTwice(a: Ledger, b: Ledger, c: Ledger)
    requires Frozen(a, b) && Frozen(b, c)
    ensures Frozen(a, c)
  {
  }

  /** The owner of a reference read at the start is a treatment case, then and whenever its row is written. */
  lemma OwnerStays(l: Ledger, m: Ledger, r: string)
    requires Honest(l) && r in l.intents && Frozen(l, m)
    ensures InTreatment(m, CaseOf(l.intents, r))
  {
    assert OwnReference(l, r, CaseOf(l.intents, r));
  }

  /** Whatever others write in between, every write of a pass finds and leaves honest tables. */
  lemma {:induction false} PassHonest(l: Ledger, order: seq<string>, linkOf: string -> LinkReply, between: nat -> seq<Step>)
    requires Honest(l) && forall r :: r in order ==> r in l.intents
    ensures StillOurs(l, Pass(l, order, linkOf, between).0)
    ensures order != [] ==> StillOurs(l, Reached(l, order, linkOf, between, |order| - 1))
    decreases |order|
  {
    hide Honest, Frozen, Polled, Exec;
    if order != [] {
      var k := |order| - 1;
      LastWrite(l, order, linkOf, between);
      PassHonest(l, order[..k], linkOf, between);
      var before := Pass(l, order[..k], linkOf, between).0;
      HonestRun(before, between(k));
      var mid := Reached(l, order, linkOf, between, k);
      FrozenTwice(l, before, mid);
      OwnerStays(l, mid, order[k]);
      PolledHonest(mid, CaseOf(l.intents, order[k]), linkOf(order[k]));
      FrozenTwice(l, mid, Pass(l, order, linkOf, between).0);
    } else {
      Unmoved(l);
    }
  }

  /** What the k-th write of a pass does, in the tables it finds. */
  lemma WriteOfAPass(l: Ledger, order: seq<string>, linkOf: string -> LinkReply, between: nat -> seq<Step>)
    requires Honest(l) && order != [] && forall r :: r in order ==> r in l.intents
    ensures var k := |order| - 1;
            var c, mid := CaseOf(l.intents, order[k]), Reached(l, order, linkOf, between, k);
            var (m, mark) := Polled(mid, c, linkOf(order[k]));
            && m == Pass(l, order, linkOf, between).0
            && CreditTotal(m.audit) == CreditTotal(mid.audit) + mark.Amount()
            && c in m.cases && (linkOf(order[k]).Paid? ==> m.cases[c].status.Recovered?)
            && (!linkOf(order[k]).Paid? ==> m == mid)
            && m.cases == mid.cases[c := m.cases[c]]
            && Frozen(mid, m)
  {
    hide Honest, Frozen, Polled, Exec, CreditTotal, Pass;
    var k := |order| - 1;
    LastWrite(l, order, linkOf, between);
    PassHonest(l, order, linkOf, between);
    var mid := Reached(l, order, linkOf, between, k);
    OwnerStays(l, mid, order[k]);
    PolledHonest(mid, CaseOf(l.intents, order[k]), linkOf(order[k]));
  }

  /** What the pass's own writes credit in the audit log, leaving out what others credit in between. */
  function OwnCredits(l: Ledger, order: seq<string>, linkOf: string -> LinkReply, between: nat -> seq<Step>): int {
    if order == [] then 0
    else
      var k := |order| - 1;
      OwnCredits(l, order[..k], linkOf, between)
      + CreditTotal(Pass(l, order, linkOf, between).0.audit) - CreditTotal(Reached(l, order, linkOf, between, k).audit)
  }

  lemma OwnCreditsLast(l: Ledger, order: seq<string>, linkOf: string -> LinkReply, between: nat -> seq<Step>)
    ensures order == [] ==> Pass(l, order, linkOf, between) == (l, NOTHING_POLLED) && OwnCredits(l, order, linkOf, between) == 0
    ensures order != [] ==>
      var k := |order| - 1;
      OwnCredits(l, order, linkOf, between)
      == OwnCredits(l, order[..k], linkOf, between)
         + CreditTotal(Pass(l, order, linkOf, between).0.audit) - CreditTotal(Reached(l, order, linkOf, between, k).audit)
  {
    hide CreditTotal, Polled, Exec;
  }

  /** Every reference is counted under one outcome, and the sum reported is the sum its own writes credited. */
  lemma {:induction false} PollReportsWhatItCredits(
    l: Ledger, order: seq<string>, linkOf: string -> LinkReply, between: nat -> seq<Step>)
    requires Honest(l) && forall r :: r in order ==> r in l.intents
    ensures var result := Pass(l, order, linkOf, between).1;
            && result.checked == result.settled + result.stillOpen + result.errors == |order|
            && result.recoveredPaise == OwnCredits(l, order, linkOf, between)
    decreases |order|
  {
    hide Honest, Polled, CreditTotal, Frozen, Reached, Pass, OwnCredits;
    OwnCreditsLast(l, order, linkOf, between);
    if order != [] {
      LastWrite(l, order, linkOf, between);
      WriteOfAPass(l, order, linkOf, between);
      PollReportsWhatItCredits(l, order[..|order| - 1], linkOf, between);
    }
  }

  predicate PaidIn(l: Ledger, order: seq<string>, linkOf: string -> LinkReply, c: string) {
    exists r | r in order :: linkOf(r).Paid? && CaseOf(l.intents, r) == c
  }

  lemma OneMorePaid(l: Ledger, rest: seq<string>, r: string, linkOf: string -> LinkReply, c: string)
    ensures PaidIn(l, rest + [r], linkOf, c) <==> PaidIn(l, rest, linkOf, c) || (linkOf(r).Paid? && CaseOf(l.intents, r) == c)
  {
  }

  lemma NonePaid(l: Ledger, linkOf: string -> LinkReply, c: string)
    ensures !PaidIn(l, [], linkOf, c)
  {
  }

  /** A RECOVERED row outlasts anything. */
  lemma RecoveredOutlasts(l: Ledger, m: Ledger, c: string)
    requires Honest(l) && Frozen(l, m) && c in l.cases && l.cases[c].status.Recovered?
    ensures c in m.cases && m.cases[c].status.Recovered?
  {
    assert RowOk(l.cases[c]);
  }

  /** Amid any other writers the cases of paid links end RECOVERED. */
  lemma {:induction false} PollSettlesThePaid(
    l: Ledger, order: seq<string>, linkOf: string -> LinkReply, between: nat -> seq<Step>, c: string)
    requires Honest(l) && c in l.cases && (forall r :: r in order ==> r in l.intents) && PaidIn(l, order, linkOf, c)
    ensures var m := Pass(l, order, linkOf, between).0; c in m.cases && m.cases[c].status.Recovered?
    decreases |order|
  {
    hide Honest, Polled, CreditTotal, PaidIn, Frozen, Exec;
    if order == [] {
      NonePaid(l, linkOf, c);
    } else {
      var k := |order| - 1;
      assert order == order[..k] + [order[k]];
      OneMorePaid(l, order[..k], order[k], linkOf, c);
      WriteOfAPass(l, order, linkOf, between);
      if PaidIn(l, order[..k], linkOf, c) {
        PollSettlesThePaid(l, order[..k], linkOf, between, c);
        PassHonest(l, order[..k], linkOf, between);
        PassHonest(l, order, linkOf, between);
        var before, mid := Pass(l, order[..k], linkOf, between).0, Reached(l, order, linkOf, between, k);
        HonestRun(before, between(k));
        RecoveredOutlasts(before, mid, c);
        RecoveredOutlasts(mid, Pass(l, order, linkOf, between).0, c);
      }
    }
  }

  /**
   Amid any other writers: the cases of paid links end RECOVERED, and every write of the pass leaves each
   other case's row just as it finds it.
   */
  lemma PollSettlesExactlyThePaid(
    l: Ledger, order: seq<string>, linkOf: string -> LinkReply, between: nat -> seq<Step>, c: string, k: nat)
    requires Honest(l) && c in l.cases && (forall r :: r in order ==> r in l.intents) && k < |order|
    ensures PaidIn(l, order, linkOf, c) ==>
      var m := Pass(l, order, linkOf, between).0; c in m.cases && m.cases[c].status.Recovered?
    ensures !PaidIn(l, order, linkOf, c) ==>
      var before, after := Reached(l, order, linkOf, between, k), Pass(l, order[..k + 1], linkOf, between).0;
      c in before.cases && c in after.cases && after.cases[c] == before.cases[c]
  {
    hide Honest, Polled, CreditTotal, Pass, Exec;
    if PaidIn(l, order, linkOf, c) {
      PollSettlesThePaid(l, order, linkOf, between, c);
    } else {
      var upTo := order[..k + 1];
      assert upTo[..k] == order[..k] && upTo[k] == order[k] && order[k] in order;
      assert Reached(l, upTo, linkOf, between, k) == Reached(l, order, linkOf, between, k);
      hide Reached;
      PassHonest(l, upTo, linkOf, between);
      WriteOfAPass(l, upTo, linkOf, between);
      NotItsLink(l, order, linkOf, c, k);
      hide PaidIn;
    }
  }

  lemma NotItsLink(l: Ledger, order: seq<string>, linkOf: string -> LinkReply, c: string, k: nat)
    requires k < |order| && !PaidIn(l, order, linkOf, c)
    ensures !linkOf(order[k]).Paid? || CaseOf(l.intents, order[k]) != c
  {
  }

  /** Undisturbed, a pass leaves every case without a paid link just as it was. */
  lemma {:induction false} UndisturbedPassKeepsOthers(l: Ledger, order: seq<string>, linkOf: string -> LinkReply, c: string)
    requires Honest(l) && c in l.cases && (forall r :: r in order ==> r in l.intents) && !PaidIn(l, order, linkOf, c)
    ensures var m := Pass(l, order, linkOf, Undisturbed()).0; c in m.cases && m.cases[c] == l.cases[c]
    decreases |order|
  {
    hide Honest, Polled, PaidIn;
    if order != [] {
      var k := |order| - 1;
      assert order == order[..k] + [order[k]] && order[..k + 1] == order;
      OneMorePaid(l, order[..k], order[k], linkOf, c);
      UndisturbedPassKeepsOthers(l, order[..k], linkOf, c);
      PollSettlesExactlyThePaid(l, order, linkOf, Undisturbed(), c, k);
      assert Reached(l, order, linkOf, Undisturbed(), k) == Pass(l, order[..k], linkOf, Undisturbed()).0;
    }
  }

  function LapseAll(l: Ledger, order: seq<string>, now: int): Ledger {
    if order == [] then l else Lapse(LapseAll(l, order[..|order| - 1], now), order[|order| - 1], now)
  }

  /** The sweep lapses each approval as it finds it. */
  lemma {:induction false} UnsweptStays(l: Ledger, order: seq<string>, now: int, id: string)
    requires id in l.approvals
    ensures var m := LapseAll(l, order, now);
            id in m.approvals && m.approvals[id] == if id in order then Swept(l.approvals[id], now) else l.approvals[id]
  {
    if order != [] {
      var k := |order| - 1;
      UnsweptStays(l, order[..k], now, id);
      assert order == order[..k] + [order[k]];
    }
  }

  predicate Overdue(l: Ledger, id: string, now: int) {
    id in l.approvals && l.approvals[id].status.Waiting? && l.approvals[id].expiresAt <= now
  }

  predicate AwaitsOverdue(l: Ledger, order: seq<string>, now: int, c: string) {
    exists id | id in order :: Overdue(l, id, now) && l.approvals[id].caseId == c
  }

  /** A case is expired by the sweep exactly when it waits for an approval that is overdue, and else as it was. */
  function AfterSweep(l: Ledger, order: seq<string>, now: int, c: string): CaseRow
    requires c in l.cases
  {
    if l.cases[c].status.AwaitingApproval? && AwaitsOverdue(l, order, now, c) then l.cases[c].(status := Expired)
    else l.cases[c]
  }

  lemma {:induction false} SweepExpiresExactly(l: Ledger, order: seq<string>, now: int, c: string)
    requires c in l.cases && forall id :: id in order ==> id in l.approvals
    ensures var m := LapseAll(l, order, now);
            && c in m.cases
            && m.cases[c] == AfterSweep(l, order, now, c)
  {
    if order != [] {
      var k := |order| - 1;
      var id, before := order[k], LapseAll(l, order[..k], now);
      assert order == order[..k] + [id];
      SweepExpiresExactly(l, order[..k], now, c);
      UnsweptStays(l, order[..k], now, id);
      assert AwaitsOverdue(l, order, now, c) <==>
        AwaitsOverdue(l, order[..k], now, c) || (Overdue(l, id, now) && l.approvals[id].caseId == c);
      LapseExpiresItsCase(before, id, now, c);
      hide Lapse;
    }
  }

  /** The poll's write for a case of the treatment arm. */
  lemma SettleOwn(l: Ledger, c: string, proof: string)
    requires Honest(l) && InTreatment(l, c)
    ensures Honest(SettleByPoll(l, c, proof).0) && Frozen(l, SettleByPoll(l, c, proof).0)
    ensures SettleByPoll(l, c, proof).0.cases[c].status.Recovered?
  {
    var (m, settled) := SettleByPoll(l, c, proof);
    assert RowOk(l.cases[c]);
    if settled {
      CreditHonest(l, m, c);
    }
  }

  lemma CreditedOnce(audit: seq<Block>, b: Block)
    ensures CreditTotal(audit + [b]) == CreditTotal(audit) + if b.RecoveryVerified? then b.amountPaise else 0
  {
  }
}
