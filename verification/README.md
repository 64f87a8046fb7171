# RevPilot recovery core: a verified model

RevPilot recovers failed payments: it reads a failed attempt, decides whether and how to act, issues one
payment link under a committed reference, and counts a recovery only when the provider proves it. This
project models the parts its safety argument rests on and proves them over every run and every input.

`dafny verify dfyconfig.toml` checks everything.

**Execution** (`Ids`, `Token`, `Outbox`, `Effects`, `Protocol`, `Exclusive`, `Unsent`, `Siblings`, `Amounts`,
`Executor`). Each database session of the outbox executor, the drainer, the stale-deferral sweep and the
dead-letter replay is one function on the tables, and `Effects` says what each means for what drains do next.
Each worker is a small state machine over them; the provider is a list of links that may take a call and lose
the answer. A run is any sequence of steps of any workers, with a crash between any two. The executor, the
drainer and the mock provider are classes whose fields change in place; each of their methods is proved to be
a run of those steps, and to end as the faults it meets decide.

**Settlement** (`Attribution`, `Settlement`, `Recoveries`, `Paths`, `Approvals`, `Desk`, `Holdout`). Webhooks
(repeated, late, foreign), the reconciliation poll, reviewers, the expiry sweep and the agent write the same
case rows, one transaction at a time, in any order. `Desk` is the handlers as a class. `Holdout` joins the
agent's graph to the tables and drops the guards, to show that the graph itself keeps the control arm untouched.

**Guardrails** (`QuietHours`, `StoppingRules`, `PolicyEngine`, `Firewall`, `Shortfalls`, `Graph`, `Batch`).
The twelve stopping rules and their verdict, the firewall over arbitrary proposals (including NaN and
infinities), the node graph with arbitrary crashes, model answers and executor replies, and the batch loop
with its budgets.

**Algorithms with a bound or an inverse** (`AuditChain`, `Timestamps`, `RateLimit`, `RailHealth`,
`RailChoice`, `Consent`, `EventBus`).

Where code and documentation differ, the model follows the code:

- The executor's docstring has phase one move the case to EXECUTING (`apps/api/app/tools/outbox.py:11-18`);
  no statement does so, and the model does not.
- A drain pass is documented as needing no coordination between workers
  (`apps/api/app/workers/drainer.py:101-108`). Link uniqueness needs none. One recorded action for a SENT row
  does: the retry, the dead letter, the drop and the replay do not test for SENT
  (`Exclusive.OverlapRecordsTwice`, `Unsent.ReplayRecordsTwice`), and the law holds over a run exactly when
  none of the four commits on a SENT row (`Unsent.RecordedThroughoutExactlyWhenNeverUnsent`).
- Phase one reuses the row of a known reference but the call is made with the caller's own amount
  (`Amounts.SecondIntentDecidesTheAmount`; exactly when links are right: `Amounts.LinksBearExactlyWhen`).
- The executor takes a failing commit of an intent for a lost race on its reference
  (`apps/api/app/tools/outbox.py:185-193`). The UNIQUE constraint on case, action type and attempt makes it fail
  for a second reference too, exactly while some reference of the case has had no committed failure
  (`Siblings.IntentRefusedExactlyWhen`): a case dispatched at the first try gets no second attempt
  (`Siblings.SecondReferenceRefused`, `Siblings.SentAtFirstTryClosesItsCase`), though rule S-02 permits one.
- Four attempts are promised before the dead-letter queue (`apps/api/app/tools/outbox.py:72-73`). The same
  constraint rolls a failure back while another reference of the case holds the next counter
  (`Outbox.FailureSpendsBudgetIff`), and then executes fail without bound and without a letter
  (`Siblings.FailuresLeaveNoTraceExactlyWhen`, `Siblings.FailsWithoutBound`). The promise is kept exactly as
  `Siblings.BudgetHoldsExactlyWhen` says.
- The poll is said to follow the webhook's rule for amounts, and it is said not to matter which of the two is
  first (`apps/api/app/workers/reconcile.py:142-144` and `:162-167`). The poll credits a case in any status but
  RECOVERED, for its full amount and without a window (`Recoveries.PollCreditsWhateverTheStatus`). The paths
  agree exactly as `Paths.PathsAgreeExactlyWhen` says, and the order matters exactly as
  `Paths.OrderMattersExactlyWhen` says (`Paths.TheFirstPathDecides` is a run for each order).
- Acting on an expired approval leaves its case AWAITING_APPROVAL, and no decision or lapse of that approval
  moves it any more (`Approvals.ExpiredDecisionStrandsItsCase`).
- The firewall is documented as only ever reducing; the recorded percentage can rise by rounding, exactly as
  `Shortfalls.LiftedExactlyWhen` says and never for a proposal of four decimals. Money bounds are in paise.
- One discount for each case is a stopping rule, but the firewall reads only the message-class reduction of
  the verdict. The discount budget is not applied (`Shortfalls.DiscountBudgetIsNotRead`,
  `Shortfalls.ASecondDiscountPasses`) and is kept exactly as `Shortfalls.DiscountBudgetIsKeptExactlyWhen` says.
- The batch passes neither limits nor executor on to a case, so its bounds are those of the defaults.

Conditions on inputs are the source's own. A release minute is 0 to 59, since a clock time with any other
raises. `Firewall.SoundLimits` asks for a non-negative absolute cap and ordered expiry bounds, which no table
constraint enforces; what happens otherwise is stated exactly by `Firewall.OnlyANegativeCapOvercharges` and
`Firewall.ValidityIsBounded`. A rate limiter below one request a minute or a day is refused at construction.
The run bound of the graph asks for at most two earlier visits and a model-call count within its budget,
which is how every caller starts it.

## Model

| member | source | states |
|---|---|---|
| `Ids.ReferenceIdInjective` | apps/api/app/db/ids.py:66-87 | two idempotency keys are equal if and only if the attempt is the same and the case ids agree up to letter case |
| `Ids.NamespacesDisjoint` | apps/api/app/db/ids.py:66-102 | an issued key is never the reference of a held-out case, for any two cases |
| `Ids.ReferenceIdCanonical` | apps/api/app/db/ids.py:76-87 | an issued key is already trimmed and lower-case, so the local UNIQUE and the provider's case-insensitive one agree on it |
| `Text.LoweredLetters` | apps/api/app/db/ids.py:66-87 | lower-casing changes just the capitals, each to its own letter |
| `Token.PayloadRoundTrip` | apps/api/app/guardrails/token.py:96-133 | an action stored in a row and rebuilt from it is the same action, field for field |
| `Token.RebuiltIsWhatIsStored` | apps/api/app/guardrails/token.py:188-216 | an action is rebuilt only from a payload that stores it, key by key; a missing send time is none, a malformed one rebuilds nothing |
| `Token.PinnedToOneAction` | apps/api/app/guardrails/token.py:138-172 | content hash and signature each fix every field: changing any one of them is noticed, and nothing else is |
| `Token.ReissueRestoresTheCommittedAction` | apps/api/app/guardrails/token.py:188-216 | from a row the firewall's action was committed to, the very same action comes back with a token that verifies |
| `Outbox.PhaseTwoKeepsRecord` | apps/api/app/tools/outbox.py:229-284 | recording keeps "one action if the row is SENT, none otherwise" for every reference, whatever row, link and time it is given |
| `Outbox.BackoffGrows` | apps/api/app/tools/outbox.py:75-86 | for any jitter within a quarter each of the first four delays is longer than the one before; no delay leaves [0.375 s, 37.5 s] |
| `Outbox.BackoffFollowsJitter` | apps/api/app/tools/outbox.py:76-87 | more jitter never shortens the wait |
| `Effects.RetryWaits` | apps/api/app/tools/outbox.py:287-303 | after a committed failure that leaves the row waiting, no drain selects it before 0.375, 1.5, 6 or 22.5 seconds (first to fourth failure) unless it asks for rows a minute old, and every drain selects it from 0.625, 2.5, 10 or 37.5 seconds on; with the budget spent no drain ever does |
| `Effects.EachWaitIsLonger` | apps/api/app/tools/outbox.py:72-73 | the wait grows from each of the first three failures to the next, in terms of what drains select |
| `Effects.IntentIsDueAtOnce` | apps/api/app/tools/outbox.py:154-194 | a committed intent is selected by every drain from its commit on, rebuilds its action, and changes nothing else |
| `Effects.DispatchIsRecordedAsSent` | apps/api/app/tools/outbox.py:229-284 | a dispatch adds one action with the case, strategy, discount, channel, class, link and time of what was sent, a contact exactly if a channel was used, and is never selected again; a SENT row changes nothing |
| `Effects.RetryOrLetter` | apps/api/app/tools/outbox.py:287-303 | a committed retryable failure spends one attempt, and with the last one ends the row and opens one letter |
| `Effects.DeadLetterEndsTheRow` | apps/api/app/tools/outbox.py:305-315 | a permanent failure ends the row, opens one letter with the attempts spent, and no drain selects the row again |
| `Effects.DropEndsTheRow` | apps/api/app/workers/drainer.py:179-186 | a drop ends the row without a letter and touches nothing else |
| `Effects.ReplayIsDueAtOnce` | apps/api/app/routers/dlq.py:91-118 | an open letter put back is due at once, with attempts and payload kept, and is spent; a second time, or without a row, it is a conflict |
| `Effects.SweepKillsTheHopeless` | apps/api/app/services/scheduler.py:142-210 | the sweep kills a row exactly when it is PENDING and waiting, its case known, and the case over or no drain within the window would ever select it; nothing else changes |
| `Effects.LiveExactly` | apps/api/app/workers/drainer.py:153-156 | a case is live exactly if known and in one of seven statuses |
| `Effects.FinishedIsNeverPicked` | apps/api/app/workers/drainer.py:71-98 | no drain selects a SENT or DEAD row, nor a waiting one before its time unless asked for rows a minute old |
| `Effects.InterruptedIsPickedOnRequest` | apps/api/app/workers/drainer.py:86-98 | a SENDING row is selected exactly by the passes that ask, from a minute after its commit |
| `Effects.RefusalsChangeNothing` | apps/api/app/tools/outbox.py:165-194 | a refused intent, and a transaction on an unknown row, leave the tables as they were |
| `Outbox.FailureKeepsRecordIff` | apps/api/app/tools/outbox.py:287-315 | retry, dead letter and drop keep that law exactly when the row is not SENT, or the commit is refused; none of the three tests for SENT |
| `Outbox.ReplayKeepsRecordIff` | apps/api/app/routers/dlq.py:91-118 | a replay keeps it for every reference exactly unless it puts back a letter whose row has been SENT in the meantime; it does not test for SENT either |
| `Outbox.IntentKeepsRecord` | apps/api/app/tools/outbox.py:154-194 | committing an intent keeps it for every reference |
| `Outbox.SweepKeepsRecord` | apps/api/app/services/scheduler.py:142-210 | sweeping stale deferrals keeps it for every reference |
| `Unsent.StepKeepsRecordIff` | apps/api/app/tools/outbox.py:229-315 | whatever the state, one protocol step keeps it exactly when it is no retry, dead letter, drop or replay that commits on the SENT row |
| `Unsent.RecordedThroughoutExactlyWhenNeverUnsent` | apps/api/app/routers/dlq.py:91-118 | for every run and reference: the law holds at every moment if and only if no retry, dead letter, drop or replay of the run commits on the SENT row |
| `Unsent.ReplayRecordsTwice` | apps/api/app/routers/dlq.py:112-118 | for every action, a run whose only failure commits before the row is SENT, and whose replay has its one link recorded twice |
| `Outbox.FailureSpendsBudgetIff` | apps/api/app/tools/outbox.py:287-315 | a failing execute, retried or dead-lettered, spends one attempt exactly when no sibling row of the case sits at the next counter (the UNIQUE of `apps/api/app/db/models.py:524-531`); a refused one changes nothing, and a dead letter opens with the attempt it spent |
| `Protocol.EveryRunIsSafe` | apps/api/app/tools/outbox.py:100-284 | in every interleaving of executes, crashes, lost responses, drains, sweeps and replays: at most one link a reference, its row committed before it, SENT only with the provider's own link id, and one contact for each contacting action |
| `Protocol.EveryRunIsReadable` | apps/api/app/workers/drainer.py:137-177 | every committed row of every run can be resumed: its payload is an action under the row's own key and case |
| `Protocol.DrainsSelectOnlyTheirOwn` | apps/api/app/workers/drainer.py:71-98 | an idle worker takes up exactly what a drain would select |
| `Protocol.TakenIsDroppedOrResumed` | apps/api/app/workers/drainer.py:137-177 | a row reached is dropped exactly if its case is not live, and else executed as its payload says |
| `Exclusive.EveryDisciplinedRun` | apps/api/app/workers/drainer.py:101-135 | when an execute starts only on an idle reference whose row is absent, PENDING or SENDING: one recorded action if SENT and none otherwise, at most one open letter and only on a DEAD row, attempts within max_attempts plus replays |
| `Exclusive.AttemptCountsFailures` | apps/api/app/tools/outbox.py:287-315 | in every run, disciplined or not, `attempt` is the number of failures committed for that reference |
| `Siblings.IntentRefusedExactlyWhen` | apps/api/app/tools/outbox.py:165-194 | after every run, a fresh intent is refused if and only if its reference has no row and some row of the same case has had no committed failure |
| `Siblings.SecondReferenceRefused` | apps/api/app/tools/outbox.py:165-194 | for every two actions of one case under different references: once the first is dispatched at its first try, the second is refused and nothing changes |
| `Siblings.SentAtFirstTryClosesItsCase` | apps/api/app/guardrails/stopping_rules.py:255-266 | in every disciplined run a row SENT at its first try never changes again, and its case never gets another reference, whatever attempts the budget leaves |
| `Siblings.FailuresAreSpentOrCollide` | apps/api/app/tools/outbox.py:287-315 | conservation in every run: failing executes of a reference = attempts spent + failures rolled back by the constraint |
| `Siblings.BudgetHoldsExactlyWhen` | apps/api/app/tools/outbox.py:72-73 | in every run each failing execute spends an attempt if and only if none meets a sibling at the next counter; and then, with one executor a reference, failing executes stay within the budget plus the replays |
| `Siblings.FailuresLeaveNoTraceExactlyWhen` | apps/api/app/tools/outbox.py:287-315 | any number of failing executes, fresh or drained, timed out or refused, leaves tables, links and workers as they were if and only if a sibling row holds the next counter |
| `Siblings.FailsWithoutBound` | apps/api/app/tools/outbox.py:72-73 | for every two references of a live case and every number, a run in which the second fails that often and is still PENDING with no attempt spent and no letter |
| `Exclusive.OverlapRecordsTwice` | apps/api/app/tools/outbox.py:287-303 | without the discipline, for every action, a run of thirteen steps records one link twice |
| `Amounts.EveryLinkBearsTheCommittedCharge` | apps/api/app/guardrails/token.py:188-216 | if one reference is always charged the same, whatever else about its actions differs, every link of every run bears the charge committed on its row |
| `Amounts.LinksBearExactlyWhen` | apps/api/app/tools/outbox.py:160-226 | in every run of any actions, all links bear the committed charge if and only if no call that created one charged something else than its committed row |
| `Amounts.SecondIntentDecidesTheAmount` | apps/api/app/tools/outbox.py:160-214 | a second action under a committed reference is charged as itself: the link bears the committed charge if and only if the two charges are equal |
| `Executor.MockProvider.Tick` | apps/api/app/tools/mock_provider.py:77-97 | counts the call and spends exactly one injected fault, or none |
| `Executor.MockProvider.CreatePaymentLink` | apps/api/app/tools/mock_provider.py:100-135 | the answer exactly: a fault met decides it, else a held reference is a duplicate, else one link is created; every other answer leaves what the provider holds alone |
| `Executor.MockProvider.GetPaymentLinkByReference` | apps/api/app/tools/mock_provider.py:137-152 | the answer exactly: a fault met decides it, else the link held under the reference, or none |
| `Executor.OutboxExecutor.CommitIntent` | apps/api/app/tools/outbox.py:154-194 | the tables move by one phase-one transaction; a known reference is reused; only that row is touched |
| `Executor.OutboxExecutor.RecordDispatch` | apps/api/app/tools/outbox.py:229-284 | row, action and contact change in one transaction; a SENT row changes nothing |
| `Executor.OutboxExecutor.BackOff` | apps/api/app/tools/outbox.py:287-303 | amounts to one retry transaction or a refusal, and a row left waiting is selected by drains only as its wait allows |
| `Executor.OutboxExecutor.GiveUp` | apps/api/app/tools/outbox.py:305-315 | one dead-letter transaction, or a refusal that changes nothing |
| `Executor.OutboxExecutor.CallProvider` | apps/api/app/tools/outbox.py:197-226 | the provider's part is a run of protocol steps; a duplicate ends with the link that exists, and it fails exactly if the call meets a fault, in that fault's way |
| `Executor.OutboxExecutor.Execute` | apps/api/app/tools/outbox.py:100-151 | refusals without a valid token; else a run of protocol steps on one row, ending exactly as the intent and the fault met decide: refused, dispatched, one attempt more, or rolled back by a sibling |
| `Executor.OutboxExecutor.DrainRow` | apps/api/app/workers/drainer.py:101-177 | a selected row is dropped or resumed by protocol steps, and ends exactly as its case and the fault met decide |
| `Executor.OutboxExecutor.DrainOnce` | apps/api/app/workers/drainer.py:71-135 | selection and accounting; and if all rows are readable and no selected one has a sibling (or no fault is left): not aborted, rows of cases that are over are DEAD, as many executes fail as there are faults, each with one attempt more and its wait, and the rest are SENT |
| `Executor.OutboxExecutor.KillStaleDeferrals` | apps/api/app/services/scheduler.py:142-210 | kills exactly the held sends of cases that are over or close before the release, and counts them |
| `Executor.OutboxExecutor.ReplayLetter` | apps/api/app/routers/dlq.py:79-145 | a letter goes back once, under its original reference; a second replay or a missing row is a conflict that changes nothing |
| `Attribution.CountedExactlyWhen` | apps/api/app/services/attribution.py:90-169 | a settlement counts if and only if all six conditions hold, and for no more than the case's or the webhook's amount |
| `Attribution.ReportCountsEachCaseOnce` | apps/api/app/services/attribution.py:335-405 | the report made by filtering and summing equals a one-pass recount in which each case enters one group once; control and demo cases never move gross or discount |
| `Attribution.ReportCoversEveryCase` | apps/api/app/services/attribution.py:335-376 | treatment, control and excluded cases add up to the population |
| `Holdout.EveryPlayIsHonest` | apps/api/app/ingest/settle.py:130-240 | in every interleaving of the single transactions of agent runs (deciding for themselves what they issue, crashing anywhere), drainers, webhooks, polls, approvals and sweeps: 0 <= recovered <= amount, RECOVERED exactly when proven, one audit credit a proven case with its amount, references only for treatment cases, control never proven, arms as assigned |
| `Settlement.EveryRunIsHonest` | apps/api/app/ingest/settle.py:130-240 | the same of every run of ledger steps in which an issue step asks for the treatment arm, which `Holdout.RunIsGuarded` shows the graph's own runs to do |
| `Settlement.StepHonest` | apps/api/app/workers/reconcile.py:161-211 | each transaction alone keeps all of that, loses no row, changes no arm or amount, and leaves a proven row exactly as it was |
| `Recoveries.RecoveredIsFinal` | apps/api/app/ingest/settle.py:162-199 | RECOVERED is absorbing: after it the row's status, amount, verifier and source never change again |
| `Recoveries.PollCreditsWhateverTheStatus` | apps/api/app/workers/reconcile.py:161-177 | the poll settles every case that is not RECOVERED, closed or not, for its full amount: it re-checks the verifier alone |
| `Paths.PathsAgreeExactlyWhen` | apps/api/app/workers/reconcile.py:142-144 | for every unproven case and settling event of its own: webhook and poll leave the same recovered amount if and only if the case is MONITORING, the event is within window and grace, and its amount is absent or at least the case's |
| `Paths.OrderMattersExactlyWhen` | apps/api/app/workers/reconcile.py:161-177 | poll first leaves the whole amount; webhook first leaves the reported part exactly when a monitored case is paid in part, in time, and the whole otherwise |
| `Paths.TheFirstPathDecides` | apps/api/app/workers/reconcile.py:161-177 | for every such case and every part of its amount, two runs of the same steps in the two orders, leaving the part and the whole |
| `Paths.OwnPaymentEnds` | apps/api/app/ingest/settle.py:184-226 | for every honest ledger and settling event of an unproven case: RECOVERED and credited exactly when MONITORING, within window and grace and not reported negative; RESOLVED_ORGANIC when not monitored or late; a rolled-back one and every other row as they were; with the answer of each |
| `Paths.OtherPaymentsChangeNothing` | apps/api/app/ingest/settle.py:149-170 | no settling event, no reference, nobody's reference and a proven case's change nothing, each with its answer |
| `Paths.FoundExactly` | apps/api/app/ingest/settle.py:73-127 | whose a reference is, blanks and letter case aside: the intent's under it, else an action's, else the held-out case's, else nobody's |
| `Paths.OutstandingExactly` | apps/api/app/workers/reconcile.py:105-122 | the poll asks about a case exactly while it is MONITORING, unproven and has a SENT or SENDING intent |
| `Paths.HeldOutIsKnown` | apps/api/app/db/ids.py:90-102 | opening a held-out checkout gives its case, and no other, its own reference |
| `Recoveries.TotalsAgree` | apps/api/app/workers/reconcile.py:176-211 | in every run the sum recovered over provider-proven cases is the sum over `recovery.verified` audit blocks |
| `Recoveries.CreditIsEarned` | apps/api/app/ingest/settle.py:130-237 | a webhook credits only a MONITORING treatment case, inside window and grace, under a reference issued for it, never more than either amount |
| `Recoveries.ControlPaymentIsOrganic` | apps/api/app/ingest/settle.py:110-127 | a payment on a held-out case's own checkout closes that case as organic, credits nothing and touches no other row |
| `Recoveries.EventsHandledOnce` | apps/api/app/routers/webhooks.py:215-239 | however often an event id is delivered, it is queued and handled at most once |
| `Desk.SettlementDesk.ReceiveWebhook` | apps/api/app/routers/webhooks.py:215-239 | accepts an id exactly once; a duplicate changes nothing |
| `Desk.SettlementDesk.ProcessSettlement` | apps/api/app/ingest/settle.py:130-240 | the handler's field assignments amount to one settlement transaction, whose laws are proved over all runs |
| `Desk.SettlementDesk.ReconcileOutstanding` | apps/api/app/workers/reconcile.py:105-226 | whatever others commit between its lookups, polls only references outstanding when it read them, each once, up to the limit, and all of them when the limit is not reached; it ends where the pass of the next rows does |
| `Desk.PollReportsWhatItCredits` | apps/api/app/workers/reconcile.py:125-226 | whatever others commit between its lookups, the poll's counters add up to the references checked, and the sum it reports is what its own writes credited in the audit log |
| `Desk.PollSettlesExactlyThePaid` | apps/api/app/workers/reconcile.py:138-211 | whatever others commit between its lookups, the cases of paid links end RECOVERED, and each write leaves every other case's row as it found it |
| `Desk.UndisturbedPassKeepsOthers` | apps/api/app/workers/reconcile.py:138-211 | left alone, a pass leaves every case without a paid link just as it was |
| `Desk.SettlementDesk.ActionApproval` | apps/api/app/routers/approvals.py:112-189 | one decision: expired, already decided and mismatched hashes are refused, and acting on an expired one leaves the case waiting |
| `Approvals.DecidedExactlyWhen` | apps/api/app/routers/approvals.py:128-159 | a decision lands if and only if the approval waits, is in time and the presented hash is its own; an approval becomes APPROVED no other way; a refused decision touches no case |
| `Approvals.DecisionMovesItsCase` | apps/api/app/routers/approvals.py:161-168 | a decision moves only its own case, and that only out of AWAITING_APPROVAL |
| `Approvals.DecisionLeaves` | apps/api/app/routers/approvals.py:128-189 | each answer for its reason, and all it leaves: decided and logged, lapsed, or nothing |
| `Approvals.LapseExpiresItsCase` | apps/api/app/services/scheduler.py:108-137 | a lapse happens exactly when overdue and waiting, is logged, and expires its own case if that awaits approval; no other row moves |
| `Approvals.DecisionIsFinal` | apps/api/app/routers/approvals.py:128-153 | in every run an approval is decided, or lapses, at most once |
| `Approvals.ExpiredDecisionStrandsItsCase` | apps/api/app/routers/approvals.py:141-153 | acting on an expired approval lapses it and moves no case, and in no continuation does any decision on it or lapse of it change anything |
| `Desk.SettlementDesk.ExpireApprovals` | apps/api/app/services/scheduler.py:87-139 | every approval past its time lapses and no other changes; a case is expired exactly if it awaits approval and one of its own is overdue; and the count is right |
| `Holdout.RunIsGuarded` | apps/api/app/agent/graph.py:89-175 | each transaction of an agent run that decides by itself what it issues (intent, recorded action, final status) is at most one step guarded by the treatment arm |
| `Holdout.ResumedIsGuarded` | apps/api/app/workers/drainer.py:133-175 | a drainer that resumes a committed intent records an action for a treatment case only |
| `Holdout.ControlIsNeverCredited` | apps/api/app/services/experiments.py:54-81 | no interleaving of the transactions of agent runs, drainers, webhooks, polls, approvals and sweeps gives a control case an intent, an action, RECOVERED, a credit or a nonzero amount |
| `Holdout.ControlPaymentMatchesNoIntent` | apps/api/app/db/ids.py:90-102 | in every such run no intent or action carries a held-out checkout's reference |
| `QuietHours.ReleaseEndsTheQuiet` | apps/api/app/guardrails/stopping_rules.py:188-220 | for all start and end hours: the release is now outside quiet hours, else strictly later, within a day and not quiet, and every instant until the end hour is quiet |
| `QuietHours.QuietRoundTheClock` | apps/api/app/guardrails/stopping_rules.py:188-201 | quiet is what comes before the end, counting hours round the clock from the start, across midnight or not |
| `QuietHours.ReleaseIsAtTheEndHour` | apps/api/app/guardrails/stopping_rules.py:204-220 | a release is in the end hour of India, at the release minute sharp |
| `StoppingRules.EvaluateRules` | apps/api/app/guardrails/stopping_rules.py:536-608 | the loop over the twelve results and its two corrections compute the verdict the lemmas below are about |
| `StoppingRules.WeighedIsWorst` | apps/api/app/guardrails/stopping_rules.py:554-574 | over any list of results the combined severity is the maximum, its terminal status comes from a result that severe, and its hold is the latest |
| `StoppingRules.RulesAdvance` | apps/api/app/guardrails/stopping_rules.py:230-512 | every hold any of the twelve rules asks for lies ahead of now, and every STOP names a terminal status |
| `StoppingRules.VerdictIsWellFormed` | apps/api/app/guardrails/stopping_rules.py:576-608 | a DEFER lies strictly between now and the window's end and outlasts every hold; the non-advancing guard is unreachable; a hold reaching the window's end is a STOP |
| `StoppingRules.SecondDeferIsQuiet` | apps/api/app/guardrails/stopping_rules.py:290-327 | looked at again when its hold is over, a case can be deferred once more only for quiet hours |
| `StoppingRules.AtMostTwoDefers` | apps/api/app/guardrails/stopping_rules.py:422-470 | waiting out two DEFERs in a row is enough: a third never follows |
| `StoppingRules.TwoDefersHappen` | apps/api/app/guardrails/stopping_rules.py:452-470 | a case whose merged hold ends inside quiet hours, so two in a row do occur |
| `StoppingRules.ActsExactlyWithoutBrake` | apps/api/app/guardrails/stopping_rules.py:180-183 | acting is permitted if and only if no stop, cap, freeze, budget or quiet hour applies, stated on the facts |
| `StoppingRules.StopsAndDefersExactlyWhen` | apps/api/app/guardrails/stopping_rules.py:536-608 | STOP exactly when a brake is on that no waiting releases or something holds the case to its window's end; else DEFER exactly when something holds it, until the last hold |
| `StoppingRules.StopsAs` | apps/api/app/guardrails/stopping_rules.py:561-600 | the status of a stop is that of the first reason in the order asked, or EXPIRED at the window's end |
| `StoppingRules.ReducesExactly` | apps/api/app/guardrails/stopping_rules.py:269-287 | the class is reduced exactly when marketing is barred and the customer may be messaged, the discount then too or with its budget spent |
| `StoppingRules.DegradesExactlyWithAReduction` | apps/api/app/guardrails/stopping_rules.py:536-608 | a verdict that permits acting is DEGRADE exactly if it reduces something |
| `StoppingRules.EveryRuleReports` | apps/api/app/guardrails/stopping_rules.py:517-560 | every verdict reports all twelve rules in order under their names, and after them at most the window's end |
| `StoppingRules.UsuallyStops` | apps/api/app/guardrails/stopping_rules.py:78-91 | what the default limits stop, in numbers |
| `StoppingRules.UsuallyHolds` | apps/api/app/guardrails/stopping_rules.py:78-91 | what the default limits hold and reduce, in numbers |
| `StoppingRules.DegradesMerge` | apps/api/app/guardrails/stopping_rules.py:556-558 | the reductions of a verdict are those of the consent rule overlaid by those of the discount budget, whatever else fires |
| `StoppingRules.DegradedOnceIsEnough` | apps/api/app/guardrails/stopping_rules.py:611-634 | the reduced action needs no further reduction and is permitted just as before |
| `StoppingRules.EveryRuleTightens` | apps/api/app/guardrails/stopping_rules.py:255-495 | lowering caps or lengthening the freeze makes no rule milder and no hold shorter |
| `StoppingRules.TighteningKeepsStops` | apps/api/app/guardrails/stopping_rules.py:536-608 | so a STOP stays a STOP under tighter limits |
| `PolicyEngine.SanitiseDiscount` | apps/api/app/guardrails/policy_engine.py:181-220 | the percentage is never above the ceiling unless zero, never above a non-negative number proposed, and between zero and a sound ceiling; the list is only extended, by one violation naming old and new value exactly when the proposal was replaced |
| `PolicyEngine.ApplyAbsoluteCap` | apps/api/app/guardrails/policy_engine.py:223-250 | the paise are the lesser of share and cap, and nothing without a positive percentage and order; the list is only extended, by one clamp naming both amounts exactly when the share was replaced |
| `PolicyEngine.SanitiseExpiry` | apps/api/app/guardrails/policy_engine.py:253-288 | of all minutes within ordered bounds the nearest to a readable proposal; the list is only extended, by one clamp naming both exactly when the proposal was replaced |
| `PolicyEngine.EvaluatePolicy` | apps/api/app/guardrails/policy_engine.py:335-499 | the step-by-step firewall over one shared clamp list computes the decision the lemmas below are about |
| `Firewall.OfferIsBounded` | apps/api/app/guardrails/policy_engine.py:223-250 | 0 <= discount <= min(absolute cap, floor(order*ceiling/100)); zero if transactional or NO_ACTION; the percentage on record is within 1 + order/2,000,000 paise of it |
| `Firewall.WhatIsTakenOff` | apps/api/app/guardrails/policy_engine.py:181-250 | the paise taken off by every decision, on the facts: nothing for a transactional message, NO_ACTION, no number or a negative one; else the lesser of cap and rounded-down share of the proposal, or above the ceiling of the lesser of default and ceiling |
| `Firewall.AskingTooMuchGainsNothing` | apps/api/app/guardrails/policy_engine.py:196-209 | a proposal above the ceiling gets just what proposing the default gets |
| `Firewall.AnyDiscountIsTreatedAlike` | apps/api/app/guardrails/policy_engine.py:383-410 | whether an action comes of a proposal, and its class, do not depend on the discount proposed |
| `Firewall.OnlyANegativeCapOvercharges` | apps/api/app/guardrails/policy_engine.py:235-250 | the discount is negative exactly when a negative absolute cap meets an offer that survives; no table constraint forbids such a cap |
| `Firewall.ValidityIsBounded` | apps/api/app/guardrails/policy_engine.py:253-288 | the expiry is within floor and ceiling if and only if these are ordered and, for an unreadable proposal, hold the default |
| `Firewall.FirewallIsClosed` | apps/api/app/guardrails/policy_engine.py:335-499 | for every proposal: an action exists unless BLOCKED, charge plus discount is the order, all bounds hold, and a token exists exactly when PASSED, verifies, and covers exactly that action |
| `Firewall.PassedMeansPermitted` | apps/api/app/guardrails/policy_engine.py:362-407 | PASSED implies the treatment arm, a positive order, and either no brake at all or a DEFER whose sound hold is stamped on the action |
| `Firewall.VerdictExactly` | apps/api/app/guardrails/policy_engine.py:335-499 | the verdict with its reasons, rung, attempt and send time on the facts: blocked exactly for no amount, a stop or a held-out case; escalated exactly if a human is needed and has not approved this very action; else passed |
| `Firewall.PassedIsUnbraked` | apps/api/app/guardrails/policy_engine.py:383-410 | nothing passes while a brake is on that no waiting releases |
| `Firewall.NoConsentNoOffer` | apps/api/app/guardrails/stopping_rules.py:379-419 | without marketing consent, or under DND, what passes is transactional at the full price |
| `Firewall.UnapprovedMeansSmall` | apps/api/app/guardrails/policy_engine.py:291-331 | without an approval only an order below both thresholds, proposed within bounds, passes; or NO_ACTION |
| `Firewall.ViolationExactly` | apps/api/app/guardrails/policy_engine.py:181-220 | a violation is recorded if and only if the proposed discount is no number, negative or above the ceiling, whatever the other clamps |
| `Firewall.AuthorityOnlyRises` | apps/api/app/guardrails/policy_engine.py:291-331 | the rung never falls with a larger order or a violation; a discount is at least flagged; a human is needed exactly from the autonomous amount or on a violation, and never for NO_ACTION |
| `Firewall.ApprovalCoversOneAction` | apps/api/app/guardrails/policy_engine.py:465-487 | where a human is needed, what passes is the very action the approved hash was taken of |
| `Firewall.EveryReductionIsRecorded` | apps/api/app/guardrails/policy_engine.py:383-443 | field by field: a class clamp, an expiry clamp, a money clamp is recorded if and only if the class, the minutes, the percentage or paise are not as proposed; class and expiry clamps name old and new value |
| `Firewall.TighteningIsMonotone` | apps/api/app/guardrails/policy_engine.py:335-499 | with no approval on file, tighter money and stopping limits never turn another verdict into PASSED and never unblock, and never raise the discount in paise unless the looser absolute cap is below zero |
| `Shortfalls.ClassOnTheFacts` | apps/api/app/guardrails/stopping_rules.py:379-419 | what goes out is transactional if and only if so proposed, or outbound with marketing consent missing or under DND |
| `Shortfalls.LiftedExactlyWhen` | apps/api/app/guardrails/policy_engine.py:235-250 | for every decision on every number: the recorded percentage exceeds the proposed one if and only if that was negative, or an offer of an acting strategy is cut by the cap and the rounded cap exceeds the proposal |
| `Shortfalls.FreeOfferLiftedExactlyWhen` | apps/api/app/guardrails/policy_engine.py:235-250 | for an offer within the ceiling that may be sent: exactly when the cap is below its share and it is below the rounded cap |
| `Shortfalls.FourDecimalsAreNeverLifted` | apps/api/app/guardrails/policy_engine.py:239-250 | no proposal of at most four decimals is ever lifted |
| `Shortfalls.RoundingCanLiftThePercentage` | apps/api/app/guardrails/policy_engine.py:239-250 | with the default limits, a whole decision that is PASSED and bears a higher percentage than proposed |
| `Shortfalls.DiscountBudgetIsNotRead` | apps/api/app/guardrails/policy_engine.py:383-410 | for every proposal and context, verdict, action, token and clamps are the same however many discounts the case has borne |
| `Shortfalls.DiscountBudgetIsKeptExactlyWhen` | apps/api/app/guardrails/stopping_rules.py:269-287 | with the discount budget spent, nothing is taken off if and only if the message is or must be transactional, the strategy is NO_ACTION, or the sanitised share is, or is capped to, nothing |
| `Shortfalls.ASecondDiscountPasses` | apps/api/app/guardrails/stopping_rules.py:269-287 | with the default limits, a second discount that passes in full |
| `Graph.Run` | apps/api/app/agent/graph.py:123-175 | the while loop over nodes computes the run the lemmas below are about, and ends |
| `Graph.TriageKeeps` | apps/api/app/agent/nodes.py:173-222 | TRIAGE puts the assigned arm on the case and stops it only with a terminal status, never RECOVERED |
| `Graph.PolicyKeeps` | apps/api/app/agent/nodes.py:453-533 | POLICY sends to EXECUTE only a treatment case with the firewall's own action and token for that case and attempt, and every held-out case to AUDIT in a terminal status |
| `Graph.HeldOutBlockIsObserved` | apps/api/app/agent/nodes.py:517-533 | POLICY leaves a control case BLOCKED and OBSERVED_NO_ACTION, without action, token or reference, whatever else blocks it |
| `Graph.ResolvedOrganicIsPaid` | apps/api/app/agent/nodes.py:517-533 | POLICY says RESOLVED_ORGANIC only of a case whose order is paid or which had already closed as settled |
| `Graph.ShownAsItIs` | apps/api/app/agent/nodes.py:97-126 | the stopping rules are shown every fact of the case as it is |
| `Graph.TriageEndsAs` | apps/api/app/agent/nodes.py:173-222 | a case stopped at TRIAGE closes as the first reason says, any other is TRIAGED |
| `Graph.StoppedByTheFirst` | apps/api/app/guardrails/stopping_rules.py:172-179 | the rule a stop is put down to is the first that stops, or the window's end |
| `Graph.PolicyBlocksAs` | apps/api/app/agent/nodes.py:517-533 | a blocked case has no action, token or reference and is observed if held out, else closed as the first reason says |
| `Graph.PolicyTakesTheAction` | apps/api/app/agent/nodes.py:453-514 | any other case takes over the firewall's action for its next attempt; passed it executes under its token, else it awaits approval without one |
| `Graph.ExecuteEndsAs` | apps/api/app/agent/nodes.py:536-586 | the status, attempt and discount count after EXECUTE, by token, wiring and reply |
| `Graph.ModelCallsAreCounted` | apps/api/app/agent/nodes.py:267-427 | only DIAGNOSE and STRATEGISE consult a model, once each and only within the budget |
| `Graph.EveryRunSettles` | apps/api/app/agent/graph.py:123-175 | every run of a live case, crashes included, ends in AUDIT within eight visits and the model-call budget, terminal or MONITORING, EXECUTING or AWAITING_APPROVAL; MONITORING and EXECUTING only after PASSED |
| `Graph.UndisturbedRun` | apps/api/app/agent/graph.py:89-175 | an undisturbed run takes exactly the nodes it must, seven at most: to AUDIT at once if stopped, else through POLICY with the model's proposal, to EXECUTE exactly if passed and to ESCALATE exactly if that is asked, and ends in that node's status |
| `Graph.RaisedRunFails` | apps/api/app/agent/graph.py:123-175 | a crash, and EXECUTE under a forged token, end the run as FAILED_PERMANENT, audited |
| `Graph.NineVisitsAreTheBound` | apps/api/app/agent/graph.py:67-69 | a case that has had nine visits, or eight, is refused a run |
| `Graph.HeldOutByPosition` | apps/api/app/services/experiments.py:54-81 | held out exactly below the fraction: none at zero, all at one, and more with more |
| `Graph.AuthorisedIsUnbraked` | apps/api/app/agent/nodes.py:453-514 | an authorised case was switched on, not opted out, messageable, unpaid and within its contact cap and both budgets |
| `Graph.HeldOutIsOnlyObserved` | apps/api/app/agent/graph.py:89-120 | a case assigned to the control arm ends terminal, not RECOVERED, without visiting EXECUTE |
| `Graph.DispatchedIsWithinLimits` | apps/api/app/agent/nodes.py:536-586 | what is dispatched is the case's own, within the deployed limits for its own amount, under a capability that verifies, and below the autonomous amount unless NO_ACTION |
| `Batch.RunBatch` | apps/api/app/workers/batch.py:298-426 | each merchant-day sees at most 50 actions and each merchant-month less than its cap plus one action's; the failed or abandoned checkouts, created invoices and failed subscriptions become rows, in order, one each, up to the limit, each bearing its number and amount, decided on exactly the actions before it, and acted on only if that customer and merchant allow it; rows and totals say no more than happened |
| `Batch.AuthorisedIsAffordable` | apps/api/app/guardrails/stopping_rules.py:473-495 | an authorised case still had both merchant allowances, and spends no more than the absolute cap of them |
| `Batch.OneCase` | apps/api/app/workers/batch.py:444-486 | RECOVERED is written exactly for acted and paid, RESOLVED_ORGANIC exactly for paid and not acted, the amount only with RECOVERED |
| `Batch.OpensAs` | apps/api/app/workers/batch.py:379-417 | how a case opens: half an hour after its attempt, with its customer's consents, its merchant's switch, and a window of 1, 3, 30 or 7 days by kind |
| `Batch.RowClosesAs` | apps/api/app/workers/batch.py:432-486 | the written status: the graph's, unless the customer paid, or it claims a payment that never came |
| `Batch.CaseIdReads` | apps/api/app/workers/batch.py:369 | the case id is its number in at least four digits |
| `Batch.RunsWithTheUsual` | apps/api/app/workers/batch.py:166-180 | every case runs under the default limits, with three model calls and no executor |
| `AuditChain.VerifyBlocks` | apps/api/app/tools/audit.py:169-250 | valid exactly when every block is sound; otherwise the first failing block and its first failing check are reported |
| `AuditChain.FaultsExactly` | apps/api/app/tools/audit.py:182-240 | a block is sound exactly if in place, carrying its payload's hash, linked and hashed as it stands; else the first that fails is named |
| `AuditChain.WhatIsHashed` | apps/api/app/tools/audit.py:84-150 | the chain starts at 64 zeros, and the four hashed fields are joined by the unit separator |
| `AuditChain.MaterialIsUnambiguous` | apps/api/app/tools/audit.py:127-142 | joined texts are equal if and only if previous hash, payload, index and millisecond are, though the payload may hold the separator |
| `AuditChain.SameHeadSameHistory` | apps/api/app/tools/audit.py:169-250 | two verifying chains of one length and head agree on every hashed field of every block, or two different texts with one hash are returned |
| `AuditChain.EveryPrefixVerifies` | apps/api/app/tools/audit.py:243-249 | cutting the tail of a sound chain leaves a sound chain |
| `AuditChain.DeletionIsFound` | apps/api/app/tools/audit.py:186-198 | removing any block but the last is reported at its place |
| `AuditChain.ReorderIsFound` | apps/api/app/tools/audit.py:186-198 | a block away from its place is reported at the first such place |
| `AuditChain.LabelsAreNotCovered` | apps/api/app/tools/audit.py:127-142 | changing a block's name, actor or case changes the verdict on no block |
| `AuditChain.ReloadingChangesNoVerdict` | apps/api/app/tools/audit.py:225-239 | a chain hashed in memory verifies block by block just as it does read back from the database, cut to milliseconds |
| `AuditChain.AuditLedger.Append` | apps/api/app/tools/audit.py:266-319 | one block behind the head; a sound ledger stays sound, and every block already there keeps its verdict |
| `Timestamps.StoredInstantRoundTrips` | apps/api/app/db/types.py:37-51 | for years 1000 to 9999 the text has 24 characters, reads back as the instant cut to the millisecond, and is written again the same |
| `Timestamps.DatesOfTheCalendar` | apps/api/app/db/types.py:33-51 | the dates read are those of the calendar, month by month and by the leap rule |
| `Timestamps.StorageTextIsCanonical` | apps/api/app/db/types.py:49-51 | every text of the canonical form that reads as an instant is that instant's own text |
| `Timestamps.TextOrderIsTimeOrder` | apps/api/app/db/types.py:33-46 | text order is chronological order, and equal text equal time, at millisecond precision, on the calendar with leap years |
| `RateLimit.RateLimiter.TryAcquire` | apps/api/app/llm/rate_limit.py:115-135 | grants exactly when day quota and a whole token are there, and takes one of each |
| `RateLimit.RepliesExactly` | apps/api/app/llm/rate_limit.py:99-135 | the reply and what it leaves on the facts: the day's quota first, then a whole token of what the elapsed time has filled |
| `RateLimit.FirstCallIsGranted` | apps/api/app/llm/rate_limit.py:60-98 | a fresh limiter grants its first call unless the day is spent |
| `RateLimit.RateLimiter.SecondsUntilSlot` | apps/api/app/llm/rate_limit.py:137-142 | the time the missing part of a token takes, never negative |
| `RateLimit.RateLimiter.Acquire` | apps/api/app/llm/rate_limit.py:144-162 | ends, grants at most once, sleeps after each refusal just as long as the missing token takes and a twentieth of a second, or what is left of the allowance, refuses for want of a slot only after the whole allowance and for the day only if it is spent, and makes only calls read off the clock |
| `RateLimit.QuotaHolds` | apps/api/app/llm/rate_limit.py:99-142 | on a monotonic clock, grants between any two grants d seconds apart are at most rpm + d*rpm/60, and stored plus granted on a day that grants at most rpd |
| `RateLimit.LimiterKeepsQuota` | apps/api/app/llm/rate_limit.py:99-162 | both bounds of any limiter object, after any history of its own calls on a monotonic clock |
| `RateLimit.WaitingIsEnough` | apps/api/app/llm/rate_limit.py:128-142 | a refused caller that waits as long as it is told gets the slot if the day has quota |
| `RailHealth.WilsonHoldsTheRate` | apps/api/app/core/stats.py:47-63 | before clamping, 0 <= lower <= successes/trials <= upper <= 1, for every count and every z >= 0 |
| `RailHealth.EndsAreTheScoreInterval` | apps/api/app/core/stats.py:47-63 | each end x solves n(p - x)^2 = z^2 x(1 - x): the two rates exactly z standard errors from the observed one |
| `RailHealth.OutOfRangeIsRefused` | apps/api/app/core/stats.py:40-50 | a count out of range has no interval, and no trials leave every rate open |
| `RailHealth.FromAttempts` | apps/api/app/agent/rail_health.py:133-173 | each rail's counts and the totals are exactly those of the records in the window, in the order in which the rails are first seen |
| `RailHealth.OneRecordCounts` | apps/api/app/agent/rail_health.py:133-173 | one record counts once, for its own rail, exactly if it reached one within the window, both ends included |
| `RailHealth.RailOfARecord` | apps/api/app/agent/rail_health.py:150-165 | an empty issuer is none |
| `RailChoice.Get` | apps/api/app/agent/rail_health.py:187-209 | the exact rail, else the sum over its method, else nothing |
| `RailChoice.LookupAnswers` | apps/api/app/agent/rail_health.py:187-209 | the rail itself if indexed, else its method's attempts and successes added up from the first rail on, if any, else nothing |
| `RailChoice.LookupIsCounted` | apps/api/app/agent/rail_health.py:187-209 | every answer has some attempts and no more successes than attempts |
| `RailChoice.DegradedIsBelowBaseline` | apps/api/app/agent/rail_health.py:104-106 | a degraded rail's observed rate is strictly below the baseline |
| `RailChoice.DegradedExactlyOnEvidence` | apps/api/app/agent/rail_health.py:101-106 | degraded exactly with eight attempts or more and every plausible rate below the baseline |
| `RailChoice.ReadingsAreTheScoreInterval` | apps/api/app/agent/rail_health.py:88-99 | a rail's readings are the ends of the 95 percent score interval |
| `RailChoice.NothingIsKnownWithoutAttempts` | apps/api/app/agent/rail_health.py:88-99 | without attempts every rate is plausible |
| `RailChoice.EmptyIndexIsNeutral` | apps/api/app/agent/rail_health.py:177-185 | an empty index reads as even, any other as its own average |
| `RailChoice.NotEveryRailIsDegraded` | apps/api/app/agent/rail_health.py:177-185 | in an index with any rail at least one is not degraded |
| `RailChoice.SwitchIsAnImprovement` | apps/api/app/agent/rail_health.py:220-256 | a switch goes to another rail that is no mandate and has evidence of its own, best in score and then in attempts; and if the failed rail has evidence too, only to one whose pessimistic reading and rate are strictly higher than its optimistic reading and rate |
| `RailChoice.TheFirstOfTheBest` | apps/api/app/agent/rail_health.py:241-256 | of rails level in score and attempts, the one seen first |
| `RailChoice.StaysExactlyWithoutABetterRail` | apps/api/app/agent/rail_health.py:241-256 | no alternative is given if and only if no candidate's lower bound beats the upper bound of a failed rail with enough data |
| `Consent.SplitIsUnique` | apps/api/app/guardrails/consent.py:101-103 | a body's split into brace-free text and slots is the one the scan finds |
| `Consent.AcceptsExactlySplits` | apps/api/app/guardrails/consent.py:256-270 | the brace check accepts a body if and only if such a split exists |
| `Consent.ExtractSlots` | apps/api/app/guardrails/consent.py:145-150 | exactly the slot names of the body, each once |
| `Consent.NamesAreIdentifiers` | apps/api/app/guardrails/consent.py:101-103 | slot names are identifiers: letters, underscores, and digits after the first character |
| `Consent.RendersExactlyWhenSendable` | apps/api/app/guardrails/consent.py:187-290 | a message results if and only if template, consents, slots, values, structure and length are all right, and then it is the split with the values put in |
| `Consent.EachSlotGetsItsOwnValue` | apps/api/app/guardrails/consent.py:272-273 | around any slot of a rendered body: what comes before filled, the value bound to just that name, what comes after filled |
| `Consent.RendersTheMappedSplit` | apps/api/app/guardrails/consent.py:272-273 | a message is the split of its body mapped through the map from names to values |
| `Consent.RefusesForTheFirstReason` | apps/api/app/guardrails/consent.py:212-290 | each refusal, in order, names what is wrong: the missing, unused or forbidden names exactly, the first unclean value, a stray brace, or a length over the channel's limit |
| `Consent.CleanExactly` | apps/api/app/guardrails/consent.py:105-112 | a value is clean exactly if printable, with tabs, and line ends only in email |
| `Consent.RenderedFits` | apps/api/app/guardrails/consent.py:92-99 | a message is no longer than 160, 1024 or 5000 characters by channel |
| `Consent.ValuesAreNotRescanned` | apps/api/app/guardrails/consent.py:272-274 | a value that looks like a slot goes out as it is |
| `Consent.RenderingIsIdentityOnItself` | apps/api/app/guardrails/consent.py:272-281 | supplying every slot's own text gives the body back, within the length limit |
| `EventBus.EventBus.Publish` | apps/api/app/routers/stream.py:111-143 | a public event reaches every subscriber under one number as its queue then stood, and no other event any; the bus keeps every subscriber served with each number since it joined |
| `EventBus.TheOldestGives` | apps/api/app/routers/stream.py:120-139 | two hundred and fifty-six frames may wait; one more pushes out the oldest and is counted |
| `EventBus.ServedSubscriber` | apps/api/app/routers/stream.py:86-151 | of every subscriber of a bus: at most 256 waiting, bearing the latest numbers in order, and numbers since it joined = received + waiting + dropped |
| `EventBus.EveryFeedIsAccounted` | apps/api/app/routers/stream.py:111-143 | for each subscriber at every moment: the queue is the last k <= 256 frames since it joined, published = received + queued + dropped, and dropped is the number of overflows |
| `EventBus.FramesCarryTheLossSoFar` | apps/api/app/routers/stream.py:125-127 | each frame's `dropped` is the number of overflows before its own publication |
| `EventBus.NextIsAfterReceivedAndLost` | apps/api/app/routers/stream.py:129-139 | the next frame received is the one after all received and all lost |
| `EventBus.NothingLostNothingMissing` | apps/api/app/routers/stream.py:129-139 | until an overflow the client receives every frame in order |

## Left out

- SHA-256 and HMAC: content hashes and signatures are equal exactly when their contents are; the audit chain uses an arbitrary hash and returns collisions instead of excluding them; the arm assignment uses an arbitrary position for each case id.
- JSON and datetime text inside stored actions: a stored action is a map from its keys to typed scalars, with a send-after time kept as an instant.
- Floating-point error: percentages, rates, tokens and delays are exact reals and square roots exact; integers too large for a float are not proposed.
- Text outside ASCII: lower-casing and trimming of references act on ASCII letters and blanks.
- Row order of database queries: drains, polls and sweeps visit their rows in an order left open.
- The shift of an aware datetime to UTC, years before 1000, and the laxer texts that `strptime` also accepts (unpadded fields, other fraction widths).
- The conflict retry of `AuditChain.append`, which rolls back the caller's work, and the batch's rebuilding of the chain: appends are serialised.
- Interleaved callers of one rate limiter during a sleep, and quota stores shared between processes: `TryAcquire` is the atomic step.
- Writers of the outbox other than the executor (experiments and test-mode tools that store an empty payload), for which a drain pass aborts on the row.
- Provider latency, link ids and their uniqueness, payment and order registration of the mock: ids are given with each call.
- The diagnosis rules, the playbook's strategy table and the model adapter: a strategy is an arbitrary proposal, which covers what they could answer.
- Human-readable reasons, traces, latencies and cost ledgers; block reasons are an enumeration instead of the text that `_blocked_status` searches.
- Statistical tests, power analysis and the intervals of the report; template selection; HTTP routing, authentication and rendering of the dashboard.
- Recovery-action and case fields that no law here reads (idempotency hash, error telemetry, language, expiry text).
- AuditChain.AuditLedger.Append: states nothing about ledgers whose stored indexes have gaps beyond keeping every verdict.
- Settlement.EveryRunIsHonest: takes an agent's issue step as guarded by the treatment arm; `Holdout.EveryPlayIsHonest` is the same law without that guard.
- Executor.OutboxExecutor.DrainRow: a row whose payload names another reference than its own counts as unreadable, where the source would execute that other reference; `Protocol.EveryRunIsReadable` shows that no run commits such a row.
