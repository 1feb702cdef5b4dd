# Cloudfall: a verified model of its records and the loops that act on them

Cloudfall proposes changes to a server fleet, keeps a record of each, and acts on the records:
an operator loop that may execute repairs on its own, a gate through which an agent's operations
pass, a migration that can be interrupted and resumed, a DNS check before a cutover, and an
investigation a model drives through tools. This project models those parts in Dafny and proves
what their records promise, over whole runs and not only one call.

`dafny verify dfyconfig.toml` checks everything.

## How it is modelled

- **Stores are objects; runs are logs.** `ProposalStore`, `DecisionStore`, `PlanFile`, `Limits`,
  `ImportState` and `InvestigationStore` are classes whose methods follow the program's. The two
  receipt stores carry a ghost log of events, and every method proves that the store is exactly
  what its log leaves behind. The watch loop also returns a ghost account of its rounds: which passes
  each made, and what each added to the log. What is proved of every legal log therefore holds of every store the
  methods can reach.
- **What leaves no record is in the log.** Both stores note every engine or playbook start in a ghost
  list, and an execution the store keeps no trace of is an event of its own (`Lost`, or an attempt that
  does not complete), so the theorems speak of what was started and not only of what was recorded.
- **Loops are loops.** The passes, the verify loop, the step loop (over an array updated in place),
  the DNS cursor, the parsers, the truncating and pruning loops are methods with invariants, each
  proved against a function that says what it computes; the properties are proved of that function.
- **Directories keep what was left in them.** Each stage of a decision has one directory of host
  results, which nothing clears; a run adds to it, and what is read is all it then holds.
- **The world is an argument.** Engine runs, verifiers, runners, the model and its tools, probes and
  readers of free text are arbitrary functions of what they are asked, or arbitrary values; a
  runner may exit, or raise part-way.
- **Clocks never go back** (`Clocks.Clock`); nothing else is known of them. Instants are reals and
  recorded times are cut to whole seconds, as the program cuts them.

The files, by what they model:

| files | of |
|---|---|
| `OperatorModel`, `OperatorRuns`, `OperatorLoop`, `OperatorWatch` | the operator's receipts, what holds over every run, its passes, its schedule |
| `DecisionModel`, `DecisionRuns`, `DecisionGate`, `DecisionWording`, `DecisionDocument` | decision records, every run of them, the store, its sentences, its documents |
| `Recording`, `Replay` | recorded runs, and that playing them back is faithful |
| `MigrationPlan`, `MigrationRuns`, `Migration` | the resumable migration |
| `DnsNames`, `DnsResponses`, `DnsFailures`, `DnsText`, `DnsTtl` | the DNS reader of the cutover: names, responses, exactly when each error is raised, answers as text, and the TTL check with its walk to the zone's nameserver |
| `InvestigationModel`, `Investigation`, `Excerpts` | the investigation loop and its bounded texts |
| `Limiter`, `Firewall`, `Slugs` | the demo's limits, the firewall audit, derived ids |
| `Results`, `Clocks`, `Names`, `Decimals` | shared types |

## Assumptions

- One process at a time works on a store, and it does not die between two writes.
- Receipt ids of the operator order as (creation second, fingerprint): both are written with a fixed
  width, so file-name order is that order. Two fingerprints are equal exactly when their triggers are
  meant to be the same; digests are arbitrary functions.
- The verify loop's poll interval is positive, and its waits add up exactly.
- The files and directories of a decision are those named after its id and stage; no two share one.
- A runner that exits with a status, or a record with a text, outside its schema is refused when the
  record is written; the schema limits that proposals and approvals can break are in
  `DecisionModel.Fits`, the others (paths, dates, ids) are taken as kept.
- JSON text is taken as the value it stands for. `json.dumps(..., sort_keys=True)` of two values is
  the same text exactly when the values are the same.

## What the proofs turned up

Properties that do not hold as one would expect, each with its exact condition or a concrete run:

- A decision can be executed more than once. It stays open when its runner raises (the engine's
  timeout does) *or when its record does not fit the schema*: an exit status outside 0 to 255, an
  approver of more than 128 characters, a host name over 253, or a verify step that changed hosts
  whose names take more than 225 characters of a 300-character verdict. Both playbooks have then run
  and the same approval runs them again (`DecisionRuns.RepeatedIffNotWritten`,
  `DecisionWording.WrittenExactlyWhen`, `DecisionWording.WideVerifyLeavesTheRecordOpen`; a run that does
  so is `DecisionWording.WideVerifyRun`). So an open record only means that no approval of it was
  written down, not that nothing ran (`DecisionRuns.OpenRecordsHaveNoConclusion`).
- A verify step can fail an approval that changed nothing. Its results are read together with those an
  earlier approval of the decision left, one that was not written down: the record is verified exactly
  when the step changed nothing *and came to every host left as changed*
  (`DecisionRuns.VerifiedMeansVerified`, `DecisionRuns.LeftByAnEarlierApproval`; a run in which a clean
  approval is recorded as failed is `DecisionWording.LeftoverFailsACleanApproval`).
- A read played back from a recording is refused after its check when the recording's path is too long
  for its sentence, although the schema and the command line take up to 512 characters
  (`DecisionWording.ProposalWrittenExactlyWhen`, `DecisionWording.LongRecordingsAreRefused`).
- A second proposal of an operation within the same second writes its check output over the one the
  first record cites, and is refused only then (`DecisionRuns.SameSecondOverwrites`).
- An approval does not read its record again: handed one that was open when it was loaded, it runs the
  playbook and overwrites whatever the store holds under that id by then
  (`DecisionGate.DecisionStore.Approve`; loading and approving as one step is `ApproveById`).
- The operator's "most recent receipt failed" means last in list order, which is creation order: a
  failure executed later than a success does not suspend autonomy when its receipt was created
  earlier (`OperatorRuns.LaterExecutedFailureDoesNotSuspend`; exactly when it does suspend is
  `OperatorRuns.FailureSuspendsUnlessVerifiedLater`).
- Quiet hours are read at the pass's clock, so an execution can start inside them
  (`OperatorRuns.QuietHoursMayBeginBeforeTheRun`, exactly when: `OperatorRuns.QuietAtStartExactlyWhen`).
- The rate limit counts every environment's executions, so bounds of several policies do not add up:
  all policies together stay within the largest (`OperatorRuns.FleetHourlyBound`).
- An engine error the operator does not expect, the runner's timeout among them, leaves no trace of the
  execution: the receipt stays proposed and the hourly limit does not count it. The engine is started
  again for a receipt exactly when every earlier start for it was lost so
  (`OperatorRuns.StartsAgainExactlyWhenLost`), and an hour holds at most the limit and the lost starts
  (`OperatorRuns.StartsHourlyBound`; a run above its limit is `OperatorRuns.LostStartsExceedTheLimit`).
- The DNS reader takes the reserved lengths 64 to 191 as labels, where section 2.3.4 of RFC 1035
  stops at 63 (`DnsNames.NameRoundTrip`).
- The TTL check reports a domain whose records it cannot get, but not every one: some errors end the
  whole check. They are a response cut short in a pointer or after an owner's name, a label that is not
  ASCII, and a nameserver whose name is read without an error and the address lookup does not take, for
  a label of 64 bytes or more or nothing between two dots (`DnsTtl.EndsTheCheckExactlyWhen`,
  `DnsFailures.ParsedFailsExactlyWhen`, `DnsTtl.ResolvableNames`; inputs are in
  `DnsFailures.UncaughtNames`, `DnsFailures.UncaughtRecord` and `DnsTtl.LongNameserverEndsTheCheck`).
- A dot inside a label is written as one between two: the text of a name gives its labels back exactly
  when there is at least one and none holds a dot (`DnsText.JoinSplits`; two names written alike are in
  `DnsText.DotsMislead`).
- An answer of the model whose tool calls are not a list of mappings ends the investigation without a
  record, unlike other malformed answers (`Investigation.Investigate`).
- An invocation does not read back from a recording when the target pattern is `--extra-vars`, when
  the playbook's path is not below the repository in the one form expected, or is itself a flag
  (`Replay.InvocationComesBack`).

## Model

| member | source | states |
|---|---|---|
| OperatorLoop.ProposalStore.Save | sdk/src/cloudfall/operator.py:498-504 | a new receipt is written, an existing one never overwritten |
| OperatorLoop.ProposalStore.Update | sdk/src/cloudfall/operator.py:506-512 | only an existing receipt is rewritten |
| OperatorLoop.ProposalStore.List | sdk/src/cloudfall/operator.py:526-534 | every receipt once, by creation time and then file name |
| OperatorLoop.RunOnce | sdk/src/cloudfall/operator.py:654-679 | the log grows by exactly the proposals the feed calls for, in feed order; it stops short only at a receipt id that is taken, of a declared alert no receipt covers, with those before it saved |
| OperatorLoop.WatchCoversTheFeed | sdk/src/cloudfall/operator.py:661-674 | every firing alert of a declared service ends up covered, each uncovered fingerprint is proposed once, for its alert's own server, and nothing else is; only undeclared ones are skipped |
| OperatorLoop.WatchKeepsFeedOrder | sdk/src/cloudfall/operator.py:661-674 | what a pass proposes is in feed order, each for the first alert of its fingerprint that is declared and uncovered |
| OperatorLoop.DriftPass | sdk/src/cloudfall/operator.py:682-728 | the log grows by exactly the proposals the audit calls for, services before the baseline; it stops short only at a receipt id that is taken, of an uncovered trigger, with those before it saved |
| OperatorLoop.DriftedFor | sdk/src/cloudfall/operator.py:693-714 | the two kinds split the drifted checks between them: the service and alerting-rule checks, and all others |
| OperatorLoop.DriftedInOrder | sdk/src/cloudfall/operator.py:693-714 | they keep the audit's order, on which the fingerprint depends |
| OperatorLoop.DriftCoversTheAudit | sdk/src/cloudfall/operator.py:693-723 | every server and operation kind with drifted checks ends up covered, under the fingerprint of the server, the kind and those checks |
| OperatorLoop.DriftProposesOnlyUncovered | sdk/src/cloudfall/operator.py:711-723 | a drift proposal has a drifted server behind it and no open, executed or failed receipt before it |
| OperatorLoop.DriftKeepsAuditOrder | sdk/src/cloudfall/operator.py:693-723 | what a pass proposes is in the order of the audit's servers, the services of each before its baseline |
| OperatorLoop.Verify | sdk/src/cloudfall/operator.py:921-957 | with a positive poll interval it ends within ceil(timeout / poll) + 1 calls, and not before the waits have come to the timeout unless a call decides; it passes exactly when one of those calls did |
| OperatorLoop.Execute | sdk/src/cloudfall/operator.py:883-957 | the receipts written for one execution, in order: proposed to failed, or through executed to verified or failed, with one execution time |
| OperatorLoop.ExecuteAndVerify | sdk/src/cloudfall/operator.py:883-957 | one execution is one event of the run, and its receipt says what the engine and the verifier answered: verified exactly when a call passed, executed when one raised, failed otherwise, with the approval given and a verification time read after the execution's; or it is lost, with the store as it was, when the engine raises what the loop does not catch |
| OperatorLoop.ConcludedAsAnswered | sdk/src/cloudfall/operator.py:893-957 | the receipt an execution leaves and what its caller hears, from the engine's and the verifier's answers alone |
| OperatorLoop.Approve | sdk/src/cloudfall/operator.py:832-866 | only an open receipt is executed, on a known channel, and concluded as the engine and the verifier answered; every refusal comes first and changes nothing; an unexpected engine error leaves the store as it was |
| OperatorLoop.Consider | sdk/src/cloudfall/operator.py:1086-1116 | one proposal is withheld with the decision that held it, "no policy" exactly when its server is undeclared or no policy is for its environment; or it runs under that policy, as one event that ended as its engine and its verifier answered |
| OperatorLoop.AutonomousPass | sdk/src/cloudfall/operator.py:1067-1117 | a pass decides every proposal open when it began, in list order, licensed at the one moment it read the clock; each execution ends as that receipt's engine and verifier answer, what it reports of one the store then holds, and each reason is the decision at the point it was made; the first execution that raises ends it, with exactly the proposals before it decided |
| OperatorLoop.WithheldForWantOfAPolicy | sdk/src/cloudfall/operator.py:1079-1104 | of what a pass kept back, exactly the receipts of servers without a policy for their environment are without one |
| OperatorWatch.Watch | sdk/src/cloudfall/operator.py:1191-1218 | every round begun runs the alerts pass over its own alerts; a drift pass exactly when the tick read is at or after the due time, which is set to the interval after a drift pass's end; an autonomy pass exactly when it is asked for; a pass that raises ends the round and the loop with its error |
| OperatorWatch.RunRound | sdk/src/cloudfall/operator.py:1209-1218 | one round, pass by pass: what each added to the log, from that pass's own input |
| OperatorWatch.WithoutAutonomyNothingStarts | sdk/src/cloudfall/operator.py:1209-1218 | over any number of rounds without autonomy, every event is a saved proposal |
| OperatorWatch.DriftPassesAreSpaced | sdk/src/cloudfall/operator.py:1208-1213 | no two drift passes begin closer together than the interval |
| OperatorWatch.FirstRoundRunsDrift | sdk/src/cloudfall/operator.py:1208-1213 | with a drift check, the first round runs it unless its alerts pass raised |
| OperatorRuns.WindowWasCounted | sdk/src/cloudfall/operator.py:1021-1031 | whatever was recorded in an hour that also holds the new execution was counted, although it started later and its time is cut to the second |
| OperatorRuns.PolicyHourlyBound | sdk/src/cloudfall/operator.py:1021-1037 | over every run, any half-open hour of recorded execution times holds at most maxAutonomousPerHour executions licensed by one policy; the largest of its values when the policy was edited between passes |
| OperatorRuns.FleetHourlyBound | sdk/src/cloudfall/operator.py:1022-1031 | all policies of a run together stay within the largest bound in any hour |
| OperatorRuns.StartsAreRecordedOrLost | sdk/src/cloudfall/operator.py:893-917 | the engine starts of an hour are its recorded executions and the lost starts |
| OperatorRuns.StartsHourlyBound | sdk/src/cloudfall/operator.py:1021-1037 | any hour holds at most as many engine starts as the policies allowed, and the lost ones on top |
| OperatorRuns.LostStartsExceedTheLimit | sdk/src/cloudfall/app.py:1718-1729 | a run in which a policy that allows one execution an hour starts the engine three times in one, because two starts were lost |
| OperatorRuns.SuspendedUntilPersonVerifies | sdk/src/cloudfall/operator.py:1006-1011 | once the last settled receipt of a kind failed, that kind runs autonomously again only after a person approved and verified a receipt later in list order |
| OperatorRuns.FailureSuspendsUnlessVerifiedLater | sdk/src/cloudfall/operator.py:1006-1011 | a failure suspends exactly while no verified receipt of the kind is later in list order |
| OperatorRuns.AutonomyIsEarnedByPeople | sdk/src/cloudfall/operator.py:979-1005 | the verified runs a grant requires were approved by people before the first autonomous run of the kind |
| OperatorRuns.AutonomousRunsWereGranted | sdk/src/cloudfall/operator.py:972-1043 | every autonomous execution was licensed by the last policy declared for its own server's environment, had the granted number of verified runs, and was decided outside quiet hours |
| OperatorRuns.DecidedExactlyWhen | sdk/src/cloudfall/operator.py:972-1043 | which decision a policy comes to, and exactly when it grants: the grant is declared, other receipts of the kind have the verified runs it asks for, the last settled one did not fail, the minute is outside quiet hours, and the executions of the hour before are below the limit |
| OperatorRuns.RecentAreTheHoursRuns | sdk/src/cloudfall/operator.py:1021-1031 | the hour's count is of exactly the autonomous executions recorded in the 3600 seconds before |
| OperatorRuns.OutcomesAgree | sdk/src/cloudfall/operator.py:883-957 | a receipt is verified exactly when its outcome says so, and a verification is never recorded before its execution |
| OperatorRuns.OneBlockingReceipt | sdk/src/cloudfall/operator.py:536-542 | at most one receipt of a fingerprint is proposed, executed or failed |
| OperatorRuns.BlockedExactlyWhen | sdk/src/cloudfall/operator.py:536-542 | the fingerprints held back are exactly those of receipts that are proposed, executed or failed |
| OperatorRuns.FailedFingerprintStaysBlocked | sdk/src/cloudfall/operator.py:100-102 | a fingerprint that failed, or was left executed, is never proposed again |
| OperatorRuns.ExecutedAtMostOnce | sdk/src/cloudfall/operator.py:852-857 | no two executions of one receipt are recorded, whoever lets them through |
| OperatorRuns.EarlierStartsWereLost | sdk/src/cloudfall/operator.py:893-917 | when the engine is started again for a receipt, every earlier start for it was lost |
| OperatorRuns.StartsAgainExactlyWhenLost | sdk/src/cloudfall/operator.py:852-866 | a person's approval starts the engine for a receipt, however often it was started before, exactly when every earlier start was lost |
| OperatorRuns.ConcludedReceiptsAreFinal | sdk/src/cloudfall/operator.py:883-957 | a receipt never leaves the store, keeps its identity, and never changes once it is not open |
| OperatorRuns.ConcludedBy | sdk/src/cloudfall/operator.py:883-957 | a receipt that is not open was concluded by one execution of the run, as its ending says |
| OperatorRuns.QuietHoursWrap | sdk/src/cloudfall/inventory.py:787-793 | the window holds exactly the minutes less than its length after its start, midnight or not |
| OperatorRuns.QuietAtStartExactlyWhen | sdk/src/cloudfall/operator.py:1012-1020 | exactly when an execution decided outside quiet hours starts inside them |
| OperatorRuns.QuietHoursMayBeginBeforeTheRun | sdk/src/cloudfall/operator.py:1078-1078 | a run in which an autonomous execution starts in quiet hours |
| OperatorRuns.LaterExecutedFailureDoesNotSuspend | sdk/src/cloudfall/operator.py:526-534 | a run whose last execution failed and whose next one is autonomous all the same |
| OperatorModel.FirstGrant | sdk/src/cloudfall/inventory.py:810-819 | the grant is the first one declared for the kind, and there is none exactly if none is declared |
| OperatorModel.PolicyOf | sdk/src/cloudfall/operator.py:1079-1081 | the policy used is the last one declared for the environment, and there is none exactly if none is declared |
| DecisionGate.ReadTree | sdk/src/cloudfall/decision.py:803-835 | every host with a result is listed once, in order, under whether it reported a change |
| DecisionGate.DecisionStore.Save | sdk/src/cloudfall/decision.py:361-367 | a record is written only under a new id and only when it fits its schema |
| DecisionGate.DecisionStore.Update | sdk/src/cloudfall/decision.py:369-375 | only an existing record is rewritten, and only by one that fits |
| DecisionGate.DecisionStore.List | sdk/src/cloudfall/decision.py:401-409 | every record once, oldest proposal first and by file name within one second |
| DecisionGate.DecisionStore.SupersedeOlder | sdk/src/cloudfall/decision.py:499-517 | the loop over the listed records marks exactly the open ones of the call and replay |
| DecisionGate.DecisionStore.Propose | sdk/src/cloudfall/decision.py:437-518 | into any directory of records that load: one check run; the record says what was asked, the gate of its risk, and the exit code, hosts and output of what is then read; it, and the ones it replaces, are written, or the error is given and no record changed |
| DecisionRuns.NewDecisionSays | sdk/src/cloudfall/decision.py:437-497 | a new record keeps the request, the requirement of its risk and what its check came to, and waits for an approval unless it is a read |
| DecisionRuns.StoredRecordSays | sdk/src/cloudfall/decision.py:437-518 | every record of a run still says what was proposed and what its check came to |
| DecisionGate.DecisionStore.ProposeInRun | sdk/src/cloudfall/decision.py:437-518 | into the store of a run: one event more, recorded or not |
| DecisionGate.DecisionStore.RunStage | sdk/src/cloudfall/decision.py:704-730 | one start of the recorded playbook against the recorded targets and inputs, and what its directory holds after it |
| DecisionGate.DecisionStore.Approve | sdk/src/cloudfall/decision.py:560-608 | nothing starts when it is refused; the verify step starts only after exit 0; the record is written only at the end, and then its execution is what the execution run came to, its verification what the verify run did, and its approval the request's |
| DecisionRuns.ApprovedRecordSays | sdk/src/cloudfall/decision.py:560-730 | a written-down record keeps of each of its runs that run's time, exit code, hosts and output, the verify run exactly when it ran, the approver, start and channel of the request, and the status and reason those runs come to |
| DecisionRuns.ConcludedRecordSays | sdk/src/cloudfall/decision.py:560-608 | so does, for good, the record that a run's last complete approval leaves |
| DecisionRuns.ApprovalRefusedExactlyWhen | sdk/src/cloudfall/decision.py:560-659 | exactly when an approval is refused, and with which reason first |
| DecisionGate.DecisionStore.ApproveById | sdk/src/cloudfall/decision.py:560-608 | loading a record and approving it is one event of the run |
| DecisionRuns.OnlyApprovedRunsChange | sdk/src/cloudfall/decision.py:560-601 | a playbook starts without --check only for a live, open record of an operation that is not a read, on the approval of a named person at a terminal, and a second one only after exit 0 |
| DecisionRuns.ApprovedCommandWasChecked | sdk/src/cloudfall/decision.py:704-753 | the argv an approval runs is that of the proposal's check run with --check removed; the verify step, when it runs, is the proposed operation's own, with the same limit and inputs; nothing else starts |
| DecisionRuns.CommandWithoutCheck | sdk/src/cloudfall/decision.py:733-761 | check mode adds --check to an invocation and changes nothing else |
| DecisionRuns.CommandHolds | sdk/src/cloudfall/decision.py:733-761 | what an invocation is made of: the engine, whether it only checks, that it reports differences, the limit and the inputs when there are any, and the playbook last |
| DecisionRuns.RecordsPersist | sdk/src/cloudfall/decision.py:361-375 | no record is lost, its proposal never changes, and nothing of it once it is not open |
| DecisionRuns.ChangedOnlyBy | sdk/src/cloudfall/decision.py:361-375 | a record changes only while it is open, by a new one of its call and replay or by its own approval that is written down |
| DecisionRuns.BornOnce | sdk/src/cloudfall/decision.py:361-367 | no two proposals leave a record of one id |
| DecisionRuns.StoredRecordsFit | sdk/src/cloudfall/decision.py:414-422 | every stored record fits its schema and lies under its own id, superseded ones too |
| DecisionRuns.OpenRecordsWait | sdk/src/cloudfall/decision.py:476-497 | an open record is of an operation that changes something, and notes no approval and no run |
| DecisionRuns.OpenRecordsHaveNoConclusion | sdk/src/cloudfall/decision.py:560-608 | whatever was started for a record that is open belongs to approvals that were not written down |
| DecisionRuns.CompleteAttemptIsLast | sdk/src/cloudfall/decision.py:611-618 | an approval that is written down is the last one of its decision |
| DecisionRuns.RepeatedIffNotWritten | sdk/src/cloudfall/decision.py:560-608 | the same approval is accepted again exactly when the first was not written down |
| DecisionRuns.ConcludedBy | sdk/src/cloudfall/decision.py:594-607 | a record that says a run ended was left by one complete approval |
| DecisionRuns.ConclusionStays | sdk/src/cloudfall/decision.py:594-607 | what a complete approval leaves is there for good |
| DecisionRuns.VerifiedMeansVerified | sdk/src/cloudfall/decision.py:662-730 | verified means exactly: a written-down approval's run exited 0, its verify step ran, exited 0, changed no host, and came to every host an earlier verify step of the decision left as changed; executed exactly: it exited 0 and no verify step was declared |
| DecisionRuns.ReadVerified | sdk/src/cloudfall/decision.py:803-820 | a verify step reads as clean exactly when it was clean and rewrote what was left as changed |
| DecisionRuns.LeftBy | sdk/src/cloudfall/decision.py:803-820 | a host's result on file is the one the last run that came to the host left there |
| DecisionRuns.LeftByAnEarlierApproval | sdk/src/cloudfall/decision.py:704-730 | what a verify step finds left as changed is of an earlier approval of the same decision that was not written down |
| DecisionRuns.NoOtherOpenRecord | sdk/src/cloudfall/decision.py:498-517 | from any store, after a proposal no other open record is of its call and replay |
| DecisionRuns.SupersedesExactly | sdk/src/cloudfall/decision.py:499-517 | a recorded proposal marks exactly the open records of its operation, targets, inputs and replay, changes nothing else of them, and no other record |
| DecisionRuns.OneOpenRecordPerCall | sdk/src/cloudfall/decision.py:301-307 | over every run, at most one open record per call and replay |
| DecisionRuns.SupersededByLater | sdk/src/cloudfall/decision.py:499-517 | a superseded record names a record of the same operation, targets, inputs and replay that was proposed after it, and its sentence names that one |
| DecisionRuns.ChainsAreAcyclic | sdk/src/cloudfall/decision.py:499-517 | no chain of superseded records comes back to a record it passed |
| DecisionRuns.ChainEnds | sdk/src/cloudfall/decision.py:499-517 | every record's chain ends in a record of the same call and replay that nothing superseded |
| DecisionRuns.OutputIsKept | sdk/src/cloudfall/decision.py:462-475 | the output a record cites is the one on file unless a later check wrote over it |
| DecisionRuns.SameSecondOverwrites | sdk/src/cloudfall/decision.py:461-498 | a proposal refused because its id is taken has replaced the recorded output |
| DecisionWording.VerdictFits | sdk/src/cloudfall/decision.py:662-701 | every verdict fits 300 characters but for one that names too many changed hosts, and exactly which |
| DecisionWording.ProposalWrittenExactlyWhen | sdk/src/cloudfall/decision.py:414-422 | exactly when the record of a check that exited is written, a replayed read's sentence included |
| DecisionWording.LongRecordingsAreRefused | sdk/src/cloudfall/decision.py:521-527 | a replayed read from a recording with a path of 205 to 512 characters is refused after its check |
| DecisionWording.WrittenExactlyWhen | sdk/src/cloudfall/decision.py:414-422 | exactly when an approval whose runs answered is written down |
| DecisionWording.WideVerifyLeavesTheRecordOpen | sdk/src/cloudfall/decision.py:691-697 | a verify step that changed more hosts than a sentence can name leaves the decision open after both runs |
| DecisionWording.WideVerifyRun | sdk/src/cloudfall/decision.py:560-608 | a run in which one approval starts both playbooks twice over and its decision is open still |
| DecisionWording.LeftoverFailsACleanApproval | sdk/src/cloudfall/decision.py:704-730 | a run in which an approval's playbook and verify step are clean and its record says failed, naming a host an earlier approval left as changed |
| DecisionWording.LongNameIsWide | sdk/src/cloudfall/decision.py:691-697 | one host with a long name is enough |
| DecisionWording.EnglishSupersedes | sdk/src/cloudfall/decision.py:512-515 | the sentence of a superseded record fits for every id |
| DecisionDocument.DocumentRoundTrip | sdk/src/cloudfall/decision.py:309-347 | the document of every decision reads back as the same decision |
| DecisionDocument.DocumentsDiffer | sdk/src/cloudfall/decision.py:967-1021 | two decisions never share a document |
| DecisionDocument.SpecFieldsAt | sdk/src/cloudfall/decision.py:311-341 | optional fields are there exactly when the decision has them, and none hides another |
| DecisionDocument.InputsReadBack | sdk/src/cloudfall/decision.py:322-322 | inputs of any names and values read back |
| DecisionDocument.ApprovalWithoutChannel | sdk/src/cloudfall/decision.py:250-255 | an approval recorded before channels reads with an unknown one and is otherwise the same |
| Recording.Load | sdk/src/cloudfall/recording.py:62-104 | it loads exactly when every file holds an object, every decision record can be read and there is one; each call gets the run of its first file |
| Recording.RecordsSetDefault | sdk/src/cloudfall/recording.py:83-100 | keeping the first of a call keeps the recording that of the files so far |
| Recording.WriteTree | sdk/src/cloudfall/recording.py:153-163 | the host results left for a run, changed hosts first |
| Recording.Play | sdk/src/cloudfall/recording.py:109-122 | the runner plays the recorded run of the call it reads, or exits 3 |
| Replay.InvocationComesBack | sdk/src/cloudfall/recording.py:134-150 | exactly when an invocation reads back as the call it was built from |
| Replay.PlayRaisesExactlyWhen | sdk/src/cloudfall/recording.py:134-150 | exactly which checks cannot be played back at all: those whose pattern or path is taken for a flag |
| Replay.PathComesBack | sdk/src/cloudfall/recording.py:143-144 | exactly when the repository's path comes off a playbook's |
| Replay.TreeComesBack | sdk/src/cloudfall/recording.py:153-163 | exactly the sorted, disjoint host lists read back from the results left for them |
| Replay.PlayedOver | sdk/src/cloudfall/recording.py:153-163 | the hosts of a played-back run are all that is read exactly when it came to every host left there |
| Replay.PreviewsAreReadouts | sdk/src/cloudfall/decision.py:803-820 | every preview's host lists are sorted and disjoint |
| Replay.FileReads | sdk/src/cloudfall/recording.py:73-100 | a decision's own record holds its call and its check, with the output beside it or the sentence that it is missing |
| Replay.ReplayFidelity | sdk/src/cloudfall/recording.py:106-124 | a replayed proposal reports the exit code and output of the first recorded run of its call, and its hosts exactly when no other host's result was left in the check's directory |
| Replay.AbsentCallsFail | sdk/src/cloudfall/recording.py:112-119 | a call no file holds exits 3 and reports no host but those left in the check's directory |
| Replay.ReplayOfARun | sdk/src/cloudfall/recording.py:62-124 | the directory of any run of proposals and approvals, played back, gives a call the check of its first record, exactly when no other host's result was left where the new check reads |
| Replay.ReplaysAreRefused | sdk/src/cloudfall/decision.py:645-659 | what was played back is never approved |
| Names.Sort | sdk/src/cloudfall/decision.py:809-809 | a set of names in strictly growing order |
| Names.SortedUnique | sdk/src/cloudfall/decision.py:809-809 | there is only one such listing |
| MigrationRuns.CompletedStepsAreAPrefix | sdk/src/cloudfall/migrate.py:143-184 | after any sequence of interrupted and resumed runs the completed steps of the file are a prefix of the computed ones |
| MigrationRuns.RunKeepsThePlan | sdk/src/cloudfall/migrate.py:162-184 | a run completes the pending steps in order, each once, up to where it stops, and the releases in hand are those the plan records |
| MigrationRuns.ResumedEqualsUninterrupted | sdk/src/cloudfall/migrate.py:143-184 | runs that end "ok" leave the plan and releases of one uninterrupted run with the same step results |
| MigrationRuns.ComputedOnce | sdk/src/cloudfall/migrate.py:203-285 | no step is computed twice |
| MigrationRuns.ComputedExactlyWhen | sdk/src/cloudfall/migrate.py:203-285 | exactly which steps a migration has |
| MigrationRuns.ComputedInPhases | sdk/src/cloudfall/migrate.py:203-285 | their order: the baseline, the services, the lowered TTL, the data, the components; then the HTTP routes, the parallel run, the DNS check, the certificates, the inspection, the audit, the routes' check and the rollback window |
| MigrationRuns.ComputedLayout | sdk/src/cloudfall/migrate.py:203-285 | where each of them is, and that the components' steps lie between |
| MigrationRuns.ComponentsKeepOrder | sdk/src/cloudfall/migrate.py:228-242 | the steps of the components keep the components' order |
| MigrationRuns.EarlierPhasesAreDone | sdk/src/cloudfall/migrate.py:155-184 | a step runs, fresh or resumed, only once every step of an earlier phase is completed: certificates after the DNS check, the audit after the inspection |
| MigrationRuns.LoadedExactlyWhen | sdk/src/cloudfall/migrate.py:334-376 | which plan a run works on: the one on file when it is of the computed steps, or a fresh one; any other is stale |
| MigrationRuns.FileHoldsExactly | sdk/src/cloudfall/migrate.py:162-184 | what a run leaves on file: its plan when a step completed or an error was recorded, and otherwise what was there |
| MigrationRuns.RefusedExactlyWhen | sdk/src/cloudfall/migrate.py:288-331 | exactly which inputs are refused, and how |
| MigrationRuns.EveryStepHasARunner | sdk/src/cloudfall/migrate.py:304-312 | every computed step has a runner exactly when every component has a git ref or a pinned release |
| MigrationRuns.AcceptedStepsHaveRunners | sdk/src/cloudfall/migrate.py:288-312 | a migration that is not refused has a runner for every step |
| MigrationRuns.BuildsGetTheirRefs | sdk/src/cloudfall/migrate.py:441-462 | every build a run makes, and one it stops at, is of the git ref its component was given |
| MigrationRuns.ComponentStepsHold | sdk/src/cloudfall/migrate.py:203-285 | the steps of the components: a deployment of each, a build of each that is not pinned |
| MigrationRuns.ComputedBuildFirst | sdk/src/cloudfall/migrate.py:203-285 | each deployment is of a pinned component or comes after its build |
| MigrationRuns.DeploysFindReleases | sdk/src/cloudfall/migrate.py:464-471 | no deployment, fresh or resumed, fails for want of a release |
| MigrationRuns.DeploysGetTheirReleases | sdk/src/cloudfall/migrate.py:391-485 | every deployment a run makes, and one it stops at, is of the pinned release or of the one the component's build recorded earlier in the plan |
| MigrationRuns.EachStepRan | sdk/src/cloudfall/migrate.py:155-184 | each step of a run, fresh or resumed, ran on the plan as it stood and with the releases recovered from it; the plan then says it is completed, when, and with what detail, and the run stops with what the first failing one came to |
| MigrationRuns.RunStopsAsAnswered | sdk/src/cloudfall/migrate.py:162-184 | how a run stops, from what the step it stopped at was asked for and answered |
| MigrationRuns.RollbackFindsBoth | sdk/src/cloudfall/migrate.py:571-598 | the rollback recipe always finds the answers measured before the switch and the time of the switch, fresh or resumed |
| MigrationRuns.FileIsRecorded | sdk/src/cloudfall/migrate.py:162-184 | after any sequence of runs every completed step of the file says when and what |
| MigrationRuns.AfterStep | sdk/src/cloudfall/migrate.py:391-405 | what a build recorded is what a resumed run recovers |
| MigrationRuns.PrefixesAgree | sdk/src/cloudfall/migrate.py:334-376 | two plans that record the same answers agree on the steps both have completed |
| MigrationRuns.PerfectGetsAsFar | sdk/src/cloudfall/migrate.py:162-184 | an uninterrupted run gets as far as any resumed one has |
| MigrationRuns.FileHoldsTheEnd | sdk/src/cloudfall/migrate.py:379-388 | after a run that ended "ok" the file holds its plan |
| Migration.RunSteps | sdk/src/cloudfall/migrate.py:162-184 | the step loop, in place, leaves the plan, the file and the result that one run comes to |
| Migration.ExecuteMigration | sdk/src/cloudfall/migrate.py:143-184 | refusals and previews change nothing; otherwise the loaded plan is run |
| Migration.ResultSays | sdk/src/cloudfall/migrate.py:162-200 | what a caller sees of a run: its plan, under how it ended, or the runner's own error |
| Migration.Resume | sdk/src/cloudfall/migrate.py:143-184 | a migration run again keeps the completed prefix, each step of which succeeded once, and "ok" means all of them |
| Migration.FileIsTracked | sdk/src/cloudfall/migrate.py:334-388 | from any tracked file a run leaves a tracked file, and loses no success |
| Migration.EnvelopeCountsThePrefix | sdk/src/cloudfall/migrate.py:187-200 | the count and the next step of a result are those of the completed prefix |
| DnsNames.ReadName | sdk/src/cloudfall/cutover.py:343-370 | it ends on every payload and offset, with an end in (offset, length], and reads what the wire form means |
| DnsNames.EndInBounds | sdk/src/cloudfall/cutover.py:343-370 | a name that is read ends within the payload |
| DnsNames.ReadsWhatIsRepresented | sdk/src/cloudfall/cutover.py:350-362 | a name through at most 32 pointers is read, one through more is malformed |
| DnsNames.ReadsExactlyTheNames | sdk/src/cloudfall/cutover.py:343-370 | reading gives some labels exactly when the bytes represent them by section 4.1.4 of RFC 1035 through at most 32 pointers |
| DnsNames.CompressedName | sdk/src/cloudfall/cutover.py:355-362 | a compressed name represents the labels of its uncompressed form |
| DnsNames.NameRoundTrip | sdk/src/cloudfall/cutover.py:280-288 | an uncompressed name reads back exactly when each label is ASCII and of 1 to 191 bytes |
| DnsFailures.NameFailsExactlyWhen | sdk/src/cloudfall/cutover.py:343-370 | reading a name gives each error exactly when its walk over at most 32 pointers and ASCII labels stops that way: past the payload or at a 33rd pointer, on half a pointer, on a label that is not ASCII |
| DnsFailures.RecordFailsExactlyWhen | sdk/src/cloudfall/cutover.py:307-326 | a record gives an error exactly when its owner's name does, fewer than ten bytes follow it, or the name in its data does |
| DnsFailures.ParsedFailsExactlyWhen | sdk/src/cloudfall/cutover.py:291-327 | a response gives each error exactly when its header, the first question that fails or the first answer that fails does |
| DnsFailures.UncaughtNames | sdk/src/cloudfall/cutover.py:343-370 | two payloads whose names raise errors the cutover does not catch |
| DnsFailures.UncaughtRecord | sdk/src/cloudfall/cutover.py:308-310 | a payload whose record ends after its owner's name |
| DnsResponses.ParseAnswers | sdk/src/cloudfall/cutover.py:291-327 | the offset loop reads the answer section record by record, with the same errors |
| DnsResponses.ReadRecord | sdk/src/cloudfall/cutover.py:307-326 | one record: its name, fields and value, or that it is of a type not read |
| DnsResponses.ReadsExactlyTheRecords | sdk/src/cloudfall/cutover.py:307-340 | reading a record gives answers and an end exactly when the bytes are a record of section 4.1.3 of RFC 1035 that gives them |
| DnsResponses.ReadsExactlyTheResponses | sdk/src/cloudfall/cutover.py:291-340 | parsing gives some answers exactly when the payload is a response, names compressed anyhow, whose records give them |
| DnsResponses.ResponseRoundTrip | sdk/src/cloudfall/cutover.py:280-340 | a response to the query sent parses to exactly its A, AAAA, NS and CNAME records, in order, names written out or going on wherever a pointer leads, as labels, and addresses as bytes |
| DnsResponses.RecordRoundTrip | sdk/src/cloudfall/cutover.py:307-340 | one encoded record is laid out and reads back where it is written, and reading goes on after it |
| DnsResponses.QuestionRoundTrip | sdk/src/cloudfall/cutover.py:303-306 | the question the query wrote is skipped exactly |
| DnsResponses.WrittenNameServes | sdk/src/cloudfall/cutover.py:355-362 | a written-out name can be pointed to from each of its labels on |
| DnsResponses.AliasThenAddress | sdk/src/cloudfall/cutover.py:291-340 | an alias and its address, the second owner pointing into the first record's data, are both read |
| DnsText.ResponseTexts | sdk/src/cloudfall/cutover.py:280-340 | the same response as text: each record's answer written out, and those for the queried name bear it as it was asked, but for dots at its end |
| DnsText.SplitJoins | sdk/src/cloudfall/cutover.py:284-287 | a name split into labels and joined again is the name |
| DnsText.JoinSplits | sdk/src/cloudfall/cutover.py:370-370 | labels come back from the text of a name exactly when there is one and none holds a dot |
| DnsText.QueriedNameComesBack | sdk/src/cloudfall/cutover.py:284-287 | the labels a query asks for are written as the name was, but for dots at its end |
| DnsText.NamesDiffer | sdk/src/cloudfall/cutover.py:370-370 | two names of dotless labels are written alike only when they are the same |
| DnsText.AddressesDiffer | sdk/src/cloudfall/cutover.py:333-334 | two addresses are written alike only when they are the same |
| DnsText.AnswersDiffer | sdk/src/cloudfall/cutover.py:330-340 | two answers, names, types, TTLs and values, are written alike only when they are the same |
| DnsText.AnswersAreWritten | sdk/src/cloudfall/cutover.py:330-340 | four bytes are written in order with dots between them, names label by label, and each type by its own name |
| DnsText.DotsMislead | sdk/src/cloudfall/cutover.py:370-370 | two names that are written alike |
| DnsTtl.CheckTtl | sdk/src/cloudfall/cutover.py:107-140 | the reported domains are, in order, exactly those with an A or an AAAA answer of their own nameserver above the bound, or whose answers cannot be had: no resolver, a walk or a query that fails, or no record of either type; there is no report exactly when an error the check does not catch is raised |
| DnsTtl.AnswersAreOfBothQueries | sdk/src/cloudfall/cutover.py:86-104 | a domain's answers are those its nameserver gave to the A or to the AAAA query, each once, and exactly when it has any |
| DnsTtl.ReportedExactlyWhen | sdk/src/cloudfall/cutover.py:86-131 | so what is reported follows from the two queries |
| DnsTtl.QueryGivesExactlyWhen | sdk/src/cloudfall/cutover.py:266-327 | a query gives some answers exactly when it can be written and is answered by a response under its id whose records, written out, are those |
| DnsTtl.WalkGivesExactlyWhen | sdk/src/cloudfall/cutover.py:240-263 | the walk gives an address exactly when the first nameserver named, from the host name up, can be looked up and has it |
| DnsTtl.AskableExactlyWhen | sdk/src/cloudfall/cutover.py:280-288 | a name can be written in a query exactly when some labels of ASCII, each counted in one byte, are written as it is |
| DnsTtl.ZoneNameserver | sdk/src/cloudfall/cutover.py:240-263 | the address of the nameserver of the first zone that names one, from the host name up |
| DnsTtl.AuthoritativeAnswers | sdk/src/cloudfall/cutover.py:86-104 | the A and AAAA answers together, each once; none of either is an error of the domain |
| DnsTtl.QueryRaisesExactlyWhen | sdk/src/cloudfall/cutover.py:266-327 | a query raises what is not caught exactly when its name cannot be written or its response cannot be decoded |
| DnsTtl.WalkRaisesExactlyWhen | sdk/src/cloudfall/cutover.py:240-263 | the walk does exactly when it comes to a zone whose query does, or whose nameserver's name cannot be looked up |
| DnsTtl.EndsTheCheckExactlyWhen | sdk/src/cloudfall/cutover.py:86-126 | exactly which domains end the check: by the walk, or by the A or the AAAA query of the nameserver found |
| DnsTtl.HostnamesCanBeAsked | sdk/src/cloudfall/cutover.py:280-288 | every zone of a declared host name can be written in a query |
| DnsTtl.ResolvableNames | sdk/src/cloudfall/cutover.py:249-258 | a nameserver's name can be looked up exactly when its labels are within 63 bytes |
| DnsTtl.LongNameserverEndsTheCheck | sdk/src/cloudfall/cutover.py:246-258 | any response that names a nameserver with a label of 64 to 191 bytes ends the check |
| InvestigationModel.InvokedOnce | sdk/src/cloudfall/investigation.py:729-744 | each distinct accepted call runs exactly once |
| InvestigationModel.RepeatsReturnTheFirst | sdk/src/cloudfall/investigation.py:730-741 | a call made again runs nothing and returns what the first one returned |
| InvestigationModel.SeenStays | sdk/src/cloudfall/investigation.py:742-744 | a first result is never replaced |
| InvestigationModel.AcceptedExactlyWhen | sdk/src/cloudfall/investigation.py:690-728 | exactly which calls run or repeat: those whose arguments are an object that a known tool accepts |
| InvestigationModel.CallComesTo | sdk/src/cloudfall/investigation.py:690-744 | what a call returns and the step kept of it: refused, repeated with the first result's decision, or what the tool gave |
| InvestigationModel.TranscriptAt | sdk/src/cloudfall/investigation.py:464-567 | what the model is shown: the prompt and the alert, then each of its messages with one answer to each call right after it, in order |
| InvestigationModel.FindingsAreHonest | sdk/src/cloudfall/investigation.py:769-793 | a finding's proposals are exactly the named ones this investigation proposed, and those it calls unrecorded exactly the named ones no step wrote; none is both |
| InvestigationModel.FindingKeepsOrder | sdk/src/cloudfall/investigation.py:769-793 | both lists are in the order the names were given, each at its first place |
| Investigation.RunCall | sdk/src/cloudfall/investigation.py:690-744 | one call is refused, repeated or run, and the step kept of it |
| Investigation.AnswerCalls | sdk/src/cloudfall/investigation.py:543-553 | the calls of a turn are answered in order, one tool message each, until one cannot be read or the reader leaves |
| Investigation.Investigate | sdk/src/cloudfall/investigation.py:464-567 | at every way to end: turns within the limit, steps and trace those of the turns taken, every question the whole transcript so far; there is no record exactly when an answer's calls are not a list of mappings |
| Investigation.LedgerAgrees | sdk/src/cloudfall/investigation.py:516-537 | the prompt and the completion tokens of a record are the sums of its traced turns', at every end, but for the one turn the model failed, which is counted and adds only what a malformed answer reported |
| Investigation.TraceKeeps | sdk/src/cloudfall/investigation.py:516-537 | each turn is traced with its number, its tokens, the number of its calls and its text, cut to the limit |
| Investigation.RecordInvokedOnce | sdk/src/cloudfall/investigation.py:729-744 | no tool run of a record is a repetition |
| Investigation.ToolMessageAt | sdk/src/cloudfall/investigation.py:543-553 | the i-th answered call has the i-th tool message, with its id and result |
| Investigation.InvestigationStore.Save | sdk/src/cloudfall/investigation.py:329-359 | a record gets the first free id of its second, and none is overwritten |
| Investigation.SavedIdsDiffer | sdk/src/cloudfall/investigation.py:342-343 | two attempts never try the same id |
| Excerpts.TraceTextKeepsTheEnd | sdk/src/cloudfall/investigation.py:577-588 | an excerpt is an exact suffix behind a mark that names what was dropped, within the limit |
| Excerpts.TraceTextFitsExactlyWhen | sdk/src/cloudfall/investigation.py:577-588 | it keeps within the limit exactly when the limit is above the mark's length |
| Excerpts.HeadTextKeepsTheStart | sdk/src/cloudfall/investigation.py:591-603 | an excerpt is an exact prefix before a mark that names what was dropped |
| Excerpts.HeadTextFitsExactlyWhen | sdk/src/cloudfall/investigation.py:591-603 | it keeps within the limit exactly when the limit holds the mark |
| Excerpts.HostTextKeepsTheEnd | sdk/src/cloudfall/investigation.py:570-574 | the last 8000 characters, behind a mark that names the others |
| Excerpts.KeptTextsFit | sdk/src/cloudfall/investigation.py:577-603 | every text of fewer than 10^100 characters is kept within 8000 |
| Excerpts.MarksName | sdk/src/cloudfall/investigation.py:606-611 | the count a mark names can be read off it |
| Excerpts.FailureDetailFitsExactlyWhen | sdk/src/cloudfall/operator.py:869-880 | a failure's detail fits its receipt exactly when its code leaves room, and ends as the message does |
| Decimals.LengthGrows | sdk/src/cloudfall/investigation.py:586-587 | a larger count has at least as long a text |
| Limiter.Limits.Refuse | demo/src/cloudfall_demo/server.py:86-100 | the pruned queue decides as counting the address's whole history would; a new day resets the tokens |
| Limiter.HourBound | demo/src/cloudfall_demo/server.py:93-100 | any closed hour holds at most the allowed runs of one address |
| Limiter.OnlyOwnRunsCount | demo/src/cloudfall_demo/server.py:93-98 | what other addresses did plays no part |
| Limiter.QueueCounts | demo/src/cloudfall_demo/server.py:94-97 | a queue whose front is recent holds every recent run |
| Limiter.Limits.CountTokens | demo/src/cloudfall_demo/server.py:233-244 | the tokens spent are those of the turns among all lines since the day changed; other lines add nothing |
| Firewall.Accepts | sdk/src/cloudfall/inventory.py:235-246 | a contract is refused exactly when two rules share port and protocol |
| Firewall.EffectiveRulesHoldSsh | sdk/src/cloudfall/inventory.py:2008-2022 | the effective rules are without duplicates, hold what is declared, and let SSH in |
| Firewall.AcceptedEndpoint | sdk/src/cloudfall/audit.py:525-551 | the endpoint of a rule: it has an accept, and its last plain port counts |
| Firewall.ParseTable | sdk/src/cloudfall/audit.py:484-522 | the endpoints and the last policy of the managed input chain, when the table is there |
| Firewall.AuditFirewall | sdk/src/cloudfall/audit.py:437-481 | the rule check is compliant exactly when the accepted endpoints are the effective rules as a multiset |
| Firewall.SortedEqual | sdk/src/cloudfall/audit.py:450-454 | sorted lists are equal exactly when the lists hold the same endpoints as often |
| Firewall.ComplianceMeans | sdk/src/cloudfall/audit.py:450-481 | a compliant chain names SSH and every declared endpoint once, and no other |
| Firewall.OrderPlaysNoPart | sdk/src/cloudfall/audit.py:454-454 | two listings of the same entries, in any orders, comply or fail alike |
| Firewall.EntriesSeen | sdk/src/cloudfall/audit.py:508-516 | exactly which entries of a listing count |
| Firewall.WrittenTableComplies | sdk/src/cloudfall/audit.py:437-481 | a table with one accept rule per effective rule complies |
| Slugs.SlugsAreValid | sdk/src/cloudfall/importer.py:870-876 | every derived id is a valid one |
| Slugs.ValidSlugsStay | sdk/src/cloudfall/importer.py:870-876 | exactly the valid ids are derived from themselves |
| Slugs.SlugExistsWhen | sdk/src/cloudfall/importer.py:873-875 | an id can be derived exactly when the first plain character is a letter |
| Slugs.ImportState.ClaimId | sdk/src/cloudfall/importer.py:132-136 | a taken id is refused, a new one is claimed |
| Slugs.ImportState.ClaimAll | sdk/src/cloudfall/importer.py:338-339 | ids are claimed in the order of the names, after those claimed already, up to the first name that has none or a taken one |

## Left out

- Running Ansible, git, DNS sockets, HTTP and the model endpoint: they are the arbitrary functions above.
- Files and their text: stores are maps, documents a small JSON datatype; text that is not JSON, and schema failures beyond `DecisionModel.Fits`, are not modelled.
- Processes that die between two writes, and two processes on one store.
- Validation of targets and inputs before a proposal (`_validated_targets`, `_validated_inputs`): the request holds what they accepted; `read_basis` is part of the request.
- `ansible-playbook` missing from the controller, and the environment handed to it but for the results directory.
- SHA-256, fingerprints and certificates: arbitrary functions.
- Typed projections (`as_dict`), the command line, the application, the dashboard, the demo's pages and streaming.
- The probes and routes of the cutover beyond the TTL check; how the sixteen bytes of an address are written (`inet_ntop`) is an arbitrary function, and so is what the address lookup answers for a name it takes. The system resolver's address is one the socket takes.
- The readers of a model's three-line answer and of decision ids in it are an arbitrary function of the answer.
- The wording of refusals shown to the model; steps keep their outcome and decision. A tool that raises ends the investigation without a record, and is not modelled.
- `claim_port`: it does not record declared ports, so nothing is claimed of it.
- Other checks of the server audit than the firewall's: comparisons of single fields.
- DecisionGate.DecisionStore.Propose: takes every open record of the directory to lie under its own id; a file renamed by hand, whose record would be rewritten under the id it names, is not modelled.
- DecisionGate.DecisionStore.Approve: takes the record it is given, as the program does; that the store still holds it is what `ApproveById` adds.
- Limiter.Limits.Refuse: the number of runs at once (a semaphore) is not modelled.
