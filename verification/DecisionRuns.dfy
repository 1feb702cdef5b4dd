/** What holds over every run of proposals and approvals, from an empty store. */
module DecisionRuns {
  import opened Results
  import opened Names
  import opened DecisionModel

  ghost function At(log: seq<Event>, i: nat, wording: Wording): Store
    requires i <= |log|
  {
    StateAfter(log[..i], wording)
  }

  /** The `i`-th event as it is read. */
  ghost function EventAt(log: seq<Event>, i: nat): Event
    requires i < |log|
  {
    AsRead(TreesAfter(log[..i]), log[i])
  }

  // ---- Reading from directories ----

  /** Earlier results change what is read of the hosts, and nothing else. */
  lemma ReadingKeeps(trees: Trees, e: Event)
    ensures AsRead(trees, e).Checked? <==> e.Checked?
    ensures AsRead(trees, e).Recorded? <==> e.Recorded?
    ensures AsRead(trees, e).Attempted? <==> e.Attempted?
    ensures e.Attempted? ==>
      var seen := AsRead(trees, e).attempt;
      && AsRead(trees, e).id == e.id && seen == AttemptRead(trees, e.id, e.attempt)
      && seen.request == e.attempt.request && seen.startedAt == e.attempt.startedAt
      && (seen.execution.Exited? <==> e.attempt.execution.Exited?)
      && (seen.execution.Exited? ==> seen.execution.code == e.attempt.execution.code)
      && (seen.verification.Some? <==> e.attempt.verification.Some?)
      && (seen.Answered() <==> e.attempt.Answered())
    ensures !e.Attempted? ==>
      var seen := AsRead(trees, e);
      && seen.request == e.request && seen.moment == e.moment
      && (seen.answer.Exited? <==> e.answer.Exited?) && seen.answer.output == e.answer.output
      && (seen.answer.Exited? ==> seen.answer.code == e.answer.code)
  {
  }

  /** A run repeated over its own results reads the same. */
  lemma FoundTwice(left: Tree, answer: Answer)
    ensures Found(left + answer.tree, answer) == Found(left, answer)
  {
    assert left + answer.tree + answer.tree == left + answer.tree;
  }

  lemma FoundFresh(answer: Answer)
    ensures Found(map[], answer) == answer
  {
    assert map[] + answer.tree == answer.tree;
  }

  lemma ReadTwice(trees: Trees, e: Event)
    requires e.Attempted?
    ensures AsRead(TreesNext(trees, e), e) == AsRead(trees, e)
  {
    FoundTwice(Left(trees, Place(e.id, ExecutionStage)), e.attempt.execution);
    if e.attempt.verification.Some? {
      FoundTwice(Left(trees, Place(e.id, VerifyStage)), e.attempt.verification.value);
    }
  }

  /** What an event itself left in a directory. */
  function Wrote(e: Event, place: Place): Tree {
    match e
    case Checked(request, moment, answer) =>
      if place == Place(request.operation.id + "-" + moment.stamp, CheckStage) then answer.tree else map[]
    case Recorded(request, moment, answer) =>
      if place == Place(request.operation.id + "-" + moment.stamp, CheckStage) then answer.tree else map[]
    case Attempted(id, attempt) =>
      if place == Place(id, ExecutionStage) then attempt.execution.tree
      else if place == Place(id, VerifyStage) && attempt.verification.Some? then attempt.verification.value.tree
      else map[]
  }

  lemma LeftNext(trees: Trees, e: Event, place: Place)
    ensures Left(TreesNext(trees, e), place) == Left(trees, place) + Wrote(e, place)
  {
  }

  /** A result on file is the one the last event that came to the host left there. */
  lemma {:induction false} LeftBy(log: seq<Event>, place: Place, host: string) returns (n: nat)
    requires host in Left(TreesAfter(log), place)
    ensures n < |log| && host in Wrote(log[n], place)
    ensures Left(TreesAfter(log), place)[host] == Wrote(log[n], place)[host]
    ensures forall k :: n < k < |log| ==> host !in Wrote(log[k], place)
  {
    var shorter, e := log[..|log| - 1], log[|log| - 1];
    LeftNext(TreesAfter(shorter), e, place);
    hide Wrote, TreesNext, Left;
    if host in Wrote(e, place) {
      n := |log| - 1;
    } else {
      n := LeftBy(shorter, place, host);
    }
  }

  // ---- Stepping through a run ----

  lemma {:induction false} PrefixIsRun(log: seq<Event>, i: nat, wording: Wording)
    requires Run(log, wording) && i <= |log|
    ensures Run(log[..i], wording)
    decreases |log|
  {
    if i == |log| {
      assert log[..i] == log;
    } else {
      var shorter := log[..|log| - 1];
      PrefixIsRun(shorter, i, wording);
      assert shorter[..i] == log[..i];
    }
  }

  lemma StepAt(log: seq<Event>, i: nat, wording: Wording)
    requires Run(log, wording) && i < |log|
    ensures Legal(At(log, i, wording), EventAt(log, i), wording)
    ensures At(log, i + 1, wording) == After(At(log, i, wording), EventAt(log, i), wording)
  {
    hide After, Legal, AsRead, TreesAfter;
    PrefixIsRun(log, i + 1, wording);
    var next := log[..i + 1];
    assert next[..|next| - 1] == log[..i] && next[|next| - 1] == log[i];
  }

  lemma RunSnoc(log: seq<Event>, e: Event, wording: Wording)
    requires Run(log, wording) && Legal(StateAfter(log, wording), AsRead(TreesAfter(log), e), wording)
    ensures Run(log + [e], wording)
    ensures StateAfter(log + [e], wording) == After(StateAfter(log, wording), AsRead(TreesAfter(log), e), wording)
    ensures TreesAfter(log + [e]) == TreesNext(TreesAfter(log), e)
  {
    hide After, Legal, AsRead, TreesNext;
    assert (log + [e])[..|log|] == log;
  }

  /** What never changes about a record: the call it proposes and what it was checked with. */
  ghost predicate SameProposal(a: Decision, b: Decision) {
    && a.id == b.id && a.operation == b.operation && a.playbook == b.playbook && a.risk == b.risk
    && a.verifyPlaybook == b.verifyPlaybook && a.targets == b.targets && a.inputs == b.inputs
    && a.check == b.check && a.replay == b.replay
    && a.proposedAt == b.proposedAt && a.requirement == b.requirement && a.reason == b.reason && a.basis == b.basis
  }

  /** One event keeps every record, its proposal, and the whole of it once it is not open. */
  lemma EventKeepsRecords(m: Store, e: Event, id: string, wording: Wording)
    requires Legal(m, e, wording) && id in m
    ensures
      var next := After(m, e, wording);
      id in next && SameProposal(m[id], next[id]) && (!m[id].Open() ==> next[id] == m[id])
  {
    hide Fits, Preview, Gate, Outcome, RunRecordOf;
  }

  lemma {:induction false} RecordsPersist(log: seq<Event>, i: nat, j: nat, id: string, wording: Wording)
    requires Run(log, wording) && i <= j <= |log| && id in At(log, i, wording)
    ensures id in At(log, j, wording)
    ensures SameProposal(At(log, i, wording)[id], At(log, j, wording)[id])
    ensures !At(log, i, wording)[id].Open() ==> At(log, j, wording)[id] == At(log, i, wording)[id]
    decreases j - i
  {
    hide AsRead, TreesAfter, StateAfter, Run, After, Legal;
    if i < j {
      RecordsPersist(log, i, j - 1, id, wording);
      StepAt(log, j - 1, wording);
      EventKeepsRecords(At(log, j - 1, wording), EventAt(log, j - 1), id, wording);
    }
  }

  lemma NothingAtStart(log: seq<Event>, wording: Wording)
    ensures At(log, 0, wording) == map[]
  {
    assert log[..0] == [];
  }

  /** The event after which a record is first there. */
  lemma BornNow(m: Store, e: Event, id: string, wording: Wording)
    requires Legal(m, e, wording) && id !in m && id in After(m, e, wording)
    ensures e.Recorded? && Identifier(e.request.operation.id, e.moment) == id && e.answer.Exited?
    ensures After(m, e, wording)[id] == NewDecision(e.request, e.moment, e.answer, wording)
  {
    hide Preview, Gate, Fits;
  }

  /** The event that recorded a decision; there is exactly one. */
  lemma {:induction false} BornAt(log: seq<Event>, j: nat, id: string, wording: Wording) returns (i: nat)
    requires Run(log, wording) && j <= |log| && id in At(log, j, wording)
    ensures i < j && Bears(log[i], id) && id !in At(log, i, wording) && log[i].answer.Exited?
    ensures id in At(log, i + 1, wording)
    ensures EventAt(log, i).Recorded? && EventAt(log, i).answer.Exited?
    ensures
      At(log, i + 1, wording)[id] == NewDecision(log[i].request, log[i].moment, EventAt(log, i).answer, wording)
  {
    NothingAtStart(log, wording);
    hide *;
    StepAt(log, j - 1, wording);
    if id in At(log, j - 1, wording) {
      i := BornAt(log, j - 1, id, wording);
    } else {
      i := j - 1;
      BornNow(At(log, i, wording), EventAt(log, i), id, wording);
      BearsAt(log, i, id);
    }
  }

  lemma BearsAt(log: seq<Event>, i: nat, id: string)
    requires i < |log| && EventAt(log, i).Recorded?
    requires Identifier(EventAt(log, i).request.operation.id, EventAt(log, i).moment) == id
    ensures Bears(log[i], id) && log[i].Recorded?
    ensures EventAt(log, i).request == log[i].request && EventAt(log, i).moment == log[i].moment
    ensures EventAt(log, i).answer.Exited? <==> log[i].answer.Exited?
  {
    ReadingKeeps(TreesAfter(log[..i]), log[i]);
  }

  predicate Bears(e: Event, id: string) {
    e.Recorded? && Identifier(e.request.operation.id, e.moment) == id
  }

  lemma BornOnce(log: seq<Event>, i: nat, j: nat, id: string, wording: Wording)
    requires Run(log, wording) && i < |log| && j < |log| && Bears(log[i], id) && Bears(log[j], id)
    ensures i == j
  {
    StepAt(log, i, wording);
    StepAt(log, j, wording);
    ReadingKeeps(TreesAfter(log[..i]), log[i]);
    ReadingKeeps(TreesAfter(log[..j]), log[j]);
    if i < j {
      RecordsPersist(log, i + 1, j, id, wording);
    } else if j < i {
      RecordsPersist(log, j + 1, i, id, wording);
    }
  }

  // ---- What a record may hold ----

  lemma SupersededFits(older: Decision, newer: Decision, wording: Wording)
    requires SupersedingFits(wording) && Fits(older) && |newer.id| <= ID_LIMIT
    ensures Fits(SupersededRecord(older, newer, wording))
  {
  }

  /** Every record of a run fits its schema, and lies under its own id. */
  lemma {:induction false} StoredRecordsFit(log: seq<Event>, id: string, wording: Wording)
    requires Run(log, wording) && SupersedingFits(wording) && id in StateAfter(log, wording)
    ensures Fits(StateAfter(log, wording)[id]) && StateAfter(log, wording)[id].id == id
  {
    hide Fits, SupersedingFits, ApprovedRecord, Replaces, RefuseApproval, Preview, SupersededRecord;
    var shorter, e := log[..|log| - 1], LastRead(log);
    hide LastRead;
    var m := StateAfter(shorter, wording);
    if id in m {
      StoredRecordsFit(shorter, id, wording);
      EventKeepsRecords(m, e, id, wording);
      if e.Recorded? {
        SupersededFits(m[id], NewDecision(e.request, e.moment, e.answer, wording), wording);
      }
    }
  }

  // ---- What a record says ----

  /** An output is cited by its file, its digest and its size. */
  ghost predicate CitesOutput(artifact: Artifact, path: string, output: string, wording: Wording) {
    artifact.path == path && artifact.sha256 == wording.digest(output) && artifact.size == |output|
  }

  /** These are the hosts of a run by name, each under whether it reported a change. */
  ghost predicate HostsAre(changed: seq<string>, untouched: seq<string>, tree: Tree) {
    && Sorted(changed) && Sorted(untouched)
    && (forall host :: host in changed <==> host in tree && tree[host])
    && (forall host :: host in untouched <==> host in tree && !tree[host])
  }

  /** What a record keeps of one run, as it was read. */
  ghost predicate RunSays(run: RunRecord, answer: Answer, at: string, path: string, wording: Wording) {
    && answer.Exited? && run.ranAt == at && run.exitCode == answer.code
    && HostsAre(run.changed, run.untouched, answer.tree) && CitesOutput(run.log, path, answer.output, wording)
  }

  /** How an approval's runs, as they were read, settle the record, and why. */
  ghost predicate SettledBy(record: Decision, read: Attempt, wording: Wording)
    requires read.Answered()
  {
    var execution, verification := read.execution, read.verification;
    && (record.status.Executed? <==> execution.code == 0 && verification.None?)
    && (record.status.Verified? <==>
          execution.code == 0 && verification.Some? && verification.value.code == 0
          && forall host :: host in verification.value.tree ==> !verification.value.tree[host])
    && (record.status.Executed? || record.status.Verified? || record.status.Failed?)
    && exists reason ::
         && record.verdict == Some(wording.verdict(reason))
         && match reason
            case RunExited(code) => execution.code == code != 0
            case NoVerifyStep => execution.code == 0 && verification.None?
            case VerifyDidNotRun => false
            case VerifyExited(code) => verification.Some? && verification.value.code == code != 0
            case VerifyChanged(hosts) =>
              && verification.Some? && verification.value.code == 0 && hosts != [] && Sorted(hosts)
              && forall host :: host in hosts <==> host in verification.value.tree && verification.value.tree[host]
            case VerifyChangedNothing => record.status.Verified?
  }

  /** What a record that was written down keeps of its approval. */
  ghost predicate ApprovalSays(record: Decision, proposal: Decision, read: Attempt, wording: Wording) {
    && read.Answered() && SameProposal(proposal, record)
    && record.approval == Some(Approval(read.request.approver, read.startedAt, read.request.via))
    && record.execution.Some?
    && RunSays(record.execution.value, read.execution, read.startedAt, proposal.id + "-execution.log", wording)
    && (record.verification.Some? <==> read.verification.Some?)
    && (record.verification.Some? ==>
          RunSays(
            record.verification.value, read.verification.value, read.verifiedAt, proposal.id + "-verify.log", wording))
    && SettledBy(record, read, wording)
  }

  lemma PreviewSays(answer: Answer, path: string, wording: Wording)
    requires answer.Exited?
    ensures
      var preview := Preview(answer, path, wording);
      && preview.exitCode == answer.code && HostsAre(preview.changed, preview.untouched, answer.tree)
      && CitesOutput(preview.diff, path, answer.output, wording)
  {
    var preview := Preview(answer, path, wording);
    forall host
      ensures host in preview.changed <==> host in ChangedHosts(answer.tree)
      ensures host in preview.untouched <==> host in UnchangedHosts(answer.tree)
    {
      assert host in preview.changed <==> host in Members(preview.changed);
      assert host in preview.untouched <==> host in Members(preview.untouched);
    }
  }

  lemma RunRecordSays(answer: Answer, at: string, path: string, wording: Wording)
    requires answer.Exited?
    ensures RunSays(RunRecordOf(answer, at, path, wording), answer, at, path, wording)
  {
    hide Preview;
    PreviewSays(answer, path, wording);
  }

  /** A written-down record keeps of each run what that run came to, and of the approval who gave it and how. */
  lemma ApprovedRecordSays(d: Decision, read: Attempt, wording: Wording)
    requires read.Answered() && (read.verification.Some? <==> Verifies(d, read.execution))
    ensures ApprovalSays(ApprovedRecord(d, read, wording), d, read, wording)
  {
    hide RunRecordOf, RunSays;
    var ranTo, verifiedTo := LogFile(d.id, ExecutionStage), LogFile(d.id, VerifyStage);
    RunRecordSays(read.execution, read.startedAt, ranTo, wording);
    RunRecordIs(read.execution, read.startedAt, ranTo, wording);
    var record := ApprovedRecord(d, read, wording);
    if read.verification.Some? {
      var answer := read.verification.value;
      RunRecordSays(answer, read.verifiedAt, verifiedTo, wording);
      RunRecordIs(answer, read.verifiedAt, verifiedTo, wording);
      var changed := record.verification.value.changed;
      if changed != [] {
        assert changed[0] in changed;
      }
    }
    var (status, reason) := Outcome(record.execution.value, record.verification, d.verifyPlaybook);
    assert record.verdict == Some(wording.verdict(reason));
  }

  lemma RunRecordIs(answer: Answer, at: string, path: string, wording: Wording)
    requires answer.Exited?
    ensures RunRecordOf(answer, at, path, wording).exitCode == answer.code
    ensures
      var run := RunRecordOf(answer, at, path, wording);
      Sorted(run.changed) && forall host :: host in run.changed <==> host in answer.tree && answer.tree[host]
  {
    PreviewSays(answer, path, wording);
  }

  /** What a record keeps of its proposal for good: the request, the check as it was read, and the gate of its risk. */
  ghost predicate ProposalSays(d: Decision, request: Request, moment: Moment, found: Answer, wording: Wording) {
    && d.id == request.operation.id + "-" + moment.stamp && d.proposedAt == moment.timestamp
    && d.operation == request.operation.id && d.playbook == request.operation.playbook
    && d.risk == request.operation.risk && d.verifyPlaybook == request.operation.verify
    && d.targets == request.targets && d.inputs == request.inputs
    && d.basis == request.basis && d.replay == request.replay
    && (d.requirement.RunsFreely? <==> request.operation.risk.Read?)
    && (d.requirement.CheckThenApprove? <==> request.operation.risk.Mutating?)
    && (d.requirement.HumanRequired? <==> request.operation.risk.Destructive?)
    && found.Exited? && d.check.exitCode == found.code && HostsAre(d.check.changed, d.check.untouched, found.tree)
    && CitesOutput(d.check.diff, request.operation.id + "-" + moment.stamp + ".diff", found.output, wording)
  }

  /** A new record waits for an approval, but for a read, which ran when it was proposed. */
  ghost predicate StartsAs(d: Decision, request: Request, found: Answer, wording: Wording) {
    && found.Exited? && d.approval.None? && d.execution.None? && d.verification.None? && d.supersededBy.None?
    && (d.risk.Read? ==>
          d.status.Ran? && d.ranExitCode == Some(found.code)
          && d.verdict == Some(wording.ran(found.code, request.replay)))
    && (!d.risk.Read? ==> d.status.Proposed? && d.ranExitCode.None? && d.verdict.None?)
  }

  lemma NewDecisionHolds(request: Request, moment: Moment, found: Answer, wording: Wording)
    requires found.Exited?
    ensures
      var d := NewDecision(request, moment, found, wording);
      && d.id == Identifier(request.operation.id, moment) && d.proposedAt == moment.timestamp
      && d.operation == request.operation.id && d.playbook == request.operation.playbook
      && d.risk == request.operation.risk && d.verifyPlaybook == request.operation.verify
      && d.targets == request.targets && d.inputs == request.inputs && d.basis == request.basis
      && d.replay == request.replay && d.requirement == Gate(request.operation.risk).0
      && d.check == Preview(found, DiffFile(d.id), wording)
  {
    hide Preview, Identifier, DiffFile, Gate;
  }

  lemma NewDecisionStarts(request: Request, moment: Moment, found: Answer, wording: Wording)
    requires found.Exited?
    ensures StartsAs(NewDecision(request, moment, found, wording), request, found, wording)
  {
    RequirementOf(request.operation.risk);
    hide Preview, Identifier, DiffFile, Gate;
  }

  lemma NewDecisionSays(request: Request, moment: Moment, found: Answer, wording: Wording)
    requires found.Exited?
    ensures
      var d := NewDecision(request, moment, found, wording);
      ProposalSays(d, request, moment, found, wording) && StartsAs(d, request, found, wording)
  {
    NewDecisionHolds(request, moment, found, wording);
    NewDecisionStarts(request, moment, found, wording);
    RequirementOf(request.operation.risk);
    PreviewSays(found, DiffFile(Identifier(request.operation.id, moment)), wording);
    hide Preview, NewDecision, HostsAre, CitesOutput, StartsAs, Gate;
  }

  /** A read runs freely, a change waits for an approval, and a destructive one for a person's. */
  lemma RequirementOf(risk: Risk)
    ensures Gate(risk).0 ==
            match risk case Read => RunsFreely case Mutating => CheckThenApprove case Destructive => HumanRequired
  {
  }

  /** Every record of a run keeps the request it was proposed with and what its check came to. */
  lemma StoredRecordSays(log: seq<Event>, id: string, wording: Wording) returns (i: nat)
    requires Run(log, wording) && id in StateAfter(log, wording)
    ensures i < |log| && Bears(log[i], id) && EventAt(log, i).Recorded?
    ensures
      ProposalSays(StateAfter(log, wording)[id], log[i].request, log[i].moment, EventAt(log, i).answer, wording)
  {
    hide StateAfter, Run, TreesAfter, NewDecision;
    assert log[..|log|] == log;
    i := BornAt(log, |log|, id, wording);
    RecordsPersist(log, i + 1, |log|, id, wording);
    NewDecisionSays(log[i].request, log[i].moment, EventAt(log, i).answer, wording);
  }

  // ---- What starts ----

  lemma CheckModeIsMarked(playbook: string, repository: string, pattern: Option<string>, inputs: Inputs, check: bool)
    ensures InCheckMode(RunCommand(playbook, repository, pattern, inputs, check)) <==> check
  {
    assert RunCommand(playbook, repository, pattern, inputs, check)[1] == if check then CHECK else DIFF;
  }

  /** An open record waits: it is of an operation that changes something, and it notes no approval and no run. */
  ghost predicate Waits(d: Decision) {
    && !d.risk.Read? && d.approval.None? && d.execution.None? && d.verification.None? && d.supersededBy.None?
  }

  lemma WaitsNext(m: Store, e: Event, id: string, wording: Wording)
    requires Legal(m, e, wording) && id in After(m, e, wording) && After(m, e, wording)[id].Open()
    requires id in m && m[id].Open() ==> Waits(m[id]) && m[id].id == id
    ensures Waits(After(m, e, wording)[id]) && After(m, e, wording)[id].id == id
  {
    hide Fits, Preview, RunRecordOf;
    if id in m && !m[id].Open() {
      EventKeepsRecords(m, e, id, wording);
    }
  }

  lemma {:induction false} OpenRecordsWait(log: seq<Event>, id: string, wording: Wording)
    requires Run(log, wording) && id in StateAfter(log, wording) && StateAfter(log, wording)[id].Open()
    ensures Waits(StateAfter(log, wording)[id]) && StateAfter(log, wording)[id].id == id
  {
    hide Waits, Legal, After, LastRead;
    var shorter := log[..|log| - 1];
    if id in StateAfter(shorter, wording) && StateAfter(shorter, wording)[id].Open() {
      OpenRecordsWait(shorter, id, wording);
    }
    WaitsNext(StateAfter(shorter, wording), LastRead(log), id, wording);
  }

  /**
   * What an invocation is made of: the engine, whether it only checks, that it reports differences,
   * the limit when there is a pattern, the inputs when there are any, and the playbook last.
   */
  lemma CommandHolds(playbook: string, repository: string, pattern: Option<string>, inputs: Inputs, check: bool)
    ensures
      var argv := RunCommand(playbook, repository, pattern, inputs, check);
      var flags, limits := if check then 2 else 1, if pattern.Some? then 2 else 0;
      var extras := if inputs != map[] then 2 else 0;
      && |argv| == 1 + flags + limits + extras + 1
      && argv[0] == Text("/usr/bin/ansible-playbook") && (check ==> argv[1] == Text("--check"))
      && argv[flags] == Text("--diff")
      && (pattern.Some? ==> argv[1 + flags] == Text("--limit") && argv[2 + flags] == Text(pattern.value))
      && (inputs != map[] ==>
            argv[1 + flags + limits] == Text("--extra-vars") && argv[2 + flags + limits] == Vars(inputs))
      && argv[|argv| - 1] == Text(Join(repository, playbook))
  {
    hide Join;
  }

  /** Why an approval is refused, the first reason that applies; one that nothing speaks against is not. */
  lemma ApprovalRefusedExactlyWhen(d: Decision, request: ApprovalRequest)
    ensures
      var refusal := RefuseApproval(d, request);
      && (refusal == Some(Replayed) <==> d.replay.Some?)
      && (refusal == Some(NotProposed) <==> d.replay.None? && !d.status.Proposed?)
      && (refusal == Some(ApproverUnknown) <==> d.replay.None? && d.status.Proposed? && request.approver == "")
      && (refusal == Some(ChannelUnknown) <==>
            d.replay.None? && d.status.Proposed? && request.approver != "" && !request.via.Terminal?)
      && (refusal.None? <==>
            d.replay.None? && d.status.Proposed? && request.approver != "" && request.via.Terminal?)
  {
  }

  /**
   * A playbook starts without `--check` only for a live, open record of an operation that changes
   * something, on the approval of a named person at a terminal.
   */
  lemma OnlyApprovedRunsChange(log: seq<Event>, j: nat, k: nat, wording: Wording)
    requires Run(log, wording) && j < |log| && k < |Starts(At(log, j, wording), log[j])|
    requires !InCheckMode(Starts(At(log, j, wording), log[j])[k])
    ensures log[j].Attempted? && log[j].id in At(log, j, wording)
    ensures
      var d := At(log, j, wording)[log[j].id];
      && d.Open() && d.replay.None? && Waits(d)
      && log[j].attempt.request.via.Terminal? && log[j].attempt.request.approver != ""
      && (k == 1 ==> log[j].attempt.execution.Exited? && log[j].attempt.execution.code == 0)
      && k <= 1
  {
    StepAt(log, j, wording);
    PrefixIsRun(log, j, wording);
    ReadingKeeps(TreesAfter(log[..j]), log[j]);
    if !log[j].Attempted? {
      var r := log[j].request;
      CheckModeIsMarked(r.operation.playbook, r.repository, r.targets.pattern, r.inputs, true);
    } else {
      OpenRecordsWait(log[..j], log[j].id, wording);
    }
  }

  /** The argv of an approved record is that of its check run with `--check` removed. */
  lemma CommandWithoutCheck(request: Request, d: Decision, repository: string)
    requires d.playbook == request.operation.playbook && d.targets == request.targets && d.inputs == request.inputs
    requires repository == request.repository
    ensures
      var checked := CheckCommand(request);
      && InCheckMode(checked)
      && StageCommand(d, d.playbook, repository) == checked[..1] + checked[2..]
  {
    var checked, executed := CheckCommand(request), StageCommand(d, d.playbook, repository);
    assert checked[0] == executed[0] && checked[1] == CHECK;
    assert executed == checked[..1] + checked[2..];
  }

  /** A record on file was proposed once, as the call it still is of. */
  lemma ProposedAt(log: seq<Event>, j: nat, id: string, wording: Wording) returns (i: nat)
    requires Run(log, wording) && j <= |log| && id in At(log, j, wording)
    ensures i < j && Bears(log[i], id)
    ensures
      var d, call := At(log, j, wording)[id], log[i].request;
      && d.playbook == call.operation.playbook && d.verifyPlaybook == call.operation.verify
      && d.targets == call.targets && d.inputs == call.inputs
  {
    hide StateAfter, Run, TreesAfter, AsRead, Preview;
    i := BornAt(log, j, id, wording);
    RecordsPersist(log, i + 1, j, id, wording);
  }

  /** An approval starts the record's playbook, and its verify playbook after that when that ran. */
  lemma ApprovalStarts(m: Store, e: Event, seen: Event, wording: Wording)
    requires e.Attempted? && seen.Attempted? && seen.id == e.id && Legal(m, seen, wording)
    requires seen.attempt.verification.Some? <==> e.attempt.verification.Some?
    ensures
      var d, repository, verified := m[e.id], e.attempt.request.repository, e.attempt.verification;
      && (verified.Some? ==> d.verifyPlaybook.Some?)
      && Starts(m, e) ==
         [RunCommand(d.playbook, repository, d.targets.pattern, d.inputs, false)]
         + (if verified.Some?
            then [RunCommand(d.verifyPlaybook.value, repository, d.targets.pattern, d.inputs, false)] else [])
  {
    hide RunCommand;
  }

  /**
   * What an approval runs is what was checked: the argv of the proposal's check run, with `--check`
   * removed, whenever both name the same repository.
   */
  lemma ApprovedCommandWasChecked(log: seq<Event>, j: nat, wording: Wording)
    returns (i: nat, checked: Argv, executed: Argv)
    requires Run(log, wording) && j < |log| && log[j].Attempted?
    ensures i < j && Bears(log[i], log[j].id)
    ensures Starts(At(log, i, wording), log[i]) == [checked]
    ensures
      var call, repository, verified := log[i].request, log[j].attempt.request.repository, log[j].attempt.verification;
      && executed == RunCommand(call.operation.playbook, repository, call.targets.pattern, call.inputs, false)
      && |Starts(At(log, j, wording), log[j])| == (if verified.Some? then 2 else 1)
      && (verified.Some? ==>
            && call.operation.verify.Some?
            && Starts(At(log, j, wording), log[j])[1] ==
               RunCommand(call.operation.verify.value, repository, call.targets.pattern, call.inputs, false))
    ensures log[i].request.repository == log[j].attempt.request.repository ==>
      InCheckMode(checked) && executed == checked[..1] + checked[2..]
  {
    StepAt(log, j, wording);
    ReadingKeeps(TreesAfter(log[..j]), log[j]);
    var id, m := log[j].id, At(log, j, wording);
    hide StateAfter, Run, RunCommand, AsRead, TreesAfter, AttemptRead, NewDecision, RefuseApproval;
    i := ProposedAt(log, j, id, wording);
    var d := m[id];
    checked := CheckCommand(log[i].request);
    ApprovalStarts(m, log[j], EventAt(log, j), wording);
    hide Legal, After;
    executed := Starts(m, log[j])[0];
    hide Starts, At;
    if log[i].request.repository == log[j].attempt.request.repository {
      CommandWithoutCheck(log[i].request, d, log[j].attempt.request.repository);
    }
  }

  // ---- How often ----

  /** An approval with its runs as they are read. */
  ghost function ReadAt(log: seq<Event>, n: nat): Attempt
    requires n < |log| && log[n].Attempted?
  {
    AttemptRead(TreesAfter(log[..n]), log[n].id, log[n].attempt)
  }

  /** At this event an approval came to its end and was written down. */
  ghost predicate ConcludesAt(log: seq<Event>, n: nat, id: string, wording: Wording) {
    && n < |log| && log[n].Attempted? && log[n].id == id && id in At(log, n, wording)
    && Completes(At(log, n, wording)[id], ReadAt(log, n), wording)
  }

  /**
   * An approval that is written down is the last one: a decision approved again had a runner raise
   * the time before, or a record that did not fit, and is still open.
   */
  lemma CompleteAttemptIsLast(log: seq<Event>, i: nat, j: nat, wording: Wording)
    requires Run(log, wording) && i < j < |log|
    requires log[i].Attempted? && log[j].Attempted? && log[i].id == log[j].id
    ensures !ConcludesAt(log, i, log[i].id, wording)
  {
    hide StateAfter, Run, Superseding, Fits, Preview;
    StepAt(log, i, wording);
    StepAt(log, j, wording);
    ReadingKeeps(TreesAfter(log[..i]), log[i]);
    ReadingKeeps(TreesAfter(log[..j]), log[j]);
    hide AsRead, AttemptRead;
    if ConcludesAt(log, i, log[i].id, wording) {
      RecordsPersist(log, i + 1, j, log[i].id, wording);
    }
  }

  /**
   * The same approval is accepted again exactly when the first was not written down, because a
   * runner raised (the engine's timeout does) or the record did not fit: it stays open although its
   * playbook started, and it starts again.
   */
  lemma RepeatedIffNotWritten(log: seq<Event>, e: Event, wording: Wording)
    requires Run(log, wording) && e.Attempted?
    requires Legal(StateAfter(log, wording), AsRead(TreesAfter(log), e), wording)
    ensures
      var read := AttemptRead(TreesAfter(log), e.id, e.attempt);
      var complete := Completes(StateAfter(log, wording)[e.id], read, wording);
      && (Run(log + [e] + [e], wording) <==> !complete)
      && (!complete ==> StateAfter(log + [e] + [e], wording) == StateAfter(log, wording))
    ensures |Starts(StateAfter(log, wording), e)| >= 1
  {
    hide StateAfter, Run, Superseding, Fits, Preview, Completes;
    RunSnoc(log, e, wording);
    ReadingKeeps(TreesAfter(log), e);
    ReadTwice(TreesAfter(log), e);
    hide AsRead, AttemptRead, TreesAfter, TreesNext;
    if Completes(StateAfter(log, wording)[e.id], AsRead(TreesAfter(log), e).attempt, wording) {
      var twice := log + [e] + [e];
      if Run(twice, wording) {
        assert twice[..|log|] == log;
        CompleteAttemptIsLast(twice, |log|, |log| + 1, wording);
      }
    } else {
      RunSnoc(log + [e], e, wording);
    }
  }

  /**
   * Whatever has started for an open record belongs to approvals that were not written down; once
   * one is, the record is open no more.
   */
  lemma OpenRecordsHaveNoConclusion(log: seq<Event>, n: nat, id: string, wording: Wording)
    requires Run(log, wording) && id in StateAfter(log, wording) && StateAfter(log, wording)[id].Open()
    requires n < |log| && log[n].Attempted? && log[n].id == id
    ensures !ConcludesAt(log, n, id, wording)
  {
    hide StateAfter, Run, ApprovedRecord, Fits;
    if ConcludesAt(log, n, id, wording) {
      ConclusionStays(log, n, id, wording);
      StepAt(log, n, wording);
      ReadingKeeps(TreesAfter(log[..n]), log[n]);
      ApprovedStatus(At(log, n, wording)[id], ReadAt(log, n), wording);
    }
  }

  ghost predicate RunConcluded(d: Decision) {
    d.status.Executed? || d.status.Verified? || d.status.Failed?
  }

  /** The event after which a record first says that a run ended. */
  lemma ConcludesNow(m: Store, e: Event, id: string, wording: Wording)
    requires Legal(m, e, wording) && id in After(m, e, wording) && RunConcluded(After(m, e, wording)[id])
    requires id in m ==> m[id].Open()
    ensures e.Attempted? && e.id == id && id in m && Completes(m[id], e.attempt, wording)
    ensures After(m, e, wording)[id] == ApprovedRecord(m[id], e.attempt, wording)
  {
    hide ApprovedRecord, Preview, Replaces, RefuseApproval, Fits;
  }

  lemma EventAtRead(log: seq<Event>, n: nat)
    requires n < |log|
    ensures EventAt(log, n).Attempted? <==> log[n].Attempted?
    ensures log[n].Attempted? ==> EventAt(log, n).id == log[n].id && EventAt(log, n).attempt == ReadAt(log, n)
  {
  }

  lemma Concludes(log: seq<Event>, n: nat, id: string, wording: Wording)
    requires n < |log| && log[n].Attempted? && log[n].id == id && id in At(log, n, wording)
    requires Completes(At(log, n, wording)[id], ReadAt(log, n), wording)
    ensures ConcludesAt(log, n, id, wording)
  {
  }

  /** A record that says a run ended was left by exactly the complete attempt found here. */
  lemma {:induction false} ConcludedBy(log: seq<Event>, j: nat, id: string, wording: Wording) returns (n: nat)
    requires Run(log, wording) && j <= |log| && id in At(log, j, wording) && RunConcluded(At(log, j, wording)[id])
    ensures n < j && ConcludesAt(log, n, id, wording)
    ensures At(log, j, wording)[id] == ApprovedRecord(At(log, n, wording)[id], ReadAt(log, n), wording)
  {
    NothingAtStart(log, wording);
    hide *;
    EventAtRead(log, j - 1);
    StepAt(log, j - 1, wording);
    var before := At(log, j - 1, wording);
    if id in before && !before[id].Open() {
      EventKeepsRecords(before, EventAt(log, j - 1), id, wording);
      n := ConcludedBy(log, j - 1, id, wording);
    } else {
      ConcludesNow(before, EventAt(log, j - 1), id, wording);
      n := j - 1;
      Concludes(log, n, id, wording);
    }
  }

  /** A record that says a run ended keeps what its last approval's runs came to. */
  lemma ConcludedRecordSays(log: seq<Event>, id: string, wording: Wording) returns (n: nat)
    requires Run(log, wording) && id in StateAfter(log, wording) && RunConcluded(StateAfter(log, wording)[id])
    ensures ConcludesAt(log, n, id, wording)
    ensures ApprovalSays(StateAfter(log, wording)[id], At(log, n, wording)[id], ReadAt(log, n), wording)
    ensures forall k :: n < k < |log| && log[k].Attempted? ==> log[k].id != id
  {
    hide StateAfter, Run, ApprovedRecord, Fits, ApprovalSays, AttemptRead, TreesAfter;
    assert log[..|log|] == log;
    n := ConcludedBy(log, |log|, id, wording);
    StepAt(log, n, wording);
    EventAtRead(log, n);
    ApprovedRecordSays(At(log, n, wording)[id], ReadAt(log, n), wording);
    forall k | n < k < |log| && log[k].Attempted?
      ensures log[k].id != id
    {
      if log[k].id == id {
        CompleteAttemptIsLast(log, n, k, wording);
      }
    }
  }

  /** The run exited 0, a verify step ran, exited 0 and changed no host. */
  ghost predicate VerifiedRun(attempt: Attempt) {
    && attempt.execution.Exited? && attempt.execution.code == 0
    && attempt.verification.Some? && attempt.verification.value.Exited? && attempt.verification.value.code == 0
    && ChangedHosts(attempt.verification.value.tree) == {}
  }

  lemma NothingListed(names: set<string>)
    ensures Listing(names) == [] <==> names == {}
  {
    MembersOf(Listing(names));
  }

  lemma ApprovedStatus(d: Decision, attempt: Attempt, wording: Wording)
    requires attempt.Answered() && (attempt.verification.Some? <==> Verifies(d, attempt.execution))
    ensures ApprovedRecord(d, attempt, wording).status.Verified? <==> VerifiedRun(attempt)
    ensures ApprovedRecord(d, attempt, wording).status.Executed? <==>
            attempt.execution.code == 0 && d.verifyPlaybook.None?
    ensures RunConcluded(ApprovedRecord(d, attempt, wording))
  {
    if attempt.verification.Some? {
      NothingListed(ChangedHosts(attempt.verification.value.tree));
    }
  }

  /** What a concluding approval leaves is there for good. */
  lemma ConclusionStays(log: seq<Event>, n: nat, id: string, wording: Wording)
    requires Run(log, wording) && ConcludesAt(log, n, id, wording)
    ensures id in StateAfter(log, wording)
    ensures StateAfter(log, wording)[id] == ApprovedRecord(At(log, n, wording)[id], ReadAt(log, n), wording)
  {
    hide StateAfter, Run, ApprovedRecord, Fits;
    assert log[..|log|] == log;
    StepAt(log, n, wording);
    ReadingKeeps(TreesAfter(log[..n]), log[n]);
    ApprovedStatus(At(log, n, wording)[id], ReadAt(log, n), wording);
    RecordsPersist(log, n + 1, |log|, id, wording);
  }

  /** The verify step's directory held no host as changed that this attempt did not come to itself. */
  ghost predicate NothingLeftChanged(left: Tree, attempt: Attempt) {
    attempt.verification.Some? &&
    forall host :: host in left && left[host] ==> host in attempt.verification.value.tree
  }

  /** What a verify step reads is unchanged exactly when it changed nothing and rewrote what was left as changed. */
  lemma ReadVerified(trees: Trees, id: string, attempt: Attempt)
    ensures VerifiedRun(AttemptRead(trees, id, attempt)) <==>
            VerifiedRun(attempt) && NothingLeftChanged(Left(trees, Place(id, VerifyStage)), attempt)
  {
    if attempt.verification.Some? {
      var left, tree := Left(trees, Place(id, VerifyStage)), attempt.verification.value.tree;
      assert forall host :: host in ChangedHosts(left + tree) <==>
        host in ChangedHosts(tree) || (host in left && left[host] && host !in tree);
    }
  }

  /** What an earlier verify step of the decision left on file when this approval began. */
  ghost function LeftAt(log: seq<Event>, n: nat, id: string): Tree
    requires n <= |log|
  {
    Left(TreesAfter(log[..n]), Place(id, VerifyStage))
  }

  /**
   * A record reads verified exactly when an approval of it, written down, ran clean and its verify
   * step ran, exited 0, changed nothing, and came to every host that an earlier verify step of the
   * decision had left as changed; executed exactly when one ran clean and none was declared.
   */
  lemma VerifiedMeansVerified(log: seq<Event>, id: string, wording: Wording)
    requires Run(log, wording) && id in StateAfter(log, wording)
    ensures StateAfter(log, wording)[id].status.Verified? <==>
            exists n: nat :: ConcludesAt(log, n, id, wording) && VerifiedRun(log[n].attempt)
                        && NothingLeftChanged(LeftAt(log, n, id), log[n].attempt)
    ensures StateAfter(log, wording)[id].status.Executed? <==>
            exists n: nat :: ConcludesAt(log, n, id, wording) && log[n].attempt.execution.code == 0
                        && At(log, n, wording)[id].verifyPlaybook.None?
  {
    hide StateAfter, Run, VerifiedRun, ApprovedRecord, Fits, NothingLeftChanged;
    if RunConcluded(StateAfter(log, wording)[id]) {
      assert log[..|log|] == log;
      var n := ConcludedBy(log, |log|, id, wording);
      ConclusionReads(log, n, id, wording);
    }
    forall n: nat | ConcludesAt(log, n, id, wording)
      ensures VerifiedRun(log[n].attempt) && NothingLeftChanged(LeftAt(log, n, id), log[n].attempt) <==>
              StateAfter(log, wording)[id].status.Verified?
      ensures log[n].attempt.execution.code == 0 && At(log, n, wording)[id].verifyPlaybook.None? <==>
              StateAfter(log, wording)[id].status.Executed?
    {
      ConclusionReads(log, n, id, wording);
    }
  }

  lemma ConclusionReads(log: seq<Event>, n: nat, id: string, wording: Wording)
    requires Run(log, wording) && ConcludesAt(log, n, id, wording)
    ensures log[n].attempt.execution.Exited? && id in StateAfter(log, wording)
    ensures StateAfter(log, wording)[id].status.Verified? <==>
            VerifiedRun(log[n].attempt) && NothingLeftChanged(LeftAt(log, n, id), log[n].attempt)
    ensures StateAfter(log, wording)[id].status.Executed? <==>
            log[n].attempt.execution.code == 0 && At(log, n, wording)[id].verifyPlaybook.None?
  {
    hide StateAfter, Run, VerifiedRun, ApprovedRecord, Fits, NothingLeftChanged;
    ConclusionStays(log, n, id, wording);
    StepAt(log, n, wording);
    ReadingKeeps(TreesAfter(log[..n]), log[n]);
    ApprovedStatus(At(log, n, wording)[id], ReadAt(log, n), wording);
    ReadVerified(TreesAfter(log[..n]), id, log[n].attempt);
  }

  /**
   * What a verify step finds left as changed was left by an earlier approval of the same decision,
   * one that was not written down.
   */
  lemma LeftByAnEarlierApproval(log: seq<Event>, n: nat, id: string, host: string, wording: Wording)
    returns (i: nat)
    requires Run(log, wording) && n < |log| && log[n].Attempted? && log[n].id == id
    requires host in LeftAt(log, n, id) && LeftAt(log, n, id)[host]
    ensures i < n && log[i].Attempted? && log[i].id == id && log[i].attempt.verification.Some?
    ensures host in ChangedHosts(log[i].attempt.verification.value.tree)
    ensures !ConcludesAt(log, i, id, wording)
  {
    i := LeftBy(log[..n], Place(id, VerifyStage), host);
    assert log[..n][i] == log[i];
    CompleteAttemptIsLast(log, i, n, wording);
  }

  // ---- Outputs on file ----

  /** A check under an id that leaves no record of its own, and writes its output over the one there. */
  predicate Overwrites(e: Event, id: string) {
    e.Checked? && Identifier(e.request.operation.id, e.moment) == id
  }

  /** The output a record cites is the one on file, unless a later check wrote over it. */
  lemma {:induction false} OutputIsKept(log: seq<Event>, id: string, born: nat, wording: Wording)
    requires Run(log, wording) && born < |log| && Bears(log[born], id)
    requires forall n :: born < n < |log| ==> !Overwrites(log[n], id)
    ensures id in OutputsAfter(log) && OutputsAfter(log)[id] == log[born].answer.output
  {
    hide Legal, LastRead, StateAfter;
    var shorter := log[..|log| - 1];
    if born < |log| - 1 {
      OutputIsKept(shorter, id, born, wording);
      if Bears(log[|log| - 1], id) {
        BornOnce(log, born, |log| - 1, id, wording);
      }
    }
  }

  /**
   * A second proposal of an operation within one second runs its check and is then refused because
   * the id is taken: the record stays, and the output it cites is gone.
   */
  lemma SameSecondOverwrites(log: seq<Event>, request: Request, moment: Moment, answer: Answer, wording: Wording)
    requires Run(log, wording) && Identifier(request.operation.id, moment) in StateAfter(log, wording)
    requires |Identifier(request.operation.id, moment)| <= ID_LIMIT
    ensures
      var e := Checked(request, moment, answer);
      && Run(log + [e], wording) && StateAfter(log + [e], wording) == StateAfter(log, wording)
      && OutputsAfter(log + [e]) == OutputsAfter(log)[Identifier(request.operation.id, moment) := answer.output]
  {
    var e := Checked(request, moment, answer);
    ReadingKeeps(TreesAfter(log), e);
    hide AsRead;
    RunSnoc(log, e, wording);
    assert (log + [e])[..|log|] == log;
  }

  // ---- Superseding ----

  /** Records of one call: the operation, its targets and its inputs, either live or of the same replay. */
  predicate Alike(a: Decision, b: Decision) {
    a.operation == b.operation && a.targets == b.targets && a.inputs == b.inputs && a.replay == b.replay
  }

  /**
   * A proposal that is recorded marks exactly the open records of its call and replay, and of those only
   * how they ended; every other record stays as it was.
   */
  lemma SupersedesExactly(m: Store, newer: Decision, id: string, wording: Wording)
    requires id in m && id != newer.id
    ensures
      var next := Superseding(m, newer, wording);
      && next.Keys == m.Keys + {newer.id} && next[newer.id] == newer
      && next[id] ==
         if m[id].status.Proposed? && Alike(m[id], newer) then
           m[id].(
             status := Superseded, supersededBy := Some(newer.id), verdict := Some(wording.superseded(newer.id)))
         else m[id]
  {
  }

  /** What changes a record: a new one of its call and replay, or its own approval, when that is written down. */
  lemma ChangedOnlyBy(m: Store, e: Event, id: string, wording: Wording)
    requires Legal(m, e, wording) && id in m && After(m, e, wording)[id] != m[id]
    ensures m[id].status.Proposed?
    ensures e.Attempted? ==> e.id == id && Completes(m[id], e.attempt, wording)
    ensures !e.Attempted? ==>
      && e.Recorded? && e.answer.Exited?
      && Alike(m[id], NewDecision(e.request, e.moment, e.answer, wording))
      && After(m, e, wording)[id].status.Superseded?
  {
    hide Fits, Preview, Gate, Outcome, RunRecordOf;
  }

  /** From any store: once a proposal is recorded, no other open record is of its call and replay. */
  lemma NoOtherOpenRecord(m: Store, newer: Decision, id: string, wording: Wording)
    requires id in Superseding(m, newer, wording) && id != newer.id
    ensures
      var d := Superseding(m, newer, wording)[id];
      d.Open() ==> !Alike(d, newer)
  {
  }

  lemma {:induction false} OneOpenRecordPerCall(log: seq<Event>, a: string, b: string, wording: Wording)
    requires Run(log, wording)
    requires
      var m := StateAfter(log, wording);
      && a in m && b in m && m[a].Open() && m[b].Open()
      && Alike(m[a], m[b])
    ensures a == b
  {
    var shorter, e := log[..|log| - 1], LastRead(log);
    hide LastRead;
    var m := StateAfter(shorter, wording);
    if a in m && b in m {
      EventKeepsRecords(m, e, a, wording);
      EventKeepsRecords(m, e, b, wording);
      OneOpenRecordPerCall(shorter, a, b, wording);
    } else if a != b {
      var newer := NewDecision(e.request, e.moment, e.answer, wording);
      NoOtherOpenRecord(m, newer, if a == newer.id then b else a, wording);
    }
  }

  /** A superseded record names a record of the same call and replay that was proposed after it. */
  lemma {:induction false} SupersededByLater(log: seq<Event>, id: string, wording: Wording) returns (later: string)
    requires Run(log, wording) && id in StateAfter(log, wording) && StateAfter(log, wording)[id].status.Superseded?
    ensures
      var m := StateAfter(log, wording);
      && m[id].supersededBy == Some(later) && later in m && m[id].verdict == Some(wording.superseded(later))
      && Alike(m[id], m[later])
    ensures forall i, j :: 0 <= i < |log| && 0 <= j < |log| && Bears(log[i], id) && Bears(log[j], later) ==> i < j
  {
    var shorter, e := log[..|log| - 1], LastRead(log);
    ReadingKeeps(TreesAfter(shorter), log[|log| - 1]);
    hide LastRead, AsRead;
    var m := StateAfter(shorter, wording);
    if id in m && m[id].status.Superseded? {
      later := SupersededByLater(shorter, id, wording);
      EventKeepsRecords(m, e, id, wording);
      EventKeepsRecords(m, e, later, wording);
      forall i, j | 0 <= i < |log| && 0 <= j < |log| && Bears(log[i], id) && Bears(log[j], later)
        ensures i < j
      {
        NotBornAgain(log, id, i, wording);
        NotBornAgain(log, later, j, wording);
      }
    } else {
      later := Identifier(e.request.operation.id, e.moment);
      forall i, j | 0 <= i < |log| && 0 <= j < |log| && Bears(log[i], id) && Bears(log[j], later)
        ensures i < j
      {
        BornOnce(log, j, |log| - 1, later, wording);
        NotBornAgain(log, id, i, wording);
      }
    }
  }

  lemma NotBornAgain(log: seq<Event>, id: string, i: nat, wording: Wording)
    requires log != [] && Run(log, wording) && id in StateAfter(log[..|log| - 1], wording)
    requires i < |log| && Bears(log[i], id)
    ensures i < |log| - 1 && log[..|log| - 1][i] == log[i]
  {
  }

  /** Each record of the chain is superseded by the next one. */
  ghost predicate Chain(m: Store, chain: seq<string>) {
    && chain != []
    && (forall i :: 0 <= i < |chain| ==> chain[i] in m)
    && (forall i :: 0 <= i < |chain| - 1 ==>
          m[chain[i]].status.Superseded? && m[chain[i]].supersededBy == Some(chain[i + 1]))
  }

  lemma {:induction false} ChainGrows(
    log: seq<Event>, chain: seq<string>, i: nat, j: nat, bi: nat, bj: nat, wording: Wording)
    requires Run(log, wording) && Chain(StateAfter(log, wording), chain) && i < j < |chain|
    requires bi < |log| && bj < |log| && Bears(log[bi], chain[i]) && Bears(log[bj], chain[j])
    ensures bi < bj
    decreases j
  {
    hide StateAfter, Run, AsRead, TreesAfter, Bears;
    hide Alike;
    var later := SupersededByLater(log, chain[j - 1], wording);
    if i < j - 1 {
      assert log[..|log|] == log;
      var b := BornAt(log, |log|, chain[j - 1], wording);
      ChainGrows(log, chain, i, j - 1, bi, b, wording);
    }
  }

  /** A chain of superseded records never comes back to a record it passed. */
  lemma ChainsAreAcyclic(log: seq<Event>, chain: seq<string>, i: nat, j: nat, wording: Wording)
    requires Run(log, wording) && Chain(StateAfter(log, wording), chain) && i < j < |chain|
    ensures chain[i] != chain[j]
  {
    hide StateAfter, Run, Bears;
    if chain[i] == chain[j] {
      assert log[..|log|] == log;
      var born := BornAt(log, |log|, chain[i], wording);
      ChainGrows(log, chain, i, j, born, born, wording);
    }
  }

  /** A chain from the one record to the other, which nothing superseded and which is of the same call and replay. */
  ghost predicate EndsIn(m: Store, chain: seq<string>, id: string, last: string) {
    && Chain(m, chain) && chain[0] == id && chain[|chain| - 1] == last
    && id in m && last in m
    && !m[last].status.Superseded? && Alike(m[id], m[last])
  }

  lemma AlikeItself(d: Decision)
    ensures Alike(d, d)
  {
  }

  lemma ChainExtends(m: Store, chain: seq<string>, id: string, next: string, last: string)
    requires EndsIn(m, chain, next, last) && id in m && m[id].status.Superseded? && m[id].supersededBy == Some(next)
    requires Alike(m[id], m[next])
    ensures EndsIn(m, [id] + chain, id, last)
  {
    var longer := [id] + chain;
    forall i | 0 <= i < |longer| - 1
      ensures m[longer[i]].status.Superseded? && m[longer[i]].supersededBy == Some(longer[i + 1])
    {
      if i > 0 {
        assert longer[i] == chain[i - 1] && longer[i + 1] == chain[i];
      }
    }
  }

  lemma {:induction false} ChainFrom(log: seq<Event>, id: string, born: nat, wording: Wording)
    returns (chain: seq<string>, last: string)
    requires Run(log, wording) && id in StateAfter(log, wording)
    requires born < |log| && Bears(log[born], id)
    ensures EndsIn(StateAfter(log, wording), chain, id, last)
    decreases |log| - born
  {
    hide StateAfter, Run, Bears;
    hide Alike;
    var m := StateAfter(log, wording);
    if !m[id].status.Superseded? {
      chain, last := [id], id;
      AlikeItself(m[id]);
    } else {
      var later := SupersededByLater(log, id, wording);
      assert log[..|log|] == log;
      var next := BornAt(log, |log|, later, wording);
      hide EndsIn;
      var rest;
      rest, last := ChainFrom(log, later, next, wording);
      ChainExtends(m, rest, id, later, last);
      chain := [id] + rest;
    }
  }

  /** Every record's chain ends, in a record of the same call and replay that nothing superseded. */
  lemma ChainEnds(log: seq<Event>, id: string, wording: Wording) returns (chain: seq<string>, last: string)
    requires Run(log, wording) && id in StateAfter(log, wording)
    ensures EndsIn(StateAfter(log, wording), chain, id, last)
  {
    hide EndsIn;
    assert log[..|log|] == log;
    var born := BornAt(log, |log|, id, wording);
    chain, last := ChainFrom(log, id, born, wording);
  }
}
