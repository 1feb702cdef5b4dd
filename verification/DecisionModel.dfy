/**
 * Decision records and the events that change them (sdk/src/cloudfall/decision.py): proposing,
 * superseding, approving, executing and verifying one declared operation.
 */
module DecisionModel {
  import opened Results
  import opened Names

  // ---- Records ----

  datatype Json =
    | JBool(truth: bool)
    | JNumber(n: int)
    | JText(text: string)
    | JList(items: seq<Json>)
    | JObject(fields: map<Field, Json>)

  /** The keys of a record document; inputs and hosts have free names. */
  datatype Field =
    | FApiVersion | FKind | FMetadata | FSpec | FId
    | FProposedAt | FOperation | FTargets | FInputs | FGate | FBasis | FCheck | FStatus
    | FApproval | FExecution | FVerify | FVerdict | FRanExitCode | FSupersededBy | FReplay
    | FPlaybook | FRisk | FVerifyPlaybook
    | FScope | FPattern
    | FRequirement | FReason
    | FObservations | FObservedAt
    | FExitCode | FChanged | FUnchanged | FDiff
    | FRanAt | FLog
    | FPath | FSha256 | FBytes
    | FApprover | FApprovedAt | FVia
    | FNamed(name: string)

  datatype Risk = Read | Mutating | Destructive

  datatype Requirement = RunsFreely | CheckThenApprove | HumanRequired

  datatype Status = Proposed | Approved | Rejected | Executed | Verified | Failed | Ran | Superseded

  datatype Scope = Fleet | Group | Host

  datatype Targets = Targets(scope: Scope, pattern: Option<string>)

  /** Scalar inputs by name; two inputs are the same exactly when their canonical JSON texts are. */
  type Inputs = map<string, Json>

  datatype Artifact = Artifact(path: string, sha256: string, size: int)

  datatype CheckPreview = CheckPreview(exitCode: int, changed: seq<string>, untouched: seq<string>, diff: Artifact)

  datatype RunRecord = RunRecord(
    ranAt: string, exitCode: int, changed: seq<string>, untouched: seq<string>, log: Artifact)

  datatype Basis = Basis(observations: string, observedAt: map<string, string>)

  datatype Channel = Terminal | Unknown

  datatype Approval = Approval(approver: string, approvedAt: string, via: Channel)

  datatype Decision = Decision(
    id: string,
    proposedAt: string,
    operation: string,
    playbook: string,
    risk: Risk,
    verifyPlaybook: Option<string>,
    targets: Targets,
    inputs: Inputs,
    requirement: Requirement,
    reason: string,
    basis: Basis,
    check: CheckPreview,
    status: Status,
    approval: Option<Approval>,
    execution: Option<RunRecord>,
    verification: Option<RunRecord>,
    verdict: Option<string>,
    ranExitCode: Option<int>,
    supersededBy: Option<string>,
    replay: Option<string>)
  {
    predicate SameCall(other: Decision) {
      operation == other.operation && targets == other.targets && inputs == other.inputs
    }

    predicate Open() { status.Proposed? }
  }

  type Store = map<string, Decision>

  // ---- Invocations ----

  /** One argument of an invocation; the inputs travel as the JSON text of their mapping. */
  datatype Argument = Text(text: string) | Vars(inputs: Inputs)

  type Argv = seq<Argument>

  const CHECK := Text("--check")
  const DIFF := Text("--diff")
  const LIMIT := Text("--limit")
  const EXTRA_VARS := Text("--extra-vars")
  const BINARY := Text("/usr/bin/ansible-playbook")

  /** A playbook path joined to a repository path, as a path library joins them. */
  function Join(repository: string, playbook: string): string {
    if "/" <= playbook || repository == "." then playbook
    else if repository == "/" then repository + playbook
    else repository + "/" + playbook
  }

  function RunCommand(
    playbook: string, repository: string, pattern: Option<string>, inputs: Inputs, check: bool): Argv
  {
    (if check then [BINARY, CHECK, DIFF] else [BINARY, DIFF])
    + (if pattern.Some? then [LIMIT, Text(pattern.value)] else [])
    + (if inputs != map[] then [EXTRA_VARS, Vars(inputs)] else [])
    + [Text(Join(repository, playbook))]
  }

  predicate InCheckMode(argv: Argv) {
    |argv| > 1 && argv[1] == CHECK
  }

  // ---- What a run reports ----

  datatype Stage = CheckStage | ExecutionStage | VerifyStage

  /** Per-host results the tree callback left: whether each host reported a change. */
  type Tree = map<string, bool>

  /**
   * A runner exits, or raises part-way, as the engine's timeout does; it leaves an output and the
   * results of the hosts it came to either way.
   */
  datatype Answer = Exited(code: int, tree: Tree, output: string) | Raised(tree: Tree, output: string)

  type Runner = (Stage, Argv) -> Answer

  function ChangedHosts(tree: Tree): set<string> {
    set host | host in tree && tree[host]
  }

  function UnchangedHosts(tree: Tree): set<string> {
    set host | host in tree && !tree[host]
  }

  /** Each stage of a decision has one directory of host trees, which nothing ever clears. */
  datatype Place = Place(id: string, stage: Stage)

  type Trees = map<Place, Tree>

  function Left(trees: Trees, place: Place): Tree {
    if place in trees then trees[place] else map[]
  }

  /** What is read after a run: its own results over those that were left there. */
  function Found(left: Tree, answer: Answer): Answer {
    answer.(tree := left + answer.tree)
  }

  ghost function Listing(names: set<string>): (listed: seq<string>)
    ensures Lists(listed, names)
  {
    ListingExists(names);
    var listed :| Lists(listed, names);
    listed
  }

  lemma {:induction false} ListingExists(names: set<string>)
    ensures exists listed :: Lists(listed, names)
  {
    if names == {} {
      assert Lists([], names);
    } else {
      var first := FirstExists(names);
      ListingExists(names - {first});
      var rest :| Lists(rest, names - {first});
      var listed := [first] + rest;
      forall i, j | 0 <= i < j < |listed|
        ensures Less(listed[i], listed[j])
      {
        assert listed[j] == rest[j - 1] && rest[j - 1] in Members(rest);
      }
      assert forall n :: n in listed <==> n == first || n in rest;
      assert forall n :: n in names <==> n in Members(listed) by {
        assert forall n :: n in rest <==> n in Members(rest);
      }
      assert Lists(listed, names);
    }
  }

  // ---- The gate and the outcome ----

  function Gate(risk: Risk): (Requirement, string) {
    match risk
    case Read => (RunsFreely, "a read operation changes nothing, so nothing gates it")
    case Mutating =>
      (CheckThenApprove, "a mutating operation runs in check mode first and waits for an approval of the recorded diff")
    case Destructive =>
      (HumanRequired, "a destructive operation cannot be undone, so only a person may let it through")
  }

  /** Why a run earned its status. */
  datatype Reason =
    | RunExited(code: int) | NoVerifyStep | VerifyDidNotRun | VerifyExited(code: int)
    | VerifyChanged(hosts: seq<string>) | VerifyChangedNothing

  function Outcome(
    execution: RunRecord, verification: Option<RunRecord>, verifyPlaybook: Option<string>): (Status, Reason)
  {
    if execution.exitCode != 0 then (Failed, RunExited(execution.exitCode))
    else if verifyPlaybook.None? then (Executed, NoVerifyStep)
    else if verification.None? then (Failed, VerifyDidNotRun)
    else if verification.value.exitCode != 0 then (Failed, VerifyExited(verification.value.exitCode))
    else if verification.value.changed != [] then (Failed, VerifyChanged(verification.value.changed))
    else (Verified, VerifyChangedNothing)
  }

  /** The sentences a record keeps and the digest it cites an output by; which they are plays no part. */
  datatype Wording = Wording(
    verdict: Reason -> string, ran: (int, Option<string>) -> string,
    superseded: string -> string, digest: string -> string)

  function Cited(path: string, output: string, wording: Wording): Artifact {
    Artifact(path, wording.digest(output), |output|)
  }

  /** What a run reports: its exit code, its hosts by name, and its output kept under a path. */
  ghost function Preview(answer: Answer, path: string, wording: Wording): CheckPreview
    requires answer.Exited?
  {
    CheckPreview(
      answer.code, Listing(ChangedHosts(answer.tree)), Listing(UnchangedHosts(answer.tree)),
      Cited(path, answer.output, wording))
  }

  ghost predicate SupersedingFits(wording: Wording) {
    forall id: string :: |id| <= ID_LIMIT ==> TextFits(wording.superseded(id), SENTENCE_LIMIT)
  }

  // ---- What a record may hold ----

  const ID_LIMIT := 63
  const SENTENCE_LIMIT := 300
  const APPROVER_LIMIT := 128
  const PATTERN_LIMIT := 200
  const REPLAY_LIMIT := 512
  const HOST_LIMIT := 253

  predicate TextFits(text: string, limit: nat) {
    1 <= |text| <= limit
  }

  predicate OptionalFits(text: Option<string>, limit: nat) {
    text.Some? ==> TextFits(text.value, limit)
  }

  predicate RunFits(exitCode: int, changed: seq<string>, untouched: seq<string>) {
    && 0 <= exitCode <= 255
    && (forall i :: 0 <= i < |changed| ==> TextFits(changed[i], HOST_LIMIT))
    && (forall i :: 0 <= i < |untouched| ==> TextFits(untouched[i], HOST_LIMIT))
  }

  predicate OptionalRunFits(run: Option<RunRecord>) {
    run.Some? ==> RunFits(run.value.exitCode, run.value.changed, run.value.untouched)
  }

  /**
   * What the record schema asks of the values a proposal or an approval brings: a record that does
   * not fit is refused when it is written, after its playbooks have run.
   */
  predicate Fits(d: Decision) {
    && OptionalFits(d.targets.pattern, PATTERN_LIMIT)
    && RunFits(d.check.exitCode, d.check.changed, d.check.untouched)
    && (d.approval.Some? ==> TextFits(d.approval.value.approver, APPROVER_LIMIT))
    && OptionalRunFits(d.execution) && OptionalRunFits(d.verification)
    && OptionalFits(d.verdict, SENTENCE_LIMIT)
    && (d.ranExitCode.Some? ==> 0 <= d.ranExitCode.value <= 255)
    && OptionalFits(d.replay, REPLAY_LIMIT)
  }

  // ---- Proposing ----

  datatype Moment = Moment(stamp: string, timestamp: string)

  datatype Operation = Operation(id: string, playbook: string, risk: Risk, verify: Option<string>)

  /** A request whose targets and inputs the catalog has accepted. */
  datatype Request = Request(
    operation: Operation, targets: Targets, inputs: Inputs, repository: string, basis: Basis, replay: Option<string>)

  function Identifier(operation: string, moment: Moment): string {
    operation + "-" + moment.stamp
  }

  /** The files an output is kept in, in the directory of the records. */
  function DiffFile(id: string): string {
    id + ".diff"
  }

  function LogFile(id: string, stage: Stage): string {
    match stage
    case CheckStage => DiffFile(id)
    case ExecutionStage => id + "-execution.log"
    case VerifyStage => id + "-verify.log"
  }

  function CheckCommand(request: Request): Argv {
    RunCommand(request.operation.playbook, request.repository, request.targets.pattern, request.inputs, true)
  }

  ghost function NewDecision(request: Request, moment: Moment, answer: Answer, wording: Wording): Decision
    requires answer.Exited?
  {
    var (requirement, reason) := Gate(request.operation.risk);
    var ran := requirement.RunsFreely?;
    Decision(
      Identifier(request.operation.id, moment), moment.timestamp, request.operation.id, request.operation.playbook,
      request.operation.risk, request.operation.verify, request.targets, request.inputs, requirement, reason,
      request.basis, Preview(answer, DiffFile(Identifier(request.operation.id, moment)), wording),
      if ran then Ran else Proposed,
      None, None, None,
      if ran then Some(wording.ran(answer.code, request.replay)) else None,
      if ran then Some(answer.code) else None,
      None, request.replay)
  }

  predicate Replaces(newer: Decision, older: Decision) {
    older.Open() && older.replay == newer.replay && older.SameCall(newer)
  }

  function SupersededRecord(older: Decision, newer: Decision, wording: Wording): Decision {
    older.(status := Superseded, supersededBy := Some(newer.id), verdict := Some(wording.superseded(newer.id)))
  }

  /** The store after a proposal: the new record, and the open ones it replaces marked so. */
  function Superseding(m: Store, newer: Decision, wording: Wording): Store {
    (map id | id in m :: if Replaces(newer, m[id]) then SupersededRecord(m[id], newer, wording) else m[id])
      [newer.id := newer]
  }

  // ---- Approving ----

  datatype Refusal =
    | IdTooLong | DecisionExists | DecisionMissing | RecordInvalid
    | NotProposed | Replayed | ApproverUnknown | ChannelUnknown | RunnerRaised

  /** `approver` is the name given, without the blanks around it. */
  datatype ApprovalRequest = ApprovalRequest(approver: string, repository: string, via: Channel)

  /** The refusals before anything runs, in their order. */
  function RefuseApproval(decision: Decision, request: ApprovalRequest): Option<Refusal> {
    if decision.replay.Some? then Some(Replayed)
    else if !decision.Open() then Some(NotProposed)
    else if request.approver == "" then Some(ApproverUnknown)
    else if request.via.Unknown? then Some(ChannelUnknown)
    else None
  }

  function StageCommand(decision: Decision, playbook: string, repository: string): Argv {
    RunCommand(playbook, repository, decision.targets.pattern, decision.inputs, false)
  }

  ghost function RunRecordOf(answer: Answer, at: string, path: string, wording: Wording): RunRecord
    requires answer.Exited?
  {
    var preview := Preview(answer, path, wording);
    RunRecord(at, preview.exitCode, preview.changed, preview.untouched, preview.diff)
  }

  /** The verify step runs only after a clean execution of an operation that declares one. */
  predicate Verifies(decision: Decision, execution: Answer) {
    decision.verifyPlaybook.Some? && execution.Exited? && execution.code == 0
  }

  /** What the runner did for one approval: the execution, and the verify run when there was one. */
  datatype Attempt = Attempt(
    request: ApprovalRequest, startedAt: string, verifiedAt: string, execution: Answer, verification: Option<Answer>)
  {
    predicate Answered() { execution.Exited? && (verification.Some? ==> verification.value.Exited?) }
  }

  ghost function ApprovedRecord(decision: Decision, attempt: Attempt, wording: Wording): Decision
    requires attempt.Answered()
  {
    var execution := RunRecordOf(attempt.execution, attempt.startedAt, LogFile(decision.id, ExecutionStage), wording);
    var verification :=
      if attempt.verification.Some?
      then Some(RunRecordOf(attempt.verification.value, attempt.verifiedAt, LogFile(decision.id, VerifyStage), wording))
      else None;
    var (status, reason) := Outcome(execution, verification, decision.verifyPlaybook);
    decision.(
      approval := Some(Approval(attempt.request.approver, attempt.startedAt, attempt.request.via)),
      execution := Some(execution),
      verification := verification,
      status := status,
      verdict := Some(wording.verdict(reason)))
  }

  /** An approval is written down when its runs answered and their record fits. */
  ghost predicate Completes(decision: Decision, attempt: Attempt, wording: Wording) {
    attempt.Answered() && Fits(ApprovedRecord(decision, attempt, wording))
  }

  // ---- Events ----

  /**
   * `Checked` is a check-mode run that left no record: the runner raised, the id was taken or the
   * record did not fit. `Attempted` is one approval; only a complete one changes the record.
   */
  datatype Event =
    | Checked(request: Request, moment: Moment, answer: Answer)
    | Recorded(request: Request, moment: Moment, answer: Answer)
    | Attempted(id: string, attempt: Attempt)

  /** A check run whose proposal is recorded. */
  ghost predicate Records(m: Store, request: Request, moment: Moment, answer: Answer, wording: Wording) {
    && answer.Exited?
    && Identifier(request.operation.id, moment) !in m
    && Fits(NewDecision(request, moment, answer, wording))
  }

  ghost predicate Legal(m: Store, e: Event, wording: Wording) {
    match e
    case Checked(request, moment, answer) =>
      && |Identifier(request.operation.id, moment)| <= ID_LIMIT
      && !Records(m, request, moment, answer, wording)
    case Recorded(request, moment, answer) =>
      && |Identifier(request.operation.id, moment)| <= ID_LIMIT
      && Records(m, request, moment, answer, wording)
    case Attempted(id, attempt) =>
      && id in m
      && RefuseApproval(m[id], attempt.request).None?
      && (attempt.verification.Some? <==> Verifies(m[id], attempt.execution))
  }

  ghost function After(m: Store, e: Event, wording: Wording): Store {
    match e
    case Checked(_, _, _) => m
    case Recorded(request, moment, answer) =>
      if answer.Exited? then Superseding(m, NewDecision(request, moment, answer, wording), wording) else m
    case Attempted(id, attempt) =>
      if id in m && Completes(m[id], attempt, wording) then m[id := ApprovedRecord(m[id], attempt, wording)] else m
  }

  function AttemptRead(trees: Trees, id: string, attempt: Attempt): Attempt {
    attempt.(
      execution := Found(Left(trees, Place(id, ExecutionStage)), attempt.execution),
      verification :=
        if attempt.verification.Some?
        then Some(Found(Left(trees, Place(id, VerifyStage)), attempt.verification.value))
        else None)
  }

  /** The directory a check leaves its results in. */
  function CheckPlace(request: Request, moment: Moment): Place {
    Place(Identifier(request.operation.id, moment), CheckStage)
  }

  /** An event with each answer as it is read, from a directory that may hold earlier results. */
  function AsRead(trees: Trees, e: Event): Event {
    match e
    case Checked(request, moment, answer) =>
      Checked(request, moment, Found(Left(trees, CheckPlace(request, moment)), answer))
    case Recorded(request, moment, answer) =>
      Recorded(request, moment, Found(Left(trees, CheckPlace(request, moment)), answer))
    case Attempted(id, attempt) => Attempted(id, AttemptRead(trees, id, attempt))
  }

  /** The host results on file after an event. */
  function TreesNext(trees: Trees, e: Event): Trees {
    match AsRead(trees, e)
    case Checked(request, moment, answer) => trees[CheckPlace(request, moment) := answer.tree]
    case Recorded(request, moment, answer) => trees[CheckPlace(request, moment) := answer.tree]
    case Attempted(id, attempt) =>
      var executed := trees[Place(id, ExecutionStage) := attempt.execution.tree];
      if attempt.verification.Some? then executed[Place(id, VerifyStage) := attempt.verification.value.tree]
      else executed
  }

  function TreesAfter(log: seq<Event>): Trees {
    if log == [] then map[] else TreesNext(TreesAfter(log[..|log| - 1]), log[|log| - 1])
  }

  /** The last event of a run, as it is read. */
  function LastRead(log: seq<Event>): Event
    requires log != []
  {
    AsRead(TreesAfter(log[..|log| - 1]), log[|log| - 1])
  }

  ghost function StateAfter(log: seq<Event>, wording: Wording): Store {
    if log == [] then map[] else After(StateAfter(log[..|log| - 1], wording), LastRead(log), wording)
  }

  ghost predicate Run(log: seq<Event>, wording: Wording) {
    log == [] ||
    (Run(log[..|log| - 1], wording) && Legal(StateAfter(log[..|log| - 1], wording), LastRead(log), wording))
  }

  /** The invocations an event starts, in order. */
  ghost function Starts(m: Store, e: Event): seq<Argv> {
    match e
    case Checked(request, _, _) => [CheckCommand(request)]
    case Recorded(request, _, _) => [CheckCommand(request)]
    case Attempted(id, attempt) =>
      if id !in m then []
      else
        [StageCommand(m[id], m[id].playbook, attempt.request.repository)]
        + (if attempt.verification.Some? && m[id].verifyPlaybook.Some?
           then [StageCommand(m[id], m[id].verifyPlaybook.value, attempt.request.repository)] else [])
  }

  /** Every invocation a run of events started, in order. */
  ghost function StartsOf(log: seq<Event>, wording: Wording): seq<Argv> {
    if log == [] then []
    else
      var shorter := log[..|log| - 1];
      StartsOf(shorter, wording) + Starts(StateAfter(shorter, wording), log[|log| - 1])
  }

  /** Every check writes its output over what its id had on file. */
  function OutputsNext(outputs: map<string, string>, e: Event): map<string, string> {
    if e.Attempted? then outputs else outputs[Identifier(e.request.operation.id, e.moment) := e.answer.output]
  }

  /** The check outputs on file after a run, by the id they are kept under. */
  ghost function OutputsAfter(log: seq<Event>): map<string, string> {
    if log == [] then map[] else OutputsNext(OutputsAfter(log[..|log| - 1]), log[|log| - 1])
  }
}
