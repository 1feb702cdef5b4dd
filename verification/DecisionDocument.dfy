/**
 * The document form of a decision record (sdk/src/cloudfall/decision.py): what is written to its
 * file, and what is read back from it.
 */
module DecisionDocument {
  import opened Results
  import opened DecisionModel

  // ---- The words of the enumerations ----

  function RiskWord(risk: Risk): string {
    match risk case Read => "read" case Mutating => "mutating" case Destructive => "destructive"
  }

  function ReadRisk(word: string): Option<Risk> {
    if word == "read" then Some(Read)
    else if word == "mutating" then Some(Mutating)
    else if word == "destructive" then Some(Destructive)
    else None
  }

  function RequirementWord(requirement: Requirement): string {
    match requirement
    case RunsFreely => "runs-freely"
    case CheckThenApprove => "check-then-approve"
    case HumanRequired => "human-required"
  }

  function ReadRequirement(word: string): Option<Requirement> {
    if word == "runs-freely" then Some(RunsFreely)
    else if word == "check-then-approve" then Some(CheckThenApprove)
    else if word == "human-required" then Some(HumanRequired)
    else None
  }

  function StatusWord(status: Status): string {
    match status
    case Proposed => "proposed"
    case Approved => "approved"
    case Rejected => "rejected"
    case Executed => "executed"
    case Verified => "verified"
    case Failed => "failed"
    case Ran => "ran"
    case Superseded => "superseded"
  }

  function ReadStatus(word: string): Option<Status> {
    if word == "proposed" then Some(Proposed)
    else if word == "approved" then Some(Approved)
    else if word == "rejected" then Some(Rejected)
    else if word == "executed" then Some(Executed)
    else if word == "verified" then Some(Verified)
    else if word == "failed" then Some(Failed)
    else if word == "ran" then Some(Ran)
    else if word == "superseded" then Some(Superseded)
    else None
  }

  function ScopeWord(scope: Scope): string {
    match scope case Fleet => "fleet" case Group => "group" case Host => "host"
  }

  function ReadScope(word: string): Option<Scope> {
    if word == "fleet" then Some(Fleet)
    else if word == "group" then Some(Group)
    else if word == "host" then Some(Host)
    else None
  }

  function ChannelWord(via: Channel): string {
    match via case Terminal => "terminal" case Unknown => "unknown"
  }

  /** A record that names no channel reads as unknown. */
  function ReadChannel(named: Option<Json>): Option<Channel> {
    if named.None? then Some(Unknown)
    else if named.value == JText("terminal") then Some(Terminal)
    else if named.value == JText("unknown") then Some(Unknown)
    else None
  }

  // ---- Writing ----

  type Fields = map<Field, Json>

  function Lookup(fields: Fields, field: Field): Option<Json> {
    if field in fields then Some(fields[field]) else None
  }

  /** Sets a field the decision has; leaves out one it has not. */
  function With(fields: Fields, field: Field, value: Option<Json>): (r: Fields)
    ensures Lookup(r, field) == if value.Some? then value else Lookup(fields, field)
    ensures forall other :: other != field ==> Lookup(r, other) == Lookup(fields, other)
  {
    if value.Some? then fields[field := value.value] else fields
  }

  function OptionalText(text: Option<string>): Option<Json> {
    if text.Some? then Some(JText(text.value)) else None
  }

  function Texts(names: seq<string>): seq<Json> {
    if names == [] then [] else [JText(names[0])] + Texts(names[1..])
  }

  function Names(names: seq<string>): Json {
    JList(Texts(names))
  }

  function ArtifactDocument(artifact: Artifact): Json {
    JObject(map[FPath := JText(artifact.path), FSha256 := JText(artifact.sha256), FBytes := JNumber(artifact.size)])
  }

  function CheckDocument(check: CheckPreview): Json {
    JObject(map[
      FExitCode := JNumber(check.exitCode), FChanged := Names(check.changed), FUnchanged := Names(check.untouched),
      FDiff := ArtifactDocument(check.diff)])
  }

  function RunDocument(run: RunRecord): Json {
    JObject(map[
      FRanAt := JText(run.ranAt), FExitCode := JNumber(run.exitCode), FChanged := Names(run.changed),
      FUnchanged := Names(run.untouched), FLog := ArtifactDocument(run.log)])
  }

  function OptionalRun(run: Option<RunRecord>): Option<Json> {
    if run.Some? then Some(RunDocument(run.value)) else None
  }

  function ApprovalDocument(approval: Approval): Json {
    JObject(map[
      FApprover := JText(approval.approver), FApprovedAt := JText(approval.approvedAt),
      FVia := JText(ChannelWord(approval.via))])
  }

  function OptionalApproval(approval: Option<Approval>): Option<Json> {
    if approval.Some? then Some(ApprovalDocument(approval.value)) else None
  }

  function ObjectOf(values: map<string, Json>): Json {
    JObject(map name | name in values :: FNamed(name) := values[name])
  }

  function InputsDocument(inputs: Inputs): Json {
    ObjectOf(inputs)
  }

  function BasisDocument(basis: Basis): Json {
    JObject(map[
      FObservations := JText(basis.observations),
      FObservedAt := ObjectOf(map name | name in basis.observedAt :: JText(basis.observedAt[name]))])
  }

  function OperationDocument(d: Decision): Json {
    JObject(With(
      map[FId := JText(d.operation), FPlaybook := JText(d.playbook), FRisk := JText(RiskWord(d.risk))],
      FVerifyPlaybook, OptionalText(d.verifyPlaybook)))
  }

  function TargetsDocument(targets: Targets): Json {
    JObject(With(map[FScope := JText(ScopeWord(targets.scope))], FPattern, OptionalText(targets.pattern)))
  }

  function GateDocument(requirement: Requirement, reason: string): Json {
    JObject(map[FRequirement := JText(RequirementWord(requirement)), FReason := JText(reason)])
  }

  function OptionalNumber(n: Option<int>): Option<Json> {
    if n.Some? then Some(JNumber(n.value)) else None
  }

  function FixedFields(d: Decision): Fields {
    map[
      FProposedAt := JText(d.proposedAt),
      FOperation := OperationDocument(d),
      FTargets := TargetsDocument(d.targets),
      FInputs := InputsDocument(d.inputs),
      FGate := GateDocument(d.requirement, d.reason),
      FBasis := BasisDocument(d.basis),
      FCheck := CheckDocument(d.check),
      FStatus := JText(StatusWord(d.status))]
  }

  function SpecFields(d: Decision): Fields {
    var approved := With(FixedFields(d), FApproval, OptionalApproval(d.approval));
    var executed := With(approved, FExecution, OptionalRun(d.execution));
    var verified := With(executed, FVerify, OptionalRun(d.verification));
    var judged := With(verified, FVerdict, OptionalText(d.verdict));
    var ran := With(judged, FRanExitCode, OptionalNumber(d.ranExitCode));
    var superseded := With(ran, FSupersededBy, OptionalText(d.supersededBy));
    With(superseded, FReplay, OptionalText(d.replay))
  }

  function SpecDocument(d: Decision): Json {
    JObject(SpecFields(d))
  }

  const API_VERSION := JText("cloudfall/v1")
  const DECISION_KIND := JText("OperationDecision")

  function AsDocument(d: Decision): Json {
    JObject(map[
      FApiVersion := API_VERSION, FKind := DECISION_KIND, FMetadata := JObject(map[FId := JText(d.id)]),
      FSpec := SpecDocument(d)])
  }

  // ---- Reading ----

  function Get(document: Json, field: Field): Option<Json> {
    if document.JObject? then Lookup(document.fields, field) else None
  }

  function GetText(document: Json, field: Field): Option<string> {
    var value :- Get(document, field);
    if value.JText? then Some(value.text) else None
  }

  function GetNumber(document: Json, field: Field): Option<int> {
    var value :- Get(document, field);
    if value.JNumber? then Some(value.n) else None
  }

  function ReadNames(items: seq<Json>): Option<seq<string>> {
    if items == [] then Some([])
    else if !items[0].JText? then None
    else
      var rest :- ReadNames(items[1..]);
      Some([items[0].text] + rest)
  }

  function GetNames(document: Json, field: Field): Option<seq<string>> {
    var value :- Get(document, field);
    if value.JList? then ReadNames(value.items) else None
  }

  function ReadArtifact(document: Json): Option<Artifact> {
    var path :- GetText(document, FPath);
    var sha256 :- GetText(document, FSha256);
    var size :- GetNumber(document, FBytes);
    Some(Artifact(path, sha256, size))
  }

  function ReadCheck(document: Json): Option<CheckPreview> {
    var exitCode :- GetNumber(document, FExitCode);
    var changed :- GetNames(document, FChanged);
    var untouched :- GetNames(document, FUnchanged);
    var diff :- Get(document, FDiff);
    var artifact :- ReadArtifact(diff);
    Some(CheckPreview(exitCode, changed, untouched, artifact))
  }

  function ReadRun(document: Json): Option<RunRecord> {
    var ranAt :- GetText(document, FRanAt);
    var exitCode :- GetNumber(document, FExitCode);
    var changed :- GetNames(document, FChanged);
    var untouched :- GetNames(document, FUnchanged);
    var log :- Get(document, FLog);
    var artifact :- ReadArtifact(log);
    Some(RunRecord(ranAt, exitCode, changed, untouched, artifact))
  }

  /** What did not run yet reads as nothing. */
  function ReadOptionalRun(document: Option<Json>): Option<Option<RunRecord>> {
    if document.None? || !document.value.JObject? then Some(None)
    else
      var run :- ReadRun(document.value);
      Some(Some(run))
  }

  function ReadApproval(document: Option<Json>): Option<Option<Approval>> {
    if document.None? || !document.value.JObject? then Some(None)
    else
      var approver :- GetText(document.value, FApprover);
      var approvedAt :- GetText(document.value, FApprovedAt);
      var via :- ReadChannel(Get(document.value, FVia));
      Some(Some(Approval(approver, approvedAt, via)))
  }

  predicate Named(fields: Fields) {
    forall field :: field in fields ==> field.FNamed?
  }

  /** The values of an object whose keys are all free names. */
  function ByName(fields: Fields): map<string, Json>
    requires Named(fields)
  {
    var names := set field | field in fields :: field.name;
    map name | name in names && FNamed(name) in fields :: fields[FNamed(name)]
  }

  function ReadInputs(document: Json): Option<Inputs> {
    if document.JObject? && Named(document.fields) then Some(ByName(document.fields)) else None
  }

  predicate AllTexts(values: map<string, Json>) {
    forall name :: name in values ==> values[name].JText?
  }

  function TextOf(values: map<string, Json>): map<string, string>
    requires AllTexts(values)
  {
    map name | name in values :: values[name].text
  }

  function ReadObservedAt(document: Json): Option<map<string, string>> {
    var values :- ReadInputs(document);
    if AllTexts(values) then Some(TextOf(values)) else None
  }

  /** A field that may be missing, but is a text when it is there. */
  function MaybeText(document: Json, field: Field): Option<Option<string>> {
    if Get(document, field).None? then Some(None)
    else
      var text :- GetText(document, field);
      Some(Some(text))
  }

  function MaybeNumber(document: Json, field: Field): Option<Option<int>> {
    if Get(document, field).None? then Some(None)
    else
      var n :- GetNumber(document, field);
      Some(Some(n))
  }

  function ReadTargets(document: Json): Option<Targets> {
    var word :- GetText(document, FScope);
    var scope :- ReadScope(word);
    var pattern :- MaybeText(document, FPattern);
    Some(Targets(scope, pattern))
  }

  function ReadBasis(document: Json): Option<Basis> {
    var observations :- GetText(document, FObservations);
    var listed :- Get(document, FObservedAt);
    var observedAt :- ReadObservedAt(listed);
    Some(Basis(observations, observedAt))
  }

  function FromDocument(document: Json): Option<Decision> {
    var metadata :- Get(document, FMetadata);
    var spec :- Get(document, FSpec);
    var id :- GetText(metadata, FId);
    var proposedAt :- GetText(spec, FProposedAt);
    var operation :- Get(spec, FOperation);
    var operationId :- GetText(operation, FId);
    var playbook :- GetText(operation, FPlaybook);
    var riskWord :- GetText(operation, FRisk);
    var risk :- ReadRisk(riskWord);
    var verifyPlaybook :- MaybeText(operation, FVerifyPlaybook);
    var targetsRecord :- Get(spec, FTargets);
    var targets :- ReadTargets(targetsRecord);
    var inputsRecord :- Get(spec, FInputs);
    var inputs :- ReadInputs(inputsRecord);
    var gateRecord :- Get(spec, FGate);
    var requirementWord :- GetText(gateRecord, FRequirement);
    var requirement :- ReadRequirement(requirementWord);
    var reason :- GetText(gateRecord, FReason);
    var basisRecord :- Get(spec, FBasis);
    var basis :- ReadBasis(basisRecord);
    var checkRecord :- Get(spec, FCheck);
    var check :- ReadCheck(checkRecord);
    var statusWord :- GetText(spec, FStatus);
    var status :- ReadStatus(statusWord);
    var verdict :- MaybeText(spec, FVerdict);
    var ranExitCode :- MaybeNumber(spec, FRanExitCode);
    var supersededBy :- MaybeText(spec, FSupersededBy);
    var replay :- MaybeText(spec, FReplay);
    var execution :- ReadOptionalRun(Get(spec, FExecution));
    var verification :- ReadOptionalRun(Get(spec, FVerify));
    var approval :- ReadApproval(Get(spec, FApproval));
    Some(Decision(
      id, proposedAt, operationId, playbook, risk, verifyPlaybook, targets, inputs, requirement, reason, basis, check,
      status, approval, execution, verification, verdict, ranExitCode, supersededBy, replay))
  }

  // ---- What is written reads back ----

  lemma WordsReadBack(d: Decision)
    ensures ReadRisk(RiskWord(d.risk)) == Some(d.risk)
    ensures ReadRequirement(RequirementWord(d.requirement)) == Some(d.requirement)
    ensures ReadStatus(StatusWord(d.status)) == Some(d.status)
    ensures ReadScope(ScopeWord(d.targets.scope)) == Some(d.targets.scope)
  {
    assert RiskWord(Read)[0] == 'r' && RiskWord(Mutating)[0] == 'm' && RiskWord(Destructive)[0] == 'd';
    assert RequirementWord(RunsFreely)[0] == 'r' && RequirementWord(CheckThenApprove)[0] == 'c';
    assert RequirementWord(HumanRequired)[0] == 'h';
    assert StatusWord(Proposed)[0] == 'p' && StatusWord(Approved)[0] == 'a' && StatusWord(Rejected)[0] == 'r';
    assert StatusWord(Executed)[0] == 'e' && StatusWord(Verified)[0] == 'v' && StatusWord(Failed)[0] == 'f';
    assert |StatusWord(Ran)| == 3 && |StatusWord(Rejected)| == 8 && StatusWord(Superseded)[0] == 's';
    assert ScopeWord(Fleet)[0] == 'f' && ScopeWord(Group)[0] == 'g' && ScopeWord(Host)[0] == 'h';
  }

  lemma {:induction false} NamesReadBack(names: seq<string>)
    ensures ReadNames(Texts(names)) == Some(names)
  {
    if names != [] {
      NamesReadBack(names[1..]);
      assert Texts(names)[1..] == Texts(names[1..]);
      assert names == [names[0]] + names[1..];
    }
  }

  lemma CheckReadsBack(check: CheckPreview)
    ensures ReadCheck(CheckDocument(check)) == Some(check)
  {
    NamesReadBack(check.changed);
    NamesReadBack(check.untouched);
  }

  lemma RunReadsBack(run: RunRecord)
    ensures ReadRun(RunDocument(run)) == Some(run)
  {
    NamesReadBack(run.changed);
    NamesReadBack(run.untouched);
  }

  lemma ApprovalReadsBack(approval: Option<Approval>)
    ensures ReadApproval(OptionalApproval(approval)) == Some(approval)
  {
    assert ChannelWord(Terminal)[0] == 't' && ChannelWord(Unknown)[0] == 'u';
  }

  lemma InputsReadBack(inputs: Inputs)
    ensures ReadInputs(InputsDocument(inputs)) == Some(inputs)
  {
    var fields := InputsDocument(inputs).fields;
    assert forall name :: name in inputs ==> FNamed(name) in fields;
    assert ByName(fields) == inputs;
  }

  lemma BasisReadsBack(basis: Basis)
    ensures ReadBasis(BasisDocument(basis)) == Some(basis)
  {
    var values: map<string, Json> := map name | name in basis.observedAt :: JText(basis.observedAt[name]);
    InputsReadBack(values);
    assert TextOf(values) == basis.observedAt;
  }

  lemma TargetsReadBack(targets: Targets)
    ensures ReadTargets(TargetsDocument(targets)) == Some(targets)
  {
    assert ScopeWord(Fleet)[0] == 'f' && ScopeWord(Group)[0] == 'g' && ScopeWord(Host)[0] == 'h';
  }

  lemma FixedFieldsAt(d: Decision)
    ensures
      var fields := FixedFields(d);
      && Lookup(fields, FProposedAt) == Some(JText(d.proposedAt))
      && Lookup(fields, FOperation) == Some(OperationDocument(d))
      && Lookup(fields, FTargets) == Some(TargetsDocument(d.targets))
      && Lookup(fields, FInputs) == Some(InputsDocument(d.inputs))
      && Lookup(fields, FGate) == Some(GateDocument(d.requirement, d.reason))
      && Lookup(fields, FBasis) == Some(BasisDocument(d.basis))
      && Lookup(fields, FCheck) == Some(CheckDocument(d.check))
      && Lookup(fields, FStatus) == Some(JText(StatusWord(d.status)))
  {
    hide OperationDocument, TargetsDocument, InputsDocument, GateDocument, BasisDocument, CheckDocument, StatusWord;
  }

  lemma NoOtherFixedField(d: Decision)
    ensures
      var fields := FixedFields(d);
      && Lookup(fields, FApproval) == None && Lookup(fields, FExecution) == None && Lookup(fields, FVerify) == None
      && Lookup(fields, FVerdict) == None && Lookup(fields, FRanExitCode) == None
      && Lookup(fields, FSupersededBy) == None && Lookup(fields, FReplay) == None
  {
    hide OperationDocument, TargetsDocument, InputsDocument, GateDocument, BasisDocument, CheckDocument, StatusWord;
  }

  lemma FixedFieldsStay(d: Decision)
    ensures
      var fields, fixed := SpecFields(d), FixedFields(d);
      && Lookup(fields, FProposedAt) == Lookup(fixed, FProposedAt)
      && Lookup(fields, FOperation) == Lookup(fixed, FOperation)
      && Lookup(fields, FTargets) == Lookup(fixed, FTargets)
      && Lookup(fields, FInputs) == Lookup(fixed, FInputs)
  {
    hide With, Lookup, FixedFields, OptionalApproval, OptionalRun, OptionalText, OptionalNumber;
  }

  lemma MoreFixedFieldsStay(d: Decision)
    ensures
      var fields, fixed := SpecFields(d), FixedFields(d);
      && Lookup(fields, FGate) == Lookup(fixed, FGate)
      && Lookup(fields, FBasis) == Lookup(fixed, FBasis)
      && Lookup(fields, FCheck) == Lookup(fixed, FCheck)
      && Lookup(fields, FStatus) == Lookup(fixed, FStatus)
  {
    hide With, Lookup, FixedFields, OptionalApproval, OptionalRun, OptionalText, OptionalNumber;
  }

  lemma OptionalFieldsStay(d: Decision)
    ensures
      var fields := SpecFields(d);
      && Lookup(fields, FApproval) == OptionalApproval(d.approval)
      && Lookup(fields, FExecution) == OptionalRun(d.execution)
      && Lookup(fields, FVerify) == OptionalRun(d.verification)
      && Lookup(fields, FVerdict) == OptionalText(d.verdict)
      && Lookup(fields, FRanExitCode) == OptionalNumber(d.ranExitCode)
      && Lookup(fields, FSupersededBy) == OptionalText(d.supersededBy)
      && Lookup(fields, FReplay) == OptionalText(d.replay)
  {
    NoOtherFixedField(d);
    hide With, Lookup, FixedFields, OptionalApproval, OptionalRun, OptionalText, OptionalNumber;
  }

  /** Every field of a record, where it is. */
  lemma SpecFieldsAt(d: Decision)
    ensures
      var fields := SpecDocument(d);
      && GetText(fields, FProposedAt) == Some(d.proposedAt)
      && Get(fields, FOperation) == Some(OperationDocument(d))
      && Get(fields, FTargets) == Some(TargetsDocument(d.targets))
      && Get(fields, FInputs) == Some(InputsDocument(d.inputs))
      && Get(fields, FGate) == Some(GateDocument(d.requirement, d.reason))
      && Get(fields, FBasis) == Some(BasisDocument(d.basis))
      && Get(fields, FCheck) == Some(CheckDocument(d.check))
      && GetText(fields, FStatus) == Some(StatusWord(d.status))
      && Get(fields, FApproval) == OptionalApproval(d.approval)
      && Get(fields, FExecution) == OptionalRun(d.execution)
      && Get(fields, FVerify) == OptionalRun(d.verification)
      && MaybeText(fields, FVerdict) == Some(d.verdict)
      && MaybeNumber(fields, FRanExitCode) == Some(d.ranExitCode)
      && MaybeText(fields, FSupersededBy) == Some(d.supersededBy)
      && MaybeText(fields, FReplay) == Some(d.replay)
  {
    FixedFieldsAt(d);
    FixedFieldsStay(d);
    MoreFixedFieldsStay(d);
    OptionalFieldsStay(d);
    hide SpecFields, FixedFields, Lookup, OptionalApproval, OptionalRun;
    hide OperationDocument, TargetsDocument, InputsDocument, GateDocument, BasisDocument, CheckDocument, StatusWord;
  }

  lemma OperationFieldsAt(d: Decision)
    ensures
      var fields := OperationDocument(d);
      && GetText(fields, FId) == Some(d.operation)
      && GetText(fields, FPlaybook) == Some(d.playbook)
      && GetText(fields, FRisk) == Some(RiskWord(d.risk))
      && MaybeText(fields, FVerifyPlaybook) == Some(d.verifyPlaybook)
  {
    hide RiskWord;
  }

  lemma OptionalRunReadsBack(run: Option<RunRecord>)
    ensures ReadOptionalRun(OptionalRun(run)) == Some(run)
  {
    if run.Some? {
      RunReadsBack(run.value);
    }
  }

  /** The record of every decision reads back as the same decision. */
  lemma DocumentRoundTrip(d: Decision)
    ensures FromDocument(AsDocument(d)) == Some(d)
  {
    SpecFieldsAt(d);
    OperationFieldsAt(d);
    WordsReadBack(d);
    TargetsReadBack(d.targets);
    InputsReadBack(d.inputs);
    BasisReadsBack(d.basis);
    CheckReadsBack(d.check);
    OptionalRunReadsBack(d.execution);
    OptionalRunReadsBack(d.verification);
    ApprovalReadsBack(d.approval);
    hide SpecDocument, OperationDocument, TargetsDocument, InputsDocument, BasisDocument, CheckDocument;
    hide OptionalApproval, OptionalRun, ReadApproval, ReadOptionalRun, ReadCheck, ReadBasis, ReadInputs, ReadTargets;
    hide MaybeText, MaybeNumber, RiskWord, StatusWord, RequirementWord, ReadRisk, ReadStatus, ReadRequirement;
  }

  /** Two decisions never share a document. */
  lemma DocumentsDiffer(a: Decision, b: Decision)
    requires AsDocument(a) == AsDocument(b)
    ensures a == b
  {
    DocumentRoundTrip(a);
    DocumentRoundTrip(b);
  }

  /** An approval recorded before channels were reads with an unknown one, whatever it was given through. */
  lemma ApprovalWithoutChannel(approval: Approval)
    ensures ReadApproval(Some(JObject(ApprovalDocument(approval).fields - {FVia}))) ==
            Some(Some(approval.(via := Unknown)))
  {
    var fields := ApprovalDocument(approval).fields - {FVia};
    assert FVia !in fields && FApprover in fields && FApprovedAt in fields;
  }
}
