/**
 * Replay fidelity (sdk/src/cloudfall/recording.py with decision.py): proposing a call that a
 * recording holds reports what the recorded run reported, because reading an invocation back
 * undoes building it and reading host results back undoes leaving them.
 */
module Replay {
  import opened Results
  import opened Names
  import opened DecisionModel
  import opened DecisionRuns
  import opened DecisionDocument
  import opened Recording

  // ---- Invocations ----

  lemma {:induction false} IndexIs(argv: Argv, flag: Argument, k: nat)
    requires k < |argv| && argv[k] == flag && forall j :: 0 <= j < k ==> argv[j] != flag
    ensures IndexOf(argv, flag) == k
  {
    if k > 0 {
      assert argv[1..][k - 1] == flag;
      IndexIs(argv[1..], flag, k - 1);
    }
  }

  /** The repository's path in front of the playbook is what the reader takes off again. */
  predicate Addressed(repository: string, playbook: string) {
    if "/" <= playbook then !(repository + "/" <= playbook)
    else if repository == "." then !("./" <= playbook)
    else repository != "/"
  }

  lemma PathComesBack(repository: string, playbook: string)
    ensures RemovePrefix(Join(repository, playbook), repository + "/") == playbook <==> Addressed(repository, playbook)
  {
    var path, root := Join(repository, playbook), repository + "/";
    if !("/" <= playbook) && repository != "." {
      if repository == "/" {
        assert path == "/" + playbook && root == "//";
        assert |playbook| > 0 ==> playbook[0] != '/';
        assert |path| > 1 ==> path[1] == playbook[0];
        assert !(root <= path);
      } else {
        assert path == root + playbook;
        assert path[|root|..] == playbook;
      }
    }
  }

  /** The playbook's path is not taken for a flag. */
  predicate NotAFlag(path: string, pattern: Option<string>, inputs: Inputs) {
    && (path == "--limit" ==> pattern.Some?)
    && (path == "--extra-vars" ==> inputs != map[])
  }

  /** An invocation in its parts. */
  function Head(check: bool): Argv {
    if check then [BINARY, CHECK, DIFF] else [BINARY, DIFF]
  }

  function LimitPart(pattern: Option<string>): Argv {
    if pattern.Some? then [LIMIT, Text(pattern.value)] else []
  }

  function ExtraPart(inputs: Inputs): Argv {
    if inputs != map[] then [EXTRA_VARS, Vars(inputs)] else []
  }

  lemma HeadHasNoFlag(check: bool, rest: Argv, j: nat)
    requires j < |Head(check)|
    ensures (Head(check) + rest)[j] != LIMIT && (Head(check) + rest)[j] != EXTRA_VARS
  {
    assert (Head(check) + rest)[j] == Head(check)[j];
  }

  lemma LimitOf(pattern: Option<string>, inputs: Inputs, check: bool, path: string)
    requires path == "--limit" ==> pattern.Some?
    ensures
      Value(Head(check) + LimitPart(pattern) + ExtraPart(inputs) + [Text(path)], LIMIT) ==
        Some(if pattern.Some? then Some(Text(pattern.value)) else None)
  {
    var rest := LimitPart(pattern) + ExtraPart(inputs) + [Text(path)];
    var argv := Head(check) + rest;
    assert argv == Head(check) + LimitPart(pattern) + ExtraPart(inputs) + [Text(path)];
    forall j: nat | j < |Head(check)|
      ensures argv[j] != LIMIT
    {
      HeadHasNoFlag(check, rest, j);
    }
    if pattern.Some? {
      assert argv[|Head(check)|] == LIMIT && argv[|Head(check)| + 1] == Text(pattern.value);
      IndexIs(argv, LIMIT, |Head(check)|);
    }
  }

  lemma ExtraOf(pattern: Option<string>, inputs: Inputs, check: bool, path: string)
    requires pattern != Some("--extra-vars") && (path == "--extra-vars" ==> inputs != map[])
    ensures
      Value(Head(check) + LimitPart(pattern) + ExtraPart(inputs) + [Text(path)], EXTRA_VARS) ==
        Some(if inputs != map[] then Some(Vars(inputs)) else None)
  {
    var rest := LimitPart(pattern) + ExtraPart(inputs) + [Text(path)];
    var argv := Head(check) + rest;
    assert argv == Head(check) + LimitPart(pattern) + ExtraPart(inputs) + [Text(path)];
    forall j: nat | j < |Head(check)|
      ensures argv[j] != EXTRA_VARS
    {
      HeadHasNoFlag(check, rest, j);
    }
    var e := |Head(check)| + |LimitPart(pattern)|;
    if inputs != map[] {
      assert argv[e] == EXTRA_VARS && argv[e + 1] == Vars(inputs);
      IndexIs(argv, EXTRA_VARS, e);
    }
  }

  /** The two values and the path, where an invocation has them. */
  lemma ValuesOf(playbook: string, repository: string, pattern: Option<string>, inputs: Inputs, check: bool)
    requires pattern != Some("--extra-vars") && NotAFlag(Join(repository, playbook), pattern, inputs)
    ensures
      var argv := RunCommand(playbook, repository, pattern, inputs, check);
      && argv != [] && argv[|argv| - 1] == Text(Join(repository, playbook))
      && Value(argv, LIMIT) == Some(if pattern.Some? then Some(Text(pattern.value)) else None)
      && Value(argv, EXTRA_VARS) == Some(if inputs != map[] then Some(Vars(inputs)) else None)
  {
    hide Value, Join;
    LimitOf(pattern, inputs, check, Join(repository, playbook));
    ExtraOf(pattern, inputs, check, Join(repository, playbook));
  }

  lemma NothingFollows(argv: Argv, flag: Argument)
    requires argv != [] && argv[|argv| - 1] == flag && forall j :: 0 <= j < |argv| - 1 ==> argv[j] != flag
    ensures Value(argv, flag) == None
  {
    IndexIs(argv, flag, |argv| - 1);
  }

  /** A pattern that is the flag of the inputs: what follows it is no text of inputs. */
  lemma PatternMisleads(inputs: Inputs, check: bool, path: string)
    ensures
      var argv := Head(check) + LimitPart(Some("--extra-vars")) + ExtraPart(inputs) + [Text(path)];
      Value(argv, EXTRA_VARS) == Some(Some(if inputs != map[] then EXTRA_VARS else Text(path)))
  {
    var rest := LimitPart(Some("--extra-vars")) + ExtraPart(inputs) + [Text(path)];
    var argv := Head(check) + rest;
    assert argv == Head(check) + LimitPart(Some("--extra-vars")) + ExtraPart(inputs) + [Text(path)];
    var k := |Head(check)|;
    forall j: nat | j < k
      ensures argv[j] != EXTRA_VARS
    {
      HeadHasNoFlag(check, rest, j);
    }
    assert argv[k] == LIMIT && argv[k + 1] == EXTRA_VARS;
    assert argv[k + 2] == if inputs != map[] then EXTRA_VARS else Text(path);
    IndexIs(argv, EXTRA_VARS, k + 1);
  }

  /** A path that is a flag: nothing follows it. */
  lemma PathMisleads(pattern: Option<string>, inputs: Inputs, check: bool, path: string)
    requires pattern != Some("--extra-vars") && !NotAFlag(path, pattern, inputs)
    ensures
      var argv := Head(check) + LimitPart(pattern) + ExtraPart(inputs) + [Text(path)];
      Value(argv, Text(path)) == None
  {
    var rest := LimitPart(pattern) + ExtraPart(inputs) + [Text(path)];
    var argv := Head(check) + rest;
    assert argv == Head(check) + LimitPart(pattern) + ExtraPart(inputs) + [Text(path)];
    assert path == "--limit" || path == "--extra-vars";
    forall j: nat | j < |argv| - 1
      ensures argv[j] != Text(path)
    {
      if j < |Head(check)| {
        HeadHasNoFlag(check, rest, j);
      } else {
        assert argv[j] == rest[j - |Head(check)|];
      }
    }
    NothingFollows(argv, Text(path));
  }

  lemma FlagsMislead(playbook: string, repository: string, pattern: Option<string>, inputs: Inputs, check: bool)
    requires pattern == Some("--extra-vars") || !NotAFlag(Join(repository, playbook), pattern, inputs)
    ensures Invocation(RunCommand(playbook, repository, pattern, inputs, check), repository) == None
  {
    hide Value, Join;
    if pattern == Some("--extra-vars") {
      PatternMisleads(inputs, check, Join(repository, playbook));
    } else {
      PathMisleads(pattern, inputs, check, Join(repository, playbook));
    }
  }

  /**
   * Exactly when an invocation reads back as the call it was built from: the pattern is not the
   * flag the inputs follow, the path is not taken for a flag, and the repository's path comes off.
   */
  lemma InvocationComesBack(playbook: string, repository: string, pattern: Option<string>, inputs: Inputs, check: bool)
    ensures Invocation(RunCommand(playbook, repository, pattern, inputs, check), repository)
              == Some(Call(playbook, pattern, inputs))
            <==> pattern != Some("--extra-vars") && Addressed(repository, playbook)
                 && NotAFlag(Join(repository, playbook), pattern, inputs)
  {
    hide RunCommand, Addressed, RemovePrefix, Join;
    PathComesBack(repository, playbook);
    if pattern == Some("--extra-vars") || !NotAFlag(Join(repository, playbook), pattern, inputs) {
      FlagsMislead(playbook, repository, pattern, inputs, check);
    } else {
      ValuesOf(playbook, repository, pattern, inputs, check);
    }
  }

  // ---- Host results ----

  /** Host lists that some directory of results could have been read as. */
  ghost predicate Readout(changed: seq<string>, untouched: seq<string>) {
    Sorted(changed) && Sorted(untouched) && forall host :: host in changed ==> host !in untouched
  }

  /** Exactly the lists that read back from the results left for them. */
  lemma TreeComesBack(run: RecordedRun)
    ensures Listing(ChangedHosts(TreeOf(run))) == run.changed && Listing(UnchangedHosts(TreeOf(run))) == run.untouched
            <==> Readout(run.changed, run.untouched)
  {
    var tree := TreeOf(run);
    var changed, untouched := Listing(ChangedHosts(tree)), Listing(UnchangedHosts(tree));
    assert Members(run.untouched) == UnchangedHosts(tree);
    if Readout(run.changed, run.untouched) {
      assert Members(run.changed) == ChangedHosts(tree);
      SortedUnique(changed, run.changed);
      SortedUnique(untouched, run.untouched);
    }
    if changed == run.changed {
      forall host | host in run.changed
        ensures host !in run.untouched
      {
        assert host in Members(changed);
      }
    }
  }

  lemma PreviewsAreReadouts(answer: Answer, path: string, wording: Wording)
    requires answer.Exited?
    ensures Readout(Preview(answer, path, wording).changed, Preview(answer, path, wording).untouched)
  {
    var changed, untouched := ChangedHosts(answer.tree), UnchangedHosts(answer.tree);
    forall host | host in Listing(changed)
      ensures host !in Listing(untouched)
    {
      assert host in Members(Listing(changed));
      assert host in Listing(untouched) ==> host in Members(Listing(untouched));
    }
  }

  // ---- Recorded decisions ----

  /** The file of a recorded decision. */
  function FileOf(d: Decision, diff: Option<string>): RecordFile {
    RecordFile(AsDocument(d), diff)
  }

  function CallOfDecision(d: Decision): Call {
    Call(d.playbook, d.targets.pattern, d.inputs)
  }

  lemma FileReads(d: Decision, output: string)
    ensures IsDecision(FileOf(d, Some(output)))
    ensures CallOf(AsDocument(d)) == Some(CallOfDecision(d))
    ensures RunOf(FileOf(d, Some(output))) ==
            Some(RecordedRun(d.check.exitCode, output, d.check.changed, d.check.untouched))
    ensures RunOf(FileOf(d, None)) ==
            Some(RecordedRun(
                   d.check.exitCode, "(the recorded output " + d.check.diff.path + " is missing)\n", d.check.changed,
                   d.check.untouched))
  {
    SpecFieldsAt(d);
    OperationFieldsAt(d);
    InputsReadBack(d.inputs);
    CheckReadsBack(d.check);
    PatternReadsBack(d.targets);
    hide SpecDocument, OperationDocument, TargetsDocument, InputsDocument, BasisDocument, CheckDocument;
    hide ReadCheck, ReadInputs, MaybeText;
  }

  lemma PatternReadsBack(targets: Targets)
    ensures MaybeText(TargetsDocument(targets), FPattern) == Some(targets.pattern)
  {
    hide ScopeWord;
  }

  // ---- Fidelity ----

  /** A call whose invocation reads back. */
  predicate Replayable(request: Request) {
    && request.targets.pattern != Some("--extra-vars")
    && Addressed(request.repository, request.operation.playbook)
    && NotAFlag(Join(request.repository, request.operation.playbook), request.targets.pattern, request.inputs)
  }

  function CallOfRequest(request: Request): Call {
    Call(request.operation.playbook, request.targets.pattern, request.inputs)
  }

  /** What the new record says of its check, but for the file its output is kept in and the hosts. */
  ghost predicate SameReport(check: CheckPreview, recorded: CheckPreview, output: string, wording: Wording) {
    && check.exitCode == recorded.exitCode
    && check.diff.sha256 == wording.digest(output) && check.diff.size == |output|
  }

  lemma KeepsTheFirst(runs: Runs, files: seq<RecordFile>, call: Call, i: nat)
    requires Keeps(runs, files) && FirstOf(files, call, i)
    ensures call in runs && RunOf(files[i]) == Some(runs[call])
  {
    hide RunOf, Holds;
  }

  lemma HeldCallsPlay(runs: Runs, absent: Call -> string, request: Request)
    requires Replayable(request) && CallOfRequest(request) in runs
    ensures
      var run := runs[CallOfRequest(request)];
      Played(runs, request.repository, absent, CheckCommand(request)) == Exited(run.exitCode, TreeOf(run), run.output)
  {
    InvocationComesBack(
      request.operation.playbook, request.repository, request.targets.pattern, request.inputs, true);
    hide RunCommand, Invocation, Addressed, NotAFlag, Join, TreeOf;
  }

  /** Exactly which checks cannot be played back at all: those whose pattern or path is taken for a flag. */
  lemma PlayRaisesExactlyWhen(runs: Runs, absent: Call -> string, request: Request)
    ensures
      var path := Join(request.repository, request.operation.playbook);
      Played(runs, request.repository, absent, CheckCommand(request)).Raised? <==>
        || request.targets.pattern == Some("--extra-vars")
        || (path == "--limit" && request.targets.pattern.None?)
        || (path == "--extra-vars" && request.inputs == map[])
  {
    var playbook, pattern, inputs := request.operation.playbook, request.targets.pattern, request.inputs;
    hide RunCommand, Value, Join, RemovePrefix;
    if pattern == Some("--extra-vars") || !NotAFlag(Join(request.repository, playbook), pattern, inputs) {
      FlagsMislead(playbook, request.repository, pattern, inputs, true);
    } else {
      ValuesOf(playbook, request.repository, pattern, inputs, true);
    }
  }

  /** The results of a played-back run are all that is read exactly when it came to every host left there. */
  lemma PlayedOver(left: Tree, run: RecordedRun)
    requires Readout(run.changed, run.untouched)
    ensures
      var tree := left + TreeOf(run);
      Listing(ChangedHosts(tree)) == run.changed && Listing(UnchangedHosts(tree)) == run.untouched <==>
      left.Keys <= Members(run.changed) + Members(run.untouched)
  {
    var tree, own := left + TreeOf(run), TreeOf(run);
    TreeComesBack(run);
    assert own.Keys == Members(run.changed) + Members(run.untouched);
    if left.Keys <= own.Keys {
      assert tree == own;
    }
    if Listing(ChangedHosts(tree)) == run.changed && Listing(UnchangedHosts(tree)) == run.untouched {
      assert ChangedHosts(tree) == Members(run.changed) && UnchangedHosts(tree) == Members(run.untouched);
      assert tree.Keys == ChangedHosts(tree) + UnchangedHosts(tree);
    }
  }

  /**
   * Proposing a call against the recording of these files reports the exit code and the output of
   * the first recorded run of that call, in file order, and its hosts exactly when that run came to
   * every host whose result was left in the new check's directory.
   */
  lemma ReplayFidelity(
    files: seq<RecordFile>, i: nat, d: Decision, output: string, runs: Runs, absent: Call -> string,
    request: Request, moment: Moment, left: Tree, wording: Wording)
    requires Keeps(runs, files) && FirstOf(files, CallOfRequest(request), i)
    requires files[i] == FileOf(d, Some(output))
    requires Replayable(request) && Readout(d.check.changed, d.check.untouched)
    ensures
      var answer := Found(left, Played(runs, request.repository, absent, CheckCommand(request)));
      && answer.Exited? && answer.output == output
      && var check := NewDecision(request, moment, answer, wording).check;
         && SameReport(check, d.check, output, wording)
         && (check.changed == d.check.changed && check.untouched == d.check.untouched <==>
             left.Keys <= Members(d.check.changed) + Members(d.check.untouched))
  {
    hide CheckCommand, Played, Replayable, Keeps, Readout, TreeOf, RunOf, CallOf, AsDocument;
    FileReads(d, output);
    var call := CallOfRequest(request);
    KeepsTheFirst(runs, files, call, i);
    HeldCallsPlay(runs, absent, request);
    PlayedOver(left, runs[call]);
  }

  /**
   * A call no file holds fails, saying so: nothing is invented, and the only hosts reported are those
   * left in the check's directory.
   */
  lemma AbsentCallsFail(
    files: seq<RecordFile>, runs: Runs, absent: Call -> string, request: Request, moment: Moment, left: Tree,
    wording: Wording)
    requires Keeps(runs, files) && !HeldIn(files, CallOfRequest(request)) && Replayable(request)
    ensures
      var answer := Played(runs, request.repository, absent, CheckCommand(request));
      && answer == Exited(3, map[], absent(CallOfRequest(request)))
      && var check := NewDecision(request, moment, Found(left, answer), wording).check;
         && check.exitCode == 3
         && check.changed == Listing(ChangedHosts(left)) && check.untouched == Listing(UnchangedHosts(left))
         && (check.changed == [] && check.untouched == [] <==> left == map[])
  {
    InvocationComesBack(
      request.operation.playbook, request.repository, request.targets.pattern, request.inputs, true);
    NothingListed(ChangedHosts(left));
    NothingListed(UnchangedHosts(left));
    assert left + map[] == left;
    assert forall host :: host in left <==> host in ChangedHosts(left) || host in UnchangedHosts(left);
    hide RunCommand, Invocation, Addressed, NotAFlag, Join, RunOf, CallOf;
  }

  /** Every record of a run lists its hosts as a directory of results is read. */
  lemma ChecksAreReadouts(log: seq<Event>, id: string, born: nat, wording: Wording)
    requires Run(log, wording) && id in StateAfter(log, wording) && born < |log| && Bears(log[born], id)
    ensures EventAt(log, born).Recorded? && EventAt(log, born).answer.Exited?
    ensures EventAt(log, born).answer.output == log[born].answer.output
    ensures StateAfter(log, wording)[id].check == Preview(EventAt(log, born).answer, DiffFile(id), wording)
  {
    hide StateAfter, Run, Preview, Superseding, TreesAfter;
    assert log[..|log|] == log;
    var b := BornAt(log, |log|, id, wording);
    BornOnce(log, b, born, id, wording);
    RecordsPersist(log, b + 1, |log|, id, wording);
  }

  /** The records of a run, each beside the output kept for it, in the order of their file names. */
  ghost predicate DirectoryOf(log: seq<Event>, names: seq<string>, files: seq<RecordFile>, wording: Wording) {
    var m, outputs := StateAfter(log, wording), OutputsAfter(log);
    && Members(names) == m.Keys && RankedBy(names, ByFileName) && |files| == |names|
    && (forall k :: 0 <= k < |names| ==> names[k] in m && names[k] in outputs)
    && (forall k :: 0 <= k < |names| ==> files[k] == FileOf(m[names[k]], Some(outputs[names[k]])))
  }

  /**
   * Played back, the directory of any run of proposals and approvals gives a call what its first
   * record, in name order, was given: the same check, kept in a file of its own, exactly when no
   * other host's result was left where that check leaves its own. Only a later check under the
   * record's own id can spoil its output.
   */
  lemma ReplayOfARun(
    log: seq<Event>, names: seq<string>, files: seq<RecordFile>, i: nat, runs: Runs, absent: Call -> string,
    request: Request, moment: Moment, left: Tree, wording: Wording)
    requires Run(log, wording) && DirectoryOf(log, names, files, wording)
    requires Keeps(runs, files) && FirstOf(files, CallOfRequest(request), i) && Replayable(request)
    requires forall b, n :: 0 <= b < n < |log| && Bears(log[b], names[i]) ==> !Overwrites(log[n], names[i])
    ensures
      var answer := Found(left, Played(runs, request.repository, absent, CheckCommand(request)));
      var recorded := StateAfter(log, wording)[names[i]].check;
      var path := DiffFile(Identifier(request.operation.id, moment));
      && answer.Exited?
      && (NewDecision(request, moment, answer, wording).check == recorded.(diff := recorded.diff.(path := path)) <==>
          left.Keys <= Members(recorded.changed) + Members(recorded.untouched))
  {
    hide StateAfter, Run, CheckCommand, Played, Replayable, Keeps, Readout, Holds, AsDocument, OutputsAfter, TreesAfter;
    assert log[..|log|] == log;
    var born := BornAt(log, |log|, names[i], wording);
    ChecksAreReadouts(log, names[i], born, wording);
    OutputIsKept(log, names[i], born, wording);
    var d := StateAfter(log, wording)[names[i]];
    PreviewsAreReadouts(EventAt(log, born).answer, DiffFile(names[i]), wording);
    ReplayFidelity(files, i, d, log[born].answer.output, runs, absent, request, moment, left, wording);
  }

  /** What was played back is never approved. */
  lemma ReplaysAreRefused(request: Request, moment: Moment, answer: Answer, approval: ApprovalRequest, wording: Wording)
    requires answer.Exited? && request.replay.Some?
    ensures RefuseApproval(NewDecision(request, moment, answer, wording), approval) == Some(Replayed)
  {
  }
}
