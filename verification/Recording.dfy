/**
 * Recorded check runs played back in place of the engine (sdk/src/cloudfall/recording.py): which
 * run a call gets, and that playing it back reports what was recorded.
 */
module Recording {
  import opened Results
  import opened DecisionModel
  import opened DecisionDocument

  const NOT_RECORDED_EXIT := 3

  // ---- Loading ----

  datatype RecordedRun = RecordedRun(exitCode: int, output: string, changed: seq<string>, untouched: seq<string>)

  /** What a run is kept under; the key's text tells two calls apart exactly when they differ. */
  datatype Call = Call(playbook: string, pattern: Option<string>, inputs: Inputs)

  /** One `.json` file of the directory, and the `.diff` beside it when there is one. */
  datatype RecordFile = RecordFile(document: Json, diff: Option<string>)

  /** Raised when the directory is missing or holds no decision record, or when one cannot be read. */
  datatype RecordingError = RecordingEmpty | RecordUnreadable

  predicate IsDecision(file: RecordFile) {
    Get(file.document, FKind) == Some(DECISION_KIND)
  }

  function CallOf(document: Json): Option<Call> {
    var spec :- Get(document, FSpec);
    var operation :- Get(spec, FOperation);
    var playbook :- GetText(operation, FPlaybook);
    var targets :- Get(spec, FTargets);
    var pattern :- MaybeText(targets, FPattern);
    var inputsRecord :- Get(spec, FInputs);
    var inputs :- ReadInputs(inputsRecord);
    Some(Call(playbook, pattern, inputs))
  }

  function RunOf(file: RecordFile): Option<RecordedRun> {
    var spec :- Get(file.document, FSpec);
    var checkRecord :- Get(spec, FCheck);
    var check :- ReadCheck(checkRecord);
    Some(RecordedRun(
      check.exitCode,
      if file.diff.Some? then file.diff.value else "(the recorded output " + check.diff.path + " is missing)\n",
      check.changed, check.untouched))
  }

  /** Every document is asked for its kind, and so has to be an object; a decision record has to hold a run. */
  predicate Readable(file: RecordFile) {
    && file.document.JObject?
    && (IsDecision(file) ==> CallOf(file.document).Some? && RunOf(file).Some?)
  }

  predicate Holds(file: RecordFile, call: Call) {
    IsDecision(file) && CallOf(file.document) == Some(call)
  }

  /** The first file of a call, in file order. */
  ghost predicate FirstOf(files: seq<RecordFile>, call: Call, i: nat) {
    i < |files| && Holds(files[i], call) && forall j :: 0 <= j < i ==> !Holds(files[j], call)
  }

  ghost predicate HeldIn(files: seq<RecordFile>, call: Call) {
    exists i :: 0 <= i < |files| && Holds(files[i], call)
  }

  type Runs = map<Call, RecordedRun>

  /** The recording of these files: each call with the run of its first file. */
  ghost predicate Keeps(runs: Runs, files: seq<RecordFile>) {
    && (forall call :: call in runs <==> HeldIn(files, call))
    && (forall call, i: nat :: FirstOf(files, call, i) ==> call in runs && RunOf(files[i]) == Some(runs[call]))
  }

  /** `files` is none when the path is not a directory. */
  method Load(files: Option<seq<RecordFile>>) returns (loaded: Result<Runs, RecordingError>)
    ensures loaded.Ok? <==>
      && files.Some?
      && (forall i :: 0 <= i < |files.value| ==> Readable(files.value[i]))
      && (exists i :: 0 <= i < |files.value| && IsDecision(files.value[i]))
    ensures loaded.Ok? ==> Keeps(loaded.value, files.value)
    ensures loaded == Err(RecordUnreadable) <==>
      files.Some? && exists i :: 0 <= i < |files.value| && !Readable(files.value[i])
  {
    hide CallOf, RunOf, IsDecision;
    if files.None? {
      return Err(RecordingEmpty);
    }
    var runs: Runs := map[];
    for i := 0 to |files.value|
      invariant forall j :: 0 <= j < i ==> Readable(files.value[j])
      invariant Keeps(runs, files.value[..i])
      invariant runs == map[] ==> forall j :: 0 <= j < i ==> !IsDecision(files.value[j])
    {
      var file := files.value[i];
      if !file.document.JObject? {
        return Err(RecordUnreadable);
      }
      if IsDecision(file) {
        var call, run := CallOf(file.document), RunOf(file);
        if call.None? || run.None? {
          return Err(RecordUnreadable);
        }
        RecordsSetDefault(runs, files.value, i, call.value, run.value);
        if call.value !in runs {
          runs := runs[call.value := run.value];
        }
      } else {
        RecordsSkips(runs, files.value, i);
      }
    }
    assert files.value[..|files.value|] == files.value;
    if runs == map[] {
      return Err(RecordingEmpty);
    }
    var some :| some in runs;
    loaded := Ok(runs);
  }

  lemma RecordsSetDefault(runs: Runs, files: seq<RecordFile>, i: nat, call: Call, run: RecordedRun)
    requires i < |files| && IsDecision(files[i]) && Keeps(runs, files[..i])
    requires CallOf(files[i].document) == Some(call) && RunOf(files[i]) == Some(run)
    ensures Keeps(if call in runs then runs else runs[call := run], files[..i + 1])
  {
    hide CallOf, RunOf, IsDecision;
    var before, after := files[..i], files[..i + 1];
    assert after == before + [files[i]];
    assert Holds(after[i], call);
    forall other: Call
      ensures HeldIn(after, other) <==> other == call || HeldIn(before, other)
    {
      if k :| 0 <= k < |before| && Holds(before[k], other) {
        assert Holds(after[k], other);
      }
    }
    forall other, k: nat | FirstOf(after, other, k)
      ensures k < i ==> FirstOf(before, other, k)
      ensures k == i ==> other == call && other !in runs
    {
      if k < i {
        assert Holds(before[k], other);
      }
    }
  }

  lemma RecordsSkips(runs: Runs, files: seq<RecordFile>, i: nat)
    requires i < |files| && !IsDecision(files[i]) && Keeps(runs, files[..i])
    ensures Keeps(runs, files[..i + 1])
  {
    hide CallOf, RunOf, IsDecision;
    var before, after := files[..i], files[..i + 1];
    assert after == before + [files[i]];
    forall other: Call
      ensures HeldIn(after, other) <==> HeldIn(before, other)
    {
      if k :| 0 <= k < |before| && Holds(before[k], other) {
        assert Holds(after[k], other);
      }
    }
    forall other, k: nat | FirstOf(after, other, k)
      ensures FirstOf(before, other, k)
    {
      assert Holds(before[k], other);
    }
  }

  // ---- Reading an invocation back ----

  function IndexOf(argv: Argv, flag: Argument): nat
    requires flag in argv
    ensures IndexOf(argv, flag) < |argv| && argv[IndexOf(argv, flag)] == flag
  {
    if argv[0] == flag then 0 else 1 + IndexOf(argv[1..], flag)
  }

  /** What follows the first occurrence of a flag; some of none when it is not there, none when nothing follows. */
  function Value(argv: Argv, flag: Argument): Option<Option<Argument>> {
    if flag !in argv then Some(None)
    else if IndexOf(argv, flag) + 1 < |argv| then Some(Some(argv[IndexOf(argv, flag) + 1]))
    else None
  }

  function RemovePrefix(text: string, prefix: string): string {
    if prefix <= text then text[|prefix|..] else text
  }

  /**
   * The playbook, the target pattern and the inputs of an invocation; none when it cannot be read,
   * as when what follows `--extra-vars` is not the JSON text of inputs.
   */
  function Invocation(argv: Argv, repository: string): Option<Call> {
    var limit :- Value(argv, LIMIT);
    var extra :- Value(argv, EXTRA_VARS);
    var last :- if argv == [] then None else Some(argv[|argv| - 1]);
    if (limit.Some? && !limit.value.Text?) || (extra.Some? && !extra.value.Vars?) || !last.Text? then None
    else
      Some(Call(
        RemovePrefix(last.text, repository + "/"),
        if limit.Some? then Some(limit.value.text) else None,
        if extra.Some? then extra.value.inputs else map[]))
  }

  // ---- Playing back ----

  /** The host results left for a run: a host listed both ways ends up unchanged. */
  function TreeOf(run: RecordedRun): Tree {
    map host | host in run.changed + run.untouched :: host !in run.untouched
  }

  /** Leaves one result per host, the changed ones first. */
  method WriteTree(run: RecordedRun) returns (tree: Tree)
    ensures tree == TreeOf(run)
  {
    tree := map[];
    for i := 0 to |run.changed|
      invariant forall host :: host in tree <==> host in run.changed[..i]
      invariant forall host :: host in tree ==> tree[host]
    {
      tree := tree[run.changed[i] := true];
      assert run.changed[..i + 1] == run.changed[..i] + [run.changed[i]];
    }
    assert run.changed[..|run.changed|] == run.changed;
    for i := 0 to |run.untouched|
      invariant forall host :: host in tree <==> host in run.changed || host in run.untouched[..i]
      invariant forall host :: host in tree ==> (tree[host] <==> host !in run.untouched[..i])
    {
      tree := tree[run.untouched[i] := false];
      assert run.untouched[..i + 1] == run.untouched[..i] + [run.untouched[i]];
    }
    assert run.untouched[..|run.untouched|] == run.untouched;
  }

  /** What the runner of a recording answers; `absent` is the message of a call it does not hold. */
  function Played(runs: Runs, repository: string, absent: Call -> string, argv: Argv): Answer {
    if Invocation(argv, repository).None? then Raised(map[], "")
    else
      var call := Invocation(argv, repository).value;
      if call !in runs then Exited(NOT_RECORDED_EXIT, map[], absent(call))
      else Exited(runs[call].exitCode, TreeOf(runs[call]), runs[call].output)
  }

  method Play(runs: Runs, repository: string, absent: Call -> string, argv: Argv) returns (answer: Answer)
    ensures answer == Played(runs, repository, absent, argv)
  {
    if Invocation(argv, repository).None? {
      return Raised(map[], "");
    }
    var call := Invocation(argv, repository).value;
    if call !in runs {
      return Exited(NOT_RECORDED_EXIT, map[], absent(call));
    }
    var run := runs[call];
    var tree := WriteTree(run);
    answer := Exited(run.exitCode, tree, run.output);
  }
}
