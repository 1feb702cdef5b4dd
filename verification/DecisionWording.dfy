/**
 * The sentences of decision records (sdk/src/cloudfall/decision.py), and which runs they let a
 * record be written of: its schema takes at most 300 characters of them.
 */
module DecisionWording {
  import opened Results
  import opened Names
  import opened Decimals
  import opened DecisionModel
  import opened DecisionRuns

  /** A count of a process's exit status: what a record can hold is never negative. */
  function Number(n: int): (text: string)
    ensures 0 <= n <= 255 ==> 1 <= |text| <= 3
  {
    if n < 0 then "-" + Decimal(-n)
    else
      assert n <= 255 ==> |Decimal(n)| <= 3 by {
        if n <= 255 {
          assert TenTo(3) == 1000 by { assert TenTo(1) == 10 && TenTo(2) == 100; }
          LengthBound(n, 3, 1000);
        }
      }
      Decimal(n)
  }

  /** Names as a sentence lists them. */
  function Commas(names: seq<string>): string { Separated(names, ", ") }

  function Verdict(reason: Reason): string {
    match reason
    case RunExited(code) => "the run exited " + Number(code)
    case NoVerifyStep => "the run succeeded; the operation declares no verify step"
    case VerifyDidNotRun => "the verify step did not run"
    case VerifyExited(code) => "the verify step exited " + Number(code)
    case VerifyChanged(hosts) =>
      "the verify step changed " + Commas(hosts) + ", so the fleet was not in the state the run claimed"
    case VerifyChangedNothing => "the run succeeded and the verify step changed nothing"
  }

  function RanVerdict(code: int, replay: Option<string>): string {
    if replay.None? then "a read operation runs when it is proposed; it exited " + Number(code)
    else
      "a read operation's output was played back from the recording " + replay.value
      + ", not run on the hosts; it exited " + Number(code)
  }

  function SupersededSentence(newer: string): string {
    newer + " proposed the same operation, targets and inputs again"
  }

  /** The sentences as they are; a record's digests, of 64 characters each, always fit. */
  function English(digest: string -> string): Wording {
    Wording(Verdict, RanVerdict, SupersededSentence, digest)
  }

  lemma EnglishSupersedes(digest: string -> string)
    ensures SupersedingFits(English(digest))
  {
    forall id: string | |id| <= ID_LIMIT
      ensures TextFits(English(digest).superseded(id), SENTENCE_LIMIT)
    {
      assert |English(digest).superseded(id)| == |id| + 54;
    }
  }

  lemma VerdictFits(reason: Reason)
    requires reason.RunExited? || reason.VerifyExited? ==> 0 <= reason.code <= 255
    ensures TextFits(Verdict(reason), SENTENCE_LIMIT) <==> (reason.VerifyChanged? ==> |Commas(reason.hosts)| <= 225)
  {
  }

  // ---- Which records are written down ----

  /** Exit statuses and host names a record takes. */
  predicate AnswerFits(answer: Answer) {
    answer.Exited? && 0 <= answer.code <= 255 && forall host :: host in answer.tree ==> TextFits(host, HOST_LIMIT)
  }

  lemma ListedFit(hosts: set<string>)
    ensures (forall i :: 0 <= i < |Listing(hosts)| ==> TextFits(Listing(hosts)[i], HOST_LIMIT)) <==>
            (forall host :: host in hosts ==> TextFits(host, HOST_LIMIT))
  {
    var listed := Listing(hosts);
    assert forall host :: host in hosts <==> host in Members(listed);
    forall i | 0 <= i < |listed|
      ensures listed[i] in hosts
    {
      assert listed[i] in Members(listed);
    }
  }

  lemma AnswerIsWritten(answer: Answer, at: string, path: string, wording: Wording)
    requires answer.Exited?
    ensures OptionalRunFits(Some(RunRecordOf(answer, at, path, wording))) <==> AnswerFits(answer)
  {
    var changed, untouched := ChangedHosts(answer.tree), UnchangedHosts(answer.tree);
    ListedFit(changed);
    ListedFit(untouched);
    assert forall host :: host in answer.tree <==> host in changed || host in untouched;
  }

  /** What a replayed read's sentence leaves for the recording's path and the exit status. */
  lemma RanVerdictFits(code: int, replay: Option<string>)
    requires 0 <= code <= 255
    ensures TextFits(RanVerdict(code, replay), SENTENCE_LIMIT) <==>
            (replay.Some? ==> |replay.value| + |Number(code)| <= 205)
  {
    hide Number;
  }

  /**
   * Exactly when the record of a check that exited is written: the target pattern, the exit status,
   * the host names and the recording's path fit the schema, and for a read that was played back the
   * path fits its sentence, which takes less of it than the schema does.
   */
  lemma ProposalWrittenExactlyWhen(request: Request, moment: Moment, answer: Answer, digest: string -> string)
    requires answer.Exited?
    ensures Fits(NewDecision(request, moment, answer, English(digest))) <==>
      && OptionalFits(request.targets.pattern, PATTERN_LIMIT)
      && AnswerFits(answer)
      && OptionalFits(request.replay, REPLAY_LIMIT)
      && (request.operation.risk.Read? && request.replay.Some? ==>
            |request.replay.value| + |Number(answer.code)| <= 205)
  {
    hide AnswerFits, RanVerdict, Number, Preview;
    CheckIsWritten(answer, DiffFile(Identifier(request.operation.id, moment)), English(digest));
    if 0 <= answer.code <= 255 {
      RanVerdictFits(answer.code, request.replay);
    }
  }

  /** A path the schema takes is too long for the sentence from 205 characters on, whatever was played back. */
  lemma LongRecordingsAreRefused(request: Request, moment: Moment, answer: Answer, digest: string -> string)
    requires answer.Exited? && request.operation.risk.Read?
    requires request.replay.Some? && 205 <= |request.replay.value| <= REPLAY_LIMIT
    ensures OptionalFits(request.replay, REPLAY_LIMIT) && !Fits(NewDecision(request, moment, answer, English(digest)))
  {
    hide Fits;
    ProposalWrittenExactlyWhen(request, moment, answer, digest);
  }

  lemma CheckIsWritten(answer: Answer, path: string, wording: Wording)
    requires answer.Exited?
    ensures
      var check := Preview(answer, path, wording);
      RunFits(check.exitCode, check.changed, check.untouched) <==> AnswerFits(answer)
    ensures AnswerFits(answer) ==> 0 <= answer.code <= 255
  {
    AnswerIsWritten(answer, "", path, wording);
  }

  lemma RunRecordHolds(answer: Answer, at: string, path: string, wording: Wording)
    requires answer.Exited?
    ensures RunRecordOf(answer, at, path, wording).exitCode == answer.code
    ensures RunRecordOf(answer, at, path, wording).changed == Listing(ChangedHosts(answer.tree))
    ensures AnswerFits(answer) ==> 0 <= answer.code <= 255
  {
  }

  ghost predicate FoundUnsettled(verification: Answer) {
    verification.Exited? && verification.code == 0 && ChangedHosts(verification.tree) != {}
  }

  /** The hosts a verify step changed, as its verdict names them, fit in one sentence. */
  ghost predicate NamesFit(verification: Answer) {
    verification.Exited? && |Commas(Listing(ChangedHosts(verification.tree)))| <= 225
  }

  /**
   * Exactly when an approval whose runs answered, as they are read, is written down: the approver's
   * name, the exit statuses and the host names fit the schema, and the hosts found changed by the
   * verify step are few enough for its verdict to name them all.
   */
  lemma WrittenExactlyWhen(d: Decision, attempt: Attempt, digest: string -> string)
    requires attempt.Answered() && Fits(d) && RefuseApproval(d, attempt.request).None?
    requires attempt.verification.Some? <==> Verifies(d, attempt.execution)
    ensures Completes(d, attempt, English(digest)) <==>
      && |attempt.request.approver| <= APPROVER_LIMIT
      && AnswerFits(attempt.execution)
      && (attempt.verification.Some? ==>
            AnswerFits(attempt.verification.value)
            && (FoundUnsettled(attempt.verification.value) ==> NamesFit(attempt.verification.value)))
  {
    hide Verdict, RunFits, AnswerFits, RunRecordOf;
    var ran, verified := LogFile(d.id, ExecutionStage), LogFile(d.id, VerifyStage);
    AnswerIsWritten(attempt.execution, attempt.startedAt, ran, English(digest));
    var execution := RunRecordOf(attempt.execution, attempt.startedAt, ran, English(digest));
    RunRecordHolds(attempt.execution, attempt.startedAt, ran, English(digest));
    var verification: Option<RunRecord> := None;
    if attempt.verification.Some? {
      var answer := attempt.verification.value;
      AnswerIsWritten(answer, attempt.verifiedAt, verified, English(digest));
      verification := Some(RunRecordOf(answer, attempt.verifiedAt, verified, English(digest)));
      RunRecordHolds(answer, attempt.verifiedAt, verified, English(digest));
      NothingListed(ChangedHosts(answer.tree));
    }
    var (status, reason) := Outcome(execution, verification, d.verifyPlaybook);
    if AnswerFits(attempt.execution) && (attempt.verification.Some? ==> AnswerFits(attempt.verification.value)) {
      VerdictFits(reason);
    }
  }

  // ---- A verify step that changed too much ----

  /**
   * A verify step after which more hosts are found changed than one sentence can name leaves no
   * trace: the playbook and its verify step have both run, yet the decision is open, and the same
   * approval runs them again.
   */
  lemma WideVerifyLeavesTheRecordOpen(log: seq<Event>, id: string, attempt: Attempt, digest: string -> string)
    requires Run(log, English(digest)) && attempt.Answered() && attempt.verification.Some?
    requires Legal(StateAfter(log, English(digest)), AsRead(TreesAfter(log), Attempted(id, attempt)), English(digest))
    requires
      var found := AttemptRead(TreesAfter(log), id, attempt).verification.value;
      FoundUnsettled(found) && !NamesFit(found)
    ensures
      var e := Attempted(id, attempt);
      var m := StateAfter(log, English(digest));
      && |Starts(m, e)| == 2
      && Run(log + [e] + [e], English(digest))
      && StateAfter(log + [e] + [e], English(digest)) == m && m[id].Open()
  {
    var e := Attempted(id, attempt);
    var read := AttemptRead(TreesAfter(log), id, attempt);
    ReadingKeeps(TreesAfter(log), e);
    TwoStarts(StateAfter(log, English(digest)), id, attempt, read, English(digest));
    hide StateAfter, Run, Completes, Fits, Preview, FoundUnsettled, NamesFit, AnswerFits, Starts, After, Legal;
    hide AsRead, AttemptRead, TreesAfter;
    EnglishSupersedes(digest);
    StoredRecordsFit(log, id, English(digest));
    WrittenExactlyWhen(StateAfter(log, English(digest))[id], read, digest);
    RepeatedIffNotWritten(log, e, English(digest));
  }

  lemma TwoStarts(m: Store, id: string, attempt: Attempt, read: Attempt, wording: Wording)
    requires Legal(m, Attempted(id, read), wording) && attempt.verification.Some? && read.verification.Some?
    requires read.request == attempt.request
    ensures |Starts(m, Attempted(id, attempt))| == 2
    ensures id in m && m[id].Open() && RefuseApproval(m[id], read.request).None?
    ensures read.verification.Some? <==> Verifies(m[id], read.execution)
  {
  }

  lemma OneHostChanged(host: string, output: string)
    ensures
      var found := Exited(0, map[host := true], output);
      Listing(ChangedHosts(found.tree)) == [host] && FoundUnsettled(found)
      && (NamesFit(found) <==> |host| <= 225) && (AnswerFits(found) <==> TextFits(host, HOST_LIMIT))
  {
    var tree: Tree := map[host := true];
    assert host in ChangedHosts(tree);
    assert ChangedHosts(tree) == {host};
    assert Members([host]) == {host};
    SortedUnique([host], Listing({host}));
    assert Commas([host]) == host;
    assert host in tree;
  }

  /** One host with a long name is enough. */
  lemma LongNameIsWide(host: string, output: string)
    requires 225 < |host| <= HOST_LIMIT
    ensures
      var answer := Exited(0, map[host := true], output);
      AnswerFits(answer) && FoundUnsettled(answer) && !NamesFit(answer)
  {
    OneHostChanged(host, output);
  }

  /** The run of one proposal. */
  lemma OneProposal(request: Request, moment: Moment, answer: Answer, wording: Wording) returns (log: seq<Event>)
    requires Legal(map[], Recorded(request, moment, answer), wording)
    ensures log == [Recorded(request, moment, answer)] && Run(log, wording)
    ensures
      var d := NewDecision(request, moment, answer, wording);
      StateAfter(log, wording) == map[d.id := d]
    ensures forall place: Place :: place.stage != CheckStage ==> Left(TreesAfter(log), place) == map[]
  {
    hide NewDecision, Fits;
    var e := Recorded(request, moment, answer);
    FoundFresh(answer);
    assert AsRead(map[], e) == e;
    log := [e];
    assert [] + [e] == log && TreesAfter([]) == map[];
    RunSnoc([], e, wording);
    var d := NewDecision(request, moment, answer, wording);
    assert Superseding(map[], d, wording) == map[d.id := d];
  }

  lemma CleanCheckFits(request: Request, moment: Moment, digest: string -> string)
    requires request.targets.pattern.None? && request.replay.None? && !request.operation.risk.Read?
    ensures Fits(NewDecision(request, moment, Exited(0, map[], ""), English(digest)))
  {
    ProposalWrittenExactlyWhen(request, moment, Exited(0, map[], ""), digest);
  }

  /** The run of one clean proposal of an operation with a verify step. */
  lemma OneCleanProposal(digest: string -> string) returns (log: seq<Event>, id: string, d: Decision)
    ensures |log| == 1 && Run(log, English(digest)) && StateAfter(log, English(digest)) == map[id := d]
    ensures d.id == id && d.Open() && d.verifyPlaybook.Some? && d.replay.None? && Fits(d)
    ensures Left(TreesAfter(log), Place(id, ExecutionStage)) == map[]
    ensures Left(TreesAfter(log), Place(id, VerifyStage)) == map[]
  {
    hide Fits, Superseding, NewDecision, StateAfter, Run, Preview;
    var wording := English(digest);
    var operation := Operation("deploy", "deploy.yml", Mutating, Some("verify.yml"));
    var request := Request(operation, Targets(Fleet, None), map[], ".", Basis("", map[]), None);
    var moment := Moment("20260101000000", "2026-01-01T00:00:00Z");
    var clean := Exited(0, map[], "");
    CleanCheckFits(request, moment, digest);
    assert |Identifier("deploy", moment)| == 21;
    log := OneProposal(request, moment, clean, wording);
    d := NewDecision(request, moment, clean, wording);
    id := d.id;
    OpenAndVerified(request, moment, clean, wording);
  }

  /** A first approval, whose runs are read as they were. */
  lemma FirstRead(log: seq<Event>, id: string, attempt: Attempt)
    requires Left(TreesAfter(log), Place(id, ExecutionStage)) == map[]
    requires Left(TreesAfter(log), Place(id, VerifyStage)) == map[]
    ensures AttemptRead(TreesAfter(log), id, attempt) == attempt
  {
    FoundFresh(attempt.execution);
    if attempt.verification.Some? {
      FoundFresh(attempt.verification.value);
    }
  }

  lemma ApprovalIsLegal(m: Store, id: string, attempt: Attempt, wording: Wording)
    requires id in m && m[id].Open() && m[id].replay.None? && m[id].verifyPlaybook.Some?
    requires attempt.request.approver != "" && attempt.request.via.Terminal?
    requires attempt.execution.Exited? && attempt.execution.code == 0 && attempt.verification.Some?
    ensures Legal(m, Attempted(id, attempt), wording)
  {
  }

  /** A run in which an approval has both playbooks started, twice over, and the decision is open still. */
  lemma WideVerifyRun(digest: string -> string) returns (log: seq<Event>, id: string, attempt: Attempt)
    ensures
      var e := Attempted(id, attempt);
      && Run(log + [e] + [e], English(digest)) && |Starts(StateAfter(log, English(digest)), e)| == 2
      && StateAfter(log + [e] + [e], English(digest)) == StateAfter(log, English(digest))
      && id in StateAfter(log, English(digest)) && StateAfter(log, English(digest))[id].Open()
  {
    var d;
    log, id, d := OneCleanProposal(digest);
    var host := seq(HOST_LIMIT, i => 'a');
    LongNameIsWide(host, "");
    attempt := Attempt(
      ApprovalRequest("someone", ".", Terminal), "", "", Exited(0, map[], ""), Some(Exited(0, map[host := true], "")));
    hide Fits, StateAfter, Run, FoundUnsettled, NamesFit, AnswerFits, Legal, AttemptRead, Left, TreesAfter;
    FirstRead(log, id, attempt);
    ApprovalIsLegal(StateAfter(log, English(digest)), id, attempt, English(digest));
    WideVerifyLeavesTheRecordOpen(log, id, attempt, digest);
  }

  lemma OpenAndVerified(request: Request, moment: Moment, answer: Answer, wording: Wording)
    requires answer.Exited? && !request.operation.risk.Read?
    ensures
      var d := NewDecision(request, moment, answer, wording);
      && d.Open() && d.verifyPlaybook == request.operation.verify && d.replay == request.replay
      && d.id == Identifier(request.operation.id, moment)
  {
  }

  // ---- A verify step that finds what an earlier one left ----

  /** The results of a first verify step, and a second approval's as they are read over them. */
  lemma SecondRead(log: seq<Event>, id: string, first: Attempt, second: Attempt)
    requires Left(TreesAfter(log), Place(id, ExecutionStage)) == map[]
    requires Left(TreesAfter(log), Place(id, VerifyStage)) == map[]
    requires first.verification.Some? && second.verification.Some?
    requires first.execution.tree == second.execution.tree == second.verification.value.tree == map[]
    ensures
      AttemptRead(TreesAfter(log + [Attempted(id, first)]), id, second) ==
        second.(verification := Some(second.verification.value.(tree := first.verification.value.tree)))
  {
    var e, left := Attempted(id, first), first.verification.value.tree;
    TreesSnoc(log, e);
    LeftNext(TreesAfter(log), e, Place(id, ExecutionStage));
    LeftNext(TreesAfter(log), e, Place(id, VerifyStage));
    assert map[] + left == left && left + map[] == left;
    hide TreesAfter, TreesNext, Left;
    FoundFresh(second.execution);
  }

  lemma TreesSnoc(log: seq<Event>, e: Event)
    ensures TreesAfter(log + [e]) == TreesNext(TreesAfter(log), e)
  {
    hide TreesNext;
    assert (log + [e])[..|log|] == log;
  }

  /**
   * A run in which a second approval's playbook and verify step are clean and the record says failed
   * all the same: the first approval's verify step changed a host before its runner raised, and the
   * second one did not come to that host.
   */
  lemma LeftoverFailsACleanApproval(digest: string -> string)
    returns (log: seq<Event>, id: string, first: Attempt, second: Attempt)
    ensures
      var longer := log + [Attempted(id, first)] + [Attempted(id, second)];
      && Run(longer, English(digest)) && VerifiedRun(second)
      && first.verification.Some? && first.verification.value.Raised?
      && id in StateAfter(longer, English(digest)) && StateAfter(longer, English(digest))[id].status.Failed?
      && StateAfter(longer, English(digest))[id].verdict == Some(Verdict(VerifyChanged(["b"])))
  {
    var d;
    log, id, d := OneCleanProposal(digest);
    var wording, m := English(digest), StateAfter(log, English(digest));
    var clean, request := Exited(0, map[], ""), ApprovalRequest("someone", ".", Terminal);
    first := Attempt(request, "", "", clean, Some(Raised(map["b" := true], "")));
    second := Attempt(request, "", "", clean, Some(clean));
    var read := second.(verification := Some(Exited(0, map["b" := true], "")));
    LeftoverIsWritten(d, read, digest);
    assert VerifiedRun(second);
    hide Fits, StateAfter, Run, Legal, AttemptRead, Left, TreesAfter, ApprovedRecord, VerifiedRun, Verdict;
    FirstRead(log, id, first);
    ApprovalIsLegal(m, id, first, wording);
    RunSnoc(log, Attempted(id, first), wording);
    SecondRead(log, id, first, second);
    ApprovalIsLegal(m, id, read, wording);
    RunSnoc(log + [Attempted(id, first)], Attempted(id, second), wording);
  }

  lemma LeftoverIsWritten(d: Decision, read: Attempt, digest: string -> string)
    requires Fits(d) && d.Open() && d.replay.None? && d.verifyPlaybook.Some?
    requires read.request == ApprovalRequest("someone", ".", Terminal) && read.execution == Exited(0, map[], "")
    requires read.verification == Some(Exited(0, map["b" := true], ""))
    ensures Completes(d, read, English(digest))
    ensures
      var record := ApprovedRecord(d, read, English(digest));
      record.status.Failed? && record.verdict == Some(Verdict(VerifyChanged(["b"])))
  {
    var found := read.verification.value;
    OneHostChanged("b", "");
    hide Fits, Verdict;
    WrittenExactlyWhen(d, read, digest);
    RunRecordHolds(found, read.verifiedAt, LogFile(d.id, VerifyStage), English(digest));
  }
}
