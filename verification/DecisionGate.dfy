/**
 * The decision store and the operations on it (sdk/src/cloudfall/decision.py): proposing with the
 * supersede loop, and approving, which runs the playbook and its verify step.
 */
module DecisionGate {
  import opened Results
  import opened Names
  import opened DecisionModel
  import opened DecisionRuns

  // ---- Reading what a run left ----

  /** The host results of a run, each host under whether it reported a change. */
  method ReadTree(answer: Answer, path: string, wording: Wording) returns (preview: CheckPreview)
    requires answer.Exited?
    ensures preview == Preview(answer, path, wording)
  {
    var tree := answer.tree;
    var names := Sort(tree.Keys);
    var changed, untouched: seq<string> := [], [];
    for i := 0 to |names|
      invariant Sorted(changed) && Sorted(untouched)
      invariant forall host :: host in changed <==> host in names[..i] && host in tree && tree[host]
      invariant forall host :: host in untouched <==> host in names[..i] && host in tree && !tree[host]
    {
      var host := names[i];
      assert host in Members(names);
      assert names[..i + 1] == names[..i] + [host];
      LastIsLast(names, i);
      if tree[host] {
        changed := changed + [host];
      } else {
        untouched := untouched + [host];
      }
    }
    assert names[..|names|] == names;
    assert forall host :: host in names <==> host in Members(names);
    assert Members(changed) == ChangedHosts(tree);
    assert Members(untouched) == UnchangedHosts(tree);
    SortedUnique(changed, Listing(ChangedHosts(tree)));
    SortedUnique(untouched, Listing(UnchangedHosts(tree)));
    preview := CheckPreview(answer.code, changed, untouched, Cited(path, answer.output, wording));
  }

  lemma LastIsLast(names: seq<string>, i: nat)
    requires Sorted(names) && i < |names|
    ensures forall n :: n in names[..i] ==> Less(n, names[i])
  {
  }

  // ---- What one approval does ----

  function AttemptOf(
    decision: Decision, request: ApprovalRequest, startedAt: string, verifiedAt: string, run: Runner): Attempt
  {
    var execution := run(ExecutionStage, StageCommand(decision, decision.playbook, request.repository));
    var verification :=
      if Verifies(decision, execution)
      then Some(run(VerifyStage, StageCommand(decision, decision.verifyPlaybook.value, request.repository)))
      else None;
    Attempt(request, startedAt, verifiedAt, execution, verification)
  }

  /** A proposal's check with the host results its directory holds after it. */
  function CheckFound(trees: Trees, request: Request, moment: Moment, run: Runner): Answer {
    Found(Left(trees, CheckPlace(request, moment)), run(CheckStage, CheckCommand(request)))
  }

  /** The invocations of one approval. */
  ghost function StartedBy(decision: Decision, attempt: Attempt): seq<Argv> {
    Starts(map[decision.id := decision], Attempted(decision.id, attempt))
  }

  // ---- The supersede loop ----

  /** A proposal's store with the loop only past the records in `done`. */
  ghost function PartlySuperseding(m: Store, newer: Decision, done: seq<string>, wording: Wording): Store {
    (map id | id in m ::
      if id in done && Replaces(newer, m[id]) then SupersededRecord(m[id], newer, wording) else m[id])
      [newer.id := newer]
  }

  lemma ReplacingKeepsId(newer: Decision, older: Decision, wording: Wording)
    ensures Replaces(newer, older) <==> older.Open() && older.replay == newer.replay && older.SameCall(newer)
    ensures SupersededRecord(older, newer, wording).id == older.id
  {
  }

  lemma NewDecisionId(request: Request, moment: Moment, answer: Answer, wording: Wording)
    requires answer.Exited?
    ensures NewDecision(request, moment, answer, wording).id == Identifier(request.operation.id, moment)
  {
  }

  lemma SupersedingLoads(m: Store, newer: Decision, wording: Wording)
    requires SupersedingFits(wording) && Fits(newer) && |newer.id| <= ID_LIMIT
    requires forall id :: id in m ==> Fits(m[id]) && (m[id].Open() ==> m[id].id == id)
    ensures
      var next := Superseding(m, newer, wording);
      forall id :: id in next ==> Fits(next[id]) && (next[id].Open() ==> next[id].id == id)
  {
    hide Fits, SupersedingFits, Replaces;
    forall id | id in m
      ensures Fits(SupersededRecord(m[id], newer, wording))
    {
      SupersededFits(m[id], newer, wording);
    }
  }

  lemma PartlyNothing(m: Store, newer: Decision, wording: Wording)
    ensures PartlySuperseding(m, newer, [], wording) == m[newer.id := newer]
  {
  }

  lemma PartlyNext(m: Store, newer: Decision, names: seq<string>, i: nat, wording: Wording)
    requires i < |names| && names[i] in m && newer.id !in m && names[i] !in names[..i]
    ensures names[i] in PartlySuperseding(m, newer, names[..i], wording)
    ensures PartlySuperseding(m, newer, names[..i + 1], wording) ==
            var partly := PartlySuperseding(m, newer, names[..i], wording);
            if Replaces(newer, m[names[i]])
            then partly[names[i] := SupersededRecord(m[names[i]], newer, wording)]
            else partly
  {
    hide Replaces, SupersededRecord;
    assert names[..i + 1] == names[..i] + [names[i]];
  }

  lemma PartlyAll(m: Store, newer: Decision, names: seq<string>, wording: Wording)
    requires Members(names) == m.Keys
    ensures PartlySuperseding(m, newer, names, wording) == Superseding(m, newer, wording)
  {
    hide Replaces, SupersededRecord;
    forall id | id in m
      ensures id in names
    {
      assert id in Members(names);
    }
  }

  // ---- The store ----

  /** The order records are listed in. */
  function Oldest(m: Store): string -> Rank {
    id => Rank(if id in m then m[id].proposedAt else "", id + ".json")
  }

  lemma OldestRanks(m: Store)
    ensures Ranks(m.Keys, Oldest(m))
  {
    forall a, b | a in m && b in m && Oldest(m)(a) == Oldest(m)(b)
      ensures a == b
    {
      SuffixOff(a, b);
    }
  }

  class DecisionStore {
    var records: Store
    const wording: Wording
    ghost var log: seq<Event>
    ghost var started: seq<Argv>
    var diffs: map<string, string>

    /** The host results on file, by directory; a run adds to what is there. */
    var trees: Trees

    /** The store, its check outputs and its host results are what its run of events says, and so is every start. */
    ghost predicate Valid()
      reads this
    {
      && Run(log, wording)
      && SupersedingFits(wording)
      && records == StateAfter(log, wording)
      && started == StartsOf(log, wording)
      && diffs == OutputsAfter(log)
      && trees == TreesAfter(log)
    }

    constructor (wording: Wording)
      requires SupersedingFits(wording)
      ensures Valid() && log == [] && records == map[] && this.wording == wording
    {
      hide After, Starts, Legal, SupersedingFits;
      this.wording := wording;
      records := map[];
      diffs := map[];
      trees := map[];
      log := [];
      started := [];
    }

    method Save(decision: Decision) returns (saved: Result<(), Refusal>)
      modifies `records
      ensures saved == if decision.id in old(records) then Err(DecisionExists)
                       else if !Fits(decision) then Err(RecordInvalid) else Ok(())
      ensures records == if saved.Ok? then old(records)[decision.id := decision] else old(records)
    {
      if decision.id in records {
        return Err(DecisionExists);
      }
      if !Fits(decision) {
        return Err(RecordInvalid);
      }
      records := records[decision.id := decision];
      saved := Ok(());
    }

    method Update(decision: Decision) returns (saved: Result<(), Refusal>)
      modifies `records
      ensures saved == if decision.id !in old(records) then Err(DecisionMissing)
                       else if !Fits(decision) then Err(RecordInvalid) else Ok(())
      ensures records == if saved.Ok? then old(records)[decision.id := decision] else old(records)
    {
      if decision.id !in records {
        return Err(DecisionMissing);
      }
      if !Fits(decision) {
        return Err(RecordInvalid);
      }
      records := records[decision.id := decision];
      saved := Ok(());
    }

    method Load(id: string) returns (loaded: Result<Decision, Refusal>)
      ensures loaded == if id in records then Ok(records[id]) else Err(DecisionMissing)
    {
      loaded := if id in records then Ok(records[id]) else Err(DecisionMissing);
    }

    /** Every record, oldest proposal first, and by file name among those of one second. */
    method List() returns (names: seq<string>, listed: seq<Decision>)
      ensures Members(names) == records.Keys && RankedBy(names, Oldest(records)) && |listed| == |names|
      ensures forall i, j :: 0 <= i < j < |names| ==>
        && listed[i] == records[names[i]] && listed[j] == records[names[j]]
        && (|| Less(listed[i].proposedAt, listed[j].proposedAt)
            || (listed[i].proposedAt == listed[j].proposedAt && Less(names[i] + ".json", names[j] + ".json")))
      ensures forall i :: 0 <= i < |names| ==> names[i] in records && listed[i] == records[names[i]]
    {
      OldestRanks(records);
      names := SortBy(records.Keys, Oldest(records));
      listed := [];
      for i := 0 to |names|
        invariant |listed| == i
        invariant forall k :: 0 <= k < i ==> names[k] in records && listed[k] == records[names[k]]
      {
        assert names[i] in Members(names);
        listed := listed + [records[names[i]]];
      }
    }

    /** One start of a playbook, noted: the runner's answer, with the host results its directory then holds. */
    method Start(place: Place, argv: Argv, run: Runner) returns (found: Answer)
      modifies `started, `trees
      ensures found == Found(Left(old(trees), place), run(place.stage, argv))
      ensures trees == old(trees)[place := found.tree]
      ensures started == old(started) + [argv]
    {
      var answer := run(place.stage, argv);
      started := started + [argv];
      var left := if place in trees then trees[place] else map[];
      trees := trees[place := left + answer.tree];
      found := answer.(tree := trees[place]);
    }

    /** Appends an event the store has already carried out. */
    ghost method Note(e: Event)
      requires SupersedingFits(wording) && Run(log, wording)
      requires Legal(StateAfter(log, wording), AsRead(TreesAfter(log), e), wording)
      requires records == After(StateAfter(log, wording), AsRead(TreesAfter(log), e), wording)
      requires started == StartsOf(log, wording) + Starts(StateAfter(log, wording), e)
      requires diffs == OutputsNext(OutputsAfter(log), e) && trees == TreesNext(TreesAfter(log), e)
      modifies `log
      ensures Valid() && log == old(log) + [e]
    {
      hide After, Starts, Legal, SupersedingFits, AsRead, TreesNext;
      RunSnoc(log, e, wording);
      assert (log + [e])[..|log|] == log;
      log := log + [e];
    }

    // ---- Proposing ----

    /** Runs the check of a proposal and files its output. */
    method Check(request: Request, moment: Moment, run: Runner) returns (found: Answer)
      modifies `started, `diffs, `trees
      ensures found == CheckFound(old(trees), request, moment, run)
      ensures trees == old(trees)[CheckPlace(request, moment) := found.tree]
      ensures started == old(started) + [CheckCommand(request)]
      ensures diffs == old(diffs)[Identifier(request.operation.id, moment) := found.output]
    {
      found := Start(CheckPlace(request, moment), CheckCommand(request), run);
      diffs := diffs[Identifier(request.operation.id, moment) := found.output];
    }

    /** The record a proposal leaves. */
    method Draft(request: Request, moment: Moment, answer: Answer) returns (decision: Decision)
      requires answer.Exited?
      ensures decision == NewDecision(request, moment, answer, wording)
    {
      var preview := ReadTree(answer, DiffFile(Identifier(request.operation.id, moment)), wording);
      var (requirement, reason) := Gate(request.operation.risk);
      var ran := requirement.RunsFreely?;
      decision := Decision(
        Identifier(request.operation.id, moment), moment.timestamp, request.operation.id, request.operation.playbook,
        request.operation.risk, request.operation.verify, request.targets, request.inputs, requirement, reason,
        request.basis, preview,
        if ran then Ran else Proposed,
        None, None, None,
        if ran then Some(wording.ran(answer.code, request.replay)) else None,
        if ran then Some(answer.code) else None,
        None, request.replay);
    }

    /** Notes a check, recorded or not. */
    ghost method NoteCheck(request: Request, moment: Moment, answer: Answer, recorded: bool)
      requires SupersedingFits(wording) && Run(log, wording) && |Identifier(request.operation.id, moment)| <= ID_LIMIT
      requires
        var before, place := StateAfter(log, wording), CheckPlace(request, moment);
        var found := Found(Left(TreesAfter(log), place), answer);
        && recorded == Records(before, request, moment, found, wording)
        && records == (
             if recorded then Superseding(before, NewDecision(request, moment, found, wording), wording) else before)
        && trees == TreesAfter(log)[place := found.tree]
      requires started == StartsOf(log, wording) + [CheckCommand(request)]
      requires diffs == OutputsAfter(log)[Identifier(request.operation.id, moment) := answer.output]
      modifies `log
      ensures Valid()
      ensures
        log == old(log) + [if recorded then Recorded(request, moment, answer) else Checked(request, moment, answer)]
    {
      hide StateAfter, Run, StartsOf, OutputsAfter, TreesAfter, SupersedingFits, Superseding, Found;
      Note(if recorded then Recorded(request, moment, answer) else Checked(request, moment, answer));
    }

    /** Marks each open record of the new one's call and replay superseded, as the list had them. */
    method SupersedeOlder(newer: Decision, names: seq<string>, recorded: seq<Decision>, ghost before: Store)
      requires newer.id !in before && records == before[newer.id := newer]
      requires Members(names) == before.Keys && |recorded| == |names|
      requires forall i, j :: 0 <= i < j < |names| ==> names[i] != names[j]
      requires forall i :: 0 <= i < |names| ==> names[i] in before && recorded[i] == before[names[i]]
      requires forall id :: id in before && before[id].Open() ==> before[id].id == id && Fits(before[id])
      requires SupersedingFits(wording) && |newer.id| <= ID_LIMIT
      modifies `records
      ensures records == Superseding(before, newer, wording)
    {
      hide Replaces, SupersededRecord, PartlySuperseding, Superseding, Fits, SupersedingFits;
      PartlyNothing(before, newer, wording);
      for i := 0 to |names|
        invariant records == PartlySuperseding(before, newer, names[..i], wording)
      {
        var older := recorded[i];
        assert names[i] !in names[..i];
        PartlyNext(before, newer, names, i, wording);
        ReplacingKeepsId(newer, older, wording);
        if older.Open() && older.replay == newer.replay && older.SameCall(newer) {
          SupersededFits(older, newer, wording);
          var done := Update(SupersededRecord(older, newer, wording));
        }
      }
      assert names[..|names|] == names;
      PartlyAll(before, newer, names, wording);
    }

    /** The records load, and an open one lies under its own id. */
    ghost predicate Loadable()
      reads this
    {
      && SupersedingFits(wording)
      && forall id :: id in records ==> Fits(records[id]) && (records[id].Open() ==> records[id].id == id)
    }

    /**
     * Runs the check, records what it reported and supersedes the older open proposals of the call,
     * in any store of records that load. A runner that raises, an id already taken or a record that
     * does not fit leaves every record as it was.
     */
    method Propose(request: Request, moment: Moment, run: Runner) returns (proposed: Result<Decision, Refusal>)
      requires Loadable()
      modifies `records, `started, `diffs, `trees
      ensures Loadable()
      ensures
        var id := Identifier(request.operation.id, moment);
        var answer := CheckFound(old(trees), request, moment, run);
        proposed ==
          if |id| > ID_LIMIT then Err(IdTooLong)
          else if answer.Raised? then Err(RunnerRaised)
          else if id in old(records) then Err(DecisionExists)
          else if !Fits(NewDecision(request, moment, answer, wording)) then Err(RecordInvalid)
          else Ok(NewDecision(request, moment, answer, wording))
      ensures proposed.Ok? ==>
        var answer := CheckFound(old(trees), request, moment, run);
        ProposalSays(proposed.value, request, moment, answer, wording)
        && StartsAs(proposed.value, request, answer, wording)
      ensures records == if proposed.Ok? then Superseding(old(records), proposed.value, wording) else old(records)
      ensures
        if proposed == Err(IdTooLong) then
          started == old(started) && diffs == old(diffs) && trees == old(trees)
        else
          var answer := CheckFound(old(trees), request, moment, run);
          && started == old(started) + [CheckCommand(request)]
          && diffs == old(diffs)[Identifier(request.operation.id, moment) := answer.output]
          && trees == old(trees)[CheckPlace(request, moment) := answer.tree]
    {
      hide NewDecision, CheckCommand, Fits, SupersedingFits, Superseding, CheckFound, ProposalSays, StartsAs;
      var names, recorded := List();
      RankedAreDistinct(names, Oldest(records));
      if |Identifier(request.operation.id, moment)| > ID_LIMIT {
        return Err(IdTooLong);
      }
      var answer := Check(request, moment, run);
      if answer.Raised? {
        return Err(RunnerRaised);
      }
      var decision := Draft(request, moment, answer);
      NewDecisionId(request, moment, answer, wording);
      var saved := Save(decision);
      if saved.Err? {
        return Err(saved.error);
      }
      SupersedeOlder(decision, names, recorded, old(records));
      SupersedingLoads(old(records), decision, wording);
      NewDecisionSays(request, moment, answer, wording);
      proposed := Ok(decision);
    }

    /** A proposal into a store that a run has left: one event more, recorded or not. */
    method ProposeInRun(request: Request, moment: Moment, run: Runner) returns (proposed: Result<Decision, Refusal>)
      requires Valid()
      modifies this
      ensures Valid()
      ensures
        var answer := run(CheckStage, CheckCommand(request));
        log == old(log) +
          if |Identifier(request.operation.id, moment)| > ID_LIMIT then []
          else if proposed.Err? then [Checked(request, moment, answer)]
          else [Recorded(request, moment, answer)]
      ensures proposed.Ok? ==>
        var answer := CheckFound(old(trees), request, moment, run);
        answer.Exited? && proposed.value == NewDecision(request, moment, answer, wording)
    {
      hide StateAfter, Run, StartsOf, NewDecision, CheckCommand, Fits, SupersedingFits, OutputsAfter, Superseding;
      hide TreesAfter;
      forall id | id in records
        ensures Fits(records[id]) && records[id].id == id
      {
        StoredRecordsFit(log, id, wording);
      }
      proposed := Propose(request, moment, run);
      if |Identifier(request.operation.id, moment)| <= ID_LIMIT {
        NoteCheck(request, moment, run(CheckStage, CheckCommand(request)), proposed.Ok?);
      } else {
        assert log + [] == log;
      }
    }

    // ---- Approving ----

    /** Runs one stage of an approved decision, and reads what its directory then holds. */
    method RunStage(decision: Decision, playbook: string, stage: Stage, repository: string, at: string, run: Runner)
      returns (record: Result<RunRecord, Refusal>)
      modifies `started, `trees
      ensures started == old(started) + [StageCommand(decision, playbook, repository)]
      ensures
        var place := Place(decision.id, stage);
        var found := Found(Left(old(trees), place), run(stage, StageCommand(decision, playbook, repository)));
        && trees == old(trees)[place := found.tree]
        && record == (
             if found.Exited? then Ok(RunRecordOf(found, at, LogFile(decision.id, stage), wording))
             else Err(RunnerRaised))
    {
      var found := Start(Place(decision.id, stage), StageCommand(decision, playbook, repository), run);
      if found.Raised? {
        return Err(RunnerRaised);
      }
      var preview := ReadTree(found, LogFile(decision.id, stage), wording);
      record := Ok(RunRecord(at, preview.exitCode, preview.changed, preview.untouched, preview.diff));
    }

    /**
     * Approves a record the caller has loaded; it is not read again. Nothing starts when it is
     * refused, and only a run that comes to its end is written down.
     */
    method Approve(decision: Decision, request: ApprovalRequest, startedAt: string, verifiedAt: string, run: Runner)
      returns (approved: Result<Decision, Refusal>)
      modifies `records, `started, `trees
      ensures
        var refusal := RefuseApproval(decision, request);
        var attempt := AttemptOf(decision, request, startedAt, verifiedAt, run);
        var read := AttemptRead(old(trees), decision.id, attempt);
        if refusal.Some? then
          && approved == Err(refusal.value) && records == old(records) && started == old(started)
          && trees == old(trees)
        else
          && started == old(started) + StartedBy(decision, attempt)
          && trees == TreesNext(old(trees), Attempted(decision.id, attempt))
          && approved == (
               if !attempt.Answered() then Err(RunnerRaised)
               else if decision.id !in old(records) then Err(DecisionMissing)
               else if !Fits(ApprovedRecord(decision, read, wording)) then Err(RecordInvalid)
               else Ok(ApprovedRecord(decision, read, wording)))
          && (approved.Ok? ==> ApprovalSays(approved.value, decision, read, wording))
          && records == if approved.Ok? then old(records)[decision.id := approved.value] else old(records)
    {
      hide Fits;
      var refusal := RefuseApproval(decision, request);
      if refusal.Some? {
        return Err(refusal.value);
      }
      ghost var attempt := AttemptOf(decision, request, startedAt, verifiedAt, run);
      var execution := RunStage(decision, decision.playbook, ExecutionStage, request.repository, startedAt, run);
      if execution.Err? {
        return Err(execution.error);
      }
      var verification: Option<RunRecord> := None;
      if decision.verifyPlaybook.Some? && execution.value.exitCode == 0 {
        var verified :=
          RunStage(decision, decision.verifyPlaybook.value, VerifyStage, request.repository, verifiedAt, run);
        if verified.Err? {
          return Err(verified.error);
        }
        verification := Some(verified.value);
      }
      var (status, reason) := Outcome(execution.value, verification, decision.verifyPlaybook);
      var record := decision.(
        approval := Some(Approval(request.approver, startedAt, request.via)),
        execution := Some(execution.value),
        verification := verification,
        status := status,
        verdict := Some(wording.verdict(reason)));
      var saved := Update(record);
      if saved.Err? {
        return Err(saved.error);
      }
      ApprovedRecordSays(decision, AttemptRead(old(trees), decision.id, attempt), wording);
      approved := Ok(record);
    }

    /** Loads a record and approves it: one event of the run when it is not refused. */
    method ApproveById(id: string, request: ApprovalRequest, startedAt: string, verifiedAt: string, run: Runner)
      returns (approved: Result<Decision, Refusal>)
      requires Valid()
      modifies this
      ensures Valid()
      ensures
        if id !in old(records) then approved == Err(DecisionMissing) && log == old(log)
        else
          var decision := old(records)[id];
          var refusal := RefuseApproval(decision, request);
          var attempt := AttemptOf(decision, request, startedAt, verifiedAt, run);
          var read := AttemptRead(old(trees), id, attempt);
          if refusal.Some? then approved == Err(refusal.value) && log == old(log)
          else
            && log == old(log) + [Attempted(id, attempt)]
            && (approved.Ok? <==> Completes(decision, read, wording))
            && (approved.Ok? ==> approved.value == ApprovedRecord(decision, read, wording))
    {
      hide StateAfter, Run, StartsOf, ApprovedRecord, StageCommand, Outcome, Fits, SupersedingFits, OutputsAfter;
      hide TreesAfter, TreesNext;
      var loaded := Load(id);
      if loaded.Err? {
        return Err(loaded.error);
      }
      var decision := loaded.value;
      StoredRecordsFit(log, id, wording);
      approved := Approve(decision, request, startedAt, verifiedAt, run);
      if RefuseApproval(decision, request).None? {
        Note(Attempted(id, AttemptOf(decision, request, startedAt, verifiedAt, run)));
      }
    }
  }
}
