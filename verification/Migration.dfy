/** The migration itself: the plan file and the loop that runs the steps (sdk/src/cloudfall/migrate.py). */
module Migration {
  import opened Results
  import opened MigrationPlan
  import opened MigrationRuns

  /**
   * The file, if written, is a plan of these steps: a completed prefix, each step of which succeeded once, in order.
   */
  ghost predicate Tracked(plan: Option<seq<PlanStep>>, succeeded: seq<StepId>, computed: seq<StepId>) {
    match plan
    case None => succeeded == []
    case Some(steps) =>
      && Ids(steps) == computed
      && |succeeded| <= |computed| && succeeded == computed[..|succeeded|]
      && GoodPlan(steps, |succeeded|)
  }

  class PlanFile {
    var plan: Option<seq<PlanStep>>
    /** The steps that have succeeded for the plan in the file, in the order they did. */
    ghost var succeeded: seq<StepId>

    constructor ()
      ensures plan == None && succeeded == []
    {
      plan := None;
      succeeded := [];
    }

    ghost predicate Tracks(computed: seq<StepId>)
      reads this
    {
      Tracked(plan, succeeded, computed)
    }

    method Save(steps: seq<PlanStep>, ghost done: seq<StepId>)
      modifies this
      ensures plan == Some(steps) && succeeded == done
    {
      plan := Some(steps);
      succeeded := done;
    }
  }

  datatype RunResult = Refused(error: MigrateError) | Reported(envelope: Envelope) | Raised

  function ResultOf(p: Progress): RunResult {
    match p.ending
    case None => Reported(EnvelopeOf(Okay, p.steps))
    case Some(Paused) => Reported(EnvelopeOf(PausedRun, p.steps))
    case Some(Crashed) => Raised
    case Some(_) => Reported(EnvelopeOf(ErrorRun, p.steps))
  }

  /** What a caller sees of a run: its plan, under how the run ended; a runner's own error passes through. */
  lemma ResultSays(p: Progress)
    ensures
      var result := ResultOf(p);
      && (result.Raised? <==> p.ending == Some(Crashed)) && !result.Refused?
      && (result.Reported? ==>
            && result.envelope.steps == p.steps
            && (result.envelope.status.Okay? <==> p.ending.None?)
            && (result.envelope.status.PausedRun? <==> p.ending == Some(Paused))
            && (result.envelope.status.ErrorRun? <==> p.ending.Some? && !p.ending.value.Paused?))
  {
  }

  /** Some step that was pending is completed. */
  ghost predicate Progressed(from: seq<PlanStep>, to: seq<PlanStep>) {
    |from| == |to| && exists i :: 0 <= i < |from| && !from[i].completed && to[i].completed
  }

  lemma ProgressDiffers(from: seq<PlanStep>, to: seq<PlanStep>, k: nat, step: PlanStep)
    requires k < |to| && |from| == |to| && step.completed
    requires to == from || Progressed(from, to)
    requires !to[k].completed
    ensures Progressed(from, to[k := step])
  {
    if to == from {
      assert !from[k].completed && to[k := step][k].completed;
    } else {
      var i :| 0 <= i < |from| && !from[i].completed && to[i].completed;
      assert to[k := step][i].completed;
    }
  }

  lemma RunTurn(steps: seq<PlanStep>, i: nat, builds: map<string, string>, releases: map<string, string>, world: World)
    requires i < |steps|
    ensures
      var p := RunFrom(steps, i, builds, releases, world);
      var attempt := RunStep(steps[i].id, builds, releases, world);
      if steps[i].completed then p == RunFrom(steps, i + 1, builds, releases, world)
      else if attempt.Succeeded? then
        var rest := RunFrom(steps[i := Completed(steps[i], attempt.detail, world)], i + 1, builds,
                            Released(releases, steps[i].id, attempt.detail), world);
        p == rest.(ran := [steps[i].id] + rest.ran)
      else p == Progress(steps, releases, i, [], Some(attempt))
  {
  }

  /**
   * The step loop. The steps are updated in place, and the file is written after each one that
   * completes and on a recorded error; anything else a runner raises passes through.
   */
  method RunSteps(
    file: PlanFile, from: seq<PlanStep>, builds: map<string, string>, recovered: map<string, string>, world: World,
    ghost base: seq<StepId>)
    returns (result: RunResult)
    modifies file
    ensures
      var p := RunFrom(from, 0, builds, recovered, world);
      && result == ResultOf(p)
      && file.plan == FileAfter(old(file.plan), from, p)
      && file.succeeded ==
         if p.ran == [] && (p.ending.None? || p.ending.value.Crashed?) then old(file.succeeded) else base + p.ran
  {
    hide RunFrom, RunStep, Released, EnvelopeOf, Progressed;
    var releases := recovered;
    ghost var whole := RunFrom(from, 0, builds, recovered, world);
    var steps := new PlanStep[|from|](i requires 0 <= i < |from| => from[i]);
    ghost var ran: seq<StepId> := [];
    var i := 0;
    assert steps[..] == from;
    while i < steps.Length
      invariant i <= steps.Length == |from|
      invariant
        var rest := RunFrom(steps[..], i, builds, releases, world);
        whole == rest.(ran := ran + rest.ran)
      invariant
        if ran == [] then
          steps[..] == from && file.plan == old(file.plan) && file.succeeded == old(file.succeeded)
        else
          Progressed(from, steps[..]) && file.plan == Some(steps[..]) && file.succeeded == base + ran
    {
      ghost var was := steps[..];
      RunTurn(was, i, builds, releases, world);
      if steps[i].completed {
        i := i + 1;
        continue;
      }
      var id := steps[i].id;
      var attempt := RunStep(id, builds, releases, world);
      assert ran + [] == ran;
      match attempt {
        case Succeeded(detail) =>
          releases := Released(releases, id, detail);
          steps[i] := steps[i].(completed := true, completedAt := Some(world.stamp(id)), detail := Some(detail));
          assert steps[..] == was[i := Completed(was[i], detail, world)];
          ProgressDiffers(from, was, i, steps[i]);
          ghost var rest := RunFrom(steps[..], i + 1, builds, releases, world);
          assert ran + ([id] + rest.ran) == ran + [id] + rest.ran;
          ran := ran + [id];
          file.Save(steps[..], base + ran);
          i := i + 1;
        case Crashed =>
          ProgressedChanges(from, was);
          return Raised;
        case Paused =>
          file.Save(steps[..], base + ran);
          return Reported(EnvelopeOf(PausedRun, steps[..]));
        case _ =>
          file.Save(steps[..], base + ran);
          return Reported(EnvelopeOf(ErrorRun, steps[..]));
      }
    }
    RunEnds(steps[..], i, builds, releases, world);
    ProgressedChanges(from, steps[..]);
    assert ran + [] == ran;
    result := Reported(EnvelopeOf(Okay, steps[..]));
  }

  lemma ProgressedChanges(from: seq<PlanStep>, to: seq<PlanStep>)
    ensures Progressed(from, to) ==> from != to
  {
  }

  /** One invocation: refuse, preview, or run the pending steps of the loaded plan. */
  method ExecuteMigration(file: PlanFile, inventory: Inventory, options: Options, world: World)
    returns (result: RunResult)
    modifies file
    ensures
      var refusal := Refusal(inventory, options);
      var loaded := Loaded(old(file.plan), ComputedSteps(inventory, options), options.restart);
      if refusal.None? && loaded.Ok? && options.execute then
        var p := RunFrom(loaded.value, 0, options.builds, Recovered(loaded.value, options.releases), world);
        && result == ResultOf(p)
        && file.plan == FileAfter(old(file.plan), loaded.value, p)
        && file.succeeded == SucceededAfter(old(file.succeeded), options.restart, p)
      else
        && file.plan == old(file.plan) && file.succeeded == old(file.succeeded)
        && result == if refusal.Some? then Refused(refusal.value)
                     else if loaded.Err? then Refused(loaded.error)
                     else Reported(EnvelopeOf(Preview, loaded.value))
  {
    var refusal := Refusal(inventory, options);
    if refusal.Some? {
      return Refused(refusal.value);
    }
    var loaded := Loaded(file.plan, ComputedSteps(inventory, options), options.restart);
    if loaded.Err? {
      return Refused(loaded.error);
    }
    if !options.execute {
      return Reported(EnvelopeOf(Preview, loaded.value));
    }
    result := RunSteps(
      file, loaded.value, options.builds, Recovered(loaded.value, options.releases), world,
      if options.restart then [] else file.succeeded);
  }

  lemma LoadedIsTracked(plan: Option<seq<PlanStep>>, succeeded: seq<StepId>, computed: seq<StepId>, restart: bool)
    requires Tracked(plan, succeeded, computed)
    ensures
      var loaded := Loaded(plan, computed, restart);
      loaded.Ok? && Tracked(Some(loaded.value), if restart then [] else succeeded, computed)
  {
    if restart || plan.None? {
      FreshRecovers(computed, map[]);
      assert Ids(Fresh(computed)) == computed;
    }
  }

  lemma RunIsTracked(
    from: seq<PlanStep>, succeeded: seq<StepId>, computed: seq<StepId>, builds: map<string, string>,
    pinned: map<string, string>, world: World)
    requires Tracked(Some(from), succeeded, computed)
    ensures
      var p := RunFrom(from, 0, builds, Recovered(from, pinned), world);
      Tracked(Some(p.steps), succeeded + p.ran, computed) && |succeeded + p.ran| == p.reached
  {
    var k := |succeeded|;
    hide RunFrom, Recovered, GoodPlan;
    assert PrefixDone(from, k) by {
      GoodIsPrefix(from, k);
    }
    SkipCompleted(from, 0, k, builds, Recovered(from, pinned), world);
    RunKeepsThePlan(from, k, builds, pinned, world);
    var p := RunFrom(from, 0, builds, Recovered(from, pinned), world);
    assert computed[..k] + computed[k..p.reached] == computed[..p.reached];
  }

  /** The plan and the record of successes a run leaves in the file. */
  function SucceededAfter(done: seq<StepId>, restart: bool, p: Progress): seq<StepId> {
    if p.ran == [] && (p.ending.None? || p.ending.value.Crashed?) then done
    else (if restart then [] else done) + p.ran
  }

  lemma FileIsTracked(
    was: Option<seq<PlanStep>>, done: seq<StepId>, computed: seq<StepId>, options: Options, world: World)
    requires Tracked(was, done, computed) && computed != []
    ensures
      var from := Loaded(was, computed, options.restart);
      from.Ok? &&
      var p := RunFrom(from.value, 0, options.builds, Recovered(from.value, options.releases), world);
      var after := SucceededAfter(done, options.restart, p);
      && Tracked(FileAfter(was, from.value, p), after, computed)
      && (!options.restart ==> done <= after)
      && (p.ending.None? ==> after == computed)
  {
    LoadedIsTracked(was, done, computed, options.restart);
    var from := Loaded(was, computed, options.restart).value;
    var base := if options.restart then [] else done;
    hide RunFrom, Recovered, GoodPlan, Loaded;
    RunIsTracked(from, base, computed, options.builds, options.releases, world);
    var p := RunFrom(from, 0, options.builds, Recovered(from, options.releases), world);
    if p.ran == [] {
      assert base + p.ran == base;
    }
  }

  lemma OnlyAWholeRunIsOkay(p: Progress)
    ensures ResultOf(p).Reported? && ResultOf(p).envelope.status.Okay? <==> p.ending.None?
    ensures !ResultOf(p).Refused?
  {
  }

  lemma OtherResultsAreNotOkay(steps: seq<PlanStep>)
    ensures EnvelopeOf(Preview, steps).status == Preview
  {
  }

  /**
   * A migration run again with the same computed steps keeps the file's promise: the completed
   * steps are a prefix, and every step of it succeeded exactly once, in computed order.
   */
  method Resume(file: PlanFile, inventory: Inventory, options: Options, world: World)
    returns (result: RunResult)
    requires file.Tracks(ComputedSteps(inventory, options))
    modifies file
    ensures file.Tracks(ComputedSteps(inventory, options))
    ensures !options.restart ==> old(file.succeeded) <= file.succeeded
    ensures options.execute && result.Reported? && result.envelope.status.Okay? ==>
      file.succeeded == ComputedSteps(inventory, options)
    ensures result != Refused(PlanStale)
  {
    ghost var computed := ComputedSteps(inventory, options);
    assert computed[0] == Baseline;
    hide ComputedSteps, RunFrom, Recovered, Loaded, Refusal, EnvelopeOf, Tracked, FileAfter, SucceededAfter;
    FileIsTracked(file.plan, file.succeeded, computed, options, world);
    ghost var from := Loaded(file.plan, computed, options.restart).value;
    OnlyAWholeRunIsOkay(RunFrom(from, 0, options.builds, Recovered(from, options.releases), world));
    OtherResultsAreNotOkay(from);
    hide ResultOf;
    result := ExecuteMigration(file, inventory, options, world);
  }

  // ---- The result's numbers ----

  /** The count and the next step of a result are those of the completed prefix. */
  lemma {:induction false} EnvelopeCountsThePrefix(status: EnvelopeStatus, steps: seq<PlanStep>, k: nat)
    requires PrefixDone(steps, k)
    ensures EnvelopeOf(status, steps).completed == k
    ensures EnvelopeOf(status, steps).next == if k < |steps| then Some(steps[k].id) else None
  {
    CountPrefix(steps, k);
    PendingAfterPrefix(steps, k);
  }

  lemma {:induction false} CountPrefix(steps: seq<PlanStep>, k: nat)
    requires PrefixDone(steps, k)
    ensures CompletedCount(steps) == k
  {
    if steps != [] {
      CountPrefix(steps[..|steps| - 1], if k == |steps| then k - 1 else k);
    }
  }

  lemma {:induction false} PendingAfterPrefix(steps: seq<PlanStep>, k: nat)
    requires PrefixDone(steps, k)
    ensures FirstPending(steps) == if k < |steps| then Some(steps[k].id) else None
  {
    if k > 0 {
      PendingAfterPrefix(steps[1..], k - 1);
    }
  }
}
