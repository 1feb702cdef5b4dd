/** What holds over every sequence of interrupted and resumed migrations. */
module MigrationRuns {
  import opened Results
  import opened MigrationPlan

  // ---- The plan's shape ----

  /** Exactly the first `k` steps are completed. */
  ghost predicate PrefixDone(steps: seq<PlanStep>, k: nat) {
    k <= |steps| && forall i :: 0 <= i < |steps| ==> (steps[i].completed <==> i < k)
  }

  /** Every completed build holds the release it built. */
  ghost predicate BuildsRecorded(steps: seq<PlanStep>) {
    forall i :: 0 <= i < |steps| && steps[i].completed && steps[i].id.Build? ==>
      steps[i].detail.Some? && steps[i].detail.value.release.Some?
  }

  ghost predicate GoodPlan(steps: seq<PlanStep>, k: nat) {
    PrefixDone(steps, k) && BuildsRecorded(steps)
  }

  lemma GoodIsPrefix(steps: seq<PlanStep>, k: nat)
    requires GoodPlan(steps, k)
    ensures PrefixDone(steps, k)
  {
  }

  lemma {:induction false} OnlyCompletedRecover(steps: seq<PlanStep>, k: nat, pinned: map<string, string>)
    requires PrefixDone(steps, k)
    ensures Recovered(steps, pinned) == Recovered(steps[..k], pinned)
  {
    if k == |steps| {
      assert steps[..k] == steps;
    } else {
      var shorter := steps[..|steps| - 1];
      OnlyCompletedRecover(shorter, k, pinned);
      assert shorter[..k] == steps[..k];
    }
  }

  /** The plan once its first pending step succeeded. */
  lemma AfterStep(steps: seq<PlanStep>, k: nat, detail: Detail, world: World, pinned: map<string, string>)
    requires GoodPlan(steps, k) && k < |steps|
    requires steps[k].id.Build? ==> detail.release.Some?
    ensures
      var next := steps[k := Completed(steps[k], detail, world)];
      && GoodPlan(next, k + 1) && Ids(next) == Ids(steps)
      && (forall i :: 0 <= i <= k ==> next[..i] == steps[..i])
      && Recovered(next, pinned) == Released(Recovered(steps, pinned), steps[k].id, detail)
  {
    var next := steps[k := Completed(steps[k], detail, world)];
    OnlyCompletedRecover(steps, k, pinned);
    OnlyCompletedRecover(next, k + 1, pinned);
    assert next[..k + 1][..k] == steps[..k] && next[..k + 1][k] == next[k];
  }

  /** One turn of the step loop at the first pending step. */
  lemma RunNext(
    steps: seq<PlanStep>, k: nat, builds: map<string, string>, pinned: map<string, string>, world: World)
    returns (attempt: Attempt, next: seq<PlanStep>)
    requires GoodPlan(steps, k) && k < |steps|
    ensures attempt == RunStep(steps[k].id, builds, Recovered(steps, pinned), world)
    ensures attempt.Succeeded? && steps[k].id.Build? ==> attempt.detail.release.Some?
    ensures attempt.Succeeded? ==>
      && next == steps[k := Completed(steps[k], attempt.detail, world)]
      && GoodPlan(next, k + 1) && Ids(next) == Ids(steps)
      && (forall i :: 0 <= i <= k ==> next[..i] == steps[..i])
      && var rest := RunFrom(next, k + 1, builds, Recovered(next, pinned), world);
         RunFrom(steps, k, builds, Recovered(steps, pinned), world) == rest.(ran := [steps[k].id] + rest.ran)
    ensures !attempt.Succeeded? ==>
      RunFrom(steps, k, builds, Recovered(steps, pinned), world)
      == Progress(steps, Recovered(steps, pinned), k, [], Some(attempt))
  {
    attempt := RunStep(steps[k].id, builds, Recovered(steps, pinned), world);
    next := steps;
    if attempt.Succeeded? {
      next := steps[k := Completed(steps[k], attempt.detail, world)];
      AfterStep(steps, k, attempt.detail, world, pinned);
    }
  }

  lemma SkipCompleted(
    steps: seq<PlanStep>, i: nat, k: nat, builds: map<string, string>, releases: map<string, string>, world: World)
    requires PrefixDone(steps, k) && i <= k
    ensures RunFrom(steps, i, builds, releases, world) == RunFrom(steps, k, builds, releases, world)
    decreases k - i
  {
    if i < k {
      SkipCompleted(steps, i + 1, k, builds, releases, world);
    }
  }

  lemma RunEnds(steps: seq<PlanStep>, k: nat, builds: map<string, string>, releases: map<string, string>, world: World)
    requires k == |steps|
    ensures RunFrom(steps, k, builds, releases, world) == Progress(steps, releases, k, [], None)
  {
  }

  /**
   * The run completed the steps from the `k`-th on, in order and each once, up to where it stopped; the others are as
   * before.
   */
  ghost predicate Keeps(steps: seq<PlanStep>, k: nat, p: Progress, pinned: map<string, string>) {
    && k <= p.reached <= |steps| == |p.steps| && GoodPlan(p.steps, p.reached) && Ids(p.steps) == Ids(steps)
    && p.steps[..k] == steps[..k]
    && p.ran == Ids(steps)[k..p.reached]
    && p.releases == Recovered(p.steps, pinned)
  }

  lemma KeepsNext(steps: seq<PlanStep>, next: seq<PlanStep>, k: nat, p: Progress, pinned: map<string, string>)
    requires k < |steps| == |next| && Keeps(next, k + 1, p, pinned)
    requires next[..k] == steps[..k] && Ids(next) == Ids(steps)
    ensures Keeps(steps, k, p.(ran := [steps[k].id] + p.ran), pinned)
  {
    hide GoodPlan, Recovered;
    assert p.steps[..k] == p.steps[..k + 1][..k] == next[..k + 1][..k];
    assert [steps[k].id] + Ids(next)[k + 1..p.reached] == Ids(steps)[k..p.reached];
  }

  lemma KeepsNothing(steps: seq<PlanStep>, k: nat, p: Progress, pinned: map<string, string>)
    requires GoodPlan(steps, k) && p == Progress(steps, Recovered(steps, pinned), k, [], p.ending)
    ensures Keeps(steps, k, p, pinned)
  {
  }

  /**
   * One run from a plan whose first `k` steps are completed keeps it so, and the releases in hand
   * are those the plan records.
   */
  lemma {:induction false} RunKeepsThePlan(
    steps: seq<PlanStep>, k: nat, builds: map<string, string>, pinned: map<string, string>, world: World)
    requires GoodPlan(steps, k)
    ensures Keeps(steps, k, RunFrom(steps, k, builds, Recovered(steps, pinned), world), pinned)
    decreases |steps| - k
  {
    assert k <= |steps|;
    hide RunFrom, RunStep, Recovered, GoodPlan, Completed, Keeps, Ids;
    if k == |steps| {
      RunEnds(steps, k, builds, Recovered(steps, pinned), world);
      KeepsNothing(steps, k, RunFrom(steps, k, builds, Recovered(steps, pinned), world), pinned);
    } else {
      var attempt, next := RunNext(steps, k, builds, pinned, world);
      if attempt.Succeeded? {
        RunKeepsThePlan(next, k + 1, builds, pinned, world);
        KeepsNext(steps, next, k, RunFrom(next, k + 1, builds, Recovered(next, pinned), world), pinned);
      } else {
        KeepsNothing(steps, k, RunFrom(steps, k, builds, Recovered(steps, pinned), world), pinned);
      }
    }
  }

  // ---- Releases reach the deployments ----

  /** Each deployment is of a pinned component, or comes after its build. */
  ghost predicate BuildsBeforeDeploys(ids: seq<StepId>, pinned: map<string, string>) {
    forall i :: 0 <= i < |ids| && ids[i].Deploy? && ids[i].component !in pinned ==>
      Build(ids[i].component) in ids[..i]
  }

  lemma {:induction false} RecoverFinds(steps: seq<PlanStep>, pinned: map<string, string>, c: string)
    requires forall i :: 0 <= i < |steps| ==> steps[i].completed
    requires BuildsRecorded(steps)
    requires c in pinned || Build(c) in Ids(steps)
    ensures c in Recovered(steps, pinned)
  {
    if steps != [] {
      var shorter, last := steps[..|steps| - 1], steps[|steps| - 1];
      if last.id != Build(c) {
        assert Ids(steps) == Ids(shorter) + [last.id];
        RecoverFinds(shorter, pinned, c);
      }
    }
  }

  lemma DeployFinds(steps: seq<PlanStep>, k: nat, pinned: map<string, string>)
    requires GoodPlan(steps, k) && BuildsBeforeDeploys(Ids(steps), pinned)
    requires k < |steps| && steps[k].id.Deploy?
    ensures steps[k].id.component in Recovered(steps, pinned)
  {
    OnlyCompletedRecover(steps, k, pinned);
    assert Ids(steps)[..k] == Ids(steps[..k]);
    RecoverFinds(steps[..k], pinned, steps[k].id.component);
  }

  /**
   * No run stops at a deployment for want of a release, fresh or resumed, and even when the options
   * changed in between.
   */
  lemma {:induction false} DeploysFindReleases(
    steps: seq<PlanStep>, k: nat, builds: map<string, string>, pinned: map<string, string>, world: World)
    requires GoodPlan(steps, k) && BuildsBeforeDeploys(Ids(steps), pinned)
    ensures
      var p := RunFrom(steps, k, builds, Recovered(steps, pinned), world);
      p.reached < |steps| && steps[p.reached].id.Deploy? ==> p.ending != Some(ReleaseMissing)
    decreases |steps| - k
  {
    hide RunFrom, Recovered, Completed, BuildsBeforeDeploys;
    if k == |steps| {
      RunEnds(steps, k, builds, Recovered(steps, pinned), world);
    } else {
      var attempt, next := RunNext(steps, k, builds, pinned, world);
      if attempt.Succeeded? {
        assert forall i :: 0 <= i < |steps| ==> next[i].id == Ids(next)[i] == Ids(steps)[i] == steps[i].id;
        DeploysFindReleases(next, k + 1, builds, pinned, world);
      } else if steps[k].id.Deploy? {
        DeployFinds(steps, k, pinned);
      }
    }
  }

  lemma {:induction false} ComponentsBuildFirst(components: seq<string>, pinned: map<string, string>)
    ensures BuildsBeforeDeploys(ComponentSteps(components, pinned), pinned)
  {
    if components != [] {
      var c, rest := components[0], ComponentSteps(components[1..], pinned);
      var ids := ComponentSteps(components, pinned);
      var head := ids[..|ids| - |rest|];
      ComponentsBuildFirst(components[1..], pinned);
      forall i | 0 <= i < |ids| && ids[i].Deploy? && ids[i].component !in pinned
        ensures Build(ids[i].component) in ids[..i]
      {
        if i < |head| {
          assert i == 1 && ids[..1][0] == Build(c);
        } else {
          assert ids[..i] == head + rest[..i - |head|];
        }
      }
    }
  }

  lemma BuildsFirstWithin(a: seq<StepId>, b: seq<StepId>, c: seq<StepId>, pinned: map<string, string>)
    requires BuildsBeforeDeploys(b, pinned)
    requires forall id :: id in a || id in c ==> !id.Deploy?
    ensures BuildsBeforeDeploys(a + b + c, pinned)
  {
    var ids := a + b + c;
    forall i | 0 <= i < |a|
      ensures !ids[i].Deploy?
    {
      assert ids[i] in a;
    }
    forall i | |a| + |b| <= i < |ids|
      ensures !ids[i].Deploy?
    {
      assert ids[i] in c;
    }
    forall i | 0 <= i < |ids| && ids[i].Deploy? && ids[i].component !in pinned
      ensures Build(ids[i].component) in ids[..i]
    {
      assert ids[i] == b[i - |a|];
      assert ids[..i] == a + b[..i - |a|];
    }
  }

  lemma ComputedBuildFirst(inventory: Inventory, options: Options)
    ensures BuildsBeforeDeploys(ComputedSteps(inventory, options), options.releases)
  {
    ComponentsBuildFirst(inventory.components, options.releases);
    BuildsFirstWithin(
      OpeningSteps(inventory, options), ComponentSteps(inventory.components, options.releases), ClosingSteps(inventory),
      options.releases);
  }

  /** The steps of the components: a deployment of each, and a build of each that is not pinned. */
  lemma {:induction false} ComponentStepsHold(components: seq<string>, pinned: map<string, string>, id: StepId)
    ensures id in ComponentSteps(components, pinned) <==>
            (id.Deploy? || id.Build?) && id.component in components && (id.Build? ==> id.component !in pinned)
  {
    if components != [] {
      var c, rest := components[0], components[1..];
      ComponentStepsHold(rest, pinned, id);
      var more := ComponentSteps(rest, pinned);
      assert forall d :: d in components <==> d == c || d in rest;
      assert id in ComponentSteps(components, pinned) <==>
        id == Deploy(c) || (c !in pinned && id == Build(c)) || id in more;
    }
  }

  lemma RunnerOf(inventory: Inventory, options: Options, id: StepId)
    requires id in ComputedSteps(inventory, options)
    ensures id in RunnerIds(inventory, options) <==> (id.Build? ==> id.component in options.builds)
  {
    ComponentStepsHold(inventory.components, options.releases, id);
    if id in DataSteps(options.dataMigrations) {
      assert id.database in options.dataMigrations;
    }
  }

  lemma BuildsOf(inventory: Inventory, options: Options, c: string)
    ensures Build(c) in ComputedSteps(inventory, options) <==> c in Declared(inventory) && c !in options.releases
  {
    ComponentStepsHold(inventory.components, options.releases, Build(c));
  }

  /** Every computed step has a runner exactly when every component has a git ref or a pinned release. */
  lemma EveryStepHasARunner(inventory: Inventory, options: Options)
    ensures (forall id :: id in ComputedSteps(inventory, options) ==> id in RunnerIds(inventory, options))
            <==> Declared(inventory) - options.builds.Keys - options.releases.Keys == {}
  {
    hide ComputedSteps, RunnerIds, Declared;
    var unbuilt := Declared(inventory) - options.builds.Keys - options.releases.Keys;
    if unbuilt == {} {
      forall id | id in ComputedSteps(inventory, options)
        ensures id in RunnerIds(inventory, options)
      {
        RunnerOf(inventory, options, id);
        if id.Build? {
          BuildsOf(inventory, options, id.component);
          assert id.component !in unbuilt;
        }
      }
    } else {
      var c :| c in unbuilt;
      BuildsOf(inventory, options, c);
      RunnerOf(inventory, options, Build(c));
    }
  }

  lemma DistinctJoin(a: seq<StepId>, b: seq<StepId>)
    requires Distinct(a) && Distinct(b) && forall id :: id in a ==> id !in b
    ensures Distinct(a + b)
  {
    var all := a + b;
    forall i, j | 0 <= i < j < |all|
      ensures all[i] != all[j]
    {
      if i < |a| <= j {
        assert all[i] in a && all[j] == b[j - |a|];
      }
    }
  }

  lemma {:induction false} ComponentStepsOnce(components: seq<string>, pinned: map<string, string>)
    requires Distinct(components)
    ensures Distinct(ComponentSteps(components, pinned))
  {
    if components != [] {
      var c, rest := components[0], components[1..];
      ComponentStepsOnce(rest, pinned);
      var head := if c in pinned then [Deploy(c)] else [Build(c), Deploy(c)];
      forall id | id in head
        ensures id !in ComponentSteps(rest, pinned)
      {
        ComponentStepsHold(rest, pinned, id);
      }
      DistinctJoin(head, ComponentSteps(rest, pinned));
    }
  }

  lemma OpeningStepsOnce(inventory: Inventory, options: Options)
    requires Distinct(options.dataMigrations)
    ensures Distinct(OpeningSteps(inventory, options))
  {
    var head := [Baseline, Services] + (if inventory.hasDomains then [TtlLower] else []);
    DistinctJoin(head, DataSteps(options.dataMigrations));
  }

  /** No step is computed twice, so none succeeds twice for one plan. */
  lemma ComputedOnce(inventory: Inventory, options: Options)
    requires Distinct(inventory.components) && Distinct(options.dataMigrations)
    ensures Distinct(ComputedSteps(inventory, options))
  {
    var opening, closing := OpeningSteps(inventory, options), ClosingSteps(inventory);
    var components := ComponentSteps(inventory.components, options.releases);
    OpeningStepsOnce(inventory, options);
    ComponentStepsOnce(inventory.components, options.releases);
    forall id | id in components
      ensures id.Build? || id.Deploy?
    {
      ComponentStepsHold(inventory.components, options.releases, id);
    }
    DistinctJoin(opening, components);
    DistinctJoin(opening + components, closing);
  }

  // ---- Which steps, and in which order ----

  /** Exactly which steps a migration has. */
  predicate Belongs(inventory: Inventory, options: Options, id: StepId) {
    match id
    case Baseline => true
    case Services => true
    case Inspect => true
    case Audit => true
    case Data(d) => d in options.dataMigrations
    case Build(c) => c in inventory.components && c !in options.releases
    case Deploy(c) => c in inventory.components
    case _ => inventory.hasDomains
  }

  /** The order of the migration: the steps of one phase come before those of the next. */
  function Phase(id: StepId): nat {
    match id
    case Baseline => 0
    case Services => 1
    case TtlLower => 2
    case Data(_) => 3
    case Build(_) => 4
    case Deploy(_) => 4
    case DomainsHttp => 5
    case ParallelRun => 6
    case DnsVerify => 7
    case DomainsTls => 8
    case Inspect => 9
    case Audit => 10
    case VerifyRoutes => 11
    case RollbackWindow => 12
  }

  lemma ComputedExactlyWhen(inventory: Inventory, options: Options, id: StepId)
    ensures id in ComputedSteps(inventory, options) <==> Belongs(inventory, options, id)
  {
    var opening, closing := OpeningSteps(inventory, options), ClosingSteps(inventory);
    var components := ComponentSteps(inventory.components, options.releases);
    ComponentStepsHold(inventory.components, options.releases, id);
    var data := DataSteps(options.dataMigrations);
    if id.Data? && id.database in options.dataMigrations {
      var i :| 0 <= i < |data| && options.dataMigrations[i] == id.database;
      assert data[i] == id;
    }
    var first := [Baseline, Services] + (if inventory.hasDomains then [TtlLower] else []);
    assert id in first <==> id.Baseline? || id.Services? || (id.TtlLower? && inventory.hasDomains);
    assert id in opening <==> id in first || id in data;
    var last := if inventory.hasDomains then [VerifyRoutes, RollbackWindow] else [];
    var domains := if inventory.hasDomains then [DomainsHttp, ParallelRun, DnsVerify, DomainsTls] else [];
    assert id in closing <==> id in domains || id in [Inspect, Audit] || id in last;
    assert id in ComputedSteps(inventory, options) <==> id in opening || id in components || id in closing;
  }

  ghost predicate InPhases(ids: seq<StepId>) {
    forall i, j :: 0 <= i < j < |ids| ==> Phase(ids[i]) <= Phase(ids[j])
  }

  lemma PhasesJoin(a: seq<StepId>, b: seq<StepId>, phase: nat)
    requires InPhases(a) && InPhases(b)
    requires (forall id :: id in a ==> Phase(id) <= phase) && forall id :: id in b ==> phase <= Phase(id)
    ensures InPhases(a + b)
  {
    hide Phase;
    var all := a + b;
    forall i, j | 0 <= i < j < |all|
      ensures Phase(all[i]) <= Phase(all[j])
    {
      if i < |a| <= j {
        assert all[i] in a && all[j] == b[j - |a|] && b[j - |a|] in b;
      }
    }
  }

  lemma OpeningInPhases(inventory: Inventory, options: Options)
    ensures InPhases(OpeningSteps(inventory, options))
    ensures forall id :: id in OpeningSteps(inventory, options) ==> Phase(id) <= 3
  {
    var first, data := [Baseline, Services], DataSteps(options.dataMigrations);
    if inventory.hasDomains {
      PhasesJoin(first, [TtlLower], 2);
      first := first + [TtlLower];
    }
    PhasesJoin(first, data, 3);
    assert OpeningSteps(inventory, options) == first + data;
    assert forall id :: id in first + data ==> id in first || id in data;
  }

  lemma ClosingInPhases(inventory: Inventory)
    ensures InPhases(ClosingSteps(inventory)) && forall id :: id in ClosingSteps(inventory) ==> 4 <= Phase(id)
  {
    var evidence: seq<StepId> := [Inspect, Audit];
    if inventory.hasDomains {
      var domains: seq<StepId> := [DomainsHttp, ParallelRun, DnsVerify, DomainsTls];
      PhasesJoin(domains, evidence, 9);
      PhasesJoin(domains + evidence, [VerifyRoutes, RollbackWindow], 11);
      assert ClosingSteps(inventory) == domains + evidence + [VerifyRoutes, RollbackWindow];
    } else {
      assert ClosingSteps(inventory) == evidence;
    }
  }

  /** The computed steps are in the order of their phases. */
  lemma ComputedInPhases(inventory: Inventory, options: Options)
    ensures InPhases(ComputedSteps(inventory, options))
  {
    var opening, closing := OpeningSteps(inventory, options), ClosingSteps(inventory);
    var components := ComponentSteps(inventory.components, options.releases);
    forall id | id in components
      ensures Phase(id) == 4
    {
      ComponentStepsHold(inventory.components, options.releases, id);
    }
    OpeningInPhases(inventory, options);
    ClosingInPhases(inventory);
    hide InPhases, OpeningSteps, ClosingSteps, ComponentSteps, Phase;
    assert InPhases(components) by {
      OnePhase(components);
    }
    PhasesJoin(opening, components, 4);
    assert forall id :: id in opening + components ==> id in opening || id in components;
    PhasesJoin(opening + components, closing, 4);
  }

  lemma OnePhase(ids: seq<StepId>)
    requires forall id :: id in ids ==> Phase(id) == 4
    ensures InPhases(ids)
  {
    hide Phase;
    forall i, j | 0 <= i < j < |ids|
      ensures Phase(ids[i]) <= Phase(ids[j])
    {
      assert ids[i] in ids && ids[j] in ids;
    }
  }

  /** The steps of the components keep the components' order. */
  lemma {:induction false} ComponentsKeepOrder(
    components: seq<string>, pinned: map<string, string>, a: nat, b: nat, i: nat, j: nat)
    requires Distinct(components) && a < b < |components|
    requires
      var ids := ComponentSteps(components, pinned);
      i < |ids| && j < |ids| && ids[i] in {Build(components[a]), Deploy(components[a])}
      && ids[j] in {Build(components[b]), Deploy(components[b])}
    ensures i < j
  {
    var c, rest := components[0], components[1..];
    var ids, more := ComponentSteps(components, pinned), ComponentSteps(rest, pinned);
    var head := if c in pinned then [Deploy(c)] else [Build(c), Deploy(c)];
    assert ids == head + more;
    if i >= |head| {
      ComponentStepsHold(rest, pinned, more[i - |head|]);
      assert a > 0 && rest[a - 1] == components[a];
    }
    if i >= |head| && j >= |head| {
      assert rest[b - 1] == components[b];
      ComponentsKeepOrder(rest, pinned, a - 1, b - 1, i - |head|, j - |head|);
    }
  }

  /** Where the steps are that do not depend on the components; those of the components lie between. */
  lemma ComputedLayout(inventory: Inventory, options: Options)
    ensures
      var ids, data := ComputedSteps(inventory, options), options.dataMigrations;
      var d, e := if inventory.hasDomains then 3 else 2, if inventory.hasDomains then 8 else 2;
      && d + |data| + e <= |ids| && ids[0] == Baseline && ids[1] == Services
      && (inventory.hasDomains ==> ids[2] == TtlLower)
      && (forall i :: 0 <= i < |data| ==> ids[d + i] == Data(data[i]))
      && ids[d + |data|..|ids| - e] == ComponentSteps(inventory.components, options.releases)
      && ids[|ids| - e..] ==
         if inventory.hasDomains then
           [DomainsHttp, ParallelRun, DnsVerify, DomainsTls, Inspect, Audit, VerifyRoutes, RollbackWindow]
         else [Inspect, Audit]
  {
  }

  // ---- What a step reads of the plan ----

  /** The plan as it stands when the run that leaves `after` comes to its `j`-th step. */
  function Standing(steps: seq<PlanStep>, after: seq<PlanStep>, j: nat): seq<PlanStep>
    requires j <= |steps| == |after|
  {
    after[..j] + steps[j..]
  }

  lemma StandingNext(steps: seq<PlanStep>, next: seq<PlanStep>, k: nat, after: seq<PlanStep>, j: nat)
    requires k < j < |steps| == |next| == |after| && forall i :: k < i < |steps| ==> next[i] == steps[i]
    ensures Standing(steps, after, j) == Standing(next, after, j) && steps[j] == next[j]
  {
    assert next[j..] == steps[j..];
  }

  lemma StandingAtStart(steps: seq<PlanStep>, k: nat, after: seq<PlanStep>)
    requires k <= |steps| == |after| && after[..k] == steps[..k]
    ensures Standing(steps, after, k) == steps
  {
  }

  /**
   * Each step of a run, up to the one it stops at, ran on the plan as it stood and with the releases
   * recovered from it.
   */
  lemma {:induction false} EachStepRan(
    steps: seq<PlanStep>, k: nat, builds: map<string, string>, pinned: map<string, string>, world: World, j: nat)
    requires GoodPlan(steps, k)
    requires k <= j < |steps| && j <= RunFrom(steps, k, builds, Recovered(steps, pinned), world).reached
    ensures
      var p := RunFrom(steps, k, builds, Recovered(steps, pinned), world);
      var attempt := RunStep(steps[j].id, builds, Recovered(Standing(steps, p.steps, j), pinned), world);
      && GoodPlan(Standing(steps, p.steps, j), j) && Ids(Standing(steps, p.steps, j)) == Ids(steps)
      && (j < p.reached ==>
            && attempt.Succeeded? && p.steps[j].id == steps[j].id && p.steps[j].completed
            && p.steps[j].completedAt == Some(world.stamp(steps[j].id)) && p.steps[j].detail == Some(attempt.detail))
      && (j == p.reached ==> p.ending == Some(attempt))
    decreases |steps| - k
  {
    hide RunFrom, RunStep, Recovered, GoodPlan, Standing;
    var p := RunFrom(steps, k, builds, Recovered(steps, pinned), world);
    RunKeepsThePlan(steps, k, builds, pinned, world);
    StandingAtStart(steps, k, p.steps);
    var attempt, next := RunNext(steps, k, builds, pinned, world);
    if attempt.Succeeded? {
      RunKeepsThePlan(next, k + 1, builds, pinned, world);
      assert p.steps[k] == p.steps[..k + 1][k] == next[..k + 1][k];
      if k < j {
        EachStepRan(next, k + 1, builds, pinned, world, j);
        StandingNext(steps, next, k, p.steps, j);
      }
    }
  }

  /**
   * A step runs, in a fresh run or a resumed one, only on a plan that has completed every step of an
   * earlier phase: certificates only once the DNS is seen switched, the audit only after the inspection.
   */
  lemma EarlierPhasesAreDone(
    inventory: Inventory, options: Options, steps: seq<PlanStep>, k: nat, world: World, j: nat, earlier: StepId)
    returns (i: nat)
    requires GoodPlan(steps, k) && Ids(steps) == ComputedSteps(inventory, options)
    requires k <= j < |steps|
    requires j <= RunFrom(steps, k, options.builds, Recovered(steps, options.releases), world).reached
    requires Belongs(inventory, options, earlier) && Phase(earlier) < Phase(steps[j].id)
    ensures
      var p := RunFrom(steps, k, options.builds, Recovered(steps, options.releases), world);
      i < j && p.steps[i].id == earlier && p.steps[i].completed
  {
    hide RunFrom, Recovered, GoodPlan, ComputedSteps, Belongs, Phase;
    EachStepRan(steps, k, options.builds, options.releases, world, j);
    var p := RunFrom(steps, k, options.builds, Recovered(steps, options.releases), world);
    var standing := Standing(steps, p.steps, j);
    GoodIsPrefix(standing, j);
    ComputedExactlyWhen(inventory, options, earlier);
    ComputedInPhases(inventory, options);
    i :| 0 <= i < |steps| && Ids(steps)[i] == earlier;
    assert Ids(steps)[j] == steps[j].id;
    assert standing[i].id == Ids(standing)[i] == earlier;
    assert standing[i] == p.steps[i];
  }

  // ---- What is refused, and what every run then has ----

  /** Exactly which inputs are refused, and how. */
  lemma RefusedExactlyWhen(inventory: Inventory, options: Options)
    ensures
      var named := options.builds.Keys + options.releases.Keys + options.environmentFiles;
      var known := forall c :: c in named ==> c in inventory.components;
      var covered := forall c :: c in inventory.components ==> c in options.builds || c in options.releases;
      var declared := forall d :: d in options.dataMigrations ==> d in inventory.databases;
      Refusal(inventory, options) ==
        if !known then Some(ComponentUnknown)
        else if !covered then Some(ComponentUnbuilt)
        else if !declared then Some(DatabaseUnknown)
        else None
  {
    var unbuilt := Declared(inventory) - options.builds.Keys - options.releases.Keys;
    if forall c :: c in inventory.components ==> c in options.builds || c in options.releases {
      assert unbuilt == {};
    } else {
      var c :| c in inventory.components && c !in options.builds && c !in options.releases;
      assert c in unbuilt;
    }
    var named := options.builds.Keys + options.releases.Keys + options.environmentFiles;
    if c :| c in named && c !in inventory.components {
      assert c !in Declared(inventory);
    }
  }

  /** Which plan a run works on: the one on file, when it is of these steps, or a fresh one; any other is stale. */
  lemma LoadedExactlyWhen(file: Option<seq<PlanStep>>, computed: seq<StepId>, restart: bool)
    ensures
      var loaded := Loaded(file, computed, restart);
      if !restart && file.Some? then
        var same := |file.value| == |computed| && forall i :: 0 <= i < |computed| ==> file.value[i].id == computed[i];
        loaded == if same then Ok(file.value) else Err(PlanStale)
      else
        && loaded.Ok? && |loaded.value| == |computed|
        && forall i :: 0 <= i < |computed| ==> loaded.value[i] == PlanStep(computed[i], false, None, None)
  {
    if file.Some? && |file.value| == |computed| && forall i :: 0 <= i < |computed| ==> file.value[i].id == computed[i] {
      assert Ids(file.value) == computed;
    }
    if file.Some? && Ids(file.value) == computed {
      assert |file.value| == |computed|;
      assert forall i :: 0 <= i < |computed| ==> file.value[i].id == Ids(file.value)[i];
    }
  }

  lemma {:induction false} RanExactlyWhen(
    steps: seq<PlanStep>, i: nat, builds: map<string, string>, releases: map<string, string>, world: World)
    requires i <= |steps|
    ensures
      var p := RunFrom(steps, i, builds, releases, world);
      p.steps[..i] == steps[..i] && (p.ran == [] <==> p.steps == steps)
    decreases |steps| - i
  {
    hide RunStep, Released;
    if i < |steps| && steps[i].completed {
      RanExactlyWhen(steps, i + 1, builds, releases, world);
      var p := RunFrom(steps, i, builds, releases, world);
      assert p.steps[..i] == p.steps[..i + 1][..i] == steps[..i + 1][..i];
    } else if i < |steps| {
      var attempt := RunStep(steps[i].id, builds, releases, world);
      if attempt.Succeeded? {
        var next := steps[i := Completed(steps[i], attempt.detail, world)];
        RanExactlyWhen(next, i + 1, builds, Released(releases, steps[i].id, attempt.detail), world);
        var p := RunFrom(steps, i, builds, releases, world);
        assert p.steps[..i] == p.steps[..i + 1][..i] == next[..i + 1][..i] == steps[..i];
        assert p.steps[i] == p.steps[..i + 1][i] == next[..i + 1][i] == next[i];
      }
    }
  }

  /**
   * The file after a run: the run's plan when a step completed in it or an error was recorded, and what
   * was there before when there was nothing left to run, or the first step to run raised what is not
   * recorded.
   */
  lemma FileHoldsExactly(
    file: Option<seq<PlanStep>>, steps: seq<PlanStep>, builds: map<string, string>, releases: map<string, string>,
    world: World)
    ensures
      var p := RunFrom(steps, 0, builds, releases, world);
      FileAfter(file, steps, p) ==
        if p.ran != [] || (p.ending.Some? && p.ending != Some(Crashed)) then Some(p.steps) else file
  {
    RanExactlyWhen(steps, 0, builds, releases, world);
  }

  /** A migration that is not refused has a runner for every step. */
  lemma AcceptedStepsHaveRunners(inventory: Inventory, options: Options, id: StepId)
    requires Refusal(inventory, options).None? && id in ComputedSteps(inventory, options)
    ensures id in RunnerIds(inventory, options)
  {
    hide ComputedSteps, RunnerIds;
    EveryStepHasARunner(inventory, options);
  }

  /** Every build a run makes, and one it stops at, is of the git ref its component was given. */
  lemma BuildsGetTheirRefs(
    inventory: Inventory, options: Options, steps: seq<PlanStep>, k: nat, world: World, j: nat, c: string)
    requires Refusal(inventory, options).None?
    requires GoodPlan(steps, k) && Ids(steps) == ComputedSteps(inventory, options)
    requires k <= j < |steps| && steps[j].id == Build(c)
    requires j <= RunFrom(steps, k, options.builds, Recovered(steps, options.releases), world).reached
    ensures c in options.builds
    ensures
      var p := RunFrom(steps, k, options.builds, Recovered(steps, options.releases), world);
      var answer := world.answer(Build(c), Some(options.builds[c]));
      && (j < p.reached ==> answer.Done? && answer.detail.release.Some? && p.steps[j].detail == Some(answer.detail))
      && (j == p.reached ==>
            p.ending == Some(if answer.Done? && answer.detail.release.None? then ReleaseMissing else AttemptOf(answer)))
  {
    hide RunFrom, Recovered, GoodPlan, ComputedSteps;
    assert Ids(steps)[j] == Build(c);
    BuildsOf(inventory, options, c);
    RefusedExactlyWhen(inventory, options);
    EachStepRan(steps, k, options.builds, options.releases, world, j);
  }

  /** What a step is asked for: the git ref to build, the release to deploy, or nothing. */
  ghost predicate AskedFor(steps: seq<PlanStep>, j: nat, options: Options, argument: Option<string>)
    requires j < |steps|
  {
    match steps[j].id
    case Build(c) => c in options.builds && argument == Some(options.builds[c])
    case Deploy(c) => argument.Some? && IsReleaseOf(steps, j, options.releases, c, argument.value)
    case _ => argument.None?
  }

  /**
   * How a run that is not refused ends, from what the step it stopped at was answered: it pauses
   * exactly when that step pauses, it is an error when the step fails or a build gives no release,
   * and anything else the step raises passes through.
   */
  lemma RunStopsAsAnswered(inventory: Inventory, options: Options, steps: seq<PlanStep>, k: nat, world: World)
    returns (argument: Option<string>)
    requires Refusal(inventory, options).None?
    requires Distinct(inventory.components) && Distinct(options.dataMigrations)
    requires GoodPlan(steps, k) && Ids(steps) == ComputedSteps(inventory, options)
    requires RunFrom(steps, k, options.builds, Recovered(steps, options.releases), world).reached < |steps|
    ensures
      var p := RunFrom(steps, k, options.builds, Recovered(steps, options.releases), world);
      var answer := world.answer(steps[p.reached].id, argument);
      && AskedFor(p.steps, p.reached, options, argument) && p.ending.Some?
      && (p.ending == Some(Paused) <==> answer.Pauses?)
      && (p.ending == Some(Errored) <==> answer.Fails?)
      && (p.ending == Some(Crashed) <==> answer.Raises?)
      && (p.ending == Some(ReleaseMissing) <==>
            answer.Done? && steps[p.reached].id.Build? && answer.detail.release.None?)
  {
    hide RunFrom, Recovered, GoodPlan, ComputedSteps, Refusal;
    RunKeepsThePlan(steps, k, options.builds, options.releases, world);
    var p := RunFrom(steps, k, options.builds, Recovered(steps, options.releases), world);
    var j := p.reached;
    EachStepRan(steps, k, options.builds, options.releases, world, j);
    assert p.steps[j].id == Ids(p.steps)[j] == Ids(steps)[j] == steps[j].id;
    argument := None;
    if steps[j].id.Build? {
      var c := steps[j].id.component;
      BuildsGetTheirRefs(inventory, options, steps, k, world, j, c);
      argument := Some(options.builds[c]);
    } else if steps[j].id.Deploy? {
      var release := DeploysGetTheirReleases(inventory, options, steps, k, world, j, steps[j].id.component);
      argument := Some(release);
    }
  }

  // ---- Which release a deployment gets ----

  lemma {:induction false} PinnedRecovers(steps: seq<PlanStep>, pinned: map<string, string>, c: string)
    requires c in pinned && Build(c) !in Ids(steps)
    ensures c in Recovered(steps, pinned) && Recovered(steps, pinned)[c] == pinned[c]
  {
    if steps != [] {
      var shorter := steps[..|steps| - 1];
      assert Ids(steps) == Ids(shorter) + [steps[|steps| - 1].id];
      PinnedRecovers(shorter, pinned, c);
    }
  }

  lemma {:induction false} BuiltRecovers(steps: seq<PlanStep>, pinned: map<string, string>, c: string, i: nat)
    requires Distinct(Ids(steps)) && BuildsRecorded(steps) && i < |steps|
    requires steps[i].completed && steps[i].id == Build(c)
    ensures c in Recovered(steps, pinned) && Some(Recovered(steps, pinned)[c]) == steps[i].detail.value.release
  {
    var n := |steps| - 1;
    var shorter := steps[..n];
    assert Ids(steps) == Ids(shorter) + [steps[n].id];
    if i < n {
      assert Ids(steps)[i] != Ids(steps)[n];
      assert forall a, b :: 0 <= a < b < n ==> Ids(shorter)[a] == Ids(steps)[a] && Ids(shorter)[b] == Ids(steps)[b];
      BuiltRecovers(shorter, pinned, c, i);
    }
  }

  /** The release of a component a plan holds: the pinned one, or the one its completed build recorded. */
  ghost predicate IsReleaseOf(steps: seq<PlanStep>, j: nat, pinned: map<string, string>, c: string, release: string) {
    if c in pinned then release == pinned[c]
    else
      exists i ::
        && 0 <= i < j <= |steps| && steps[i].id == Build(c) && steps[i].completed
        && steps[i].detail.Some? && steps[i].detail.value.release == Some(release)
  }

  lemma ReleaseAt(steps: seq<PlanStep>, j: nat, pinned: map<string, string>, c: string)
    requires GoodPlan(steps, j) && j < |steps| && steps[j].id == Deploy(c)
    requires Distinct(Ids(steps)) && BuildsBeforeDeploys(Ids(steps), pinned)
    requires c in pinned ==> Build(c) !in Ids(steps)
    ensures c in Recovered(steps, pinned) && IsReleaseOf(steps, j, pinned, c, Recovered(steps, pinned)[c])
  {
    if c in pinned {
      PinnedRecovers(steps, pinned, c);
    } else {
      assert Ids(steps)[j] == Deploy(c);
      var i :| 0 <= i < j && Ids(steps)[..j][i] == Build(c);
      assert steps[i].id == Ids(steps)[i] == Build(c);
      BuiltRecovers(steps, pinned, c, i);
    }
  }

  /**
   * Every deployment a run makes, fresh or resumed, is of the pinned release, or of the one the
   * component's build recorded earlier in the plan; so is one the run stops at.
   */
  lemma DeploysGetTheirReleases(
    inventory: Inventory, options: Options, steps: seq<PlanStep>, k: nat, world: World, j: nat, c: string)
    returns (release: string)
    requires Distinct(inventory.components) && Distinct(options.dataMigrations)
    requires GoodPlan(steps, k) && Ids(steps) == ComputedSteps(inventory, options)
    requires k <= j < |steps| && steps[j].id == Deploy(c)
    requires j <= RunFrom(steps, k, options.builds, Recovered(steps, options.releases), world).reached
    ensures
      var p := RunFrom(steps, k, options.builds, Recovered(steps, options.releases), world);
      var attempt := AttemptOf(world.answer(Deploy(c), Some(release)));
      && IsReleaseOf(p.steps, j, options.releases, c, release)
      && (j < p.reached ==> attempt.Succeeded? && p.steps[j].detail == Some(attempt.detail))
      && (j == p.reached ==> p.ending == Some(attempt))
  {
    hide RunFrom, Recovered, GoodPlan, ComputedSteps, BuildsBeforeDeploys;
    EachStepRan(steps, k, options.builds, options.releases, world, j);
    var p := RunFrom(steps, k, options.builds, Recovered(steps, options.releases), world);
    var standing := Standing(steps, p.steps, j);
    ComputedOnce(inventory, options);
    ComputedBuildFirst(inventory, options);
    BuildsOf(inventory, options, c);
    ReleaseAt(standing, j, options.releases, c);
    release := Recovered(standing, options.releases)[c];
    if c !in options.releases {
      var i :| 0 <= i < j && standing[i].id == Build(c) && standing[i].completed
        && standing[i].detail.Some? && standing[i].detail.value.release == Some(release);
      assert p.steps[i] == standing[i];
    }
  }

  // ---- What the rollback recipe reads ----

  /** Every completed step says when it completed and what it reported. */
  ghost predicate AllRecorded(steps: seq<PlanStep>) {
    forall i :: 0 <= i < |steps| && steps[i].completed ==> steps[i].completedAt.Some? && steps[i].detail.Some?
  }

  /** The answers measured before the switch: the detail of the first such step that has one. */
  function PreviousAnswers(steps: seq<PlanStep>): Option<Detail> {
    if steps == [] then None
    else if steps[0].id.TtlLower? && steps[0].detail.Some? then steps[0].detail
    else PreviousAnswers(steps[1..])
  }

  /** When the DNS was seen to be switched. */
  function SwitchedAt(steps: seq<PlanStep>): Option<int> {
    if steps == [] then None
    else if steps[0].id.DnsVerify? && steps[0].completedAt.Some? then steps[0].completedAt
    else SwitchedAt(steps[1..])
  }

  lemma {:induction false} PreviousAnswersAre(steps: seq<PlanStep>, t: nat)
    requires t < |steps| && steps[t].id.TtlLower? && steps[t].detail.Some?
    requires forall i :: 0 <= i < t ==> !steps[i].id.TtlLower?
    ensures PreviousAnswers(steps) == steps[t].detail
  {
    if t > 0 {
      PreviousAnswersAre(steps[1..], t - 1);
    }
  }

  lemma {:induction false} SwitchedAtIs(steps: seq<PlanStep>, d: nat)
    requires d < |steps| && steps[d].id.DnsVerify? && steps[d].completedAt.Some?
    requires forall i :: 0 <= i < d ==> !steps[i].id.DnsVerify?
    ensures SwitchedAt(steps) == steps[d].completedAt
  {
    if d > 0 {
      SwitchedAtIs(steps[1..], d - 1);
    }
  }

  /** Where the computed steps have those the recipe needs. */
  lemma RollbackIsLast(inventory: Inventory, options: Options, k: nat)
    requires Distinct(inventory.components) && Distinct(options.dataMigrations)
    requires k < |ComputedSteps(inventory, options)| && ComputedSteps(inventory, options)[k] == RollbackWindow
    ensures
      var ids := ComputedSteps(inventory, options);
      && k == |ids| - 1 && |ids| >= 11 && ids[2] == TtlLower && ids[k - 5] == DnsVerify
      && (forall i :: 0 <= i < |ids| && i != 2 ==> ids[i] != TtlLower)
      && (forall i :: 0 <= i < |ids| && i != k - 5 ==> ids[i] != DnsVerify)
  {
    var ids := ComputedSteps(inventory, options);
    var opening, components := OpeningSteps(inventory, options), ComponentSteps(inventory.components, options.releases);
    ComputedOnce(inventory, options);
    ComponentStepsHold(inventory.components, options.releases, RollbackWindow);
    if inventory.hasDomains {
      assert ids[|ids| - 1] == ClosingSteps(inventory)[7] && ids[|ids| - 6] == ClosingSteps(inventory)[2];
      assert ids[2] == opening[2];
    }
  }

  /**
   * When a run comes to record the rollback recipe, fresh or resumed, the answers measured before
   * the switch and the time of the switch are those the completed steps recorded: it never falls
   * back to nothing, or to its own clock.
   */
  lemma RollbackFindsBoth(
    inventory: Inventory, options: Options, steps: seq<PlanStep>, k: nat, world: World, j: nat)
    returns (t: nat, d: nat)
    requires Distinct(inventory.components) && Distinct(options.dataMigrations)
    requires GoodPlan(steps, k) && AllRecorded(steps) && Ids(steps) == ComputedSteps(inventory, options)
    requires k <= j < |steps| && steps[j].id == RollbackWindow
    requires j <= RunFrom(steps, k, options.builds, Recovered(steps, options.releases), world).reached
    ensures
      var p := RunFrom(steps, k, options.builds, Recovered(steps, options.releases), world);
      var standing := Standing(steps, p.steps, j);
      && t < d < j && steps[t].id == TtlLower && steps[d].id == DnsVerify
      && PreviousAnswers(standing) == p.steps[t].detail && p.steps[t].detail.Some?
      && SwitchedAt(standing) == p.steps[d].completedAt && p.steps[d].completedAt.Some?
  {
    hide RunFrom, Recovered, ComputedSteps, GoodPlan, PreviousAnswers, SwitchedAt;
    var p := RunFrom(steps, k, options.builds, Recovered(steps, options.releases), world);
    EachStepRan(steps, k, options.builds, options.releases, world, j);
    var standing := Standing(steps, p.steps, j);
    StandingRecorded(steps, k, options.builds, options.releases, world, j);
    assert Ids(steps)[j] == RollbackWindow;
    RollbackIsLast(inventory, options, j);
    t, d := 2, j - 5;
    forall i | 0 <= i < |standing|
      ensures standing[i].id == ComputedSteps(inventory, options)[i]
    {
      assert Ids(standing)[i] == Ids(steps)[i];
    }
    GoodIsPrefix(standing, j);
    PreviousAnswersAre(standing, t);
    SwitchedAtIs(standing, d);
    assert standing[t] == p.steps[t] && standing[d] == p.steps[d];
  }

  lemma RecordedNext(steps: seq<PlanStep>, k: nat, detail: Detail, world: World)
    requires AllRecorded(steps) && k < |steps|
    ensures AllRecorded(steps[k := Completed(steps[k], detail, world)])
  {
  }

  lemma {:induction false} RunsStayRecorded(
    steps: seq<PlanStep>, k: nat, builds: map<string, string>, pinned: map<string, string>, world: World)
    requires GoodPlan(steps, k) && AllRecorded(steps)
    ensures AllRecorded(RunFrom(steps, k, builds, Recovered(steps, pinned), world).steps)
    decreases |steps| - k
  {
    hide RunFrom, RunStep, Recovered, GoodPlan, Completed, AllRecorded;
    GoodIsPrefix(steps, k);
    if k == |steps| {
      RunEnds(steps, k, builds, Recovered(steps, pinned), world);
    } else {
      var attempt, next := RunNext(steps, k, builds, pinned, world);
      if attempt.Succeeded? {
        RecordedNext(steps, k, attempt.detail, world);
        RunsStayRecorded(next, k + 1, builds, pinned, world);
      }
    }
  }

  lemma StandingRecorded(
    steps: seq<PlanStep>, k: nat, builds: map<string, string>, pinned: map<string, string>, world: World, j: nat)
    requires GoodPlan(steps, k) && AllRecorded(steps) && k <= j <= |steps|
    ensures AllRecorded(Standing(steps, RunFrom(steps, k, builds, Recovered(steps, pinned), world).steps, j))
  {
    hide RunFrom, Recovered, GoodPlan;
    RunsStayRecorded(steps, k, builds, pinned, world);
  }

  // ---- Resuming ----

  /** What each step answers whenever it succeeds. */
  type Answers = (StepId, Option<string>) -> Detail

  ghost predicate Agrees(world: World, answers: Answers) {
    forall id, argument :: world.answer(id, argument).Done? ==>
      world.answer(id, argument).detail == answers(id, argument)
  }

  /** The world in which every step succeeds at once. */
  function Perfect(answers: Answers): World {
    World((id, argument) => Done(answers(id, argument)), id => 0)
  }

  /** The plan without the times its steps were completed at. */
  function Untimed(steps: seq<PlanStep>): (untimed: seq<PlanStep>)
    ensures |untimed| == |steps| && forall i :: 0 <= i < |steps| ==> untimed[i] == steps[i].(completedAt := None)
  {
    seq(|steps|, i requires 0 <= i < |steps| => steps[i].(completedAt := None))
  }

  lemma {:induction false} UntimedRecover(a: seq<PlanStep>, b: seq<PlanStep>, pinned: map<string, string>)
    requires Untimed(a) == Untimed(b)
    ensures Recovered(a, pinned) == Recovered(b, pinned)
  {
    if a != [] {
      var n := |a| - 1;
      assert |a| == |Untimed(a)| == |Untimed(b)| == |b|;
      assert a[n].(completedAt := None) == Untimed(a)[n] == Untimed(b)[n] == b[n].(completedAt := None);
      forall i | 0 <= i < n
        ensures Untimed(a[..n])[i] == Untimed(b[..n])[i]
      {
        assert Untimed(a)[i] == Untimed(b)[i];
      }
      assert Untimed(a[..n]) == Untimed(b[..n]);
      UntimedRecover(a[..n], b[..n], pinned);
    }
  }

  /** In a world that agrees with the answers, a run only ever records the answers. */
  ghost predicate Answered(
    steps: seq<PlanStep>, k: nat, builds: map<string, string>, pinned: map<string, string>, answers: Answers)
  {
    && GoodPlan(steps, k)
    && forall i :: 0 <= i < k ==>
      var attempt := RunStep(steps[i].id, builds, Recovered(steps[..i], pinned), Perfect(answers));
      attempt.Succeeded? && steps[i].detail == Some(attempt.detail)
  }

  lemma PerfectStep(
    id: StepId, builds: map<string, string>, releases: map<string, string>, world: World, answers: Answers)
    requires Agrees(world, answers) && RunStep(id, builds, releases, world).Succeeded?
    ensures RunStep(id, builds, releases, Perfect(answers)) == RunStep(id, builds, releases, world)
  {
  }

  lemma AnsweredNext(
    steps: seq<PlanStep>, k: nat, builds: map<string, string>, pinned: map<string, string>, answers: Answers,
    attempt: Attempt, next: seq<PlanStep>)
    requires Answered(steps, k, builds, pinned, answers) && k < |steps| == |next|
    requires attempt == RunStep(steps[k].id, builds, Recovered(steps, pinned), Perfect(answers)) && attempt.Succeeded?
    requires next[k].id == steps[k].id && next[k].detail == Some(attempt.detail)
    requires GoodPlan(next, k + 1) && forall i :: 0 <= i <= k ==> next[..i] == steps[..i]
    ensures Answered(next, k + 1, builds, pinned, answers)
  {
    OnlyCompletedRecover(steps, k, pinned);
    hide RunStep, Recovered, GoodPlan, Perfect;
    forall i | 0 <= i < k + 1
      ensures
        var attempted := RunStep(next[i].id, builds, Recovered(next[..i], pinned), Perfect(answers));
        attempted.Succeeded? && next[i].detail == Some(attempted.detail)
    {
      assert next[..i] == steps[..i];
      if i < k {
        assert next[i] == next[..k][i] == steps[..k][i] == steps[i];
      }
    }
  }

  lemma {:induction false} RunsRecordAnswers(
    steps: seq<PlanStep>, k: nat, builds: map<string, string>, pinned: map<string, string>,
    world: World, answers: Answers)
    requires Agrees(world, answers) && Answered(steps, k, builds, pinned, answers)
    ensures
      var p := RunFrom(steps, k, builds, Recovered(steps, pinned), world);
      Answered(p.steps, p.reached, builds, pinned, answers)
    decreases |steps| - k
  {
    if k < |steps| {
      var attempt, next := RunNext(steps, k, builds, pinned, world);
      if attempt.Succeeded? {
        PerfectStep(steps[k].id, builds, Recovered(steps, pinned), world, answers);
        hide RunFrom, RunStep, Recovered, GoodPlan, Answered;
        AnsweredNext(steps, k, builds, pinned, answers, attempt, next);
        RunsRecordAnswers(next, k + 1, builds, pinned, world, answers);
      }
    }
  }

  /** Plans that record the answers say the same of the steps both have completed. */
  lemma {:induction false} PrefixesAgree(
    a: seq<PlanStep>, b: seq<PlanStep>, j: nat, k: nat, builds: map<string, string>, pinned: map<string, string>,
    answers: Answers)
    requires Answered(a, k, builds, pinned, answers) && Answered(b, |b|, builds, pinned, answers)
    requires Ids(a) == Ids(b) && j <= k <= |a| == |b|
    ensures Untimed(a[..j]) == Untimed(b[..j])
  {
    if j > 0 {
      PrefixesAgree(a, b, j - 1, k, builds, pinned, answers);
      UntimedRecover(a[..j - 1], b[..j - 1], pinned);
      assert a[j - 1].id == Ids(a)[j - 1] == Ids(b)[j - 1] == b[j - 1].id;
      forall i | 0 <= i < j
        ensures Untimed(a[..j])[i] == Untimed(b[..j])[i]
      {
        if i < j - 1 {
          assert Untimed(a[..j - 1])[i] == Untimed(b[..j - 1])[i];
        }
      }
    }
  }

  /** The plan file after a sequence of runs with the same inputs, from no file at all. */
  function AfterRuns(
    computed: seq<StepId>, builds: map<string, string>, pinned: map<string, string>, worlds: seq<World>)
    : Option<seq<PlanStep>>
  {
    if worlds == [] then None
    else
      var file := AfterRuns(computed, builds, pinned, worlds[..|worlds| - 1]);
      var loaded := if file.None? then Fresh(computed) else file.value;
      FileAfter(file, loaded, RunFrom(loaded, 0, builds, Recovered(loaded, pinned), worlds[|worlds| - 1]))
  }

  /** The last of the runs, from the plan the runs before it left. */
  function LastRun(
    computed: seq<StepId>, builds: map<string, string>, pinned: map<string, string>, worlds: seq<World>)
    : (p: Progress)
    requires worlds != []
    ensures p.ending.None? <==> p.reached == |p.steps|
  {
    var file := AfterRuns(computed, builds, pinned, worlds[..|worlds| - 1]);
    var loaded := if file.None? then Fresh(computed) else file.value;
    RunFrom(loaded, 0, builds, Recovered(loaded, pinned), worlds[|worlds| - 1])
  }

  lemma {:induction false} FreshRecovers(computed: seq<StepId>, pinned: map<string, string>)
    ensures GoodPlan(Fresh(computed), 0) && Recovered(Fresh(computed), pinned) == pinned
  {
    OnlyCompletedRecover(Fresh(computed), 0, pinned);
  }

  /**
   * After any sequence of interrupted and resumed runs the plan file, if there is one, lists the
   * computed steps, exactly the first `k` of them are completed, and their builds hold releases.
   */
  lemma {:induction false} CompletedStepsAreAPrefix(
    computed: seq<StepId>, builds: map<string, string>, pinned: map<string, string>, worlds: seq<World>)
    returns (k: nat)
    ensures
      var file := AfterRuns(computed, builds, pinned, worlds);
      file.Some? ==> Ids(file.value) == computed && GoodPlan(file.value, k)
  {
    if worlds == [] {
      k := 0;
    } else {
      var before := worlds[..|worlds| - 1];
      k := CompletedStepsAreAPrefix(computed, builds, pinned, before);
      var file := AfterRuns(computed, builds, pinned, before);
      var loaded := if file.None? then Fresh(computed) else file.value;
      if file.None? {
        FreshRecovers(computed, pinned);
        assert Ids(loaded) == computed;
        k := 0;
      }
      SkipCompleted(loaded, 0, k, builds, Recovered(loaded, pinned), worlds[|worlds| - 1]);
      RunKeepsThePlan(loaded, k, builds, pinned, worlds[|worlds| - 1]);
      var p := LastRun(computed, builds, pinned, worlds);
      if FileAfter(file, loaded, p) != file {
        k := p.reached;
      }
    }
  }

  /** So after any sequence of runs every completed step of the file says when and what. */
  lemma {:induction false} FileIsRecorded(
    computed: seq<StepId>, builds: map<string, string>, pinned: map<string, string>, worlds: seq<World>)
    ensures
      var file := AfterRuns(computed, builds, pinned, worlds);
      file.Some? ==> AllRecorded(file.value)
  {
    if worlds != [] {
      var before := worlds[..|worlds| - 1];
      FileIsRecorded(computed, builds, pinned, before);
      var k := CompletedStepsAreAPrefix(computed, builds, pinned, before);
      var file := AfterRuns(computed, builds, pinned, before);
      var loaded := if file.None? then Fresh(computed) else file.value;
      if file.None? {
        FreshRecovers(computed, pinned);
        k := 0;
      }
      hide RunFrom, Recovered, GoodPlan;
      GoodIsPrefix(loaded, k);
      SkipCompleted(loaded, 0, k, builds, Recovered(loaded, pinned), worlds[|worlds| - 1]);
      RunsStayRecorded(loaded, k, builds, pinned, worlds[|worlds| - 1]);
    }
  }

  lemma {:induction false} RunsStayAnswered(
    computed: seq<StepId>, builds: map<string, string>, pinned: map<string, string>, worlds: seq<World>,
    answers: Answers)
    returns (k: nat)
    requires forall w :: w in worlds ==> Agrees(w, answers)
    ensures
      var file := AfterRuns(computed, builds, pinned, worlds);
      file.Some? ==> Ids(file.value) == computed && Answered(file.value, k, builds, pinned, answers)
    ensures worlds != [] ==>
      var p := LastRun(computed, builds, pinned, worlds);
      && Ids(p.steps) == computed && Answered(p.steps, p.reached, builds, pinned, answers)
      && p.releases == Recovered(p.steps, pinned)
  {
    if worlds == [] {
      k := 0;
    } else {
      var before, world := worlds[..|worlds| - 1], worlds[|worlds| - 1];
      k := RunsStayAnswered(computed, builds, pinned, before, answers);
      var file := AfterRuns(computed, builds, pinned, before);
      var loaded := if file.None? then Fresh(computed) else file.value;
      if file.None? {
        FreshRecovers(computed, pinned);
        assert Ids(loaded) == computed;
        k := 0;
      }
      assert world in worlds;
      SkipCompleted(loaded, 0, k, builds, Recovered(loaded, pinned), world);
      RunKeepsThePlan(loaded, k, builds, pinned, world);
      RunsRecordAnswers(loaded, k, builds, pinned, world, answers);
      var p := LastRun(computed, builds, pinned, worlds);
      if FileAfter(file, loaded, p) != file {
        k := p.reached;
      }
    }
  }

  /** From a fresh plan, the perfect world gets at least as far as any answered plan has. */
  lemma {:induction false} PerfectGetsAsFar(
    steps: seq<PlanStep>, k: nat, whole: seq<PlanStep>, builds: map<string, string>, pinned: map<string, string>,
    answers: Answers)
    requires Answered(whole, |whole|, builds, pinned, answers)
    requires Answered(steps, k, builds, pinned, answers) && Ids(steps) == Ids(whole)
    ensures RunFrom(steps, k, builds, Recovered(steps, pinned), Perfect(answers)).ending.None?
    decreases |steps| - k
  {
    if k < |steps| {
      hide RunFrom, RunStep, Recovered, GoodPlan, Perfect;
      var attempt, next := RunNext(steps, k, builds, pinned, Perfect(answers));
      GoodIsPrefix(steps, k);
      OnlyCompletedRecover(steps, k, pinned);
      PrefixesAgree(steps, whole, k, k, builds, pinned, answers);
      UntimedRecover(steps[..k], whole[..k], pinned);
      assert steps[k].id == Ids(steps)[k] == Ids(whole)[k] == whole[k].id;
      assert attempt.Succeeded?;
      AnsweredNext(steps, k, builds, pinned, answers, attempt, next);
      hide Answered;
      PerfectGetsAsFar(next, k + 1, whole, builds, pinned, answers);
    }
  }

  lemma ResumedEqualsWhole(
    computed: seq<StepId>, builds: map<string, string>, pinned: map<string, string>, worlds: seq<World>,
    answers: Answers)
    requires computed != [] && worlds != [] && forall w :: w in worlds ==> Agrees(w, answers)
    requires LastRun(computed, builds, pinned, worlds).ending.None?
    ensures
      var resumed := LastRun(computed, builds, pinned, worlds);
      var whole := RunFrom(Fresh(computed), 0, builds, pinned, Perfect(answers));
      && whole.ending.None?
      && Untimed(resumed.steps) == Untimed(whole.steps) && resumed.releases == whole.releases
      && AfterRuns(computed, builds, pinned, worlds) == Some(resumed.steps)
  {
    hide RunFrom, Recovered, LastRun, AfterRuns, RunStep;
    var k := RunsStayAnswered(computed, builds, pinned, worlds, answers);
    var resumed := LastRun(computed, builds, pinned, worlds);
    var first := Fresh(computed);
    FreshRecovers(computed, pinned);
    assert Ids(first) == computed;
    PerfectGetsAsFar(first, 0, resumed.steps, builds, pinned, answers);
    RunKeepsThePlan(first, 0, builds, pinned, Perfect(answers));
    RunsRecordAnswers(first, 0, builds, pinned, Perfect(answers), answers);
    var whole := RunFrom(first, 0, builds, pinned, Perfect(answers));
    hide Answered, GoodPlan;
    PrefixesAgree(resumed.steps, whole.steps, |computed|, |computed|, builds, pinned, answers);
    assert resumed.steps[..|computed|] == resumed.steps && whole.steps[..|computed|] == whole.steps;
    UntimedRecover(resumed.steps, whole.steps, pinned);
    FileHoldsTheEnd(computed, builds, pinned, worlds);
  }

  /**
   * A sequence of runs, interrupted however often, that ends "ok" leaves the plan and the releases
   * that one uninterrupted run with the same step results leaves, but for the completion times.
   */
  lemma ResumedEqualsUninterrupted(
    inventory: Inventory, options: Options, worlds: seq<World>, answers: Answers)
    requires worlds != [] && forall w :: w in worlds ==> Agrees(w, answers)
    requires LastRun(ComputedSteps(inventory, options), options.builds, options.releases, worlds).ending.None?
    ensures
      var computed := ComputedSteps(inventory, options);
      var resumed := LastRun(computed, options.builds, options.releases, worlds);
      var whole := RunFrom(Fresh(computed), 0, options.builds, options.releases, Perfect(answers));
      && whole.ending.None?
      && Untimed(resumed.steps) == Untimed(whole.steps) && resumed.releases == whole.releases
      && AfterRuns(computed, options.builds, options.releases, worlds) == Some(resumed.steps)
  {
    assert ComputedSteps(inventory, options)[0] == Baseline;
    hide RunFrom, LastRun, AfterRuns;
    ResumedEqualsWhole(ComputedSteps(inventory, options), options.builds, options.releases, worlds, answers);
  }

  lemma FileHoldsTheEnd(
    computed: seq<StepId>, builds: map<string, string>, pinned: map<string, string>, worlds: seq<World>)
    requires worlds != [] && computed != []
    requires LastRun(computed, builds, pinned, worlds).ending.None?
    ensures AfterRuns(computed, builds, pinned, worlds) == Some(LastRun(computed, builds, pinned, worlds).steps)
  {
    var file := AfterRuns(computed, builds, pinned, worlds[..|worlds| - 1]);
    if file.None? {
      FreshRecovers(computed, pinned);
      RunKeepsThePlan(Fresh(computed), 0, builds, pinned, worlds[|worlds| - 1]);
      var p := LastRun(computed, builds, pinned, worlds);
      assert p.steps[0].completed && !Fresh(computed)[0].completed;
    }
  }
}
