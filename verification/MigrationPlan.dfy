/**
 * The resumable migration's plan: which steps are computed, which runners exist, and what one run
 * of the steps does (sdk/src/cloudfall/migrate.py).
 */
module MigrationPlan {
  import opened Results

  datatype StepId =
    | Baseline | Services | TtlLower
    | Data(database: string)
    | Build(component: string) | Deploy(component: string)
    | DomainsHttp | ParallelRun | DnsVerify | DomainsTls
    | Inspect | Audit
    | VerifyRoutes | RollbackWindow

  /** What a step reports; only a `release` entry is read back. */
  datatype Detail = Detail(release: Option<string>, content: string)

  datatype PlanStep = PlanStep(id: StepId, completed: bool, completedAt: Option<int>, detail: Option<Detail>)

  datatype Inventory = Inventory(components: seq<string>, databases: set<string>, hasDomains: bool)

  /** `dataMigrations` are the databases in sorted order. */
  datatype Options = Options(
    builds: map<string, string>,
    releases: map<string, string>,
    environmentFiles: set<string>,
    dataMigrations: seq<string>,
    execute: bool,
    restart: bool)

  predicate Distinct<T(==)>(s: seq<T>) {
    forall i, j :: 0 <= i < j < |s| ==> s[i] != s[j]
  }

  // ---- Computed steps and runners ----

  function DataSteps(databases: seq<string>): (steps: seq<StepId>)
    ensures |steps| == |databases| && forall i :: 0 <= i < |steps| ==> steps[i] == Data(databases[i])
  {
    seq(|databases|, i requires 0 <= i < |databases| => Data(databases[i]))
  }

  function ComponentSteps(components: seq<string>, releases: map<string, string>): seq<StepId> {
    if components == [] then []
    else
      (if components[0] in releases then [Deploy(components[0])] else [Build(components[0]), Deploy(components[0])])
      + ComponentSteps(components[1..], releases)
  }

  function OpeningSteps(inventory: Inventory, options: Options): seq<StepId> {
    [Baseline, Services] + (if inventory.hasDomains then [TtlLower] else []) + DataSteps(options.dataMigrations)
  }

  function ClosingSteps(inventory: Inventory): seq<StepId> {
    (if inventory.hasDomains then [DomainsHttp, ParallelRun, DnsVerify, DomainsTls] else [])
    + [Inspect, Audit]
    + (if inventory.hasDomains then [VerifyRoutes, RollbackWindow] else [])
  }

  function ComputedSteps(inventory: Inventory, options: Options): seq<StepId> {
    OpeningSteps(inventory, options)
    + ComponentSteps(inventory.components, options.releases)
    + ClosingSteps(inventory)
  }

  datatype MigrateError = ComponentUnknown | ComponentUnbuilt | DatabaseUnknown | PlanStale

  function Declared(inventory: Inventory): set<string> {
    set c | c in inventory.components
  }

  /** The refusals before anything runs, in their order. */
  function Refusal(inventory: Inventory, options: Options): Option<MigrateError> {
    if !(options.builds.Keys <= Declared(inventory) && options.releases.Keys <= Declared(inventory)
         && options.environmentFiles <= Declared(inventory)) then Some(ComponentUnknown)
    else if Declared(inventory) - options.builds.Keys - options.releases.Keys != {} then Some(ComponentUnbuilt)
    else if exists d :: d in options.dataMigrations && d !in inventory.databases then Some(DatabaseUnknown)
    else None
  }

  /** The steps `_build_runners` has a runner for, whatever the plan. */
  function RunnerIds(inventory: Inventory, options: Options): set<StepId> {
    {Baseline, Services, TtlLower, ParallelRun, RollbackWindow, DomainsHttp, DnsVerify, DomainsTls, Inspect, Audit,
     VerifyRoutes}
    + (set c | c in inventory.components && c in options.builds :: Build(c))
    + (set c | c in inventory.components :: Deploy(c))
    + (set d | d in options.dataMigrations :: Data(d))
  }

  // ---- One run ----

  /** What the world answers when a step runs; `argument` is the git ref built or the release deployed. */
  datatype Answer = Done(detail: Detail) | Pauses | Fails | Raises

  datatype World = World(answer: (StepId, Option<string>) -> Answer, stamp: StepId -> int)

  /** What one attempt of a step comes to: a build without a release id and a deploy without a release are errors. */
  datatype Attempt = Succeeded(detail: Detail) | Paused | Errored | ReleaseMissing | Crashed

  function AttemptOf(answer: Answer): Attempt {
    match answer
    case Done(detail) => Succeeded(detail)
    case Pauses => Paused
    case Fails => Errored
    case Raises => Crashed
  }

  function RunStep(id: StepId, builds: map<string, string>, releases: map<string, string>, world: World): Attempt {
    match id
    case Build(c) =>
      var answer := world.answer(id, if c in builds then Some(builds[c]) else None);
      if answer.Done? && answer.detail.release.None? then ReleaseMissing else AttemptOf(answer)
    case Deploy(c) =>
      if c in releases then AttemptOf(world.answer(id, Some(releases[c]))) else ReleaseMissing
    case _ => AttemptOf(world.answer(id, None))
  }

  /** A build that succeeded leaves its release for the deployments after it. */
  function Released(releases: map<string, string>, id: StepId, detail: Detail): map<string, string> {
    if id.Build? && detail.release.Some? then releases[id.component := detail.release.value] else releases
  }

  function Recovered(steps: seq<PlanStep>, pinned: map<string, string>): map<string, string> {
    if steps == [] then pinned
    else
      var last := steps[|steps| - 1];
      var before := Recovered(steps[..|steps| - 1], pinned);
      if last.completed && last.detail.Some? then Released(before, last.id, last.detail.value) else before
  }

  function Completed(step: PlanStep, detail: Detail, world: World): PlanStep {
    step.(completed := true, completedAt := Some(world.stamp(step.id)), detail := Some(detail))
  }

  /** What a run leaves: the steps that succeeded in it, in order, and where it stopped and why, if it did. */
  datatype Progress = Progress(
    steps: seq<PlanStep>, releases: map<string, string>, reached: nat, ran: seq<StepId>, ending: Option<Attempt>)

  function RunFrom(
    steps: seq<PlanStep>, i: nat, builds: map<string, string>, releases: map<string, string>, world: World)
    : (p: Progress)
    requires i <= |steps|
    ensures |p.steps| == |steps| && i <= p.reached <= |steps|
    ensures p.ending.None? <==> p.reached == |steps|
    decreases |steps| - i
  {
    if i == |steps| then Progress(steps, releases, i, [], None)
    else if steps[i].completed then RunFrom(steps, i + 1, builds, releases, world)
    else
      var attempt := RunStep(steps[i].id, builds, releases, world);
      if attempt.Succeeded? then
        var rest := RunFrom(steps[i := Completed(steps[i], attempt.detail, world)], i + 1, builds,
                            Released(releases, steps[i].id, attempt.detail), world);
        rest.(ran := [steps[i].id] + rest.ran)
      else Progress(steps, releases, i, [], Some(attempt))
  }

  function Fresh(ids: seq<StepId>): (steps: seq<PlanStep>)
    ensures |steps| == |ids| && forall i :: 0 <= i < |ids| ==> steps[i] == PlanStep(ids[i], false, None, None)
  {
    seq(|ids|, i requires 0 <= i < |ids| => PlanStep(ids[i], false, None, None))
  }

  function Ids(steps: seq<PlanStep>): (ids: seq<StepId>)
    ensures |ids| == |steps| && forall i :: 0 <= i < |ids| ==> ids[i] == steps[i].id
  {
    seq(|steps|, i requires 0 <= i < |steps| => steps[i].id)
  }

  /** The plan a run works on, when its inputs are accepted. */
  function Loaded(file: Option<seq<PlanStep>>, computed: seq<StepId>, restart: bool)
    : Result<seq<PlanStep>, MigrateError>
  {
    if restart || file.None? then Ok(Fresh(computed))
    else if Ids(file.value) != computed then Err(PlanStale)
    else Ok(file.value)
  }

  /**
   * The plan file after a run: written after every completed step and on every recorded error. A
   * runner that raises anything else leaves it as the last completed step did.
   */
  function FileAfter(file: Option<seq<PlanStep>>, loaded: seq<PlanStep>, p: Progress): Option<seq<PlanStep>> {
    if p.steps == loaded && (p.ending.None? || p.ending.value.Crashed?) then file else Some(p.steps)
  }

  // ---- The result ----

  datatype EnvelopeStatus = Preview | Okay | PausedRun | ErrorRun

  datatype Envelope = Envelope(status: EnvelopeStatus, steps: seq<PlanStep>, completed: nat, next: Option<StepId>)

  function CompletedCount(steps: seq<PlanStep>): nat {
    if steps == [] then 0 else CompletedCount(steps[..|steps| - 1]) + (if steps[|steps| - 1].completed then 1 else 0)
  }

  function FirstPending(steps: seq<PlanStep>): Option<StepId> {
    if steps == [] then None
    else if !steps[0].completed then Some(steps[0].id)
    else FirstPending(steps[1..])
  }

  function EnvelopeOf(status: EnvelopeStatus, steps: seq<PlanStep>): Envelope {
    Envelope(status, steps, CompletedCount(steps), FirstPending(steps))
  }
}
