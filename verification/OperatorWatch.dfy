/** The watch loop (sdk/src/cloudfall/operator.py): rounds of passes over one store. */
module OperatorWatch {
  import opened Results
  import opened Clocks
  import opened OperatorModel
  import opened OperatorRuns
  import opened OperatorLoop

  /** What a round reads from outside: the firing alerts, the audit, and the answers of its executions. */
  datatype Round = Round(
    alerts: seq<Alert>, servers: seq<ServerAudit>, executors: ReceiptId -> ExecutorAnswer,
    verifiers: ReceiptId -> Verifier)

  datatype Schedule = Schedule(driftInterval: Option<real>, autonomy: bool, repeats: bool, options: Options)

  // ---- What one round made ----

  datatype Pass = OfAlerts | OfDrift | OfAutonomy

  /**
   * One round: the log before it and after each of its passes, whether a drift pass and an autonomy
   * pass ran, the tick it compared with the due time, the tick after its drift pass, and the pass
   * that raised and its error, if one did.
   */
  datatype Made = Made(
    before: seq<Event>, alerted: seq<Event>, drifted: seq<Event>, after: seq<Event>,
    drift: bool, autonomy: bool, tick: real, due: real, driftedAt: real, raised: Option<Pass>,
    error: Option<OperatorError>)

  /** The log grew by what a watch pass over these alerts proposes. */
  ghost predicate AlertsMade(before: seq<Event>, after: seq<Event>, inventory: Inventory, alerts: seq<Alert>) {
    exists now: int ::
      after == before + SaveEvents(OperatorLoop.Watch(inventory, now, alerts, Blocked(StateAfter(before))).saved)
  }

  /** It grew by what the alerts before some alert come to, and that one's receipt could not be written. */
  ghost predicate AlertsRaised(
    before: seq<Event>, after: seq<Event>, inventory: Inventory, alerts: seq<Alert>, error: OperatorError)
  {
    exists now: int, reached: nat ::
      && reached < |alerts|
      && after == before + SaveEvents(
           OperatorLoop.Watch(inventory, now, alerts[..reached], Blocked(StateAfter(before))).saved)
      && AlertStops(StateAfter(after), inventory, now, alerts[reached], error)
  }

  /** The log grew by what a drift pass over this audit proposes. */
  ghost predicate DriftMade(before: seq<Event>, after: seq<Event>, servers: seq<ServerAudit>, digest: Digest) {
    exists now: int :: after == before + SaveEvents(Drift(now, servers, Blocked(StateAfter(before)), digest))
  }

  /** It grew by what the servers before some server come to, and perhaps that server's services. */
  ghost predicate DriftRaised(
    before: seq<Event>, after: seq<Event>, servers: seq<ServerAudit>, digest: Digest, error: OperatorError)
  {
    exists now: int, reached: nat, stopped: Kind :: reached < |servers| &&
      var blocked := Blocked(StateAfter(before));
      var saved := Drift(now, servers[..reached], blocked, digest);
      && after == before + SaveEvents(
           if stopped.ConvergeServices? then saved
           else AdmitDrift(saved, blocked, now, servers[reached], ConvergeServices, digest))
      && DriftStops(StateAfter(after), now, servers[reached], stopped, digest, error)
  }

  /** An autonomy pass over the store the log comes to, at one reading of the clock, came to its end. */
  ghost predicate AutonomyMade(
    before: seq<Event>, after: seq<Event>, inventory: Inventory, round: Round, options: Options)
  {
    exists made: AutonomyReport, moment: real ::
      Ended(StateAfter(before), StateAfter(after), before, after,
            Given(inventory, moment, round.executors, round.verifiers, options), made)
  }

  ghost predicate AutonomyRaised(
    before: seq<Event>, after: seq<Event>, inventory: Inventory, round: Round, options: Options,
    error: OperatorError)
  {
    exists made: AutonomyReport, moment: real ::
      Stopped(StateAfter(before), StateAfter(after), before, after,
              Given(inventory, moment, round.executors, round.verifiers, options), made, error)
  }

  /** Which passes the schedule asks of a round: alerts always, drift when it is due, autonomy when it is wanted. */
  predicate Scheduled(made: Made, schedule: Schedule) {
    && (made.drift <==> made.raised != Some(OfAlerts) && schedule.driftInterval.Some? && made.tick >= made.due)
    && (made.autonomy <==> made.raised != Some(OfAlerts) && made.raised != Some(OfDrift) && schedule.autonomy)
    && (made.raised == Some(OfDrift) ==> made.drift) && (made.raised == Some(OfAutonomy) ==> made.autonomy)
    && (made.raised.Some? <==> made.error.Some?)
  }

  ghost predicate AlertsAre(made: Made, round: Round, inventory: Inventory) {
    if made.raised == Some(OfAlerts) then
      made.error.Some? && AlertsRaised(made.before, made.alerted, inventory, round.alerts, made.error.value)
    else AlertsMade(made.before, made.alerted, inventory, round.alerts)
  }

  ghost predicate DriftIs(made: Made, round: Round, digest: Digest) {
    if !made.drift then made.drifted == made.alerted
    else if made.raised == Some(OfDrift) then
      made.error.Some? && DriftRaised(made.alerted, made.drifted, round.servers, digest, made.error.value)
    else DriftMade(made.alerted, made.drifted, round.servers, digest)
  }

  ghost predicate AutonomyIs(made: Made, round: Round, inventory: Inventory, options: Options) {
    if !made.autonomy then made.after == made.drifted
    else if made.raised == Some(OfAutonomy) then
      made.error.Some? && AutonomyRaised(made.drifted, made.after, inventory, round, options, made.error.value)
    else AutonomyMade(made.drifted, made.after, inventory, round, options)
  }

  /** The round ran those passes, each over its own input, and nothing else. */
  ghost predicate Ran(made: Made, round: Round, inventory: Inventory, schedule: Schedule, digest: Digest) {
    && Scheduled(made, schedule)
    && AlertsAre(made, round, inventory) && DriftIs(made, round, digest)
    && AutonomyIs(made, round, inventory, schedule.options)
  }

  /**
   * Each round goes on from the one before: its log, and the due time, which a drift pass sets to
   * the interval after its end and nothing else changes. Only the last round can have raised.
   */
  ghost predicate GoesOn(a: Made, b: Made, schedule: Schedule) {
    && b.before == a.after && a.raised.None?
    && a.tick <= b.tick && (a.drift ==> schedule.driftInterval.Some? && a.tick <= a.driftedAt <= b.tick)
    && b.due == if a.drift then a.driftedAt + schedule.driftInterval.value else a.due
  }

  ghost predicate Begins(made: seq<Made>, log: seq<Event>, started: real) {
    made != [] ==> made[0].before == log && made[0].due == started && made[0].due <= made[0].tick
  }

  lemma AlertsMadeAt(
    before: seq<Event>, after: seq<Event>, inventory: Inventory, alerts: seq<Alert>, now: int)
    requires
      after == before + SaveEvents(OperatorLoop.Watch(inventory, now, alerts, Blocked(StateAfter(before))).saved)
    ensures AlertsMade(before, after, inventory, alerts)
  {
  }

  lemma DriftMadeAt(before: seq<Event>, after: seq<Event>, servers: seq<ServerAudit>, digest: Digest, now: int)
    requires after == before + SaveEvents(Drift(now, servers, Blocked(StateAfter(before)), digest))
    ensures DriftMade(before, after, servers, digest)
  {
  }

  // ---- The passes, as the loop makes them ----

  /** The alerts pass of one round. */
  method Alerts(store: ProposalStore, wall: Clock, inventory: Inventory, alerts: seq<Alert>)
    returns (error: Option<OperatorError>)
    requires store.Tracks()
    modifies store, wall
    ensures store.Tracks()
    ensures error.None? ==> AlertsMade(old(store.log), store.log, inventory, alerts)
    ensures error.Some? ==> AlertsRaised(old(store.log), store.log, inventory, alerts, error.value)
  {
    ghost var before := store.log;
    RunOfStore(store);
    hide store.Tracks, AlertsMade, OperatorLoop.Watch, Blocked, StateAfter, SaveEvents, AlertStops, Open, IdsOf;
    var report;
    ghost var reached;
    report, reached := RunOnce(store, wall, inventory, alerts);
    RunOfStore(store);
    if report.Err? {
      return Some(report.error);
    }
    AlertsMadeAt(before, store.log, inventory, alerts, wall.now.Floor);
    error := None;
  }

  /** The drift pass of one round. */
  method DriftOnce(store: ProposalStore, wall: Clock, servers: seq<ServerAudit>, digest: Digest)
    returns (error: Option<OperatorError>)
    requires store.Tracks()
    modifies store, wall
    ensures store.Tracks()
    ensures error.None? ==> DriftMade(old(store.log), store.log, servers, digest)
    ensures error.Some? ==> DriftRaised(old(store.log), store.log, servers, digest, error.value)
  {
    ghost var before := store.log;
    RunOfStore(store);
    hide store.Tracks, DriftMade, Drift, AdmitDrift, Blocked, StateAfter, SaveEvents, DriftStops, Open, IdsOf;
    var report;
    ghost var reached, stopped;
    report, reached, stopped := DriftPass(store, wall, servers, digest);
    RunOfStore(store);
    if report.Err? {
      return Some(report.error);
    }
    DriftMadeAt(before, store.log, servers, digest, wall.now.Floor);
    error := None;
  }

  /** The autonomy pass of one round. */
  method Autonomy(store: ProposalStore, wall: Clock, inventory: Inventory, round: Round, options: Options)
    returns (error: Option<OperatorError>)
    requires store.Tracks()
    modifies store, wall
    ensures store.Tracks()
    ensures error.None? ==> AutonomyMade(old(store.log), store.log, inventory, round, options)
    ensures error.Some? ==> AutonomyRaised(old(store.log), store.log, inventory, round, options, error.value)
  {
    RunOfStore(store);
    hide store.Tracks, StateAfter, Ended, Stopped, WithheldForPolicy;
    var report;
    ghost var moment, made;
    report, moment, made := AutonomousPass(store, wall, inventory, round.executors, round.verifiers, options);
    RunOfStore(store);
    error := if report.Err? then Some(report.error) else None;
  }

  // ---- The loop ----

  ghost predicate Rounds(
    made: seq<Made>, rounds: seq<Round>, inventory: Inventory, schedule: Schedule, digest: Digest)
  {
    && |made| <= |rounds|
    && (forall i :: 0 <= i < |made| ==> Ran(made[i], rounds[i], inventory, schedule, digest))
    && (forall i :: 0 <= i < |made| - 1 ==> GoesOn(made[i], made[i + 1], schedule))
  }

  lemma RoundsNext(
    made: seq<Made>, next: Made, rounds: seq<Round>, inventory: Inventory, schedule: Schedule, digest: Digest)
    requires Rounds(made, rounds, inventory, schedule, digest) && |made| < |rounds|
    requires Ran(next, rounds[|made|], inventory, schedule, digest)
    requires made != [] ==> GoesOn(made[|made| - 1], next, schedule)
    ensures Rounds(made + [next], rounds, inventory, schedule, digest)
  {
    hide Ran, GoesOn;
    var longer := made + [next];
    forall i | 0 <= i < |longer| - 1
      ensures GoesOn(longer[i], longer[i + 1], schedule)
    {
      if i < |made| - 1 {
        assert longer[i] == made[i] && longer[i + 1] == made[i + 1];
      }
    }
  }

  /** One round, its drift pass compared with the due time `due`; `next` is the due time of the one after. */
  method RunRound(
    store: ProposalStore, wall: Clock, ticks: Clock, inventory: Inventory, schedule: Schedule, digest: Digest,
    round: Round, due: real)
    returns (error: Option<OperatorError>, next: real, ghost m: Made)
    requires store.Tracks() && wall != ticks
    modifies store, wall, ticks
    ensures store.Tracks() && Ran(m, round, inventory, schedule, digest)
    ensures m.before == old(store.log) && m.after == store.log && m.error == error
    ensures m.due == due && old(ticks.now) <= m.tick <= ticks.now
    ensures m.drift && m.raised != Some(OfDrift) ==> m.tick <= m.driftedAt <= ticks.now
    ensures error.None? ==> next == if m.drift then m.driftedAt + schedule.driftInterval.value else due
  {
    hide store.Tracks, Ran, AlertsMade, AlertsRaised, DriftMade, DriftRaised, AutonomyMade, AutonomyRaised, StateAfter;
    next := due;
    m := Made(store.log, [], [], [], false, false, ticks.now, due, ticks.now, None, None);
    error := Alerts(store, wall, inventory, round.alerts);
    m := m.(alerted := store.log, drifted := store.log, after := store.log);
    if error.Some? {
      m := m.(raised := Some(OfAlerts), error := error);
      RanAs(m, round, inventory, schedule, digest);
      return;
    }
    if schedule.driftInterval.Some? {
      var now := ticks.Read();
      m := m.(tick := now);
      if now >= due {
        error := DriftOnce(store, wall, round.servers, digest);
        m := m.(drift := true, drifted := store.log, after := store.log);
        if error.Some? {
          m := m.(raised := Some(OfDrift), error := error);
          RanAs(m, round, inventory, schedule, digest);
          return;
        }
        var after := ticks.Read();
        next := after + schedule.driftInterval.value;
        m := m.(driftedAt := after);
      }
    }
    if schedule.autonomy {
      error := Autonomy(store, wall, inventory, round, schedule.options);
      m := m.(
        autonomy := true, after := store.log, raised := if error.Some? then Some(OfAutonomy) else None, error := error);
    }
    RanAs(m, round, inventory, schedule, digest);
  }

  /**
   * Runs rounds until a pass raises or the loop is stopped: the alerts pass, the drift pass when it
   * is due, and the autonomy pass when one is wanted. `made` tells each round begun, the first of
   * them due at the reading `started`.
   */
  method Watch(
    store: ProposalStore, wall: Clock, ticks: Clock, inventory: Inventory, schedule: Schedule, digest: Digest,
    rounds: seq<Round>)
    returns (error: Option<OperatorError>, ghost started: real, ghost made: seq<Made>)
    requires store.Tracks() && wall != ticks
    modifies store, wall, ticks
    ensures store.Tracks()
    ensures Rounds(made, rounds, inventory, schedule, digest)
    ensures old(ticks.now) <= started && Begins(made, old(store.log), started)
    ensures store.log == if made == [] then old(store.log) else made[|made| - 1].after
    ensures error == if made == [] then None else made[|made| - 1].error
    ensures error.None? ==> |made| == if schedule.repeats || rounds == [] then |rounds| else 1
  {
    hide store.Tracks, Ran, Rounds, StateAfter;
    var due := ticks.Read();
    started, made := due, [];
    NoRounds(rounds, inventory, schedule, digest);
    for i := 0 to |rounds|
      invariant store.Tracks()
      invariant |made| == i && Rounds(made, rounds, inventory, schedule, digest)
      invariant i > 0 ==>
        && schedule.repeats && made[i - 1].raised.None? && made[i - 1].error.None? && made[i - 1].after == store.log
      invariant i > 0 ==>
        var last := made[i - 1];
        && last.tick <= ticks.now
        && (last.drift ==> schedule.driftInterval.Some? && last.tick <= last.driftedAt <= ticks.now)
        && due == if last.drift then last.driftedAt + schedule.driftInterval.value else last.due
      invariant i == 0 ==> store.log == old(store.log) && due == started <= ticks.now
      invariant old(ticks.now) <= started && Begins(made, old(store.log), started)
    {
      ghost var m;
      var next;
      error, next, m := RunRound(
        store, wall, ticks, inventory, schedule, digest, rounds[i], due);
      DriftIsScheduled(m, rounds[i], inventory, schedule, digest);
      RoundsNext(made, m, rounds, inventory, schedule, digest);
      made := made + [m];
      if error.Some? || !schedule.repeats {
        return;
      }
      due := next;
    }
    error := None;
  }

  lemma DriftIsScheduled(made: Made, round: Round, inventory: Inventory, schedule: Schedule, digest: Digest)
    requires Ran(made, round, inventory, schedule, digest)
    ensures made.drift ==> schedule.driftInterval.Some?
    ensures made.raised == Some(OfDrift) ==> made.drift
    ensures made.raised.Some? <==> made.error.Some?
  {
  }

  lemma NoRounds(rounds: seq<Round>, inventory: Inventory, schedule: Schedule, digest: Digest)
    ensures Rounds([], rounds, inventory, schedule, digest)
  {
  }

  lemma RanAs(made: Made, round: Round, inventory: Inventory, schedule: Schedule, digest: Digest)
    requires Scheduled(made, schedule) && AlertsAre(made, round, inventory) && DriftIs(made, round, digest)
    requires AutonomyIs(made, round, inventory, schedule.options)
    ensures Ran(made, round, inventory, schedule, digest)
  {
    hide AlertsAre, DriftIs, AutonomyIs;
  }

  // ---- What follows of every schedule ----

  ghost predicate OnlySaved(before: seq<Event>, after: seq<Event>) {
    before <= after && forall k :: |before| <= k < |after| ==> after[k].Saved?
  }

  lemma RoundOnlySaves(made: Made, round: Round, inventory: Inventory, schedule: Schedule, digest: Digest)
    requires Ran(made, round, inventory, schedule, digest) && !schedule.autonomy
    ensures OnlySaved(made.before, made.after)
  {
    hide AlertsAre, DriftIs, OnlySaved;
    AlertsOnlySave(made, round, inventory);
    DriftOnlySaves(made, round, digest);
    OnlySavedTwice(made.before, made.alerted, made.drifted);
  }

  lemma AlertsOnlySave(made: Made, round: Round, inventory: Inventory)
    requires AlertsAre(made, round, inventory)
    ensures OnlySaved(made.before, made.alerted)
  {
  }

  lemma DriftOnlySaves(made: Made, round: Round, digest: Digest)
    requires DriftIs(made, round, digest)
    ensures OnlySaved(made.alerted, made.drifted)
  {
  }

  lemma OnlySavedTwice(a: seq<Event>, b: seq<Event>, c: seq<Event>)
    requires OnlySaved(a, b) && OnlySaved(b, c)
    ensures OnlySaved(a, c)
  {
  }

  /** When autonomy was not asked for, no number of rounds starts the engine: they only save proposals. */
  lemma {:induction false} WithoutAutonomyNothingStarts(
    made: seq<Made>, rounds: seq<Round>, inventory: Inventory, schedule: Schedule, digest: Digest)
    requires Rounds(made, rounds, inventory, schedule, digest) && made != [] && !schedule.autonomy
    ensures OnlySaved(made[0].before, made[|made| - 1].after)
  {
    var n := |made| - 1;
    hide Ran, OnlySaved;
    RoundOnlySaves(made[n], rounds[n], inventory, schedule, digest);
    if n > 0 {
      var earlier := made[..n];
      forall i | 0 <= i < |earlier| - 1
        ensures GoesOn(earlier[i], earlier[i + 1], schedule)
      {
        assert GoesOn(made[i], made[i + 1], schedule);
      }
      WithoutAutonomyNothingStarts(earlier, rounds, inventory, schedule, digest);
      assert GoesOn(made[n - 1], made[n], schedule);
      OnlySavedTwice(made[0].before, made[n].before, made[n].after);
    }
  }

  /** From a round with a drift pass on, the due time is at least the interval after that pass's beginning. */
  lemma {:induction false} DueAfter(
    made: seq<Made>, rounds: seq<Round>, inventory: Inventory, schedule: Schedule, digest: Digest, i: nat, j: nat)
    requires Rounds(made, rounds, inventory, schedule, digest) && i < j < |made| && made[i].drift
    requires schedule.driftInterval.Some? && schedule.driftInterval.value >= 0.0
    ensures made[i].tick + schedule.driftInterval.value <= made[j].due
    decreases j
  {
    assert GoesOn(made[j - 1], made[j], schedule);
    assert Ran(made[j - 1], rounds[j - 1], inventory, schedule, digest);
    if i < j - 1 {
      DueAfter(made, rounds, inventory, schedule, digest, i, j - 1);
    }
  }

  /** No two drift passes begin closer together than the interval. */
  lemma DriftPassesAreSpaced(
    made: seq<Made>, rounds: seq<Round>, inventory: Inventory, schedule: Schedule, digest: Digest, i: nat, j: nat)
    requires Rounds(made, rounds, inventory, schedule, digest) && i < j < |made| && made[i].drift && made[j].drift
    requires schedule.driftInterval.Some? && schedule.driftInterval.value >= 0.0
    ensures made[i].tick + schedule.driftInterval.value <= made[j].tick
  {
    DueAfter(made, rounds, inventory, schedule, digest, i, j);
    assert Ran(made[j], rounds[j], inventory, schedule, digest);
  }

  /** With a drift check, the first round runs it, unless its alerts pass raised. */
  lemma FirstRoundRunsDrift(
    made: seq<Made>, rounds: seq<Round>, inventory: Inventory, schedule: Schedule, digest: Digest,
    log: seq<Event>, started: real)
    requires Rounds(made, rounds, inventory, schedule, digest) && made != [] && Begins(made, log, started)
    requires schedule.driftInterval.Some?
    ensures made[0].drift <==> made[0].raised != Some(OfAlerts)
  {
    assert Ran(made[0], rounds[0], inventory, schedule, digest);
  }
}
