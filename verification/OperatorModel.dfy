/**
 * The receipts of the operator loop and the events that change them
 * (sdk/src/cloudfall/operator.py, and the policy records of inventory.py).
 *
 * A store is the directory of receipts: a map from receipt id to receipt. A receipt's id is
 * built from its creation second and its fingerprint, both written with a fixed width, so the
 * order of `ProposalStore.list` (creation time, then file name) is the order on ids.
 */
module OperatorModel {
  import opened Results

  datatype Status = Proposed | Executed | Verified | Failed

  datatype Kind = ConvergeServices | ConvergeBaseline

  datatype Channel = Terminal | Unknown

  datatype Approval = Human(via: Channel) | Autonomous(policy: string)

  datatype Outcome = Outcome(executedAt: int, verifiedAt: Option<int>, verified: bool)

  datatype ReceiptId = ReceiptId(stamp: int, fingerprint: nat)

  datatype Receipt = Receipt(
    createdAt: int,
    fingerprint: nat,
    kind: Kind,
    server: string,
    status: Status,
    approval: Option<Approval>,
    outcome: Option<Outcome>)
  {
    function Id(): ReceiptId { ReceiptId(createdAt, fingerprint) }

    predicate Settled() { status.Verified? || status.Failed? }

    predicate Blocking() { !status.Verified? }

    predicate AutonomousSince(after: real) {
      approval.Some? && approval.value.Autonomous? && outcome.Some? && outcome.value.executedAt as real > after
    }
  }

  type Store = map<ReceiptId, Receipt>

  /** List order: creation time, then file name. */
  predicate Before(a: ReceiptId, b: ReceiptId) {
    a.stamp < b.stamp || (a.stamp == b.stamp && a.fingerprint < b.fingerprint)
  }

  predicate Keyed(m: Store) {
    forall id :: id in m ==> m[id].Id() == id
  }

  function Fresh(now: int, fingerprint: nat, kind: Kind, server: string): Receipt {
    Receipt(now, fingerprint, kind, server, Proposed, None, None)
  }

  /** Fingerprints already covered by an open, executed or failed receipt. */
  function Blocked(m: Store): set<nat> {
    set id | id in m && m[id].Blocking() :: m[id].fingerprint
  }

  // ---- Declared autonomy policies ----

  type Minute = m: nat | m < 1440

  datatype QuietHours = QuietHours(start: Minute, end: Minute) {
    predicate Contains(minute: Minute) {
      if start <= end then start <= minute < end
      else minute >= start || minute < end
    }
  }

  type Positive = n: nat | n > 0 witness 1

  datatype Grant = Grant(kind: Kind, requiredVerifiedRuns: Positive)

  datatype Policy = Policy(
    id: string,
    environment: string,
    grants: seq<Grant>,
    maxAutonomousPerHour: Positive,
    quietHours: Option<QuietHours>)
  {
    function GrantFor(kind: Kind): Option<Grant> { FirstGrant(grants, kind) }
  }

  /** The first grant of the kind in the order they are declared. */
  function FirstGrant(grants: seq<Grant>, kind: Kind): (g: Option<Grant>)
    ensures g.Some? ==>
      exists i :: 0 <= i < |grants| && grants[i] == g.value && g.value.kind == kind
                  && forall j :: 0 <= j < i ==> grants[j].kind != kind
    ensures g.None? ==> forall i :: 0 <= i < |grants| ==> grants[i].kind != kind
  {
    if grants == [] then None
    else if grants[0].kind == kind then Some(grants[0])
    else FirstGrant(grants[1..], kind)
  }

  datatype Inventory = Inventory(
    environments: map<string, string>,
    policies: seq<Policy>,
    services: set<(string, string)>)

  /** The policy of an environment; a later declaration for the same environment wins. */
  function PolicyOf(policies: seq<Policy>, environment: string): (p: Option<Policy>)
    ensures p.Some? ==>
      exists i :: 0 <= i < |policies| && policies[i] == p.value && p.value.environment == environment
                  && forall j :: i < j < |policies| ==> policies[j].environment != environment
    ensures p.None? ==> forall i :: 0 <= i < |policies| ==> policies[i].environment != environment
  {
    if policies == [] then None
    else if policies[|policies| - 1].environment == environment then Some(policies[|policies| - 1])
    else PolicyOf(policies[..|policies| - 1], environment)
  }

  /** The policy is the last one declared for the server's own environment. */
  ghost predicate Governs(inventory: Inventory, server: string, policy: Policy) {
    && server in inventory.environments
    && exists i ::
         && 0 <= i < |inventory.policies| && inventory.policies[i] == policy
         && policy.environment == inventory.environments[server]
         && forall j :: i < j < |inventory.policies| ==> inventory.policies[j].environment != policy.environment
  }

  /** The server is not declared, or no policy is for its environment. */
  ghost predicate Ungoverned(inventory: Inventory, server: string) {
    server in inventory.environments ==>
      forall i :: 0 <= i < |inventory.policies| ==>
        inventory.policies[i].environment != inventory.environments[server]
  }

  function PolicyFor(inventory: Inventory, server: string): (p: Option<Policy>)
    ensures p.Some? ==> Governs(inventory, server, p.value)
    ensures p.None? <==> Ungoverned(inventory, server)
  {
    if server in inventory.environments then PolicyOf(inventory.policies, inventory.environments[server]) else None
  }

  // ---- The autonomy decision ----

  const HOUR := 3600.0

  function MinuteOfDay(moment: real): Minute { (moment.Floor / 60) % 1440 }

  /** The other receipts of the kind that ended verified or failed. */
  function History(m: Store, kind: Kind, except: ReceiptId): set<ReceiptId> {
    set id | id in m && id != except && m[id].kind == kind && m[id].Settled()
  }

  function VerifiedIn(m: Store, ids: set<ReceiptId>): set<ReceiptId> {
    set id | id in ids && id in m && m[id].status.Verified?
  }

  predicate IsLast(ids: set<ReceiptId>, id: ReceiptId) {
    id in ids && forall other :: other in ids ==> other == id || Before(other, id)
  }

  /** The history is not empty and its last receipt in list order failed. */
  predicate LastFailed(m: Store, ids: set<ReceiptId>)
    requires ids <= m.Keys
  {
    exists id :: id in ids && IsLast(ids, id) && m[id].status.Failed?
  }

  function RecentAutonomous(m: Store, moment: real): set<ReceiptId> {
    set id | id in m && m[id].AutonomousSince(moment - HOUR)
  }

  datatype Decision =
    | NotGranted
    | InsufficientHistory(verified: nat, required: nat)
    | MostRecentFailed
    | InQuietHours
    | RateLimited(recent: nat)
    | Granted

  function Decide(m: Store, id: ReceiptId, policy: Policy, moment: real): Decision
    requires id in m
  {
    var grant := policy.GrantFor(m[id].kind);
    if grant.None? then NotGranted
    else
      var history := History(m, m[id].kind, id);
      var verified := |VerifiedIn(m, history)|;
      if verified < grant.value.requiredVerifiedRuns then
        InsufficientHistory(verified, grant.value.requiredVerifiedRuns)
      else if LastFailed(m, history) then MostRecentFailed
      else if policy.quietHours.Some? && policy.quietHours.value.Contains(MinuteOfDay(moment)) then InQuietHours
      else
        var recent := |RecentAutonomous(m, moment)|;
        if recent >= policy.maxAutonomousPerHour then RateLimited(recent) else Granted
  }

  // ---- Events ----

  /** How a recorded execution ended: the receipt that is left behind follows from it. */
  datatype Ending =
    | ExecutorFailed
    | LeftExecuted
    | Resolved(at: int)
    | Unresolved(at: int)

  /**
   * Who let an execution through; a policy does so as the inventory declares it when its pass reads
   * the clock.
   */
  datatype License = ByPerson(via: Channel) | ByPolicy(inventory: Inventory, policy: Policy, moment: real)

  /**
   * An execution is recorded when the engine run returns, or raises an error the loop expects; it is
   * lost when the engine run raises anything else.
   */
  datatype Event =
    | Saved(receipt: Receipt)
    | Ran(id: ReceiptId, license: License, started: real, ending: Ending)
    | Lost(id: ReceiptId, license: License, started: real)
  {
    /** The event starts the engine. */
    predicate Starts() { Ran? || Lost? }
  }

  function ApprovalOf(license: License): Approval {
    match license
    case ByPerson(via) => Human(via)
    case ByPolicy(_, policy, _) => Autonomous(policy.id)
  }

  function Concluded(receipt: Receipt, license: License, executedAt: int, ending: Ending): Receipt {
    var settled :=
      match ending
      case ExecutorFailed => (Failed, Outcome(executedAt, None, false))
      case LeftExecuted => (Executed, Outcome(executedAt, None, false))
      case Resolved(at) => (Verified, Outcome(executedAt, Some(at), true))
      case Unresolved(at) => (Failed, Outcome(executedAt, Some(at), false));
    receipt.(status := settled.0, approval := Some(ApprovalOf(license)), outcome := Some(settled.1))
  }

  /** A verification is recorded at a clock reading after the execution's, cut to the second like it. */
  predicate Timed(started: real, ending: Ending) {
    ending.Resolved? || ending.Unresolved? ==> started.Floor <= ending.at
  }

  predicate Licensed(m: Store, id: ReceiptId, license: License, started: real)
    requires id in m
  {
    match license
    case ByPerson(via) => via.Terminal?
    case ByPolicy(inventory, policy, moment) =>
      && PolicyFor(inventory, m[id].server) == Some(policy)
      && moment <= started
      && Decide(m, id, policy, moment).Granted?
  }

  predicate Legal(m: Store, e: Event) {
    match e
    case Saved(r) =>
      && r == Fresh(r.createdAt, r.fingerprint, r.kind, r.server)
      && r.Id() !in m
      && r.fingerprint !in Blocked(m)
    case Ran(id, license, started, ending) =>
      id in m && m[id].status.Proposed? && Licensed(m, id, license, started) && Timed(started, ending)
    case Lost(id, license, started) =>
      id in m && m[id].status.Proposed? && Licensed(m, id, license, started)
  }

  function After(m: Store, e: Event): Store {
    match e
    case Saved(r) => m[r.Id() := r]
    case Ran(id, license, started, ending) =>
      if id in m then m[id := Concluded(m[id], license, started.Floor, ending)] else m
    case Lost(_, _, _) => m
  }

  function StateAfter(log: seq<Event>): Store {
    if log == [] then map[] else After(StateAfter(log[..|log| - 1]), log[|log| - 1])
  }

  predicate Run(log: seq<Event>) {
    log == [] || (Run(log[..|log| - 1]) && Legal(StateAfter(log[..|log| - 1]), log[|log| - 1]))
  }

  /** The receipts the engine was started for, in order. */
  function StartsOf(log: seq<Event>): seq<ReceiptId> {
    if log == [] then []
    else
      var earlier, e := StartsOf(log[..|log| - 1]), log[|log| - 1];
      if e.Starts() then earlier + [e.id] else earlier
  }
}
