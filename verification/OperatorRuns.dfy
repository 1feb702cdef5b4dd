/** What holds over every run of the operator loop: every legal sequence of saved proposals and executions. */
module OperatorRuns {
  import opened Results
  import opened OperatorModel

  function At(log: seq<Event>, i: nat): Store
    requires i <= |log|
  {
    StateAfter(log[..i])
  }

  // ---- Stepping through a run ----

  lemma {:induction false} PrefixIsRun(log: seq<Event>, i: nat)
    requires Run(log) && i <= |log|
    ensures Run(log[..i])
    decreases |log|
  {
    if i == |log| {
      assert log[..i] == log;
    } else {
      var shorter := log[..|log| - 1];
      PrefixIsRun(shorter, i);
      assert shorter[..i] == log[..i];
    }
  }

  lemma StepAt(log: seq<Event>, i: nat)
    requires Run(log) && i < |log|
    ensures Legal(At(log, i), log[i])
    ensures At(log, i + 1) == After(At(log, i), log[i])
  {
    PrefixIsRun(log, i + 1);
    var next := log[..i + 1];
    assert next[..|next| - 1] == log[..i] && next[|next| - 1] == log[i];
  }

  lemma {:induction false} RunIsKeyed(log: seq<Event>)
    requires Run(log)
    ensures Keyed(StateAfter(log))
  {
    if log != [] {
      RunIsKeyed(log[..|log| - 1]);
    }
  }

  /** A receipt never leaves the store, keeps its identity, and once it is not open never changes again. */
  lemma {:induction false} ConcludedReceiptsAreFinal(log: seq<Event>, i: nat, j: nat, id: ReceiptId)
    requires Run(log) && i <= j <= |log| && id in At(log, i)
    ensures id in At(log, j)
    ensures At(log, j)[id].kind == At(log, i)[id].kind
    ensures At(log, j)[id].server == At(log, i)[id].server
    ensures At(log, j)[id].Id() == At(log, i)[id].Id()
    ensures !At(log, i)[id].status.Proposed? ==> At(log, j)[id] == At(log, i)[id]
    decreases j - i
  {
    if i < j {
      ConcludedReceiptsAreFinal(log, i, j - 1, id);
      StepAt(log, j - 1);
    }
  }

  /** A receipt that is not open was concluded by exactly the execution found here, under its license. */
  lemma {:induction false} ConcludedBy(log: seq<Event>, i: nat, j: nat, id: ReceiptId)
    returns (n: nat)
    requires Run(log) && i <= j <= |log|
    requires id in At(log, j) && !At(log, j)[id].status.Proposed?
    requires id in At(log, i) ==> At(log, i)[id].status.Proposed?
    ensures i <= n < j && log[n].Ran? && log[n].id == id
    ensures id in At(log, n) && At(log, n)[id].status.Proposed?
    ensures At(log, j)[id] == Concluded(At(log, n)[id], log[n].license, log[n].started.Floor, log[n].ending)
    decreases j - i
  {
    assert i < j;
    StepAt(log, j - 1);
    var before := At(log, j - 1);
    if id in before && !before[id].status.Proposed? {
      n := ConcludedBy(log, i, j - 1, id);
      ConcludedReceiptsAreFinal(log, j - 1, j, id);
    } else {
      n := j - 1;
    }
  }

  lemma RunSnoc(log: seq<Event>, e: Event)
    requires Run(log) && Legal(StateAfter(log), e)
    ensures Run(log + [e]) && StateAfter(log + [e]) == After(StateAfter(log), e)
  {
    assert (log + [e])[..|log|] == log;
  }

  // ---- The hourly bound ----

  predicate InWindow(executedAt: int, from: real) {
    from <= executedAt as real < from + HOUR
  }

  /** The receipts executed in the hour from `from` whose license is one of the named policies. */
  function ExecutedInHour(m: Store, policies: set<string>, from: real): set<ReceiptId> {
    set id | id in m && m[id].approval.Some? && m[id].approval.value.Autonomous?
             && m[id].approval.value.policy in policies
             && m[id].outcome.Some? && InWindow(m[id].outcome.value.executedAt, from)
  }

  lemma SubsetSize<T>(a: set<T>, b: set<T>)
    requires a <= b
    ensures |a| <= |b|
  {
    if a != {} {
      var x :| x in a;
      SubsetSize(a - {x}, b - {x});
    }
  }

  /**
   * A pass reads its clock at `moment`, counts, and executes at `started`, which is recorded cut
   * to the second. Whatever was recorded in an hour that also holds the new execution was counted.
   */
  lemma WindowWasCounted(m: Store, policies: set<string>, from: real, moment: real, started: real)
    requires moment <= started && InWindow(started.Floor, from)
    ensures ExecutedInHour(m, policies, from) <= RecentAutonomous(m, moment)
  {
    forall id | id in ExecutedInHour(m, policies, from)
      ensures id in RecentAutonomous(m, moment)
    {
      var earlier := m[id].outcome.value.executedAt;
      assert started.Floor - earlier < 3600;
      assert started < (started.Floor + 1) as real;
    }
  }

  lemma {:induction false} OpenReceiptsAreFresh(log: seq<Event>, id: ReceiptId)
    requires Run(log) && id in StateAfter(log) && StateAfter(log)[id].status.Proposed?
    ensures StateAfter(log)[id].approval.None? && StateAfter(log)[id].outcome.None?
  {
    var shorter := log[..|log| - 1];
    if id in StateAfter(shorter) && StateAfter(shorter)[id].status.Proposed? {
      OpenReceiptsAreFresh(shorter, id);
    }
  }

  predicate StartedInHour(e: Event, policies: set<string>, from: real) {
    e.Starts() && e.license.ByPolicy? && e.license.policy.id in policies && InWindow(e.started.Floor, from)
  }

  /** What one recorded execution adds to an hour. */
  lemma ExecutedNext(m: Store, e: Event, policies: set<string>, from: real)
    requires e.Ran? && e.id in m && m[e.id].approval.None?
    ensures e.id !in ExecutedInHour(m, policies, from)
    ensures ExecutedInHour(After(m, e), policies, from)
            == ExecutedInHour(m, policies, from) + if StartedInHour(e, policies, from) then {e.id} else {}
  {
  }

  /** Each license of these policies in the log allowed at most the bound. */
  predicate LicensedWithin(log: seq<Event>, policies: set<string>, bound: nat) {
    forall n ::
      0 <= n < |log| && log[n].Starts() && log[n].license.ByPolicy? && log[n].license.policy.id in policies ==>
      log[n].license.policy.maxAutonomousPerHour <= bound
  }

  lemma SavingExecutesNone(m: Store, r: Receipt, policies: set<string>, from: real)
    requires Legal(m, Saved(r))
    ensures ExecutedInHour(After(m, Saved(r)), policies, from) == ExecutedInHour(m, policies, from)
  {
  }

  lemma {:induction false} HourlyBound(log: seq<Event>, policies: set<string>, bound: nat, from: real)
    requires Run(log) && LicensedWithin(log, policies, bound)
    ensures |ExecutedInHour(StateAfter(log), policies, from)| <= bound
  {
    if log != [] {
      var shorter := log[..|log| - 1];
      var m, e := StateAfter(shorter), log[|log| - 1];
      HourlyBound(shorter, policies, bound, from);
      var before := ExecutedInHour(m, policies, from);
      match e
      case Saved(r) =>
        SavingExecutesNone(m, r, policies, from);
      case Ran(id, license, started, _) =>
        OpenReceiptsAreFresh(shorter, id);
        hide ExecutedInHour, After, Decide, RecentAutonomous;
        ExecutedNext(m, e, policies, from);
        if StartedInHour(e, policies, from) {
          RateWasClear(m, id, license.policy, license.moment);
          WindowWasCounted(m, policies, from, license.moment, started);
          SubsetSize(before, RecentAutonomous(m, license.moment));
        }
      case Lost(_, _, _) =>
    }
  }

  lemma RateWasClear(m: Store, id: ReceiptId, policy: Policy, moment: real)
    requires id in m && Decide(m, id, policy, moment).Granted?
    ensures |RecentAutonomous(m, moment)| < policy.maxAutonomousPerHour
  {
  }

  /**
   * Any half-open hour of recorded execution times holds at most as many executions licensed by one
   * policy as it allowed, over every run; when it was edited between passes, as the largest of its
   * versions allowed.
   */
  lemma PolicyHourlyBound(log: seq<Event>, policy: string, bound: nat, from: real)
    requires Run(log) && LicensedWithin(log, {policy}, bound)
    ensures |ExecutedInHour(StateAfter(log), {policy}, from)| <= bound
  {
    HourlyBound(log, {policy}, bound, from);
  }

  function PoliciesOf(log: seq<Event>): set<string> {
    set n | 0 <= n < |log| && log[n].Starts() && log[n].license.ByPolicy? :: log[n].license.policy.id
  }

  /**
   * The count reads every environment's receipts, so the executions of all policies together stay
   * within the largest bound of any: bounds do not add up over environments.
   */
  lemma FleetHourlyBound(log: seq<Event>, bound: nat, from: real)
    requires Run(log) && LicensedWithin(log, PoliciesOf(log), bound)
    ensures |ExecutedInHour(StateAfter(log), PoliciesOf(log), from)| <= bound
  {
    HourlyBound(log, PoliciesOf(log), bound, from);
  }

  // ---- Starts that are not recorded ----

  /** The engine starts of an hour that the named policies licensed. */
  function StartsIn(log: seq<Event>, policies: set<string>, from: real): nat {
    if log == [] then 0
    else StartsIn(log[..|log| - 1], policies, from) + if StartedInHour(log[|log| - 1], policies, from) then 1 else 0
  }

  /** Those of them that were lost. */
  function LostIn(log: seq<Event>, policies: set<string>, from: real): nat {
    if log == [] then 0
    else
      var e := log[|log| - 1];
      LostIn(log[..|log| - 1], policies, from) + if e.Lost? && StartedInHour(e, policies, from) then 1 else 0
  }

  /** The engine starts of an hour are its recorded executions and the lost ones. */
  lemma {:induction false} StartsAreRecordedOrLost(log: seq<Event>, policies: set<string>, from: real)
    requires Run(log)
    ensures StartsIn(log, policies, from)
            == |ExecutedInHour(StateAfter(log), policies, from)| + LostIn(log, policies, from)
  {
    if log == [] {
      assert ExecutedInHour(StateAfter(log), policies, from) == {};
    } else {
      var shorter := log[..|log| - 1];
      var m, e := StateAfter(shorter), log[|log| - 1];
      StartsAreRecordedOrLost(shorter, policies, from);
      match e
      case Saved(r) =>
        assert ExecutedInHour(After(m, e), policies, from) == ExecutedInHour(m, policies, from);
      case Ran(id, _, _, _) =>
        OpenReceiptsAreFresh(shorter, id);
        ExecutedNext(m, e, policies, from);
        hide ExecutedInHour, After, Decide;
      case Lost(_, _, _) =>
    }
  }

  /** The hourly bound of engine starts: what the policies allowed, and the lost starts on top of it. */
  lemma StartsHourlyBound(log: seq<Event>, policies: set<string>, bound: nat, from: real)
    requires Run(log) && LicensedWithin(log, policies, bound)
    ensures StartsIn(log, policies, from) <= bound + LostIn(log, policies, from)
  {
    HourlyBound(log, policies, bound, from);
    StartsAreRecordedOrLost(log, policies, from);
  }

  // ---- Suspension after a failure ----

  function SettledOf(m: Store, kind: Kind): set<ReceiptId> {
    set id | id in m && m[id].kind == kind && m[id].Settled()
  }

  /** The last verified or failed receipt of the kind, in list order, is `failed`, and it failed. */
  predicate Suspended(m: Store, kind: Kind, failed: ReceiptId) {
    IsLast(SettledOf(m, kind), failed) && failed in m && m[failed].status.Failed?
  }

  /** A policy let the engine be started, whether the execution was recorded or lost. */
  predicate AutonomousStart(log: seq<Event>, j: nat, kind: Kind)
    requires j < |log|
  {
    && log[j].Starts() && log[j].license.ByPolicy?
    && log[j].id in At(log, j) && At(log, j)[log[j].id].kind == kind
  }

  predicate VerifiedByPerson(m: Store, id: ReceiptId) {
    id in m && m[id].status.Verified? && m[id].approval.Some? && m[id].approval.value.Human?
  }

  lemma {:induction false} LastExists(ids: set<ReceiptId>) returns (last: ReceiptId)
    requires ids != {}
    ensures IsLast(ids, last)
  {
    var id :| id in ids;
    if ids == {id} {
      last := id;
    } else {
      var rest := LastExists(ids - {id});
      last := if Before(rest, id) then id else rest;
      assert forall other :: other in ids ==> other == id || other in ids - {id};
    }
  }

  lemma OpenReceiptHistory(m: Store, id: ReceiptId)
    requires id in m && m[id].status.Proposed?
    ensures History(m, m[id].kind, id) == SettledOf(m, m[id].kind)
  {
  }

  /**
   * Once the last settled receipt of a kind failed, a policy executes that kind again only after a
   * person approved and verified a receipt later in list order, and did so after the failure.
   */
  lemma {:induction false} SuspendedUntilPersonVerifies(
    log: seq<Event>, i: nat, j: nat, kind: Kind, failed: ReceiptId)
    returns (verified: ReceiptId, n: nat)
    requires Run(log) && i <= j < |log|
    requires Suspended(At(log, i), kind, failed) && AutonomousStart(log, j, kind)
    ensures i <= n < j && log[n].Ran? && log[n].id == verified && log[n].license.ByPerson?
    ensures Before(failed, verified)
    ensures VerifiedByPerson(At(log, j), verified) && At(log, j)[verified].kind == kind
    decreases j
  {
    StepAt(log, j);
    var m := At(log, j);
    OpenReceiptHistory(m, log[j].id);
    ConcludedReceiptsAreFinal(log, i, j, failed);
    verified := LastExists(SettledOf(m, kind));
    assert IsLast(History(m, kind, log[j].id), verified);
    assert m[verified].status.Verified?;
    if verified in At(log, i) {
      ConcludedReceiptsAreFinal(log, i, j, verified);
      assert verified !in SettledOf(At(log, i), kind);
    }
    n := ConcludedBy(log, i, j, verified);
    if log[n].license.ByPolicy? {
      ConcludedReceiptsAreFinal(log, n, j, verified);
      var later := n;
      verified, n := SuspendedUntilPersonVerifies(log, i, later, kind, failed);
      ConcludedReceiptsAreFinal(log, later, j, verified);
    }
  }

  /** A failed receipt suspends its kind exactly while no verified receipt of the kind is later in list order. */
  lemma FailureSuspendsUnlessVerifiedLater(m: Store, ids: set<ReceiptId>)
    requires ids <= m.Keys && forall id :: id in ids ==> m[id].Settled()
    ensures LastFailed(m, ids) <==>
            exists f ::
              f in ids && m[f].status.Failed? && forall v :: v in ids && m[v].status.Verified? ==> Before(v, f)
  {
    if f :| f in ids && m[f].status.Failed? && forall v :: v in ids && m[v].status.Verified? ==> Before(v, f) {
      var last := LastExists(ids);
      assert last == f || Before(f, last);
    }
  }

  // ---- Earned autonomy ----

  function VerifiedByPeople(m: Store, kind: Kind): set<ReceiptId> {
    set id | id in m && m[id].kind == kind && VerifiedByPerson(m, id)
  }

  predicate Requires(policy: Policy, kind: Kind, required: nat) {
    forall i :: 0 <= i < |policy.grants| && policy.grants[i].kind == kind ==>
      required <= policy.grants[i].requiredVerifiedRuns
  }

  /**
   * A policy cannot earn autonomy for itself: whatever number of verified runs every grant used for
   * the kind requires, that many were approved by people before any autonomous start of the kind.
   */
  lemma {:induction false} AutonomyIsEarnedByPeople(
    log: seq<Event>, j: nat, kind: Kind, required: nat)
    requires Run(log) && j < |log| && AutonomousStart(log, j, kind)
    requires forall i ::
      0 <= i <= j && AutonomousStart(log, i, kind) ==> Requires(log[i].license.policy, kind, required)
    ensures |VerifiedByPeople(At(log, j), kind)| >= required
    decreases j
  {
    StepAt(log, j);
    var m := At(log, j);
    if i :| 0 <= i < j && AutonomousStart(log, i, kind) {
      AutonomyIsEarnedByPeople(log, i, kind, required);
      forall id | id in VerifiedByPeople(At(log, i), kind)
        ensures id in VerifiedByPeople(m, kind)
      {
        ConcludedReceiptsAreFinal(log, i, j, id);
      }
      SubsetSize(VerifiedByPeople(At(log, i), kind), VerifiedByPeople(m, kind));
    } else {
      var verified := VerifiedIn(m, History(m, kind, log[j].id));
      forall id | id in verified
        ensures id in VerifiedByPeople(m, kind)
      {
        var n := ConcludedBy(log, 0, j, id);
        assert !AutonomousStart(log, n, kind);
      }
      SubsetSize(verified, VerifiedByPeople(m, kind));
    }
  }

  // ---- Fingerprints ----

  /** The receipt waits, or was executed without a verification, or failed. */
  predicate Covers(r: Receipt) { r.status.Proposed? || r.status.Executed? || r.status.Failed? }

  predicate OneBlockingPerFingerprint(m: Store) {
    forall a, b ::
      (a in m && b in m && Covers(m[a]) && Covers(m[b]) && m[a].fingerprint == m[b].fingerprint) ==> a == b
  }

  /** A fingerprint is covered exactly by a receipt that waits, was left executed, or failed. */
  lemma BlockedExactlyWhen(m: Store, fingerprint: nat)
    ensures fingerprint in Blocked(m) <==> exists id :: id in m && Covers(m[id]) && m[id].fingerprint == fingerprint
  {
    if id :| id in m && Covers(m[id]) && m[id].fingerprint == fingerprint {
      assert m[id].Blocking();
    }
  }

  lemma {:induction false} OneBlockingReceipt(log: seq<Event>)
    requires Run(log)
    ensures OneBlockingPerFingerprint(StateAfter(log))
  {
    if log != [] {
      var shorter := log[..|log| - 1];
      OneBlockingReceipt(shorter);
      var m, e := StateAfter(shorter), log[|log| - 1];
      if e.Saved? {
        forall id | id in m && Covers(m[id])
          ensures m[id].fingerprint != e.receipt.fingerprint
        {
          BlockedExactlyWhen(m, m[id].fingerprint);
        }
      }
    }
  }

  /** A fingerprint that failed, or whose verifier raised, is never proposed again. */
  lemma FailedFingerprintStaysBlocked(log: seq<Event>, i: nat, j: nat, id: ReceiptId)
    requires Run(log) && i <= j < |log|
    requires id in At(log, i) && (At(log, i)[id].status.Failed? || At(log, i)[id].status.Executed?)
    ensures log[j].Saved? ==> log[j].receipt.fingerprint != At(log, i)[id].fingerprint
  {
    ConcludedReceiptsAreFinal(log, i, j, id);
    StepAt(log, j);
    assert At(log, j)[id].fingerprint in Blocked(At(log, j));
  }

  /** No two executions of a receipt are recorded, whoever lets them through. */
  lemma ExecutedAtMostOnce(log: seq<Event>, i: nat, j: nat)
    requires Run(log) && i < j < |log|
    requires log[i].Ran? && log[j].Ran?
    ensures log[i].id != log[j].id
  {
    if log[i].id == log[j].id {
      EarlierStartsWereLost(log, i, j);
    }
  }

  /** When the engine is started again for a receipt, every earlier start for it was lost. */
  lemma EarlierStartsWereLost(log: seq<Event>, i: nat, j: nat)
    requires Run(log) && i < j < |log|
    requires log[i].Starts() && log[j].Starts() && log[i].id == log[j].id
    ensures log[i].Lost?
  {
    StepAt(log, i);
    StepAt(log, j);
    if log[i].Ran? {
      ConcludedReceiptsAreFinal(log, i + 1, j, log[i].id);
    }
  }

  /**
   * The engine can be started again for a receipt exactly when every earlier start for it was lost:
   * the store does not tell a lost start from none.
   */
  lemma StartsAgainExactlyWhenLost(log: seq<Event>, id: ReceiptId, started: real, ending: Ending)
    requires Run(log) && id in StateAfter(log) && Timed(started, ending)
    ensures Legal(StateAfter(log), Ran(id, ByPerson(Terminal), started, ending)) <==>
            forall n :: 0 <= n < |log| && log[n].Starts() && log[n].id == id ==> log[n].Lost?
  {
    var again := Ran(id, ByPerson(Terminal), started, ending);
    if Legal(StateAfter(log), again) {
      RunSnoc(log, again);
      forall n | 0 <= n < |log| && log[n].Starts() && log[n].id == id
        ensures log[n].Lost?
      {
        assert (log + [again])[n] == log[n];
        EarlierStartsWereLost(log + [again], n, |log|);
      }
    } else {
      assert log[..|log|] == log && log[..0] == [];
      var n := ConcludedBy(log, 0, |log|, id);
    }
  }

  // ---- Quiet hours ----

  /** The window holds exactly the minutes less than its length after its start, midnight or not. */
  lemma QuietHoursWrap(quiet: QuietHours, minute: Minute)
    ensures quiet.Contains(minute) <==> (minute - quiet.start) % 1440 < (quiet.end - quiet.start) % 1440
  {
  }

  lemma SameRemainder(a: int, b: int, k: int)
    requires a == b + 1440 * k
    ensures a % 1440 == b % 1440
  {
  }

  /**
   * An execution decided outside quiet hours starts inside them exactly when the minutes between
   * the two, less those until the window next opens, fall within the window's length; never before
   * it opens.
   */
  lemma QuietAtStartExactlyWhen(quiet: QuietHours, moment: real, started: real)
    requires moment <= started && !quiet.Contains(MinuteOfDay(moment))
    ensures
      var wait := (quiet.start - MinuteOfDay(moment)) % 1440;
      var elapsed := started.Floor / 60 - moment.Floor / 60;
      && (quiet.Contains(MinuteOfDay(started)) <==> (elapsed - wait) % 1440 < (quiet.end - quiet.start) % 1440)
      && (elapsed < wait ==> !quiet.Contains(MinuteOfDay(started)))
  {
    var m, s := moment.Floor / 60, started.Floor / 60;
    QuietAfter(quiet, m, s);
  }

  lemma QuietAfter(quiet: QuietHours, m: int, s: int)
    requires m <= s && !quiet.Contains(m % 1440)
    ensures
      var wait := (quiet.start - m % 1440) % 1440;
      && (quiet.Contains(s % 1440) <==> (s - m - wait) % 1440 < (quiet.end - quiet.start) % 1440)
      && (s - m < wait ==> !quiet.Contains(s % 1440))
  {
    var wait, turns := (quiet.start - m % 1440) % 1440, (quiet.start - m % 1440) / 1440;
    QuietHoursWrap(quiet, m % 1440);
    QuietHoursWrap(quiet, s % 1440);
    SameRemainder(s % 1440 - quiet.start, s - m - wait, m / 1440 - s / 1440 - turns);
    SameRemainder(m % 1440 - quiet.start, -wait, -turns);
    hide QuietHours.Contains;
  }

  /**
   * Every autonomous execution was let through by the last policy declared for its own server's
   * environment, decided outside quiet hours and under that policy's own grant.
   */
  lemma AutonomousRunsWereGranted(log: seq<Event>, j: nat, kind: Kind)
    requires Run(log) && j < |log| && AutonomousStart(log, j, kind)
    ensures
      var ByPolicy(inventory, policy, moment) := log[j].license;
      && Governs(inventory, At(log, j)[log[j].id].server, policy) && moment <= log[j].started
      && (policy.quietHours.Some? ==> !policy.quietHours.value.Contains(MinuteOfDay(moment)))
      && exists g :: g in policy.grants && g.kind == kind
                     && |VerifiedIn(At(log, j), SettledOf(At(log, j), kind))| >= g.requiredVerifiedRuns
  {
    StepAt(log, j);
    OpenReceiptHistory(At(log, j), log[j].id);
    var grant := log[j].license.policy.GrantFor(kind);
    assert grant.value in log[j].license.policy.grants;
  }

  // ---- The decision, from the receipts ----

  /** Some failed receipt of the kind, other than this one, has no verified one after it in list order. */
  ghost predicate Held(m: Store, id: ReceiptId)
    requires id in m
  {
    exists f ::
      && f in m && f != id && m[f].kind == m[id].kind && m[f].status.Failed?
      && forall v :: v in m && v != id && m[v].kind == m[id].kind && m[v].status.Verified? ==> Before(v, f)
  }

  /** The other receipts of the kind that were verified. */
  ghost function VerifiedOthers(m: Store, id: ReceiptId): set<ReceiptId>
    requires id in m
  {
    set other | other in m && other != id && m[other].kind == m[id].kind && m[other].status.Verified?
  }

  /** The receipts a policy had executed in the hour before. */
  ghost function HourBefore(m: Store, moment: real): set<ReceiptId> {
    set id | id in m && m[id].approval.Some? && m[id].approval.value.Autonomous? && m[id].outcome.Some?
             && m[id].outcome.value.executedAt as real > moment - 3600.0
  }

  ghost predicate InQuiet(policy: Policy, moment: real) {
    policy.quietHours.Some? &&
    (moment.Floor / 60 % 1440 - policy.quietHours.value.start) % 1440 <
    (policy.quietHours.value.end - policy.quietHours.value.start) % 1440
  }

  lemma DecisionParts(m: Store, id: ReceiptId, policy: Policy, moment: real)
    requires id in m
    ensures VerifiedIn(m, History(m, m[id].kind, id)) == VerifiedOthers(m, id)
    ensures LastFailed(m, History(m, m[id].kind, id)) <==> Held(m, id)
    ensures RecentAutonomous(m, moment) == HourBefore(m, moment)
    ensures policy.quietHours.Some? ==>
      (policy.quietHours.value.Contains(MinuteOfDay(moment)) <==> InQuiet(policy, moment))
  {
    var history := History(m, m[id].kind, id);
    FailureSuspendsUnlessVerifiedLater(m, history);
    if f :| f in history && m[f].status.Failed? && forall v :: v in history && m[v].status.Verified? ==> Before(v, f) {
      assert forall v :: v in m && v != id && m[v].kind == m[id].kind && m[v].status.Verified? ==> v in history;
    }
    if Held(m, id) {
      var f :| f in m && f != id && m[f].kind == m[id].kind && m[f].status.Failed?
        && forall v :: v in m && v != id && m[v].kind == m[id].kind && m[v].status.Verified? ==> Before(v, f);
      assert f in history;
    }
    if policy.quietHours.Some? {
      QuietHoursWrap(policy.quietHours.value, MinuteOfDay(moment));
    }
  }

  /**
   * Exactly when a policy lets a proposal through, and exactly which refusal it meets otherwise: the
   * first that applies of no grant for the kind, too few verified receipts of it, a failure with no
   * verified receipt after it, quiet hours, and as many autonomous executions in the hour before as
   * the policy allows.
   */
  lemma DecidedExactlyWhen(m: Store, id: ReceiptId, policy: Policy, moment: real)
    requires id in m
    ensures
      var decision := Decide(m, id, policy, moment);
      var verified, recent := |VerifiedOthers(m, id)|, |HourBefore(m, moment)|;
      && (decision.NotGranted? <==> forall i :: 0 <= i < |policy.grants| ==> policy.grants[i].kind != m[id].kind)
      && (!decision.NotGranted? ==>
            exists i ::
              && 0 <= i < |policy.grants| && policy.grants[i].kind == m[id].kind
              && (forall j :: 0 <= j < i ==> policy.grants[j].kind != m[id].kind)
              && var required := policy.grants[i].requiredVerifiedRuns;
                 decision == (
                   if verified < required then InsufficientHistory(verified, required)
                   else if Held(m, id) then MostRecentFailed
                   else if InQuiet(policy, moment) then InQuietHours
                   else if recent >= policy.maxAutonomousPerHour then RateLimited(recent)
                   else Granted))
  {
    DecisionParts(m, id, policy, moment);
    var grant := FirstGrant(policy.grants, m[id].kind);
    hide VerifiedOthers, Held, HourBefore, InQuiet, LastFailed, History, VerifiedIn, RecentAutonomous, FirstGrant;
    hide QuietHours.Contains;
  }

  /** A recorded execution that a policy let through, later than an hour before. */
  ghost predicate AutonomousAfter(e: Event, id: ReceiptId, after: real) {
    e.Ran? && e.id == id && e.license.ByPolicy? && e.started.Floor as real > after
  }

  /** What the rate limit counts are exactly the recorded autonomous executions of the hour before. */
  lemma {:induction false} RecentAreTheHoursRuns(log: seq<Event>, id: ReceiptId, moment: real)
    requires Run(log)
    ensures id in HourBefore(StateAfter(log), moment) <==>
            exists n :: 0 <= n < |log| && AutonomousAfter(log[n], id, moment - 3600.0)
  {
    if log != [] {
      var shorter, e := log[..|log| - 1], log[|log| - 1];
      RecentAreTheHoursRuns(shorter, id, moment);
      if e.Ran? && e.id == id {
        OpenReceiptsAreFresh(shorter, id);
      }
      if n :| 0 <= n < |shorter| && AutonomousAfter(shorter[n], id, moment - 3600.0) {
        assert AutonomousAfter(log[n], id, moment - 3600.0);
      }
    }
  }

  // ---- What an outcome says ----

  /**
   * A receipt is verified exactly when its outcome says so, an outcome is there exactly when an
   * execution was recorded, and a verification is never recorded before the execution.
   */
  lemma {:induction false} OutcomesAgree(log: seq<Event>, id: ReceiptId)
    requires Run(log) && id in StateAfter(log)
    ensures
      var r := StateAfter(log)[id];
      && (r.outcome.Some? <==> !r.status.Proposed?) && (r.approval.Some? <==> !r.status.Proposed?)
      && (r.status.Verified? <==> r.outcome.Some? && r.outcome.value.verified)
      && (r.outcome.Some? && r.outcome.value.verifiedAt.Some? ==>
            r.outcome.value.executedAt <= r.outcome.value.verifiedAt.value)
      && (r.status.Verified? ==> r.outcome.value.verifiedAt.Some?)
      && (r.status.Executed? ==> r.outcome.value.verifiedAt.None?)
  {
    var shorter := log[..|log| - 1];
    hide Licensed;
    if id in StateAfter(shorter) {
      OutcomesAgree(shorter, id);
    }
  }

  // ---- Where the promise stops ----

  function Example(quiet: Option<QuietHours>): Inventory {
    Inventory(map["web" := "production"], [Policy("steady", "production", [Grant(ConvergeServices, 1)], 1, quiet)], {})
  }

  /** A run extended by one event more. */
  ghost predicate Extends(log: seq<Event>, longer: seq<Event>, e: Event, m: Store) {
    longer == log + [e] && Run(longer) && StateAfter(longer) == m
  }

  lemma Extended(log: seq<Event>, m: Store, e: Event) returns (longer: seq<Event>)
    requires Run(log) && StateAfter(log) == m && Legal(m, e)
    ensures Extends(log, longer, e, After(m, e))
  {
    RunSnoc(log, e);
    longer := log + [e];
  }

  /** A person has an open receipt executed. */
  lemma ApprovedAt(log: seq<Event>, m: Store, id: ReceiptId, at: int, ending: Ending)
    returns (longer: seq<Event>)
    requires Run(log) && StateAfter(log) == m && id in m && m[id].status.Proposed? && Timed(at as real, ending)
    ensures
      Extends(
        log, longer, Ran(id, ByPerson(Terminal), at as real, ending),
        m[id := Concluded(m[id], ByPerson(Terminal), at, ending)])
  {
    assert (at as real).Floor == at;
    longer := Extended(log, m, Ran(id, ByPerson(Terminal), at as real, ending));
  }

  /** A receipt of a fingerprint that nothing in the store has is saved. */
  lemma SavedNext(log: seq<Event>, m: Store, receipt: Receipt) returns (longer: seq<Event>)
    requires Run(log) && StateAfter(log) == m && forall id :: id in m ==> m[id].fingerprint != receipt.fingerprint
    requires receipt == Fresh(receipt.createdAt, receipt.fingerprint, receipt.kind, receipt.server) && Keyed(m)
    ensures Extends(log, longer, Saved(receipt), m[receipt.Id() := receipt])
  {
    longer := Extended(log, m, Saved(receipt));
  }

  function Verified(receipt: Receipt, at: int): Receipt {
    Concluded(receipt, ByPerson(Terminal), at, Resolved(at + 1))
  }

  /** A store of one verified receipt and one that is open: a policy may run the open one. */
  lemma GrantsTheOther(a: Receipt, b: Receipt, policy: Policy, moment: real)
    requires a.Id() != b.Id() && a.kind == b.kind == ConvergeServices && a.status.Verified? && b.status.Proposed?
    requires a.approval == Some(Human(Terminal)) && b.approval.None?
    requires policy.grants == [Grant(ConvergeServices, 1)]
    requires policy.quietHours.Some? ==> !policy.quietHours.value.Contains(MinuteOfDay(moment))
    ensures Decide(map[a.Id() := a, b.Id() := b], b.Id(), policy, moment).Granted?
  {
    var m := map[a.Id() := a, b.Id() := b];
    assert policy.GrantFor(ConvergeServices) == Some(Grant(ConvergeServices, 1));
    assert History(m, ConvergeServices, b.Id()) == {a.Id()};
    assert VerifiedIn(m, {a.Id()}) == {a.Id()};
    assert RecentAutonomous(m, moment) == {};
  }

  /** The example's policy may run the open one of its two receipts, over and over while the starts are lost. */
  lemma MayRunTheOther(
    a: Receipt, b: Receipt, quiet: Option<QuietHours>, moment: real, started: real, ending: Ending)
    requires a == Verified(Fresh(1, 7, ConvergeServices, "web"), 1) && b == Fresh(2, 8, ConvergeServices, "web")
    requires quiet.Some? ==> !quiet.value.Contains(MinuteOfDay(moment))
    requires moment <= started && Timed(started, ending)
    ensures
      var m, license := map[a.Id() := a, b.Id() := b], ByPolicy(Example(quiet), Example(quiet).policies[0], moment);
      var lost := Lost(b.Id(), license, started);
      && Legal(m, lost) && After(m, lost) == m && Legal(m, Ran(b.Id(), license, started, ending))
  {
    GrantsTheOther(a, b, Example(quiet).policies[0], moment);
    hide Decide;
  }

  /** The run both examples below begin with: a person's verified receipt, and an open one. */
  lemma OneVerifiedOneOpen() returns (log: seq<Event>, a: Receipt, b: Receipt)
    ensures a == Verified(Fresh(1, 7, ConvergeServices, "web"), 1) && b == Fresh(2, 8, ConvergeServices, "web")
    ensures |log| == 3 && Run(log) && StateAfter(log) == map[a.Id() := a, b.Id() := b]
    ensures forall n :: 0 <= n < |log| ==> !log[n].Lost? && !(log[n].Starts() && log[n].license.ByPolicy?)
  {
    var first := Fresh(1, 7, ConvergeServices, "web");
    a, b := Verified(first, 1), Fresh(2, 8, ConvergeServices, "web");
    assert a == Concluded(first, ByPerson(Terminal), 1, Resolved(2)) && a.Id() == first.Id() == ReceiptId(1, 7);
    log := SavedNext([], map[], first);
    hide StateAfter, Run, Legal, After, Concluded, Verified;
    log := ApprovedAt(log, map[first.Id() := first], first.Id(), 1, Resolved(2));
    assert map[first.Id() := first][first.Id() := a] == map[a.Id() := a];
    assert log[1] == Ran(first.Id(), ByPerson(Terminal), 1.0, Resolved(2));
    log := SavedNext(log, map[a.Id() := a], b);
  }

  /** A run that executes the second of two receipts, and then the first, which fails. */
  lemma FailedAfterVerified() returns (log: seq<Event>, failed: Receipt, verified: Receipt)
    ensures failed == Concluded(Fresh(1, 7, ConvergeServices, "web"), ByPerson(Terminal), 20, Unresolved(21))
    ensures verified == Verified(Fresh(2, 8, ConvergeServices, "web"), 10)
    ensures |log| == 4 && Run(log) && StateAfter(log) == map[failed.Id() := failed, verified.Id() := verified]
    ensures log[2] == Ran(verified.Id(), ByPerson(Terminal), 10.0, Resolved(11))
    ensures log[3] == Ran(failed.Id(), ByPerson(Terminal), 20.0, Unresolved(21))
  {
    var a, b := Fresh(1, 7, ConvergeServices, "web"), Fresh(2, 8, ConvergeServices, "web");
    failed, verified := Concluded(a, ByPerson(Terminal), 20, Unresolved(21)), Verified(b, 10);
    log := SavedNext([], map[], a);
    hide StateAfter, Run, Legal, After, Concluded, Verified;
    log := SavedNext(log, map[a.Id() := a], b);
    log := ApprovedAt(log, map[a.Id() := a, b.Id() := b], b.Id(), 10, Resolved(11));
    log := ApprovedAt(log, map[a.Id() := a, b.Id() := verified], a.Id(), 20, Unresolved(21));
  }

  /** A failed receipt that comes before a verified one in list order does not hold a policy back. */
  lemma FailedBeforeVerified(failed: Receipt, verified: Receipt, open: Receipt, policy: Policy, moment: real)
    requires failed.kind == verified.kind == open.kind == ConvergeServices
    requires failed.status.Failed? && verified.status.Verified? && open.status.Proposed?
    requires Before(failed.Id(), verified.Id()) && Before(verified.Id(), open.Id())
    requires failed.approval == verified.approval == Some(Human(Terminal)) && open.approval.None?
    requires policy.grants == [Grant(ConvergeServices, 1)] && policy.quietHours.None?
    ensures
      Decide(
        map[failed.Id() := failed, verified.Id() := verified, open.Id() := open], open.Id(), policy, moment).Granted?
  {
    var m := map[failed.Id() := failed, verified.Id() := verified, open.Id() := open];
    assert policy.GrantFor(ConvergeServices) == Some(Grant(ConvergeServices, 1));
    assert History(m, ConvergeServices, open.Id()) == {failed.Id(), verified.Id()};
    assert VerifiedIn(m, {failed.Id(), verified.Id()}) == {verified.Id()};
    assert RecentAutonomous(m, moment) == {};
  }

  /**
   * "Most recent" is list order, not execution order: here the last execution of the kind failed,
   * and the next one is autonomous all the same, because the failed receipt was created earlier
   * than the verified one.
   */
  lemma LaterExecutedFailureDoesNotSuspend() returns (log: seq<Event>)
    ensures Run(log) && |log| == 6
    ensures log[2].Ran? && log[2].ending.Resolved?
    ensures log[3].Ran? && log[3].ending.Unresolved? && log[2].started < log[3].started
    ensures AutonomousStart(log, 5, ConvergeServices)
  {
    hide Decide, StateAfter, Run;
    var inventory := Example(None);
    var policy := inventory.policies[0];
    var c := Fresh(30, 9, ConvergeServices, "web");
    var before, failed, verified := FailedAfterVerified();
    var m := map[failed.Id() := failed, verified.Id() := verified];
    var saved := Extended(before, m, Saved(c));
    assert m[c.Id() := c] == map[failed.Id() := failed, verified.Id() := verified, c.Id() := c];
    FailedBeforeVerified(failed, verified, c, policy, 31.0);
    log := Extended(saved, m[c.Id() := c], Ran(c.Id(), ByPolicy(inventory, policy, 31.0), 31.0, Resolved(32)));
    assert log[..5] == saved && saved[..4] == before;
  }

  lemma QuietFromTheHour()
    ensures !QuietHours(60, 120).Contains(MinuteOfDay(3599.0)) && QuietHours(60, 120).Contains(MinuteOfDay(3600.0))
  {
    assert 3599.0.Floor == 3599 && 3600.0.Floor == 3600;
  }

  /**
   * Quiet hours are read at the pass's clock, once: an execution decided in the last minute before
   * them can start inside them.
   */
  lemma QuietHoursMayBeginBeforeTheRun() returns (log: seq<Event>)
    ensures Run(log) && |log| == 4
    ensures AutonomousStart(log, 3, ConvergeServices)
    ensures log[3].license.policy.quietHours.Some?
    ensures log[3].license.policy.quietHours.value.Contains(MinuteOfDay(log[3].started))
  {
    var inventory := Example(Some(QuietHours(60, 120)));
    var policy := inventory.policies[0];
    QuietFromTheHour();
    hide MinuteOfDay, QuietHours.Contains;
    var before, a, b := OneVerifiedOneOpen();
    MayRunTheOther(a, b, Some(QuietHours(60, 120)), 3599.0, 3600.0, Resolved(3601));
    hide Decide, StateAfter, Run, Legal, After, Verified, Licensed, Concluded, PolicyFor, Governs, Ungoverned;
    log := Extended(
      before, StateAfter(before), Ran(b.Id(), ByPolicy(inventory, policy, 3599.0), 3600.0, Resolved(3601)));
    assert log[..3] == before;
  }

  /**
   * A lost start leaves its receipt open and is not counted: here a policy that allows one autonomous
   * execution an hour has the engine started three times for one receipt within the hour.
   */
  lemma LostStartsExceedTheLimit() returns (log: seq<Event>)
    ensures Run(log) && |log| == 6 && LicensedWithin(log, {"steady"}, 1)
    ensures log[3].Lost? && log[4].Lost? && log[5].Ran? && log[3].id == log[4].id == log[5].id
    ensures forall j :: 3 <= j < 6 ==> AutonomousStart(log, j, ConvergeServices)
    ensures StartsIn(log, {"steady"}, 0.0) == 3 && LostIn(log, {"steady"}, 0.0) == 2
  {
    var inventory := Example(None);
    var policy := inventory.policies[0];
    hide Decide, StateAfter, Run, Legal, After;
    var before, a, b := OneVerifiedOneOpen();
    var m := StateAfter(before);
    var license := ByPolicy(inventory, policy, 10.0);
    MayRunTheOther(a, b, None, 10.0, 10.0, Resolved(11));
    var lost, ran := Lost(b.Id(), license, 10.0), Ran(b.Id(), license, 10.0, Resolved(11));
    log := StartedThrice(before, m, lost, ran, ConvergeServices);
    CountsThree(before, lost, ran, {"steady"}, 0.0);
  }

  /** An execution that is lost twice and then recorded. */
  lemma StartedThrice(before: seq<Event>, m: Store, lost: Event, ran: Event, kind: Kind) returns (log: seq<Event>)
    requires Run(before) && StateAfter(before) == m
    requires lost.Lost? && ran == Ran(lost.id, lost.license, lost.started, Resolved(11)) && lost.license.ByPolicy?
    requires lost.id in m && m[lost.id].kind == kind
    requires Legal(m, lost) && After(m, lost) == m && Legal(m, ran)
    ensures Run(log) && log == before + [lost] + [lost] + [ran]
    ensures forall j :: |before| <= j < |log| ==> AutonomousStart(log, j, kind)
  {
    hide StateAfter, Run, Legal, After;
    var once := Extended(before, m, lost);
    var twice := Extended(once, m, lost);
    log := Extended(twice, m, ran);
    assert log[..|twice|] == twice && log[..|once|] == once && log[..|before|] == before;
  }

  lemma CountsThree(log: seq<Event>, lost: Event, ran: Event, policies: set<string>, from: real)
    requires forall n :: 0 <= n < |log| ==> !log[n].Lost? && !(log[n].Starts() && log[n].license.ByPolicy?)
    requires lost.Lost? && ran.Ran? && StartedInHour(lost, policies, from) && StartedInHour(ran, policies, from)
    ensures StartsIn(log + [lost] + [lost] + [ran], policies, from) == 3
    ensures LostIn(log + [lost] + [lost] + [ran], policies, from) == 2
  {
    hide StartsIn, LostIn, StartedInHour;
    NoneStarted(log, policies, from);
    CountsNext(log, lost, policies, from);
    var once := log + [lost];
    CountsNext(once, lost, policies, from);
    var twice := once + [lost];
    CountsNext(twice, ran, policies, from);
  }

  lemma CountsNext(log: seq<Event>, e: Event, policies: set<string>, from: real)
    requires StartedInHour(e, policies, from)
    ensures StartsIn(log + [e], policies, from) == StartsIn(log, policies, from) + 1
    ensures LostIn(log + [e], policies, from) == LostIn(log, policies, from) + if e.Lost? then 1 else 0
  {
    assert (log + [e])[..|log|] == log;
  }

  lemma {:induction false} NoneStarted(log: seq<Event>, policies: set<string>, from: real)
    requires forall n :: 0 <= n < |log| ==> !log[n].Lost? && !(log[n].Starts() && log[n].license.ByPolicy?)
    ensures StartsIn(log, policies, from) == 0 && LostIn(log, policies, from) == 0
  {
    if log != [] {
      NoneStarted(log[..|log| - 1], policies, from);
    }
  }
}
