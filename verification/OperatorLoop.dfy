/**
 * The operator loop itself: the receipt store and the passes that change it
 * (sdk/src/cloudfall/operator.py). Every pass extends a ghost log of events, and the store always
 * holds what that log leaves behind, so what OperatorRuns proves of every run holds of the store.
 */
module OperatorLoop {
  import opened Results
  import opened Clocks
  import opened OperatorModel
  import opened OperatorRuns

  datatype OperatorError =
    | ProposalExists(id: ReceiptId)
    | ProposalMissing(id: ReceiptId)
    | ProposalNotOpen(id: ReceiptId, status: Status)
    | ChannelUnknown
    | ExecutionFailed
    | Uncaught

  class ProposalStore {
    var receipts: Store
    ghost var writes: seq<Receipt>
    ghost var log: seq<Event>
    /** The receipts the engine was started for, in order. */
    ghost var starts: seq<ReceiptId>

    constructor ()
      ensures receipts == map[] && writes == [] && log == [] && Tracks()
    {
      receipts := map[];
      writes := [];
      log := [];
      starts := [];
    }

    /** The store is what a legal run leaves behind, and every engine start is one of its events. */
    ghost predicate Tracks()
      reads this
    {
      Run(log) && receipts == StateAfter(log) && starts == StartsOf(log) && Keyed(receipts)
    }

    /** Appends an event the store has already carried out. */
    ghost method Note(e: Event)
      requires Run(log) && Keyed(receipts) && Legal(StateAfter(log), e)
      requires receipts == After(StateAfter(log), e)
      requires starts == if e.Starts() then StartsOf(log) + [e.id] else StartsOf(log)
      modifies this`log
      ensures Tracks() && log == old(log) + [e]
    {
      hide Legal, After;
      RunSnoc(log, e);
      assert (log + [e])[..|log|] == log;
      log := log + [e];
    }

    method Save(receipt: Receipt) returns (error: Option<OperatorError>)
      modifies this`receipts, this`writes
      ensures error == if receipt.Id() in old(receipts) then Some(ProposalExists(receipt.Id())) else None
      ensures error.Some? ==> receipts == old(receipts) && writes == old(writes)
      ensures error.None? ==> receipts == old(receipts)[receipt.Id() := receipt] && writes == old(writes) + [receipt]
    {
      if receipt.Id() in receipts {
        return Some(ProposalExists(receipt.Id()));
      }
      receipts := receipts[receipt.Id() := receipt];
      writes := writes + [receipt];
      error := None;
    }

    method Update(receipt: Receipt) returns (error: Option<OperatorError>)
      modifies this`receipts, this`writes
      ensures error == if receipt.Id() in old(receipts) then None else Some(ProposalMissing(receipt.Id()))
      ensures error.Some? ==> receipts == old(receipts) && writes == old(writes)
      ensures error.None? ==> receipts == old(receipts)[receipt.Id() := receipt] && writes == old(writes) + [receipt]
    {
      if receipt.Id() !in receipts {
        return Some(ProposalMissing(receipt.Id()));
      }
      receipts := receipts[receipt.Id() := receipt];
      writes := writes + [receipt];
      error := None;
    }

    method Load(id: ReceiptId) returns (loaded: Result<Receipt, OperatorError>)
      ensures loaded == if id in receipts then Ok(receipts[id]) else Err(ProposalMissing(id))
    {
      loaded := if id in receipts then Ok(receipts[id]) else Err(ProposalMissing(id));
    }

    /** Every receipt once, by creation time and then file name. */
    method List() returns (listed: seq<Receipt>)
      requires Keyed(receipts)
      ensures Ordered(listed)
      ensures forall r :: r in listed <==> r.Id() in receipts && receipts[r.Id()] == r
    {
      listed := [];
      var left := receipts.Keys;
      while left != {}
        invariant left <= receipts.Keys
        invariant Ordered(listed)
        invariant forall r :: r in listed <==> r.Id() in receipts.Keys - left && receipts[r.Id()] == r
        invariant forall r, id :: r in listed && id in left ==> Before(r.Id(), id)
        decreases left
      {
        ghost var least := FirstExists(left);
        var id :| id in left && forall other :: other in left ==> other == id || Before(id, other);
        listed := listed + [receipts[id]];
        left := left - {id};
      }
    }
  }

  ghost function Open(m: Store): set<ReceiptId> {
    set id | id in m && m[id].status.Proposed?
  }

  predicate Ordered(listed: seq<Receipt>) {
    forall i, j :: 0 <= i < j < |listed| ==> Before(listed[i].Id(), listed[j].Id())
  }

  lemma {:induction false} FirstExists(ids: set<ReceiptId>) returns (first: ReceiptId)
    requires ids != {}
    ensures first in ids && forall other :: other in ids ==> other == first || Before(first, other)
  {
    var id :| id in ids;
    if ids == {id} {
      first := id;
    } else {
      var rest := FirstExists(ids - {id});
      first := if Before(id, rest) then id else rest;
      assert forall other :: other in ids ==> other == id || other in ids - {id};
    }
  }

  // ---- Proposing ----

  datatype Alert = Alert(name: string, server: string, service: string, fingerprint: nat)

  datatype RunReport = RunReport(proposed: seq<ReceiptId>, skipped: seq<string>, openProposals: nat)

  predicate Declared(inventory: Inventory, alert: Alert) {
    (alert.service, alert.server) in inventory.services
  }

  /** Save one new proposal and account for it: the step both passes repeat. */
  method ProposeNew(store: ProposalStore, receipt: Receipt)
    returns (error: Option<OperatorError>)
    requires store.Tracks()
    requires receipt == Fresh(receipt.createdAt, receipt.fingerprint, receipt.kind, receipt.server)
    requires receipt.fingerprint !in Blocked(store.receipts)
    modifies store
    ensures store.Tracks()
    ensures error.Some? <==> receipt.Id() in old(store.receipts)
    ensures error.Some? ==>
      && error == Some(ProposalExists(receipt.Id()))
      && store.log == old(store.log) && store.receipts == old(store.receipts)
    ensures error.None? ==> store.log == old(store.log) + [Saved(receipt)]
    ensures error.None? ==> store.receipts == old(store.receipts)[receipt.Id() := receipt]
    ensures error.None? ==> Blocked(store.receipts) == old(Blocked(store.receipts)) + {receipt.fingerprint}
  {
    error := store.Save(receipt);
    if error.None? {
      store.Note(Saved(receipt));
      ghost var before := old(store.receipts);
      forall fingerprint
        ensures fingerprint in Blocked(store.receipts) <==>
                fingerprint in Blocked(before) || fingerprint == receipt.fingerprint
      {
        if fingerprint == receipt.fingerprint {
          assert store.receipts[receipt.Id()].Blocking();
        } else if fingerprint in Blocked(before) {
          var id :| id in before && before[id].Blocking() && before[id].fingerprint == fingerprint;
          assert store.receipts[id].fingerprint == fingerprint;
        }
      }
    }
  }

  method OpenCount(store: ProposalStore) returns (count: nat)
    ensures count == |Open(store.receipts)|
  {
    var open := set id | id in store.receipts && store.receipts[id].status.Proposed?;
    count := |open|;
  }

  function Fingerprints(receipts: seq<Receipt>): set<nat> {
    set r | r in receipts :: r.fingerprint
  }

  function SaveEvents(receipts: seq<Receipt>): (events: seq<Event>)
    ensures |events| == |receipts| && forall k :: 0 <= k < |events| ==> events[k] == Saved(receipts[k])
  {
    seq(|receipts|, k requires 0 <= k < |receipts| => Saved(receipts[k]))
  }

  function IdsOf(receipts: seq<Receipt>): (ids: seq<ReceiptId>)
    ensures |ids| == |receipts| && forall k :: 0 <= k < |ids| ==> ids[k] == receipts[k].Id()
  {
    seq(|receipts|, k requires 0 <= k < |receipts| => receipts[k].Id())
  }

  /** One trigger joins the receipts to propose unless its fingerprint is covered already. */
  function Admit(saved: seq<Receipt>, blocked: set<nat>, trigger: Receipt): seq<Receipt> {
    if trigger.fingerprint in blocked + Fingerprints(saved) then saved else saved + [trigger]
  }

  /** What one watch pass proposes and skips, alert by alert. */
  datatype Watched = Watched(saved: seq<Receipt>, skipped: seq<string>)

  function WatchNext(inventory: Inventory, now: int, w: Watched, alert: Alert, blocked: set<nat>): Watched {
    if alert.fingerprint in blocked + Fingerprints(w.saved) then w
    else if !Declared(inventory, alert) then w.(skipped := w.skipped + [alert.name])
    else w.(saved := w.saved + [AlertReceipt(now, alert)])
  }

  function AlertReceipt(now: int, alert: Alert): Receipt {
    Fresh(now, alert.fingerprint, ConvergeServices, alert.server)
  }

  function Watch(inventory: Inventory, now: int, alerts: seq<Alert>, blocked: set<nat>): Watched {
    if alerts == [] then Watched([], [])
    else
      var w := Watch(inventory, now, alerts[..|alerts| - 1], blocked);
      WatchNext(inventory, now, w, alerts[|alerts| - 1], blocked)
  }

  /**
   * A watch pass covers every firing alert of a declared service, proposes each uncovered
   * fingerprint once and nothing else, and skips only alerts of undeclared services.
   */
  lemma {:induction false} WatchCoversTheFeed(inventory: Inventory, now: int, alerts: seq<Alert>, blocked: set<nat>)
    ensures
      var w := Watch(inventory, now, alerts, blocked);
      && (forall a :: a in alerts && (a.service, a.server) in inventory.services ==>
            a.fingerprint in blocked + Fingerprints(w.saved))
      && (forall a :: a in alerts && (a.service, a.server) !in inventory.services ==>
            a.name in w.skipped || a.fingerprint in blocked + Fingerprints(w.saved))
      && (forall r :: r in w.saved ==>
            exists a :: (a in alerts && Declared(inventory, a) && a.fingerprint !in blocked
                         && r == Receipt(now, a.fingerprint, ConvergeServices, a.server, Proposed, None, None)))
      && (forall i, j :: 0 <= i < j < |w.saved| ==> w.saved[i].fingerprint != w.saved[j].fingerprint)
      && (forall name :: name in w.skipped ==> exists a :: a in alerts && !Declared(inventory, a) && a.name == name)
  {
    if alerts != [] {
      var shorter, alert := alerts[..|alerts| - 1], alerts[|alerts| - 1];
      WatchCoversTheFeed(inventory, now, shorter, blocked);
      var before, after := Watch(inventory, now, shorter, blocked), Watch(inventory, now, alerts, blocked);
      assert alert in alerts;
      assert forall f :: f in Fingerprints(before.saved) ==> f in Fingerprints(after.saved);
      assert forall a :: a in alerts ==> a == alert || a in shorter;
      if before.saved != after.saved {
        assert after.saved[|before.saved|] in after.saved;
        forall r | r in before.saved
          ensures r.fingerprint != alert.fingerprint
        {
          assert r.fingerprint in Fingerprints(before.saved);
        }
      }
    }
  }

  /** The alerts of a declared service that no receipt covered before the pass. */
  predicate Uncovered(inventory: Inventory, blocked: set<nat>, alert: Alert) {
    (alert.service, alert.server) in inventory.services && alert.fingerprint !in blocked
  }

  /** The proposal is for the first such alert of its fingerprint, and this is that alert's place in the feed. */
  predicate FirstOfIts(inventory: Inventory, blocked: set<nat>, alerts: seq<Alert>, at: nat, r: Receipt) {
    && at < |alerts| && Uncovered(inventory, blocked, alerts[at])
    && r.fingerprint == alerts[at].fingerprint && r.server == alerts[at].server
    && forall j :: 0 <= j < at && Uncovered(inventory, blocked, alerts[j]) ==> alerts[j].fingerprint != r.fingerprint
  }

  lemma FirstInLonger(inventory: Inventory, blocked: set<nat>, alerts: seq<Alert>, at: nat, r: Receipt)
    requires alerts != [] && FirstOfIts(inventory, blocked, alerts[..|alerts| - 1], at, r)
    ensures FirstOfIts(inventory, blocked, alerts, at, r) && at < |alerts| - 1
  {
    var shorter := alerts[..|alerts| - 1];
    assert forall j :: 0 <= j < |shorter| ==> shorter[j] == alerts[j];
  }

  lemma LastIsFirst(inventory: Inventory, now: int, alerts: seq<Alert>, blocked: set<nat>)
    requires alerts != []
    ensures
      var last := |alerts| - 1;
      var before := Watch(inventory, now, alerts[..last], blocked).saved;
      var after := Watch(inventory, now, alerts, blocked).saved;
      || after == before
      || (|after| == |before| + 1 && after[..|before|] == before
          && FirstOfIts(inventory, blocked, alerts, last, after[|before|]))
  {
    var last := |alerts| - 1;
    var shorter := alerts[..last];
    var before := Watch(inventory, now, shorter, blocked);
    WatchCoversTheFeed(inventory, now, shorter, blocked);
    forall j | 0 <= j < last && Uncovered(inventory, blocked, alerts[j])
      ensures alerts[j].fingerprint in Fingerprints(before.saved)
    {
      assert shorter[j] in shorter;
    }
  }

  /** What a watch pass proposes is in feed order, each for the first such alert of its fingerprint. */
  lemma {:induction false} WatchKeepsFeedOrder(inventory: Inventory, now: int, alerts: seq<Alert>, blocked: set<nat>)
    returns (at: seq<nat>)
    ensures |at| == |Watch(inventory, now, alerts, blocked).saved|
    ensures forall k :: 0 <= k < |at| ==>
      FirstOfIts(inventory, blocked, alerts, at[k], Watch(inventory, now, alerts, blocked).saved[k])
    ensures forall j, k :: 0 <= j < k < |at| ==> at[j] < at[k]
  {
    if alerts == [] {
      at := [];
    } else {
      var last := |alerts| - 1;
      LastIsFirst(inventory, now, alerts, blocked);
      hide Watch, FirstOfIts;
      at := WatchKeepsFeedOrder(inventory, now, alerts[..last], blocked);
      var before, after := Watch(inventory, now, alerts[..last], blocked), Watch(inventory, now, alerts, blocked);
      forall k | 0 <= k < |at|
        ensures FirstOfIts(inventory, blocked, alerts, at[k], before.saved[k]) && at[k] < last
      {
        FirstInLonger(inventory, blocked, alerts, at[k], before.saved[k]);
      }
      if after.saved != before.saved {
        at := at + [last];
        assert forall k :: 0 <= k < |before.saved| ==> after.saved[k] == after.saved[..|before.saved|][k];
      }
    }
  }

  /** Propose for one alert, unless it is covered or of an undeclared service. */
  method ProposeAlert(
    store: ProposalStore, inventory: Inventory, now: int, alert: Alert,
    blocking: set<nat>, ghost blocked: set<nat>, ghost base: seq<Event>, ghost w: Watched)
    returns (error: Option<OperatorError>, covered: set<nat>, proposed: seq<ReceiptId>, skipped: seq<string>)
    requires store.Tracks()
    requires blocking == Blocked(store.receipts) == blocked + Fingerprints(w.saved)
    requires store.log == base + SaveEvents(w.saved)
    modifies store
    ensures store.Tracks()
    ensures error.None? ==>
      var after := WatchNext(inventory, now, w, alert, blocked);
      && covered == Blocked(store.receipts) == blocked + Fingerprints(after.saved)
      && store.log == base + SaveEvents(after.saved)
      && IdsOf(w.saved) + proposed == IdsOf(after.saved) && w.skipped + skipped == after.skipped
    ensures error.Some? ==>
      store.log == old(store.log) && AlertStops(store.receipts, inventory, now, alert, error.value)
  {
    hide store.Tracks;
    error, covered, proposed, skipped := None, blocking, [], [];
    if alert.fingerprint in blocking {
      return;
    }
    if !Declared(inventory, alert) {
      skipped := [alert.name];
      return;
    }
    var receipt := Fresh(now, alert.fingerprint, ConvergeServices, alert.server);
    error := ProposeNew(store, receipt);
    covered := blocking + {alert.fingerprint};
    proposed := [receipt.Id()];
  }

  /** A watch pass stops at an alert no receipt covers, when the id of the receipt it would write is taken. */
  ghost predicate AlertStops(m: Store, inventory: Inventory, now: int, alert: Alert, error: OperatorError) {
    var id := ReceiptId(now, alert.fingerprint);
    && Declared(inventory, alert) && alert.fingerprint !in Blocked(m)
    && id in m && error == ProposalExists(id)
  }

  /**
   * One watch pass: the log grows by the proposals `Watch` names, in feed order. It stops short
   * only when the receipt it would write exists: that fingerprint was proposed and verified within
   * the same second.
   */
  method RunOnce(store: ProposalStore, clock: Clock, inventory: Inventory, alerts: seq<Alert>)
    returns (report: Result<RunReport, OperatorError>, ghost reached: nat)
    requires store.Tracks()
    modifies store, clock
    ensures store.Tracks()
    ensures old(clock.now) <= clock.now
    ensures report.Ok? ==>
      var w := Watch(inventory, clock.now.Floor, alerts, old(Blocked(store.receipts)));
      && store.log == old(store.log) + SaveEvents(w.saved)
      && report.value == RunReport(IdsOf(w.saved), w.skipped, |Open(store.receipts)|)
      && Blocked(store.receipts) == old(Blocked(store.receipts)) + Fingerprints(w.saved)
    ensures report.Err? ==>
      && reached < |alerts|
      && var w := Watch(inventory, clock.now.Floor, alerts[..reached], old(Blocked(store.receipts)));
         && store.log == old(store.log) + SaveEvents(w.saved)
         && AlertStops(store.receipts, inventory, clock.now.Floor, alerts[reached], report.error)
  {
    hide store.Tracks, AlertStops, WatchNext;
    var moment := clock.Read();
    var timestamp := moment.Floor;
    var blocking := Blocked(store.receipts);
    ghost var blocked, base := blocking, store.log;
    var proposed: seq<ReceiptId>, skipped: seq<string> := [], [];
    ghost var w := Watched([], []);
    reached := 0;
    for i := 0 to |alerts|
      invariant store.Tracks()
      invariant clock.now == moment
      invariant w == Watch(inventory, timestamp, alerts[..i], blocked)
      invariant blocking == Blocked(store.receipts) == blocked + Fingerprints(w.saved)
      invariant store.log == base + SaveEvents(w.saved)
      invariant proposed == IdsOf(w.saved) && skipped == w.skipped
    {
      var alert := alerts[i];
      assert alerts[..i + 1][..i] == alerts[..i];
      var error, covered, added, passed := ProposeAlert(
        store, inventory, timestamp, alert, blocking, blocked, base, w);
      if error.Some? {
        return Err(error.value), i;
      }
      blocking, proposed, skipped := covered, proposed + added, skipped + passed;
      w := WatchNext(inventory, timestamp, w, alert, blocked);
    }
    assert alerts[..|alerts|] == alerts;
    var open := OpenCount(store);
    report := Ok(RunReport(proposed, skipped, open));
  }

  // ---- Drift ----

  datatype Check = Check(name: string, drift: bool)

  datatype ServerAudit = ServerAudit(server: string, checks: seq<Check>)

  predicate IsServiceCheck(name: string) {
    "services.bind[" <= name || "alerting.rules[" <= name
  }

  /** The drifted checks one operation kind converges, in the audit's order. */
  function DriftedFor(checks: seq<Check>, kind: Kind): (names: seq<string>)
    ensures forall name :: name in names <==>
      Check(name, true) in checks
      && ("services.bind[" <= name || "alerting.rules[" <= name <==> kind.ConvergeServices?)
  {
    if checks == [] then []
    else
      var rest := DriftedFor(checks[1..], kind);
      if checks[0].drift && (IsServiceCheck(checks[0].name) <==> kind.ConvergeServices?) then [checks[0].name] + rest
      else rest
  }

  lemma DriftedFirst(checks: seq<Check>, kind: Kind)
    requires checks != []
    ensures DriftedFor(checks, kind) == DriftedFor(checks[..1], kind) + DriftedFor(checks[1..], kind)
  {
    DriftedOfOne(checks[0], kind);
    assert checks[..1] == [checks[0]];
  }

  /** The names are in the audit's order. */
  lemma {:induction false} DriftedInOrder(a: seq<Check>, b: seq<Check>, kind: Kind)
    ensures DriftedFor(a + b, kind) == DriftedFor(a, kind) + DriftedFor(b, kind)
  {
    hide *;
    if a == [] {
      DriftedOfNone(kind);
      assert a + b == b;
      assert [] + DriftedFor(b, kind) == DriftedFor(b, kind);
    } else {
      var all := a + b;
      assert all[1..] == a[1..] + b && all[..1] == a[..1];
      DriftedInOrder(a[1..], b, kind);
      DriftedFirst(a, kind);
      DriftedFirst(all, kind);
      var first, rest, more := DriftedFor(a[..1], kind), DriftedFor(a[1..], kind), DriftedFor(b, kind);
      assert first + (rest + more) == first + rest + more;
    }
  }

  lemma DriftedOfNone(kind: Kind)
    ensures DriftedFor([], kind) == []
  {
  }

  lemma DriftedOfOne(check: Check, kind: Kind)
    ensures DriftedFor([check], kind) == (
      if check.drift && ("services.bind[" <= check.name || "alerting.rules[" <= check.name <==> kind.ConvergeServices?)
      then [check.name] else [])
  {
    assert [check][1..] == [];
  }

  /** A trigger's fingerprint: what the digest of its server, operation and checks comes to. */
  type Digest = (string, Kind, seq<string>) -> nat

  function DriftReceipt(now: int, audit: ServerAudit, kind: Kind, digest: Digest): Receipt {
    Fresh(now, digest(audit.server, kind, DriftedFor(audit.checks, kind)), kind, audit.server)
  }

  function AdmitDrift(
    saved: seq<Receipt>, blocked: set<nat>, now: int, audit: ServerAudit, kind: Kind, digest: Digest): seq<Receipt>
  {
    if DriftedFor(audit.checks, kind) == [] then saved
    else Admit(saved, blocked, DriftReceipt(now, audit, kind, digest))
  }

  /** What one drift pass proposes, server by server: services before the baseline. */
  function Drift(now: int, servers: seq<ServerAudit>, blocked: set<nat>, digest: Digest): seq<Receipt> {
    if servers == [] then []
    else
      var audit := servers[|servers| - 1];
      var before := Drift(now, servers[..|servers| - 1], blocked, digest);
      var services := AdmitDrift(before, blocked, now, audit, ConvergeServices, digest);
      AdmitDrift(services, blocked, now, audit, ConvergeBaseline, digest)
  }

  /** The proposal for one server's drift of one kind: its fingerprint is of the server, the kind and the checks. */
  predicate ForDrift(now: int, audit: ServerAudit, kind: Kind, digest: Digest, r: Receipt) {
    var names := DriftedFor(audit.checks, kind);
    && names != []
    && r == Receipt(now, digest(audit.server, kind, names), kind, audit.server, Proposed, None, None)
  }

  predicate FromDrift(now: int, servers: seq<ServerAudit>, digest: Digest, r: Receipt) {
    exists audit :: audit in servers && ForDrift(now, audit, r.kind, digest, r)
  }

  lemma AdmitCovers(saved: seq<Receipt>, blocked: set<nat>, trigger: Receipt)
    ensures
      var after := Admit(saved, blocked, trigger);
      && saved <= after
      && trigger.fingerprint in blocked + Fingerprints(after)
      && Fingerprints(saved) <= Fingerprints(after)
      && (forall r :: r in after ==> r in saved || (r == trigger && r.fingerprint !in blocked + Fingerprints(saved)))
  {
    var after := Admit(saved, blocked, trigger);
    forall f | f in Fingerprints(saved)
      ensures f in Fingerprints(after)
    {
      var r :| r in saved && r.fingerprint == f;
      assert r in after;
    }
    if after != saved {
      assert after[|saved|] in after;
    }
  }

  /** A drift pass covers every server and operation kind with drifted checks. */
  lemma {:induction false} DriftCoversTheAudit(now: int, servers: seq<ServerAudit>, blocked: set<nat>, digest: Digest)
    ensures forall audit, kind :: audit in servers && DriftedFor(audit.checks, kind) != [] ==>
      digest(audit.server, kind, DriftedFor(audit.checks, kind)) in
      blocked + Fingerprints(Drift(now, servers, blocked, digest))
  {
    if servers != [] {
      var shorter, last := servers[..|servers| - 1], servers[|servers| - 1];
      DriftCoversTheAudit(now, shorter, blocked, digest);
      var before := Drift(now, shorter, blocked, digest);
      var services := AdmitDrift(before, blocked, now, last, ConvergeServices, digest);
      AdmitCovers(before, blocked, DriftReceipt(now, last, ConvergeServices, digest));
      AdmitCovers(services, blocked, DriftReceipt(now, last, ConvergeBaseline, digest));
      forall audit, kind | audit in servers && DriftedFor(audit.checks, kind) != []
        ensures
          digest(audit.server, kind, DriftedFor(audit.checks, kind)) in
          blocked + Fingerprints(Drift(now, servers, blocked, digest))
      {
        if audit != last {
          assert audit in shorter;
        } else {
          assert kind.ConvergeServices? || kind.ConvergeBaseline?;
        }
        assert Fingerprints(before) <= Fingerprints(services) <= Fingerprints(Drift(now, servers, blocked, digest));
      }
    }
  }

  /** A drift pass proposes only for drift that no open, executed or failed receipt covered, each trigger once. */
  lemma {:induction false} DriftProposesOnlyUncovered(
    now: int, servers: seq<ServerAudit>, blocked: set<nat>, digest: Digest, r: Receipt)
    requires r in Drift(now, servers, blocked, digest)
    ensures r.fingerprint !in blocked && FromDrift(now, servers, digest, r)
  {
    var shorter, last := servers[..|servers| - 1], servers[|servers| - 1];
    var before := Drift(now, shorter, blocked, digest);
    var services := AdmitDrift(before, blocked, now, last, ConvergeServices, digest);
    AdmitCovers(before, blocked, DriftReceipt(now, last, ConvergeServices, digest));
    AdmitCovers(services, blocked, DriftReceipt(now, last, ConvergeBaseline, digest));
    assert last in servers;
    if r in before {
      DriftProposesOnlyUncovered(now, shorter, blocked, digest, r);
      var audit :| audit in shorter && ForDrift(now, audit, r.kind, digest, r);
      assert audit in servers;
    }
  }

  /** The place of a trigger in an audit: a server's services are at `2 * i`, and its baseline at `2 * i + 1`. */
  predicate DriftAt(now: int, servers: seq<ServerAudit>, digest: Digest, at: nat, r: Receipt) {
    && at < 2 * |servers|
    && ForDrift(now, servers[at / 2], if at % 2 == 0 then ConvergeServices else ConvergeBaseline, digest, r)
  }

  lemma AdmitsOne(
    saved: seq<Receipt>, blocked: set<nat>, now: int, servers: seq<ServerAudit>, kind: Kind, digest: Digest)
    requires servers != []
    ensures
      var n := |servers| - 1;
      var at, after := 2 * n + (if kind.ConvergeServices? then 0 else 1),
                       AdmitDrift(saved, blocked, now, servers[n], kind, digest);
      after == saved || (|after| == |saved| + 1 && after[..|saved|] == saved
                         && DriftAt(now, servers, digest, at, after[|saved|]))
  {
    var n := |servers| - 1;
    assert (2 * n) / 2 == n && (2 * n) % 2 == 0 && (2 * n + 1) / 2 == n && (2 * n + 1) % 2 == 1;
  }

  /** The triggers are at these places of the audit, one after the other. */
  ghost predicate DriftsAt(now: int, servers: seq<ServerAudit>, digest: Digest, at: seq<nat>, saved: seq<Receipt>) {
    && |at| == |saved|
    && (forall k :: 0 <= k < |at| ==> DriftAt(now, servers, digest, at[k], saved[k]))
    && (forall j, k :: 0 <= j < k < |at| ==> at[j] < at[k])
  }

  lemma DriftsInLonger(now: int, servers: seq<ServerAudit>, digest: Digest, at: seq<nat>, saved: seq<Receipt>)
    requires servers != [] && DriftsAt(now, servers[..|servers| - 1], digest, at, saved)
    ensures DriftsAt(now, servers, digest, at, saved) && forall k :: 0 <= k < |at| ==> at[k] < 2 * (|servers| - 1)
  {
    hide ForDrift;
  }

  lemma DriftsAtNext(
    now: int, servers: seq<ServerAudit>, digest: Digest, at: seq<nat>, saved: seq<Receipt>, next: nat,
    after: seq<Receipt>)
    requires DriftsAt(now, servers, digest, at, saved) && forall k :: 0 <= k < |at| ==> at[k] < next
    requires |after| == |saved| + 1 && after[..|saved|] == saved && DriftAt(now, servers, digest, next, after[|saved|])
    ensures DriftsAt(now, servers, digest, at + [next], after)
  {
    hide DriftAt;
    assert forall k :: 0 <= k < |saved| ==> after[k] == after[..|saved|][k];
  }

  /** One kind of the last server's drift joins what is proposed, at its place. */
  lemma PlacesNext(
    saved: seq<Receipt>, blocked: set<nat>, now: int, servers: seq<ServerAudit>, kind: Kind, digest: Digest,
    at: seq<nat>)
    returns (more: seq<nat>)
    requires servers != [] && DriftsAt(now, servers, digest, at, saved)
    requires forall k :: 0 <= k < |at| ==> at[k] < 2 * |servers| - (if kind.ConvergeServices? then 2 else 1)
    ensures DriftsAt(now, servers, digest, more, AdmitDrift(saved, blocked, now, servers[|servers| - 1], kind, digest))
    ensures forall k :: 0 <= k < |more| ==> more[k] < 2 * |servers| - (if kind.ConvergeServices? then 1 else 0)
  {
    hide *;
    AdmitsOne(saved, blocked, now, servers, kind, digest);
    var after := AdmitDrift(saved, blocked, now, servers[|servers| - 1], kind, digest);
    more := at;
    if after != saved {
      var next := 2 * (|servers| - 1) + (if kind.ConvergeServices? then 0 else 1);
      DriftsAtNext(now, servers, digest, at, saved, next, after);
      more := at + [next];
    }
  }

  /** What a drift pass proposes is in the audit's order, the services of a server before its baseline. */
  lemma {:induction false} DriftKeepsAuditOrder(now: int, servers: seq<ServerAudit>, blocked: set<nat>, digest: Digest)
    returns (at: seq<nat>)
    ensures DriftsAt(now, servers, digest, at, Drift(now, servers, blocked, digest))
  {
    if servers == [] {
      at := [];
    } else {
      hide AdmitDrift, DriftsAt;
      var n := |servers| - 1;
      at := DriftKeepsAuditOrder(now, servers[..n], blocked, digest);
      var before := Drift(now, servers[..n], blocked, digest);
      DriftsInLonger(now, servers, digest, at, before);
      at := PlacesNext(before, blocked, now, servers, ConvergeServices, digest, at);
      var services := AdmitDrift(before, blocked, now, servers[n], ConvergeServices, digest);
      at := PlacesNext(services, blocked, now, servers, ConvergeBaseline, digest, at);
    }
  }

  /** Propose for one server's drift of one kind, unless it is covered. */
  method ProposeDrift(
    store: ProposalStore, now: int, audit: ServerAudit, kind: Kind, digest: Digest,
    blocking: set<nat>, ghost blocked: set<nat>, ghost base: seq<Event>, ghost saved: seq<Receipt>)
    returns (error: Option<OperatorError>, covered: set<nat>, proposed: seq<ReceiptId>)
    requires store.Tracks()
    requires blocking == Blocked(store.receipts) == blocked + Fingerprints(saved)
    requires store.log == base + SaveEvents(saved)
    modifies store
    ensures store.Tracks()
    ensures error.None? ==>
      var after := AdmitDrift(saved, blocked, now, audit, kind, digest);
      && covered == Blocked(store.receipts) == blocked + Fingerprints(after)
      && store.log == base + SaveEvents(after)
      && IdsOf(saved) + proposed == IdsOf(after)
    ensures error.Some? ==>
      store.log == old(store.log) && DriftStops(store.receipts, now, audit, kind, digest, error.value)
  {
    hide store.Tracks;
    error, covered, proposed := None, blocking, [];
    var names := DriftedFor(audit.checks, kind);
    if names != [] {
      var receipt := Fresh(now, digest(audit.server, kind, names), kind, audit.server);
      if receipt.fingerprint !in blocking {
        error := ProposeNew(store, receipt);
        covered := blocking + {receipt.fingerprint};
        proposed := [receipt.Id()];
      }
    }
  }

  /** A drift pass stops at a trigger no receipt covers, when the id of the receipt it would write is taken. */
  ghost predicate DriftStops(m: Store, now: int, audit: ServerAudit, kind: Kind, digest: Digest, error: OperatorError) {
    var receipt := DriftReceipt(now, audit, kind, digest);
    && DriftedFor(audit.checks, kind) != [] && receipt.fingerprint !in Blocked(m)
    && receipt.Id() in m && error == ProposalExists(receipt.Id())
  }

  /**
   * One drift pass: the log grows by the proposals `Drift` names, at most two for each server. When
   * it stops short, it has saved those of the servers before `reached`, and of that server's two
   * operation kinds those before `stopped`.
   */
  method DriftPass(store: ProposalStore, clock: Clock, servers: seq<ServerAudit>, digest: Digest)
    returns (report: Result<RunReport, OperatorError>, ghost reached: nat, ghost stopped: Kind)
    requires store.Tracks()
    modifies store, clock
    ensures store.Tracks()
    ensures old(clock.now) <= clock.now
    ensures report.Ok? ==>
      var saved := Drift(clock.now.Floor, servers, old(Blocked(store.receipts)), digest);
      && store.log == old(store.log) + SaveEvents(saved)
      && report.value == RunReport(IdsOf(saved), [], |Open(store.receipts)|)
      && Blocked(store.receipts) == old(Blocked(store.receipts)) + Fingerprints(saved)
    ensures report.Err? ==>
      && reached < |servers|
      && var now, blocked := clock.now.Floor, old(Blocked(store.receipts));
         var before := Drift(now, servers[..reached], blocked, digest);
         var services := AdmitDrift(before, blocked, now, servers[reached], ConvergeServices, digest);
         && store.log == old(store.log) + SaveEvents(if stopped.ConvergeServices? then before else services)
         && DriftStops(store.receipts, now, servers[reached], stopped, digest, report.error)
  {
    hide store.Tracks, DriftStops;
    var moment := clock.Read();
    var timestamp := moment.Floor;
    var blocking := Blocked(store.receipts);
    ghost var blocked, base := blocking, store.log;
    var proposed: seq<ReceiptId> := [];
    ghost var saved: seq<Receipt> := [];
    reached, stopped := 0, ConvergeServices;
    for i := 0 to |servers|
      invariant store.Tracks()
      invariant clock.now == moment
      invariant saved == Drift(timestamp, servers[..i], blocked, digest)
      invariant blocking == Blocked(store.receipts) == blocked + Fingerprints(saved)
      invariant store.log == base + SaveEvents(saved)
      invariant proposed == IdsOf(saved)
    {
      var audit := servers[i];
      assert servers[..i + 1][..i] == servers[..i];
      var error, covered, services := ProposeDrift(
        store, timestamp, audit, ConvergeServices, digest, blocking, blocked, base, saved);
      if error.Some? {
        return Err(error.value), i, ConvergeServices;
      }
      ghost var middle := AdmitDrift(saved, blocked, timestamp, audit, ConvergeServices, digest);
      var baseline;
      error, blocking, baseline := ProposeDrift(
        store, timestamp, audit, ConvergeBaseline, digest, covered, blocked, base, middle);
      if error.Some? {
        return Err(error.value), i, ConvergeBaseline;
      }
      saved := AdmitDrift(middle, blocked, timestamp, audit, ConvergeBaseline, digest);
      proposed := proposed + services + baseline;
    }
    assert servers[..|servers|] == servers;
    var open := OpenCount(store);
    report := Ok(RunReport(proposed, [], open));
  }

  // ---- Executing and verifying ----

  /** What the engine run did: it returned, raised an error the loop records, or raised anything else. */
  datatype ExecutorAnswer = Converged | RaisedError | RaisedOther

  datatype VerifierAnswer = Passes | Fails | Raises

  /** The answer of each verifier call, in call order. */
  type Verifier = nat -> VerifierAnswer

  type Seconds = r: real | r > 0.0 witness 1.0

  datatype Options = Options(timeout: real, poll: Seconds)

  /** Verifier call number `k` (from 0) is made unless an earlier one decided: call 0 always is. */
  predicate Reached(options: Options, k: nat) {
    k == 0 || (k - 1) as real * options.poll < options.timeout
  }

  predicate FirstDecisive(verifier: Verifier, options: Options, k: nat, answer: VerifierAnswer) {
    Reached(options, k) && verifier(k) == answer && forall j :: 0 <= j < k ==> verifier(j).Fails?
  }

  datatype Execution =
    | Returned(receipt: Receipt)
    | Raised(error: OperatorError)

  ghost predicate EndsAs(ending: Ending, executor: ExecutorAnswer, verifier: Verifier, options: Options) {
    match ending
    case ExecutorFailed => executor.RaisedError?
    case LeftExecuted => executor.Converged? && exists k: nat :: FirstDecisive(verifier, options, k, Raises)
    case Resolved(_) => executor.Converged? && exists k: nat :: FirstDecisive(verifier, options, k, Passes)
    case Unresolved(_) => executor.Converged? && forall k: nat :: Reached(options, k) ==> verifier(k).Fails?
  }

  /** A verification was recorded at a reading of the clock after the execution's. */
  ghost predicate ReadBetween(ending: Ending, started: real, now: real) {
    ending.Resolved? || ending.Unresolved? ==> exists read: real :: started <= read <= now && ending.at == read.Floor
  }

  /** What the caller of an execution hears: errors are raised once the store is written. */
  function Answered(receipt: Receipt, ending: Ending): Execution {
    match ending
    case ExecutorFailed => Raised(ExecutionFailed)
    case LeftExecuted => Raised(Uncaught)
    case _ => Returned(receipt)
  }

  /** The receipts written for one execution, in order: it passes through `executed` unless the engine failed. */
  ghost function Trail(receipt: Receipt, license: License, at: int, ending: Ending): seq<Receipt> {
    if ending.ExecutorFailed? || ending.LeftExecuted? then [Concluded(receipt, license, at, ending)]
    else [Concluded(receipt, license, at, LeftExecuted), Concluded(receipt, license, at, ending)]
  }

  lemma PollStep(options: Options, k: nat)
    ensures (k + 1) as real * options.poll == k as real * options.poll + options.poll
  {
  }

  lemma TimesPoll(a: real, b: real, poll: Seconds)
    requires a <= b
    ensures a * poll <= b * poll
  {
  }

  lemma ReachedBound(options: Options, k: nat)
    requires k >= 1 && Reached(options, k)
    ensures (k - 1) as real < options.timeout / options.poll
  {
    var q := options.timeout / options.poll;
    assert q * options.poll == options.timeout;
    if q <= (k - 1) as real {
      TimesPoll(q, (k - 1) as real, options.poll);
    }
  }

  lemma ReachedBefore(options: Options, j: nat, k: nat)
    requires j <= k && Reached(options, k)
    ensures Reached(options, j)
  {
    if 0 < j < k {
      assert (j - 1) as real * options.poll <= (k - 1) as real * options.poll;
    }
  }

  /**
   * The verify loop. It calls the verifier at growing waits until a call passes, raises, or the
   * wait reached the timeout, and so makes at most ceil(timeout / poll) + 1 calls.
   */
  method Verify(verifier: Verifier, options: Options) returns (answer: VerifierAnswer, calls: nat)
    ensures 1 <= calls && Reached(options, calls - 1)
    ensures calls >= 2 ==> (calls - 2) as real < options.timeout / options.poll
    ensures !answer.Fails? ==> FirstDecisive(verifier, options, calls - 1, answer)
    ensures answer.Fails? ==> options.timeout <= (calls - 1) as real * options.poll
    ensures calls >= 2 ==> (calls - 2) as real * options.poll < options.timeout
    ensures answer.Fails? ==> forall k: nat :: Reached(options, k) ==> k < calls && verifier(k).Fails?
  {
    var waited := 0.0;
    calls := 0;
    while true
      invariant waited == calls as real * options.poll
      invariant Reached(options, calls)
      invariant forall k :: 0 <= k < calls ==> verifier(k).Fails?
      invariant calls as real < options.timeout / options.poll + 1.0 || calls == 0
      decreases (options.timeout / options.poll).Floor + 1 - calls, calls == 0
    {
      answer := verifier(calls);
      calls := calls + 1;
      if !answer.Fails? {
        break;
      }
      if waited >= options.timeout {
        forall k: nat | Reached(options, k)
          ensures k < calls && verifier(k).Fails?
        {
          if k >= calls {
            ReachedBefore(options, calls, k);
          }
        }
        break;
      }
      PollStep(options, calls - 1);
      waited := waited + options.poll;
      ReachedBound(options, calls);
    }
  }

  /** Run the engine, record the execution, then poll the verifier: every write of one execution, in order. */
  method Execute(
    store: ProposalStore, clock: Clock, proposal: Receipt,
    executor: ExecutorAnswer, verifier: Verifier, approval: Approval, options: Options,
    ghost license: License)
    returns (result: Execution, started: real, ghost ending: Ending)
    requires proposal.Id() in store.receipts
    requires approval == ApprovalOf(license)
    modifies store`receipts, store`writes, store`starts, clock
    ensures old(clock.now) <= started <= clock.now
    ensures store.starts == old(store.starts) + [proposal.Id()]
    ensures executor.RaisedOther? ==>
      result == Raised(Uncaught) && store.receipts == old(store.receipts) && store.writes == old(store.writes)
    ensures !executor.RaisedOther? ==>
      && EndsAs(ending, executor, verifier, options) && ReadBetween(ending, started, clock.now)
      && store.receipts == old(store.receipts)[proposal.Id() := Concluded(proposal, license, started.Floor, ending)]
      && store.writes == old(store.writes) + Trail(proposal, license, started.Floor, ending)
      && result == Answered(Concluded(proposal, license, started.Floor, ending), ending)
  {
    started := clock.Read();
    var executedAt := started.Floor;
    store.starts := store.starts + [proposal.Id()];
    ending := ExecutorFailed;
    match executor {
      case RaisedOther =>
        result := Raised(Uncaught);
      case RaisedError =>
        var failed := proposal.(
          status := Failed, approval := Some(approval), outcome := Some(Outcome(executedAt, None, false)));
        var _ := store.Update(failed);
        result := Raised(ExecutionFailed);
      case Converged =>
        var executed := proposal.(
          status := Executed, approval := Some(approval), outcome := Some(Outcome(executedAt, None, false)));
        var _ := store.Update(executed);
        var answer, calls := Verify(verifier, options);
        if answer.Raises? {
          ending := LeftExecuted;
          result := Raised(Uncaught);
        } else {
          var read := clock.Read();
          var settled := executed.(
            status := if answer.Passes? then Verified else Failed,
            outcome := Some(Outcome(executedAt, Some(read.Floor), answer.Passes?)));
          var _ := store.Update(settled);
          ending := if answer.Passes? then Resolved(read.Floor) else Unresolved(read.Floor);
          result := Returned(settled);
        }
    }
  }

  /**
   * The receipt an execution leaves, from what the engine and the verifier answered: failed when the
   * engine raised, executed when the verifier did, verified exactly when a call of it passed.
   */
  ghost predicate LeftBy(
    r: Receipt, proposal: Receipt, approval: Approval, started: real, now: real, executor: ExecutorAnswer,
    verifier: Verifier, options: Options)
  {
    var raises := exists k: nat :: FirstDecisive(verifier, options, k, Raises);
    var passes := exists k: nat :: FirstDecisive(verifier, options, k, Passes);
    && r.createdAt == proposal.createdAt && r.fingerprint == proposal.fingerprint
    && r.kind == proposal.kind && r.server == proposal.server
    && r.approval == Some(approval) && r.outcome.Some? && r.outcome.value.executedAt == started.Floor
    && (r.status.Verified? <==> executor.Converged? && passes)
    && (r.status.Executed? <==> executor.Converged? && raises)
    && (r.status.Failed? <==> executor.RaisedError? || (executor.Converged? && !raises && !passes))
    && r.outcome.value.verified == r.status.Verified?
    && (r.outcome.value.verifiedAt.Some? <==> executor.Converged? && !raises)
    && (r.outcome.value.verifiedAt.Some? ==>
          exists read: real :: started <= read <= now && r.outcome.value.verifiedAt == Some(read.Floor))
  }

  /** What the caller of that execution hears. */
  ghost predicate Heard(
    result: Execution, r: Receipt, executor: ExecutorAnswer, verifier: Verifier, options: Options)
  {
    if executor.RaisedError? then result == Raised(ExecutionFailed)
    else if exists k: nat :: FirstDecisive(verifier, options, k, Raises) then result == Raised(Uncaught)
    else result == Returned(r)
  }

  lemma OneDecides(verifier: Verifier, options: Options, j: nat, k: nat, a: VerifierAnswer, b: VerifierAnswer)
    requires FirstDecisive(verifier, options, j, a) && FirstDecisive(verifier, options, k, b)
    requires !a.Fails? && !b.Fails?
    ensures j == k && a == b
  {
  }

  lemma ConcludedAsAnswered(
    proposal: Receipt, license: License, started: real, now: real, ending: Ending, executor: ExecutorAnswer,
    verifier: Verifier, options: Options)
    requires EndsAs(ending, executor, verifier, options) && ReadBetween(ending, started, now)
    ensures
      var r := Concluded(proposal, license, started.Floor, ending);
      && LeftBy(r, proposal, ApprovalOf(license), started, now, executor, verifier, options)
      && Heard(Answered(r, ending), r, executor, verifier, options)
  {
    forall j: nat, k: nat, a: VerifierAnswer, b: VerifierAnswer
      | FirstDecisive(verifier, options, j, a) && FirstDecisive(verifier, options, k, b) && !a.Fails? && !b.Fails?
      ensures a == b
    {
      OneDecides(verifier, options, j, k, a, b);
    }
  }

  /** What one execution comes to in the log, the store, and for its caller. */
  ghost predicate Recorded(
    before: Store, after: Store, proposal: Receipt, license: License, started: real, ending: Ending, result: Execution)
  {
    && after == before[proposal.Id() := Concluded(proposal, license, started.Floor, ending)]
    && result == Answered(Concluded(proposal, license, started.Floor, ending), ending)
  }

  /**
   * `_execute_and_verify`. What the store keeps follows from what the engine and the verifier
   * answered. An engine failure the loop does not expect is lost: the store stays as it was. A
   * verifier that raises leaves the receipt executed.
   */
  method ExecuteAndVerify(
    store: ProposalStore, clock: Clock, proposal: Receipt,
    executor: ExecutorAnswer, verifier: Verifier, approval: Approval, options: Options,
    ghost license: License)
    returns (result: Execution)
    requires store.Tracks()
    requires proposal.Id() in store.receipts && store.receipts[proposal.Id()] == proposal && proposal.status.Proposed?
    requires approval == ApprovalOf(license)
    requires forall started :: clock.now <= started ==> Licensed(store.receipts, proposal.Id(), license, started)
    modifies store, clock
    ensures store.Tracks()
    ensures old(clock.now) <= clock.now
    ensures executor.RaisedOther? ==>
      && result == Raised(Uncaught) && store.receipts == old(store.receipts) && store.writes == old(store.writes)
      && exists started ::
           (&& old(clock.now) <= started <= clock.now
            && store.log == old(store.log) + [Lost(proposal.Id(), license, started)])
    ensures !executor.RaisedOther? ==> exists started, ending ::
      (&& old(clock.now) <= started <= clock.now
       && EndsAs(ending, executor, verifier, options) && ReadBetween(ending, started, clock.now)
       && store.log == old(store.log) + [Ran(proposal.Id(), license, started, ending)]
       && store.writes == old(store.writes) + Trail(proposal, license, started.Floor, ending)
       && proposal.Id() in store.receipts
       && LeftBy(
            store.receipts[proposal.Id()], proposal, approval, started, clock.now, executor, verifier, options)
       && Heard(result, store.receipts[proposal.Id()], executor, verifier, options)
       && Recorded(old(store.receipts), store.receipts, proposal, license, started, ending, result))
  {
    hide Licensed, Concluded, EndsAs, Trail, Answered, StateAfter, Run, StartsOf, LeftBy, Heard, ReadBetween;
    var started;
    ghost var ending;
    result, started, ending := Execute(store, clock, proposal, executor, verifier, approval, options, license);
    ghost var e :=
      if executor.RaisedOther? then Lost(proposal.Id(), license, started)
      else Ran(proposal.Id(), license, started, ending);
    ConcludedKeepsId(proposal, license, started.Floor, ending);
    if !executor.RaisedOther? {
      ReadIsTimed(ending, started, clock.now);
      ConcludedAsAnswered(proposal, license, started, clock.now, ending, executor, verifier, options);
    }
    store.Note(e);
  }

  lemma ReadIsTimed(ending: Ending, started: real, now: real)
    requires ReadBetween(ending, started, now)
    ensures Timed(started, ending)
  {
  }

  lemma ConcludedKeepsId(receipt: Receipt, license: License, at: int, ending: Ending)
    ensures Concluded(receipt, license, at, ending).Id() == receipt.Id()
  {
  }

  /** A person's approval of one open proposal; every refusal comes before anything runs. */
  method Approve(
    store: ProposalStore, clock: Clock, id: ReceiptId,
    executor: ExecutorAnswer, verifier: Verifier, options: Options, via: Channel)
    returns (result: Execution)
    requires store.Tracks()
    modifies store, clock
    ensures store.Tracks()
    ensures via.Unknown? ==> result == Raised(ChannelUnknown)
    ensures via.Terminal? && id !in old(store.receipts) ==> result == Raised(ProposalMissing(id))
    ensures via.Terminal? && id in old(store.receipts) && !old(store.receipts)[id].status.Proposed? ==>
      result == Raised(ProposalNotOpen(id, old(store.receipts)[id].status))
    ensures via.Unknown? || id !in old(store.receipts) || !old(store.receipts)[id].status.Proposed? ==>
      && store.log == old(store.log) && store.receipts == old(store.receipts)
      && store.writes == old(store.writes) && store.starts == old(store.starts)
    ensures via.Terminal? && id in old(store.receipts) && old(store.receipts)[id].status.Proposed? ==>
      if executor.RaisedOther? then
        && result == Raised(Uncaught) && store.receipts == old(store.receipts) && store.writes == old(store.writes)
        && exists started :: store.log == old(store.log) + [Lost(id, ByPerson(Terminal), started)]
      else
        exists started, ending ::
          (&& old(clock.now) <= started && EndsAs(ending, executor, verifier, options)
           && ReadBetween(ending, started, clock.now)
           && id in store.receipts
           && LeftBy(
                store.receipts[id], old(store.receipts)[id], Human(Terminal), started, clock.now, executor, verifier,
                options)
           && Heard(result, store.receipts[id], executor, verifier, options)
           && store.log == old(store.log) + [Ran(id, ByPerson(Terminal), started, ending)]
           && Recorded(
                old(store.receipts), store.receipts, old(store.receipts)[id], ByPerson(Terminal), started, ending,
                result))
  {
    hide EndsAs, StateAfter, Run, StartsOf, Recorded, Trail, LeftBy, Heard, ReadBetween;
    if via.Unknown? {
      return Raised(ChannelUnknown);
    }
    var loaded := store.Load(id);
    if loaded.Err? {
      return Raised(loaded.error);
    }
    var proposal := loaded.value;
    if !proposal.status.Proposed? {
      return Raised(ProposalNotOpen(id, proposal.status));
    }
    result := ExecuteAndVerify(store, clock, proposal, executor, verifier, Human(via), options, ByPerson(via));
  }

  // ---- Autonomy ----

  datatype Withholding = NoPolicy | Withheld(decision: Decision)

  datatype AutonomyReport = AutonomyReport(
    executed: seq<(ReceiptId, Status)>, withheld: seq<(ReceiptId, Withholding)>)

  function Ids<T(==)>(entries: seq<(ReceiptId, T)>): (ids: set<ReceiptId>) {
    set e | e in entries :: e.0
  }

  lemma IdsSnoc<T>(entries: seq<(ReceiptId, T)>, entry: (ReceiptId, T))
    ensures Ids(entries + [entry]) == Ids(entries) + {entry.0}
  {
    assert entry in entries + [entry];
    assert forall e :: e in entries ==> e in entries + [entry];
  }

  /** The events a pass added are starts that declared policies licensed at the moment it read the clock. */
  ghost predicate OnlyLicensedAt(before: seq<Event>, after: seq<Event>, inventory: Inventory, moment: real) {
    && before <= after
    && forall k :: |before| <= k < |after| ==>
      && after[k].Starts() && after[k].license.ByPolicy?
      && after[k].license.moment == moment && after[k].license.inventory == inventory
  }

  lemma LicensedTogether(a: seq<Event>, b: seq<Event>, c: seq<Event>, inventory: Inventory, moment: real)
    requires OnlyLicensedAt(a, b, inventory, moment) && OnlyLicensedAt(b, c, inventory, moment)
    ensures OnlyLicensedAt(a, c, inventory, moment)
  {
  }

  /** The engine run ended as the engine and the verifier answered. */
  ghost predicate EndedFor(e: Event, executor: ExecutorAnswer, verifier: Verifier, options: Options) {
    match e
    case Saved(_) => false
    case Lost(_, _, _) => executor.RaisedOther?
    case Ran(_, _, _, ending) => EndsAs(ending, executor, verifier, options)
  }

  /** The caller of this execution hears an error. */
  predicate Raising(e: Event) {
    e.Lost? || (e.Ran? && (e.ending.ExecutorFailed? || e.ending.LeftExecuted?))
  }

  function ErrorOf(e: Event): OperatorError {
    if e.Ran? && e.ending.ExecutorFailed? then ExecutionFailed else Uncaught
  }

  /** Each event added is an execution that ended as its own engine and verifier answered, and none raised. */
  ghost predicate QuietlyAnswered(
    before: seq<Event>, after: seq<Event>, executors: ReceiptId -> ExecutorAnswer, verifiers: ReceiptId -> Verifier,
    options: Options)
  {
    && before <= after
    && forall k :: |before| <= k < |after| ==>
      after[k].Starts() && !Raising(after[k])
      && EndedFor(after[k], executors(after[k].id), verifiers(after[k].id), options)
  }

  /** The same, but that the last execution raised this error. */
  ghost predicate LastRaised(
    before: seq<Event>, after: seq<Event>, executors: ReceiptId -> ExecutorAnswer, verifiers: ReceiptId -> Verifier,
    options: Options, error: OperatorError)
  {
    && |before| < |after| && QuietlyAnswered(before, after[..|after| - 1], executors, verifiers, options)
    && var last := after[|after| - 1];
       && last.Starts() && Raising(last) && error == ErrorOf(last)
       && EndedFor(last, executors(last.id), verifiers(last.id), options)
  }

  lemma AnsweredNext(
    before: seq<Event>, after: seq<Event>, e: Event, executors: ReceiptId -> ExecutorAnswer,
    verifiers: ReceiptId -> Verifier, options: Options)
    requires QuietlyAnswered(before, after, executors, verifiers, options)
    requires e.Starts() && EndedFor(e, executors(e.id), verifiers(e.id), options)
    ensures !Raising(e) ==> QuietlyAnswered(before, after + [e], executors, verifiers, options)
    ensures Raising(e) ==> LastRaised(before, after + [e], executors, verifiers, options, ErrorOf(e))
  {
    hide EndedFor, Raising;
    assert (after + [e])[..|after|] == after;
  }

  datatype Considered =
    | Withhold(why: Withholding)
    | Finished(status: Status)
    | Aborted(error: OperatorError)

  /** The reason a receipt was kept back, as the store stood. */
  ghost predicate Explains(m: Store, inventory: Inventory, moment: real, id: ReceiptId, why: Withholding) {
    id in m &&
    var policy := PolicyFor(inventory, m[id].server);
    match why
    case NoPolicy => policy.None?
    case Withheld(decision) => policy.Some? && decision == Decide(m, id, policy.value, moment) && !decision.Granted?
  }

  /** The store and the log before and after one proposal was considered. */
  datatype Turn = Turn(before: Store, after: Store, logged: seq<Event>, log: seq<Event>)

  /**
   * What considering a proposal came to: kept back for its reason, with nothing written, or run under its
   * own environment's policy, as one event that ended as the engine and the verifier answered.
   */
  ghost predicate ConsideredAs(
    t: Turn, inventory: Inventory, proposal: Receipt, moment: real, executor: ExecutorAnswer, verifier: Verifier,
    options: Options, considered: Considered)
  {
    var id, policy := proposal.Id(), PolicyFor(inventory, proposal.server);
    && OnlyLicensedAt(t.logged, t.log, inventory, moment)
    && id in t.before && t.after.Keys == t.before.Keys
    && (forall other :: other in t.after && other != id ==> t.after[other] == t.before[other])
    && match considered
       case Withhold(why) =>
         && t.after == t.before && t.log == t.logged && Explains(t.after, inventory, moment, id, why)
         && (why.NoPolicy? <==> Ungoverned(inventory, proposal.server))
       case Finished(status) =>
         && policy.Some? && t.after[id].status == status && (status.Verified? || status.Failed?)
         && t.after[id].approval == Some(Autonomous(policy.value.id))
         && |t.log| == |t.logged| + 1 && !Raising(t.log[|t.logged|])
         && RanFor(t, id, executor, verifier, options)
       case Aborted(error) =>
         && policy.Some? && |t.log| == |t.logged| + 1
         && Raising(t.log[|t.logged|]) && error == ErrorOf(t.log[|t.logged|])
         && RanFor(t, id, executor, verifier, options)
  }

  /** One execution of the receipt was added to the log. */
  ghost predicate RanFor(t: Turn, id: ReceiptId, executor: ExecutorAnswer, verifier: Verifier, options: Options)
    requires |t.log| == |t.logged| + 1
  {
    var e := t.log[|t.logged|];
    t.log == t.logged + [e] && e.Starts() && e.id == id && EndedFor(e, executor, verifier, options)
  }

  /** Decide one open proposal and run it when its policy grants it. */
  method Consider(
    store: ProposalStore, clock: Clock, inventory: Inventory, proposal: Receipt, moment: real,
    executor: ExecutorAnswer, verifier: Verifier, options: Options)
    returns (considered: Considered)
    requires store.Tracks()
    requires proposal.Id() in store.receipts && store.receipts[proposal.Id()] == proposal && proposal.status.Proposed?
    requires moment <= clock.now
    modifies store, clock
    ensures store.Tracks()
    ensures old(clock.now) <= clock.now
    ensures ConsideredAs(
      Turn(old(store.receipts), store.receipts, old(store.log), store.log), inventory, proposal, moment,
      executor, verifier, options, considered)
  {
    hide Decide, LeftBy, Heard, Trail, EndsAs, ReadBetween, StateAfter, Run, StartsOf;
    var policy := PolicyFor(inventory, proposal.server);
    if policy.None? {
      return Withhold(NoPolicy);
    }
    var decision := Decide(store.receipts, proposal.Id(), policy.value, moment);
    if !decision.Granted? {
      return Withhold(Withheld(decision));
    }
    var result := ExecuteAndVerify(
      store, clock, proposal, executor, verifier,
      Autonomous(policy.value.id), options, ByPolicy(inventory, policy.value, moment));
    considered := match result
      case Raised(error) => Aborted(error)
      case Returned(receipt) => Finished(receipt.status);
  }

  ghost predicate Lists(listed: seq<Receipt>, m: Store) {
    Ordered(listed) && forall r :: r in listed <==> r.Id() in m && m[r.Id()] == r
  }

  /**
   * The first `i` receipts of the snapshot are decided: the open ones among them ran and are open
   * no more, or were kept; every other receipt is as the snapshot has it.
   */
  ghost predicate Decided(
    from: Store, now: Store, listed: seq<Receipt>, i: nat, ran: set<ReceiptId>, kept: set<ReceiptId>)
    requires i <= |listed|
  {
    && now.Keys == from.Keys
    && ran !! kept && ran + kept <= Open(from)
    && (forall id :: id in from && id !in ran ==> now[id] == from[id])
    && (forall id :: id in ran ==> now[id].status.Verified? || now[id].status.Failed?)
    && (forall k :: 0 <= k < i && listed[k].status.Proposed? ==> listed[k].Id() in ran + kept)
    && (forall k :: i <= k < |listed| ==> listed[k].Id() !in ran + kept)
  }

  lemma NextUndecided(from: Store, listed: seq<Receipt>, i: nat)
    requires i < |listed| && Lists(listed, from)
    ensures listed[i].Id() in from && from[listed[i].Id()] == listed[i]
    ensures forall k :: i < k < |listed| ==> listed[k].Id() != listed[i].Id()
  {
    assert listed[i] in listed;
    forall k | i < k < |listed|
      ensures listed[k].Id() != listed[i].Id()
    {
      assert Before(listed[i].Id(), listed[k].Id());
    }
  }

  lemma StillOpen(from: Store, now: Store, listed: seq<Receipt>, i: nat, ran: set<ReceiptId>, kept: set<ReceiptId>)
    requires i < |listed| && Lists(listed, from) && Decided(from, now, listed, i, ran, kept)
    ensures listed[i].Id() in now && now[listed[i].Id()] == listed[i] && listed[i].Id() !in ran
  {
    NextUndecided(from, listed, i);
  }

  lemma DecideNext(
    from: Store, now: Store, next: Store, listed: seq<Receipt>, i: nat,
    ran: set<ReceiptId>, kept: set<ReceiptId>, ran': set<ReceiptId>, kept': set<ReceiptId>)
    requires i < |listed| && Lists(listed, from) && Decided(from, now, listed, i, ran, kept)
    requires
      var id := listed[i].Id();
      || (!listed[i].status.Proposed? && next == now && ran' == ran && kept' == kept)
      || (listed[i].status.Proposed? && next == now && ran' == ran && kept' == kept + {id})
      || (listed[i].status.Proposed? && next.Keys == now.Keys && ran' == ran + {id} && kept' == kept
          && (forall o :: o in now && o != id ==> next[o] == now[o])
          && (id in next ==> next[id].status.Verified? || next[id].status.Failed?))
    ensures Decided(from, next, listed, i + 1, ran', kept')
  {
    NextUndecided(from, listed, i);
  }

  lemma AllDecided(from: Store, now: Store, listed: seq<Receipt>, ran: set<ReceiptId>, kept: set<ReceiptId>)
    requires Keyed(from) && Lists(listed, from) && Decided(from, now, listed, |listed|, ran, kept)
    ensures ran + kept == Open(from) && kept == Open(now)
  {
    forall id | id in Open(from)
      ensures id in ran + kept
    {
      assert from[id] in listed;
    }
  }

  ghost predicate ReportsRuns(executed: seq<(ReceiptId, Status)>, m: Store) {
    forall e :: e in executed ==> e.0 in m && m[e.0].status == e.1 && (e.1.Verified? || e.1.Failed?)
  }

  lemma ReportsNext(executed: seq<(ReceiptId, Status)>, from: Store, to: Store, entry: (ReceiptId, Status))
    requires ReportsRuns(executed, from) && entry.0 !in Ids(executed)
    requires to.Keys == from.Keys && forall o :: o in from && o != entry.0 ==> to[o] == from[o]
    requires entry.0 in to && to[entry.0].status == entry.1 && (entry.1.Verified? || entry.1.Failed?)
    ensures ReportsRuns(executed + [entry], to)
  {
    forall e | e in executed
      ensures e.0 != entry.0
    {
      assert e.0 in Ids(executed);
    }
  }

  /** Each receipt of the list was kept back for its reason at some point of the pass. */
  ghost predicate WithheldRightly(
    withheld: seq<(ReceiptId, Withholding)>, inventory: Inventory, moment: real, began: nat, log: seq<Event>)
  {
    forall k :: 0 <= k < |withheld| ==> WithheldAt(withheld[k], inventory, moment, began, log)
  }

  ghost predicate WithheldAt(
    entry: (ReceiptId, Withholding), inventory: Inventory, moment: real, began: nat, log: seq<Event>)
  {
    exists n :: began <= n <= |log| && Explains(StateAfter(log[..n]), inventory, moment, entry.0, entry.1)
  }

  lemma RightlyLater(
    withheld: seq<(ReceiptId, Withholding)>, inventory: Inventory, moment: real, began: nat, log: seq<Event>,
    longer: seq<Event>)
    requires WithheldRightly(withheld, inventory, moment, began, log) && log <= longer
    ensures WithheldRightly(withheld, inventory, moment, began, longer)
  {
    hide Explains, StateAfter;
    forall k | 0 <= k < |withheld|
      ensures WithheldAt(withheld[k], inventory, moment, began, longer)
    {
      assert WithheldAt(withheld[k], inventory, moment, began, log);
      var n :| began <= n <= |log| && Explains(StateAfter(log[..n]), inventory, moment, withheld[k].0, withheld[k].1);
      assert longer[..n] == log[..n];
    }
  }

  lemma RightlyNext(
    withheld: seq<(ReceiptId, Withholding)>, inventory: Inventory, moment: real, began: nat, log: seq<Event>,
    id: ReceiptId, why: Withholding)
    requires WithheldRightly(withheld, inventory, moment, began, log) && began <= |log|
    requires Explains(StateAfter(log), inventory, moment, id, why)
    ensures WithheldRightly(withheld + [(id, why)], inventory, moment, began, log)
  {
    hide Explains, StateAfter;
    assert log[..|log|] == log;
    assert WithheldAt((id, why), inventory, moment, began, log);
  }

  /** What was kept back for want of a policy are exactly the receipts of servers without one. */
  lemma WithheldForWantOfAPolicy(
    withheld: seq<(ReceiptId, Withholding)>, inventory: Inventory, moment: real, began: nat, log: seq<Event>)
    requires Run(log) && WithheldRightly(withheld, inventory, moment, began, log)
    ensures WithheldForPolicy(withheld, inventory, StateAfter(log))
  {
    forall k | 0 <= k < |withheld|
      ensures withheld[k].0 in StateAfter(log)
      ensures withheld[k].1.NoPolicy? <==> Ungoverned(inventory, StateAfter(log)[withheld[k].0].server)
    {
      assert WithheldAt(withheld[k], inventory, moment, began, log);
      var n :| began <= n <= |log| && Explains(StateAfter(log[..n]), inventory, moment, withheld[k].0, withheld[k].1);
      assert log[..|log|] == log;
      hide Decide, StateAfter, Run;
      ConcludedReceiptsAreFinal(log, n, |log|, withheld[k].0);
    }
  }

  ghost predicate WithheldForPolicy(withheld: seq<(ReceiptId, Withholding)>, inventory: Inventory, m: Store) {
    forall k :: 0 <= k < |withheld| ==>
      withheld[k].0 in m && (withheld[k].1.NoPolicy? <==> Ungoverned(inventory, m[withheld[k].0].server))
  }

  lemma RunOfStore(store: ProposalStore)
    requires store.Tracks()
    ensures Run(store.log) && store.receipts == StateAfter(store.log)
  {
  }

  /** The entries are in list order, and all before what is left of the list. */
  ghost predicate InOrder<T>(entries: seq<(ReceiptId, T)>, left: seq<Receipt>) {
    && (forall i, j :: 0 <= i < j < |entries| ==> Before(entries[i].0, entries[j].0))
    && (forall i, k :: 0 <= i < |entries| && 0 <= k < |left| ==> Before(entries[i].0, left[k].Id()))
  }

  lemma InOrderNext<T>(entries: seq<(ReceiptId, T)>, listed: seq<Receipt>, i: nat, value: T)
    requires Ordered(listed) && i < |listed| && InOrder(entries, listed[i..])
    ensures InOrder(entries, listed[i + 1..]) && InOrder(entries + [(listed[i].Id(), value)], listed[i + 1..])
  {
    var left, rest := listed[i..], listed[i + 1..];
    assert left == [listed[i]] + rest;
    forall e, k | 0 <= e < |entries| && 0 <= k < |rest|
      ensures Before(entries[e].0, rest[k].Id())
    {
      assert Before(entries[e].0, left[k + 1].Id());
    }
  }

  /** How far a pass that began with this list has come, and what it has to report. */
  ghost predicate Passed(
    from: Store, now: Store, listed: seq<Receipt>, i: nat, executed: seq<(ReceiptId, Status)>,
    withheld: seq<(ReceiptId, Withholding)>)
  {
    && i <= |listed| && Lists(listed, from) && Decided(from, now, listed, i, Ids(executed), Ids(withheld))
    && ReportsRuns(executed, now) && InOrder(executed, listed[i..]) && InOrder(withheld, listed[i..])
  }

  lemma PassBegins(from: Store, listed: seq<Receipt>)
    requires Lists(listed, from)
    ensures Passed(from, from, listed, 0, [], [])
  {
  }

  lemma PassSkips(
    from: Store, now: Store, listed: seq<Receipt>, i: nat, executed: seq<(ReceiptId, Status)>,
    withheld: seq<(ReceiptId, Withholding)>)
    requires Passed(from, now, listed, i, executed, withheld) && i < |listed| && !listed[i].status.Proposed?
    ensures Passed(from, now, listed, i + 1, executed, withheld)
  {
    assert Ordered(listed);
    hide Decided, ReportsRuns, Lists, InOrder, Ids, Ordered;
    InOrderNext(executed, listed, i, Proposed);
    InOrderNext(withheld, listed, i, NoPolicy);
    DecideNext(from, now, now, listed, i, Ids(executed), Ids(withheld), Ids(executed), Ids(withheld));
  }

  lemma PassKeeps(
    from: Store, now: Store, listed: seq<Receipt>, i: nat, executed: seq<(ReceiptId, Status)>,
    withheld: seq<(ReceiptId, Withholding)>, why: Withholding)
    requires Passed(from, now, listed, i, executed, withheld) && i < |listed| && listed[i].status.Proposed?
    ensures Passed(from, now, listed, i + 1, executed, withheld + [(listed[i].Id(), why)])
  {
    assert Ordered(listed);
    hide Decided, ReportsRuns, Lists, InOrder, Ids, Ordered;
    InOrderNext(executed, listed, i, Proposed);
    InOrderNext(withheld, listed, i, why);
    IdsSnoc(withheld, (listed[i].Id(), why));
    DecideNext(
      from, now, now, listed, i, Ids(executed), Ids(withheld), Ids(executed), Ids(withheld) + {listed[i].Id()});
  }

  lemma PassRuns(
    from: Store, now: Store, next: Store, listed: seq<Receipt>, i: nat, executed: seq<(ReceiptId, Status)>,
    withheld: seq<(ReceiptId, Withholding)>, status: Status)
    requires Passed(from, now, listed, i, executed, withheld) && i < |listed| && listed[i].status.Proposed?
    requires next.Keys == now.Keys && forall id :: id in now && id != listed[i].Id() ==> next[id] == now[id]
    requires listed[i].Id() in next && next[listed[i].Id()].status == status && (status.Verified? || status.Failed?)
    ensures Passed(from, next, listed, i + 1, executed + [(listed[i].Id(), status)], withheld)
  {
    assert Ordered(listed);
    StillOpen(from, now, listed, i, Ids(executed), Ids(withheld));
    hide Decided, ReportsRuns, Lists, InOrder, Ids, Ordered;
    InOrderNext(executed, listed, i, status);
    InOrderNext(withheld, listed, i, NoPolicy);
    ReportsNext(executed, now, next, (listed[i].Id(), status));
    IdsSnoc(executed, (listed[i].Id(), status));
    DecideNext(
      from, now, next, listed, i, Ids(executed), Ids(withheld), Ids(executed) + {listed[i].Id()}, Ids(withheld));
  }

  lemma PassIsAt(
    from: Store, now: Store, listed: seq<Receipt>, i: nat, executed: seq<(ReceiptId, Status)>,
    withheld: seq<(ReceiptId, Withholding)>)
    requires Passed(from, now, listed, i, executed, withheld) && i < |listed|
    ensures listed[i].Id() in now && now[listed[i].Id()] == listed[i]
  {
    StillOpen(from, now, listed, i, Ids(executed), Ids(withheld));
  }

  lemma PassEnds(
    from: Store, now: Store, listed: seq<Receipt>, executed: seq<(ReceiptId, Status)>,
    withheld: seq<(ReceiptId, Withholding)>)
    requires Keyed(from) && Passed(from, now, listed, |listed|, executed, withheld)
    ensures Ids(executed) + Ids(withheld) == Open(from) && Ids(withheld) == Open(now)
    ensures ReportsRuns(executed, now) && InOrder(executed, []) && InOrder(withheld, [])
  {
    assert listed[|listed|..] == [];
    AllDecided(from, now, listed, Ids(executed), Ids(withheld));
  }

  /**
   * A pass raised at this receipt: it had decided exactly the open receipts before it in list order,
   * and touched nothing else.
   */
  ghost predicate StoppedAt(from: Store, now: Store, made: AutonomyReport, at: ReceiptId) {
    && at in Open(from)
    && (forall id :: id in Open(from) ==> (id in Ids(made.executed) + Ids(made.withheld) <==> Before(id, at)))
    && (forall id :: id in from && id != at && id !in Ids(made.executed) ==> id in now && now[id] == from[id])
  }

  lemma PassStops(
    from: Store, was: Store, now: Store, listed: seq<Receipt>, i: nat, made: AutonomyReport)
    requires Keyed(from) && Passed(from, was, listed, i, made.executed, made.withheld)
    requires i < |listed| && listed[i].status.Proposed?
    requires now.Keys == was.Keys && forall id :: id in was && id != listed[i].Id() ==> now[id] == was[id]
    ensures StoppedAt(from, now, made, listed[i].Id())
    ensures ReportsRuns(made.executed, now) && InOrder(made.executed, []) && InOrder(made.withheld, [])
  {
    var at := listed[i].Id();
    StillOpen(from, was, listed, i, Ids(made.executed), Ids(made.withheld));
    forall id | id in Open(from)
      ensures id in Ids(made.executed) + Ids(made.withheld) <==> Before(id, at)
    {
      assert from[id] in listed;
      var k :| 0 <= k < |listed| && listed[k] == from[id];
      if k < i {
        assert Before(listed[k].Id(), at);
      } else if i < k {
        assert Before(at, listed[k].Id());
      }
    }
    forall e | e in made.executed
      ensures e.0 != at
    {
      assert e.0 in Ids(made.executed);
    }
  }

  /** What a pass is given: the inventory, its one reading of the clock, and what engines and verifiers answer. */
  datatype Given = Given(
    inventory: Inventory, moment: real, executors: ReceiptId -> ExecutorAnswer, verifiers: ReceiptId -> Verifier,
    options: Options)

  /** What a pass has added to the log so far, and why it kept back what it did. */
  ghost predicate Logged(base: seq<Event>, log: seq<Event>, g: Given, withheld: seq<(ReceiptId, Withholding)>) {
    && OnlyLicensedAt(base, log, g.inventory, g.moment)
    && WithheldRightly(withheld, g.inventory, g.moment, |base|, log)
    && QuietlyAnswered(base, log, g.executors, g.verifiers, g.options)
  }

  lemma LoggedKeeps(
    base: seq<Event>, log: seq<Event>, g: Given, withheld: seq<(ReceiptId, Withholding)>, id: ReceiptId,
    why: Withholding)
    requires Logged(base, log, g, withheld) && Explains(StateAfter(log), g.inventory, g.moment, id, why)
    ensures Logged(base, log, g, withheld + [(id, why)])
  {
    hide Explains, WithheldRightly, StateAfter, QuietlyAnswered;
    RightlyNext(withheld, g.inventory, g.moment, |base|, log, id, why);
  }

  lemma LoggedRuns(
    base: seq<Event>, log: seq<Event>, after: seq<Event>, g: Given, withheld: seq<(ReceiptId, Withholding)>, e: Event)
    requires Logged(base, log, g, withheld)
    requires OnlyLicensedAt(log, after, g.inventory, g.moment) && after == log + [e]
    requires e.Starts() && EndedFor(e, g.executors(e.id), g.verifiers(e.id), g.options)
    ensures OnlyLicensedAt(base, after, g.inventory, g.moment)
    ensures WithheldRightly(withheld, g.inventory, g.moment, |base|, after)
    ensures !Raising(e) ==> Logged(base, after, g, withheld)
    ensures Raising(e) ==> LastRaised(base, after, g.executors, g.verifiers, g.options, ErrorOf(e))
  {
    hide WithheldRightly, QuietlyAnswered, EndedFor, Raising, LastRaised;
    RightlyLater(withheld, g.inventory, g.moment, |base|, log, after);
    LicensedTogether(base, log, after, g.inventory, g.moment);
    AnsweredNext(base, log, e, g.executors, g.verifiers, g.options);
  }

  /** A pass that began with this list and this log has come to its `i`-th receipt. */
  ghost predicate Going(
    from: Store, now: Store, listed: seq<Receipt>, i: nat, base: seq<Event>, log: seq<Event>, g: Given,
    made: AutonomyReport)
  {
    && Keyed(from) && Run(log) && now == StateAfter(log)
    && Passed(from, now, listed, i, made.executed, made.withheld) && Logged(base, log, g, made.withheld)
  }

  lemma GoingAtStart(store: ProposalStore, listed: seq<Receipt>, g: Given)
    requires store.Tracks() && Lists(listed, store.receipts)
    ensures Going(store.receipts, store.receipts, listed, 0, store.log, store.log, g, AutonomyReport([], []))
  {
    hide StateAfter, Run;
    PassBegins(store.receipts, listed);
  }

  lemma GoingPast(
    from: Store, now: Store, listed: seq<Receipt>, i: nat, base: seq<Event>, log: seq<Event>, g: Given,
    made: AutonomyReport)
    requires Going(from, now, listed, i, base, log, g, made) && i < |listed|
    ensures listed[i].Id() in now && now[listed[i].Id()] == listed[i]
    ensures !listed[i].status.Proposed? ==> Going(from, now, listed, i + 1, base, log, g, made)
  {
    hide Keyed, Run, StateAfter, Logged, Passed;
    PassIsAt(from, now, listed, i, made.executed, made.withheld);
    if !listed[i].status.Proposed? {
      PassSkips(from, now, listed, i, made.executed, made.withheld);
    }
  }

  /** What the pass has made once a proposal was considered and did not raise. */
  function MadeNext(made: AutonomyReport, id: ReceiptId, considered: Considered): AutonomyReport {
    match considered
    case Withhold(why) => made.(withheld := made.withheld + [(id, why)])
    case Finished(status) => made.(executed := made.executed + [(id, status)])
    case Aborted(_) => made
  }

  lemma GoingOn(
    from: Store, t: Turn, listed: seq<Receipt>, i: nat, base: seq<Event>, g: Given, made: AutonomyReport,
    considered: Considered)
    requires Going(from, t.before, listed, i, base, t.logged, g, made)
    requires i < |listed| && listed[i].status.Proposed? && Run(t.log) && t.after == StateAfter(t.log)
    requires
      var id := listed[i].Id();
      ConsideredAs(
        t, g.inventory, listed[i], g.moment, g.executors(id), g.verifiers(id), g.options, considered)
    ensures !considered.Aborted? ==>
      Going(from, t.after, listed, i + 1, base, t.log, g, MadeNext(made, listed[i].Id(), considered))
    ensures considered.Aborted? ==> Stopped(from, t.after, base, t.log, g, made, considered.error)
  {
    var id := listed[i].Id();
    match considered
    case Withhold(why) =>
      hide Keyed, Run, StateAfter, Logged, Passed, Explains;
      LoggedKeeps(base, t.log, g, made.withheld, id, why);
      PassKeeps(from, t.before, listed, i, made.executed, made.withheld, why);
    case Finished(status) =>
      hide Keyed, Run, StateAfter, Logged, Passed, EndedFor, Raising, WithheldRightly, LastRaised, OnlyLicensedAt;
      LoggedRuns(base, t.logged, t.log, g, made.withheld, t.log[|t.logged|]);
      PassRuns(from, t.before, t.after, listed, i, made.executed, made.withheld, status);
    case Aborted(error) =>
      hide Keyed, Run, StateAfter, Logged, Passed, EndedFor, Raising, WithheldRightly, LastRaised, OnlyLicensedAt;
      hide StoppedAt, ReportsRuns, InOrder;
      LoggedRuns(base, t.logged, t.log, g, made.withheld, t.log[|t.logged|]);
      PassStops(from, t.before, t.after, listed, i, made);
  }

  /** What holds of a pass however it ended. */
  ghost predicate Accounted(now: Store, base: seq<Event>, log: seq<Event>, g: Given, made: AutonomyReport) {
    && OnlyLicensedAt(base, log, g.inventory, g.moment)
    && ReportsRuns(made.executed, now) && InOrder(made.executed, []) && InOrder(made.withheld, [])
    && WithheldRightly(made.withheld, g.inventory, g.moment, |base|, log)
  }

  /** A pass that raised this error. */
  ghost predicate Stopped(
    from: Store, now: Store, base: seq<Event>, log: seq<Event>, g: Given, made: AutonomyReport, error: OperatorError)
  {
    && Accounted(now, base, log, g, made)
    && LastRaised(base, log, g.executors, g.verifiers, g.options, error)
    && StoppedAt(from, now, made, log[|log| - 1].id)
  }

  /** A pass that came to the end of its list. */
  ghost predicate Ended(
    from: Store, now: Store, base: seq<Event>, log: seq<Event>, g: Given, made: AutonomyReport)
  {
    && Accounted(now, base, log, g, made)
    && QuietlyAnswered(base, log, g.executors, g.verifiers, g.options)
    && Ids(made.executed) + Ids(made.withheld) == Open(from) && Ids(made.withheld) == Open(now)
  }

  lemma GoingEnds(
    from: Store, now: Store, listed: seq<Receipt>, base: seq<Event>, log: seq<Event>, g: Given, made: AutonomyReport)
    requires Going(from, now, listed, |listed|, base, log, g, made)
    ensures Ended(from, now, base, log, g, made)
  {
    hide Passed, WithheldRightly, QuietlyAnswered, OnlyLicensedAt, InOrder, ReportsRuns, Open, Ids, StateAfter, Run;
    PassEnds(from, now, listed, made.executed, made.withheld);
  }

  /**
   * One autonomous pass. Everything it runs is licensed by the policy of the receipt's own
   * environment at the one moment the pass read the clock, and ends as the receipt's own engine and
   * verifier answer. The pass decides every proposal that was open when it began, in list order, and
   * gives the reason for each it kept back (`made`); the first execution that raises ends it.
   */
  method AutonomousPass(
    store: ProposalStore, clock: Clock, inventory: Inventory,
    executors: ReceiptId -> ExecutorAnswer, verifiers: ReceiptId -> Verifier, options: Options)
    returns (report: Result<AutonomyReport, OperatorError>, ghost moment: real, ghost made: AutonomyReport)
    requires store.Tracks()
    modifies store, clock
    ensures store.Tracks()
    ensures old(clock.now) <= moment <= clock.now
    ensures WithheldForPolicy(made.withheld, inventory, store.receipts)
    ensures
      var g := Given(inventory, moment, executors, verifiers, options);
      match report
      case Ok(reported) =>
        reported == made && Ended(old(store.receipts), store.receipts, old(store.log), store.log, g, made)
      case Err(error) => Stopped(old(store.receipts), store.receipts, old(store.log), store.log, g, made, error)
  {
    var read := clock.Read();
    var listed := store.List();
    ghost var from, base, g := store.receipts, store.log, Given(inventory, read, executors, verifiers, options);
    moment := read;
    GoingAtStart(store, listed, g);
    hide store.Tracks, Going, Stopped, Ended, ConsideredAs, Lists, WithheldForPolicy, Keyed, StateAfter, Run;
    var executed: seq<(ReceiptId, Status)>, withheld: seq<(ReceiptId, Withholding)> := [], [];
    for i := 0 to |listed|
      invariant store.Tracks()
      invariant read <= clock.now
      invariant
        Going(from, store.receipts, listed, i, base, store.log, g, AutonomyReport(executed, withheld))
    {
      var proposal := listed[i];
      var id := proposal.Id();
      made := AutonomyReport(executed, withheld);
      GoingPast(from, store.receipts, listed, i, base, store.log, g, made);
      if !proposal.status.Proposed? {
        continue;
      }
      ghost var was, logged := store.receipts, store.log;
      var considered := Consider(
        store, clock, inventory, proposal, read, executors(id), verifiers(id), options);
      RunOfStore(store);
      GoingOn(from, Turn(was, store.receipts, logged, store.log), listed, i, base, g, made, considered);
      match considered
      case Withhold(why) => withheld := withheld + [(id, why)];
      case Finished(status) => executed := executed + [(id, status)];
      case Aborted(error) =>
        StoppedForPolicy(from, store.receipts, base, store.log, g, made, error);
        return Err(error), moment, made;
    }
    made := AutonomyReport(executed, withheld);
    GoingEnds(from, store.receipts, listed, base, store.log, g, made);
    RunOfStore(store);
    EndedForPolicy(from, store.receipts, base, store.log, g, made);
    report := Ok(AutonomyReport(executed, withheld));
  }

  lemma StoppedForPolicy(
    from: Store, now: Store, base: seq<Event>, log: seq<Event>, g: Given, made: AutonomyReport, error: OperatorError)
    requires Run(log) && now == StateAfter(log) && Stopped(from, now, base, log, g, made, error)
    ensures WithheldForPolicy(made.withheld, g.inventory, now)
  {
    hide WithheldForPolicy, Run, StateAfter;
    WithheldForWantOfAPolicy(made.withheld, g.inventory, g.moment, |base|, log);
  }

  lemma EndedForPolicy(
    from: Store, now: Store, base: seq<Event>, log: seq<Event>, g: Given, made: AutonomyReport)
    requires Run(log) && now == StateAfter(log) && Ended(from, now, base, log, g, made)
    ensures WithheldForPolicy(made.withheld, g.inventory, now)
  {
    hide WithheldForPolicy, Run, StateAfter;
    WithheldForWantOfAPolicy(made.withheld, g.inventory, g.moment, |base|, log);
  }
}
