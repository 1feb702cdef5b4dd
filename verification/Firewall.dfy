/**
 * The firewall audit (sdk/src/cloudfall/audit.py) against the effective inbound rules of a server
 * (sdk/src/cloudfall/inventory.py).
 */
module Firewall {
  import opened Results

  // ---- Effective rules ----

  datatype Protocol = Tcp | Udp

  datatype Rule = Rule(port: int, protocol: Protocol, description: Option<string>)

  datatype Endpoint = Endpoint(protocol: Protocol, port: int)

  function EndpointOf(rule: Rule): Endpoint { Endpoint(rule.protocol, rule.port) }

  function Endpoints(rules: seq<Rule>): seq<Endpoint> {
    seq(|rules|, i requires 0 <= i < |rules| => EndpointOf(rules[i]))
  }

  /** No two rules are of the same port and protocol. */
  ghost predicate Distinct(rules: seq<Rule>) {
    forall i, j :: 0 <= i < j < |rules| ==> EndpointOf(rules[i]) != EndpointOf(rules[j])
  }

  /** A firewall contract is refused when two of its rules are of the same port and protocol. */
  method Accepts(rules: seq<Rule>) returns (ok: bool)
    ensures ok <==> Distinct(rules)
  {
    var seen: set<Endpoint> := {};
    for i := 0 to |rules|
      invariant Distinct(rules[..i])
      invariant forall e :: e in seen <==> exists k :: 0 <= k < i && EndpointOf(rules[k]) == e
    {
      if EndpointOf(rules[i]) in seen {
        return false;
      }
      seen := seen + {EndpointOf(rules[i])};
    }
    assert rules[..|rules|] == rules;
    ok := true;
  }

  function EffectiveRules(allowed: seq<Rule>, sshPort: int): seq<Rule> {
    if Endpoint(Tcp, sshPort) in Endpoints(allowed) then allowed
    else [Rule(sshPort, Tcp, Some("ssh"))] + allowed
  }

  /** The effective rules are without duplicates, hold what is declared, and let SSH in. */
  lemma EffectiveRulesHoldSsh(allowed: seq<Rule>, sshPort: int)
    requires Distinct(allowed)
    ensures Distinct(EffectiveRules(allowed, sshPort))
    ensures forall e :: e in Endpoints(EffectiveRules(allowed, sshPort)) <==>
              e in Endpoints(allowed) || e == Endpoint(Tcp, sshPort)
  {
    var ssh := Endpoint(Tcp, sshPort);
    if ssh !in Endpoints(allowed) {
      var effective := EffectiveRules(allowed, sshPort);
      assert Endpoints(effective) == [ssh] + Endpoints(allowed);
      forall i, j | 0 <= i < j < |effective|
        ensures EndpointOf(effective[i]) != EndpointOf(effective[j])
      {
        assert EndpointOf(effective[j]) == Endpoints(allowed)[j - 1];
        assert i > 0 ==> effective[i] == allowed[i - 1] && effective[j] == allowed[j - 1];
      }
    }
  }

  // ---- The managed table ----

  /** What a match compares: a payload field of a protocol with a plain number, or something else. */
  datatype Matched =
    | Destination(protocol: Protocol, port: int)
    | Otherwise

  /** One expression of a rule: whether it is an accept, and its match when it has one. */
  datatype Expression = Expression(accepts: bool, matched: Option<Matched>)

  datatype Chain = Chain(table: string, name: string, policy: Option<string>)

  datatype TableRule = TableRule(table: string, chain: string, expressions: seq<Expression>)

  /** One object of the table's listing; one without a name is as one with an empty name. */
  datatype Entry = Entry(table: Option<string>, chain: Option<Chain>, rule: Option<TableRule>)

  const TABLE := "cloudfall"
  const INPUT := "input"
  const DROP := "drop"

  /** The port a rule names: that of its last plain match, accepts aside. */
  function LastPort(expressions: seq<Expression>): Option<Endpoint> {
    if expressions == [] then None
    else
      var last := expressions[|expressions| - 1];
      if !last.accepts && last.matched.Some? && last.matched.value.Destination?
      then Some(Endpoint(last.matched.value.protocol, last.matched.value.port))
      else LastPort(expressions[..|expressions| - 1])
  }

  /** The endpoint a rule lets in: it has an accept, and names a port. */
  function Accepted(expressions: seq<Expression>): Option<Endpoint> {
    if exists k :: 0 <= k < |expressions| && expressions[k].accepts then LastPort(expressions) else None
  }

  method AcceptedEndpoint(expressions: seq<Expression>) returns (endpoint: Option<Endpoint>)
    ensures endpoint == Accepted(expressions)
  {
    endpoint := None;
    var accepts := false;
    for i := 0 to |expressions|
      invariant endpoint == LastPort(expressions[..i])
      invariant accepts <==> exists k :: 0 <= k < i && expressions[k].accepts
    {
      var expression := expressions[i];
      assert expressions[..i + 1][..i] == expressions[..i];
      if expression.accepts {
        accepts := true;
        continue;
      }
      if expression.matched.Some? && expression.matched.value.Destination? {
        endpoint := Some(Endpoint(expression.matched.value.protocol, expression.matched.value.port));
      }
    }
    assert expressions[..|expressions|] == expressions;
    if !accepts {
      endpoint := None;
    }
  }

  function EntryEndpoint(entry: Entry): Option<Endpoint> {
    if entry.rule.Some? && entry.rule.value.table == TABLE && entry.rule.value.chain == INPUT
    then Accepted(entry.rule.value.expressions)
    else None
  }

  predicate IsTable(entry: Entry) { entry.table == Some(TABLE) }

  predicate SetsPolicy(entry: Entry) {
    && entry.chain.Some? && entry.chain.value.table == TABLE && entry.chain.value.name == INPUT
    && entry.chain.value.policy.Some?
  }

  /** The endpoints of the input chain, in the order of its rules. */
  function Allowed(entries: seq<Entry>): seq<Endpoint> {
    if entries == [] then []
    else
      var earlier, endpoint := Allowed(entries[..|entries| - 1]), EntryEndpoint(entries[|entries| - 1]);
      if endpoint.Some? then earlier + [endpoint.value] else earlier
  }

  /** The policy the input chain was last given. */
  function InputPolicy(entries: seq<Entry>): Option<string> {
    if entries == [] then None
    else if SetsPolicy(entries[|entries| - 1]) then entries[|entries| - 1].chain.value.policy
    else InputPolicy(entries[..|entries| - 1])
  }

  datatype ObservedTable = ObservedTable(inputPolicy: Option<string>, allowed: seq<Endpoint>)

  ghost predicate Present(entries: seq<Entry>) {
    exists i :: 0 <= i < |entries| && IsTable(entries[i])
  }

  /** `entries` is none when the listing is not a document of objects. */
  method ParseTable(entries: Option<seq<Entry>>) returns (table: Option<ObservedTable>)
    ensures table ==
      if entries.Some? && Present(entries.value)
      then Some(ObservedTable(InputPolicy(entries.value), Allowed(entries.value)))
      else None
  {
    if entries.None? {
      return None;
    }
    var all := entries.value;
    var inputPolicy: Option<string> := None;
    var allowed: seq<Endpoint> := [];
    var present := false;
    for i := 0 to |all|
      invariant present <==> Present(all[..i])
      invariant inputPolicy == InputPolicy(all[..i])
      invariant allowed == Allowed(all[..i])
    {
      var entry := all[i];
      assert all[..i + 1] == all[..i] + [entry];
      assert all[..i + 1][..i] == all[..i];
      assert Present(all[..i]) ==> Present(all[..i + 1]) by {
        if k :| 0 <= k < i && IsTable(all[..i][k]) {
          assert IsTable(all[..i + 1][k]);
        }
      }
      if IsTable(entry) {
        assert IsTable(all[..i + 1][i]);
        present := true;
      }
      if SetsPolicy(entry) {
        inputPolicy := entry.chain.value.policy;
      }
      if entry.rule.Some? && entry.rule.value.table == TABLE && entry.rule.value.chain == INPUT {
        var endpoint := AcceptedEndpoint(entry.rule.value.expressions);
        if endpoint.Some? {
          allowed := allowed + [endpoint.value];
        }
      }
    }
    assert all[..|all|] == all;
    if !present {
      return None;
    }
    table := Some(ObservedTable(inputPolicy, allowed));
  }

  // ---- Sorted lists ----

  predicate AtMost(a: Endpoint, b: Endpoint) {
    if a.protocol == b.protocol then a.port <= b.port else a.protocol.Tcp?
  }

  predicate Ordered(endpoints: seq<Endpoint>) {
    forall i, j :: 0 <= i < j < |endpoints| ==> AtMost(endpoints[i], endpoints[j])
  }

  ghost predicate AtMostAll(e: Endpoint, endpoints: seq<Endpoint>) {
    forall k :: 0 <= k < |endpoints| ==> AtMost(e, endpoints[k])
  }

  function Insert(e: Endpoint, sorted: seq<Endpoint>): seq<Endpoint> {
    if sorted == [] || AtMost(e, sorted[0]) then [e] + sorted else [sorted[0]] + Insert(e, sorted[1..])
  }

  /** The list in order: what a report shows of it. */
  function Sorted(endpoints: seq<Endpoint>): seq<Endpoint> {
    if endpoints == [] then [] else Insert(endpoints[0], Sorted(endpoints[1..]))
  }

  lemma AtMostSame(e: Endpoint, a: seq<Endpoint>, b: seq<Endpoint>)
    requires multiset(a) == multiset(b) && AtMostAll(e, a)
    ensures AtMostAll(e, b)
  {
    forall k | 0 <= k < |b|
      ensures AtMost(e, b[k])
    {
      assert b[k] in multiset(a);
    }
  }

  lemma OrderedCons(e: Endpoint, sorted: seq<Endpoint>)
    ensures Ordered([e] + sorted) <==> AtMostAll(e, sorted) && Ordered(sorted)
  {
    hide AtMost;
    var all := [e] + sorted;
    if Ordered(all) {
      forall k | 0 <= k < |sorted|
        ensures AtMost(e, sorted[k])
      {
        assert AtMost(all[0], all[k + 1]);
      }
      forall i, j | 0 <= i < j < |sorted|
        ensures AtMost(sorted[i], sorted[j])
      {
        assert AtMost(all[i + 1], all[j + 1]);
      }
    }
  }

  lemma {:induction false} InsertPermutes(e: Endpoint, sorted: seq<Endpoint>)
    ensures multiset(Insert(e, sorted)) == multiset([e] + sorted)
  {
    hide AtMost;
    if !(sorted == [] || AtMost(e, sorted[0])) {
      InsertPermutes(e, sorted[1..]);
      assert sorted == [sorted[0]] + sorted[1..];
    }
  }

  lemma {:induction false} InsertOrders(e: Endpoint, sorted: seq<Endpoint>)
    requires Ordered(sorted)
    ensures Ordered(Insert(e, sorted))
  {
    if sorted == [] {
    } else if AtMost(e, sorted[0]) {
      assert forall k :: 0 < k < |sorted| ==> AtMost(sorted[0], sorted[k]);
      OrderedCons(e, sorted);
    } else {
      var rest := sorted[1..];
      assert sorted == [sorted[0]] + rest;
      OrderedCons(sorted[0], rest);
      InsertOrders(e, rest);
      InsertPermutes(e, rest);
      OrderedCons(e, rest);
      assert AtMostAll(sorted[0], [e] + rest);
      AtMostSame(sorted[0], [e] + rest, Insert(e, rest));
      OrderedCons(sorted[0], Insert(e, rest));
    }
  }

  /** Sorting puts a list in order and keeps every endpoint as often as it was there. */
  lemma {:induction false} SortedSorts(endpoints: seq<Endpoint>)
    ensures Ordered(Sorted(endpoints)) && multiset(Sorted(endpoints)) == multiset(endpoints)
  {
    if endpoints != [] {
      var rest := endpoints[1..];
      SortedSorts(rest);
      InsertOrders(endpoints[0], Sorted(rest));
      InsertPermutes(endpoints[0], Sorted(rest));
      assert endpoints == [endpoints[0]] + rest;
    }
  }

  lemma {:induction false} OrderedUnique(a: seq<Endpoint>, b: seq<Endpoint>)
    requires Ordered(a) && Ordered(b) && multiset(a) == multiset(b)
    ensures a == b
    decreases |a|
  {
    assert |multiset(a)| == |a| && |multiset(b)| == |b|;
    if a != [] {
      var x, y, s, t := a[0], b[0], a[1..], b[1..];
      assert a == [x] + s && b == [y] + t;
      OrderedCons(x, s);
      OrderedCons(y, t);
      assert AtMostAll(x, a) && AtMostAll(y, b);
      AtMostSame(x, a, b);
      AtMostSame(y, b, a);
      assert x == y;
      SameRest(x, s, t);
      hide AtMost, AtMostAll, Ordered;
      OrderedUnique(s, t);
    }
  }

  lemma SameRest(x: Endpoint, s: seq<Endpoint>, t: seq<Endpoint>)
    requires multiset([x] + s) == multiset([x] + t)
    ensures multiset(s) == multiset(t)
  {
    assert multiset([x] + s) - multiset{x} == multiset(s);
    assert multiset([x] + t) - multiset{x} == multiset(t);
  }

  /** Two sorted lists are the same exactly when the lists hold the same endpoints as often. */
  lemma SortedEqual(a: seq<Endpoint>, b: seq<Endpoint>)
    ensures Sorted(a) == Sorted(b) <==> multiset(a) == multiset(b)
  {
    SortedSorts(a);
    SortedSorts(b);
    if multiset(a) == multiset(b) {
      OrderedUnique(Sorted(a), Sorted(b));
    }
  }

  // ---- The audit ----

  datatype Status = Compliant | Drift

  datatype Checks = Checks(managedTable: Status, inputPolicy: Status, allowedInbound: Status)

  function Comparison(matches: bool): Status { if matches then Compliant else Drift }

  method AuditFirewall(allowed: seq<Rule>, sshPort: int, nftAvailable: bool, listing: Option<seq<Entry>>)
    returns (checks: Checks)
    ensures
      var present := nftAvailable && listing.Some? && Present(listing.value);
      && (checks.managedTable.Compliant? <==> present)
      && (checks.inputPolicy.Compliant? <==> present && InputPolicy(listing.value) == Some(DROP))
      && (checks.allowedInbound.Compliant? <==>
            present && multiset(Allowed(listing.value)) == multiset(Endpoints(EffectiveRules(allowed, sshPort))))
  {
    var table: Option<ObservedTable> := None;
    if nftAvailable {
      table := ParseTable(listing);
    }
    var expected := Sorted(Endpoints(EffectiveRules(allowed, sshPort)));
    var observed := if table.Some? then Some(Sorted(table.value.allowed)) else None;
    if table.Some? {
      SortedEqual(table.value.allowed, Endpoints(EffectiveRules(allowed, sshPort)));
    }
    checks := Checks(
      Comparison(table.Some?),
      Comparison(table.Some? && table.value.inputPolicy == Some(DROP)),
      Comparison(observed == Some(expected)));
  }

  // ---- What compliance comes to ----

  ghost predicate RulesComply(entries: seq<Entry>, allowed: seq<Rule>, sshPort: int) {
    multiset(Allowed(entries)) == multiset(Endpoints(EffectiveRules(allowed, sshPort)))
  }

  lemma {:induction false} DistinctOnce(rules: seq<Rule>, e: Endpoint)
    requires Distinct(rules)
    ensures multiset(Endpoints(rules))[e] == if e in Endpoints(rules) then 1 else 0
  {
    if rules != [] {
      var n := |rules| - 1;
      DistinctOnce(rules[..n], e);
      assert Endpoints(rules) == Endpoints(rules[..n]) + [EndpointOf(rules[n])];
    }
  }

  /** A compliant chain lets SSH in, names every effective endpoint once, and names no other. */
  lemma ComplianceMeans(entries: seq<Entry>, allowed: seq<Rule>, sshPort: int, e: Endpoint)
    requires Distinct(allowed) && RulesComply(entries, allowed, sshPort)
    ensures multiset(Allowed(entries))[e] == if e in Endpoints(allowed) || e == Endpoint(Tcp, sshPort) then 1 else 0
  {
    EffectiveRulesHoldSsh(allowed, sshPort);
    DistinctOnce(EffectiveRules(allowed, sshPort), e);
  }

  lemma {:induction false} AllowedOfBoth(a: seq<Entry>, b: seq<Entry>)
    ensures Allowed(a + b) == Allowed(a) + Allowed(b)
  {
    if b == [] {
      assert a + b == a;
    } else {
      var n := |b| - 1;
      AllowedOfBoth(a, b[..n]);
      assert (a + b)[..|a + b| - 1] == a + b[..n];
    }
  }

  /** A list without one of its elements. */
  lemma Without<T>(a: seq<T>, x: T, b: seq<T>)
    ensures multiset(a + ([x] + b)) == multiset{x} + multiset(a + b)
  {
  }

  lemma Middle<T>(a: seq<T>, x: seq<T>, b: seq<T>)
    ensures multiset(a + (x + b)) == multiset(x) + multiset(a + b)
  {
  }

  /** A listing without one of its entries. */
  lemma AllowedWithout(entries: seq<Entry>, i: nat)
    requires i < |entries|
    ensures multiset(Allowed(entries)) ==
            multiset(Allowed([entries[i]])) + multiset(Allowed(entries[..i] + entries[i + 1..]))
    ensures multiset(entries) == multiset{entries[i]} + multiset(entries[..i] + entries[i + 1..])
  {
    hide Allowed;
    var before, entry, after := entries[..i], entries[i], entries[i + 1..];
    assert entries == before + ([entry] + after);
    Without(before, entry, after);
    AllowedOfBoth(before, [entry] + after);
    AllowedOfBoth([entry], after);
    AllowedOfBoth(before, after);
    Middle(Allowed(before), Allowed([entry]), Allowed(after));
  }

  lemma {:induction false} SameEntriesAllowTheSame(a: seq<Entry>, b: seq<Entry>)
    requires multiset(a) == multiset(b)
    ensures multiset(Allowed(a)) == multiset(Allowed(b))
    decreases |a|
  {
    hide Allowed;
    assert |multiset(a)| == |a| && |multiset(b)| == |b|;
    if a == [] {
      assert b == [];
    } else {
      assert a[0] in multiset(b);
      var i :| 0 <= i < |b| && b[i] == a[0];
      AllowedWithout(a, 0);
      AllowedWithout(b, i);
      var left, right := a[..0] + a[1..], b[..i] + b[i + 1..];
      Cancel(a[0], multiset(left), multiset(right));
      SameEntriesAllowTheSame(left, right);
    }
  }

  lemma Cancel(x: Entry, s: multiset<Entry>, t: multiset<Entry>)
    requires multiset{x} + s == multiset{x} + t
    ensures s == t
  {
    assert (multiset{x} + s) - multiset{x} == s && (multiset{x} + t) - multiset{x} == t;
  }

  lemma SomeTable(a: seq<Entry>, b: seq<Entry>)
    requires multiset(a) == multiset(b) && Present(a)
    ensures Present(b)
  {
    var i :| 0 <= i < |a| && IsTable(a[i]);
    assert a[i] in multiset(b);
  }

  /** The order the listing comes in plays no part. */
  lemma OrderPlaysNoPart(a: seq<Entry>, b: seq<Entry>, allowed: seq<Rule>, sshPort: int)
    requires multiset(a) == multiset(b)
    ensures RulesComply(a, allowed, sshPort) <==> RulesComply(b, allowed, sshPort)
    ensures Present(a) <==> Present(b)
  {
    SameEntriesAllowTheSame(a, b);
    if Present(a) {
      SomeTable(a, b);
    }
    if Present(b) {
      SomeTable(b, a);
    }
  }

  /** An entry is seen exactly when it is a rule of the input chain that accepts and names a plain port. */
  lemma EntriesSeen(entries: seq<Entry>, entry: Entry, more: seq<Entry>)
    ensures Allowed(entries + [entry] + more) == Allowed(entries + more) <==>
      !(&& entry.rule.Some? && entry.rule.value.table == TABLE && entry.rule.value.chain == INPUT
        && (exists k :: 0 <= k < |entry.rule.value.expressions| && entry.rule.value.expressions[k].accepts)
        && LastPort(entry.rule.value.expressions).Some?)
  {
    AllowedOfBoth(entries + [entry], more);
    AllowedOfBoth(entries, [entry]);
    AllowedOfBoth(entries, more);
    assert [entry][..0] == [];
    assert Allowed([entry]) == if EntryEndpoint(entry).Some? then [EntryEndpoint(entry).value] else [];
    assert |Allowed(entries + [entry] + more)| == |Allowed(entries + more)| + |Allowed([entry])|;
  }

  // ---- A table written for the rules ----

  function RuleEntry(rule: Rule): Entry {
    Entry(None, None, Some(TableRule(TABLE, INPUT, [
      Expression(false, Some(Destination(rule.protocol, rule.port))), Expression(true, None)])))
  }

  function RuleEntries(rules: seq<Rule>): seq<Entry> {
    seq(|rules|, i requires 0 <= i < |rules| => RuleEntry(rules[i]))
  }

  function TableEntries(rules: seq<Rule>): seq<Entry> {
    [Entry(Some(TABLE), None, None), Entry(None, Some(Chain(TABLE, INPUT, Some(DROP))), None)] + RuleEntries(rules)
  }

  lemma RuleEntrySeen(rule: Rule)
    ensures EntryEndpoint(RuleEntry(rule)) == Some(EndpointOf(rule))
  {
    var expressions := RuleEntry(rule).rule.value.expressions;
    assert expressions[1].accepts;
    assert expressions[..1] == [expressions[0]];
    assert LastPort(expressions) == LastPort(expressions[..1]);
  }

  lemma {:induction false} RuleEntriesSeen(rules: seq<Rule>)
    ensures Allowed(RuleEntries(rules)) == Endpoints(rules)
    ensures InputPolicy(RuleEntries(rules)) == None
  {
    if rules != [] {
      var n := |rules| - 1;
      RuleEntriesSeen(rules[..n]);
      RuleEntrySeen(rules[n]);
      assert RuleEntries(rules)[..n] == RuleEntries(rules[..n]);
    }
  }

  lemma {:induction false} PolicyStays(entries: seq<Entry>, rules: seq<Rule>)
    ensures InputPolicy(entries + RuleEntries(rules)) == InputPolicy(entries)
  {
    if rules == [] {
      assert entries + RuleEntries(rules) == entries;
    } else {
      var n := |rules| - 1;
      PolicyStays(entries, rules[..n]);
      var all := entries + RuleEntries(rules);
      assert all[..|all| - 1] == entries + RuleEntries(rules[..n]);
    }
  }

  /** A table with one accept rule for each effective rule complies in every check. */
  lemma WrittenTableComplies(allowed: seq<Rule>, sshPort: int)
    ensures
      var entries := TableEntries(EffectiveRules(allowed, sshPort));
      Present(entries) && InputPolicy(entries) == Some(DROP) && RulesComply(entries, allowed, sshPort)
  {
    var rules := EffectiveRules(allowed, sshPort);
    var entries := TableEntries(rules);
    var head := [Entry(Some(TABLE), None, None), Entry(None, Some(Chain(TABLE, INPUT, Some(DROP))), None)];
    assert entries == head + RuleEntries(rules);
    assert IsTable(entries[0]);
    PolicyStays(head, rules);
    AllowedOfBoth(head, RuleEntries(rules));
    RuleEntriesSeen(rules);
    assert head[..1] == [head[0]] && [head[0]][..0] == [];
    assert EntryEndpoint(head[0]) == None && EntryEndpoint(head[1]) == None;
    assert Allowed(head[..1][..0]) == [] && Allowed(head[..1]) == [] && Allowed(head) == [];
  }
}
