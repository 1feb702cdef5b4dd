/**
 * The TTL check before a cutover (sdk/src/cloudfall/cutover.py): finding a zone's own nameserver,
 * asking it for a domain's addresses, and bounding how long their answers are cached.
 */
module DnsTtl {
  import opened Results
  import opened Names
  import opened DnsNames
  import opened DnsResponses
  import opened DnsFailures
  import opened DnsText

  /**
   * What a step of the check comes to: a value, an error of the cutover's own, which is reported for
   * its domain, or one that is not, which ends the check.
   */
  datatype Asked<T> = Given(value: T) | Failed | Raised

  /** What the socket gives for a query: a response, or an error of the operating system. */
  datatype Exchange = Replied(payload: Bytes) | Unreachable

  /**
   * The world outside: the system resolver's address, if one is configured, the ids queries are sent
   * under, what a server answers a query of a name and type, and the address a host name resolves to.
   */
  datatype Network = Network(
    resolver: Option<string>,
    id: (string, string, U16) -> U16,
    exchange: (string, string, U16) -> Exchange,
    resolve: string -> Option<string>,
    inet6: Bytes -> string)

  // ---- One query ----

  /** A label's length fits one byte, and its characters are ASCII. */
  predicate CanAsk(name: string) {
    forall i :: 0 <= i < |AskedParts(name)| ==>
      var part := AskedParts(name)[i];
      |part| < 256 && forall k :: 0 <= k < |part| ==> part[k] as int < 128
  }

  /** A part as the label of a query. */
  function AsLabel(part: string): (bytes: Label)
    requires |part| < 256 && forall k :: 0 <= k < |part| ==> part[k] as int < 128
    ensures Ascii(bytes) && Chars(bytes) == part
  {
    seq(|part|, k requires 0 <= k < |part| => part[k] as int)
  }

  /** A name can be asked for exactly when there are labels a query can hold that are written as it is. */
  lemma AskableExactlyWhen(name: string)
    ensures CanAsk(name) <==>
      exists labels: seq<Label> :: Parts(labels) == AskedParts(name) && forall l :: l in labels ==> Ascii(l)
  {
    var parts := AskedParts(name);
    hide AskedParts;
    if CanAsk(name) {
      var labels := seq(|parts|, i requires 0 <= i < |parts| => AsLabel(parts[i]));
      assert Parts(labels) == parts;
    }
    if labels: seq<Label> :| Parts(labels) == parts && forall l :: l in labels ==> Ascii(l) {
      forall i | 0 <= i < |parts|
        ensures |parts[i]| < 256 && forall k :: 0 <= k < |parts[i]| ==> parts[i][k] as int < 128
      {
        assert |Parts(labels)| == |labels|;
        assert parts[i] == Chars(labels[i]) && labels[i] in labels;
      }
    }
  }

  function Query(net: Network, server: string, name: string, recordType: U16): Asked<seq<TextAnswer>> {
    if !CanAsk(name) then Raised
    else
      match net.exchange(server, name, recordType)
      case Unreachable => Failed
      case Replied(payload) =>
        match TextsOf(payload, EncodeU16(net.id(server, name, recordType)), net.inet6)
        case Ok(answers) => Given(answers)
        case Err(error) => if Caught(error) then Failed else Raised
  }

  /** The name cannot be written in a query, or a field or label read of the response cannot be decoded. */
  ghost predicate QueryBreaks(net: Network, server: string, name: string, recordType: U16) {
    || !CanAsk(name)
    || var exchange, id := net.exchange(server, name, recordType), EncodeU16(net.id(server, name, recordType));
       exchange.Replied? &&
       (ResponseFails(exchange.payload, id, ShortField) || ResponseFails(exchange.payload, id, NotAscii))
  }

  /**
   * A query gives some answers exactly when it can be written and the payload it is answered with is a
   * response under its id whose records, written out, are those answers, in order.
   */
  lemma QueryGivesExactlyWhen(
    net: Network, server: string, name: string, recordType: U16, answers: seq<TextAnswer>)
    ensures Query(net, server, name, recordType) == Given(answers) <==>
      && CanAsk(name) && net.exchange(server, name, recordType).Replied?
      && var payload, id := net.exchange(server, name, recordType).payload, net.id(server, name, recordType);
         exists start: nat, items ::
           IsResponse(payload, EncodeU16(id), start, items) && answers == AllWritten(AllGiven(items), net.inet6)
  {
    hide Parsed, IsResponse, CanAsk, EncodeU16, AllWritten, AllGiven;
    if CanAsk(name) && net.exchange(server, name, recordType).Replied? {
      var payload, id := net.exchange(server, name, recordType).payload, net.id(server, name, recordType);
      if Query(net, server, name, recordType) == Given(answers) {
        ReadsExactlyTheResponses(payload, EncodeU16(id), Parsed(payload, EncodeU16(id)).value);
      }
      if start: nat, items :|
        IsResponse(payload, EncodeU16(id), start, items) && answers == AllWritten(AllGiven(items), net.inet6)
      {
        ReadsExactlyTheResponses(payload, EncodeU16(id), AllGiven(items));
      }
    }
  }

  lemma QueryRaisesExactlyWhen(net: Network, server: string, name: string, recordType: U16)
    ensures Query(net, server, name, recordType).Raised? <==> QueryBreaks(net, server, name, recordType)
  {
    hide Parsed, ResponseFails, CanAsk, EncodeU16;
    var exchange, id := net.exchange(server, name, recordType), EncodeU16(net.id(server, name, recordType));
    if exchange.Replied? {
      ParsedFailsExactlyWhen(exchange.payload, id, ShortField);
      ParsedFailsExactlyWhen(exchange.payload, id, NotAscii);
    }
  }

  // ---- The zone's nameserver ----

  /**
   * The names the address lookup takes: each part shorter than 64 characters, and none empty but the
   * last. Any other raises while it is encoded, before anything is looked up.
   */
  predicate CanResolve(name: string) {
    var parts := Split(name);
    forall i :: 0 <= i < |parts| ==> |parts[i]| < 64 && (i < |parts| - 1 ==> parts[i] != "")
  }

  /**
   * Of the names a response can hold, with labels of up to 191 bytes, exactly those within section
   * 2.3.4 of RFC 1035 can be looked up.
   */
  lemma ResolvableNames(labels: seq<Label>)
    requires Dotless(labels)
    ensures CanResolve(NameText(labels)) <==> forall i :: 0 <= i < |labels| ==> |labels[i]| <= 63
  {
    if labels == [] {
      assert Split("") == [""];
    } else {
      JoinSplits(Parts(labels));
      assert Split(NameText(labels)) == Parts(labels);
    }
  }

  predicate IsNameserver(answer: TextAnswer) { answer.recordType == "NS" }

  /** The value of the first NS answer. */
  function Nameserver(answers: seq<TextAnswer>): (name: Option<string>)
    ensures name.None? <==> forall i :: 0 <= i < |answers| ==> !IsNameserver(answers[i])
    ensures name.Some? ==>
      exists i :: 0 <= i < |answers| && IsNameserver(answers[i]) && answers[i].value == name.value
                  && forall j :: 0 <= j < i ==> !IsNameserver(answers[j])
  {
    if answers == [] then None
    else if IsNameserver(answers[0]) then Some(answers[0].value)
    else Nameserver(answers[1..])
  }

  function Resolved(net: Network, name: string): Asked<string> {
    if !CanResolve(name) then Raised
    else match net.resolve(name) case Some(address) => Given(address) case None => Failed
  }

  function Zone(labels: seq<string>, start: nat): string
    requires start <= |labels|
  {
    Join(labels[start..])
  }

  /** The address of the nameserver of the first zone that has one, from the `start`-th label on. */
  function NameserverFrom(net: Network, resolver: string, labels: seq<string>, start: nat): Asked<string>
    decreases |labels| - start
  {
    if start + 1 >= |labels| then Failed
    else
      match Query(net, resolver, Zone(labels, start), TYPE_NS)
      case Failed => Failed
      case Raised => Raised
      case Given(answers) =>
        match Nameserver(answers)
        case Some(name) => Resolved(net, name)
        case None => NameserverFrom(net, resolver, labels, start + 1)
  }

  method ZoneNameserver(net: Network, resolver: string, hostname: string) returns (address: Asked<string>)
    ensures address == NameserverFrom(net, resolver, AskedParts(hostname), 0)
  {
    hide Query, AskedParts, Resolved, Nameserver, Zone;
    var labels := AskedParts(hostname);
    for start: nat := 0 to |labels| - 1
      invariant NameserverFrom(net, resolver, labels, 0) == NameserverFrom(net, resolver, labels, start)
    {
      var answers := Query(net, resolver, Zone(labels, start), TYPE_NS);
      if answers.Failed? {
        return Failed;
      }
      if answers.Raised? {
        return Raised;
      }
      var name := Nameserver(answers.value);
      if name.Some? {
        return Resolved(net, name.value);
      }
    }
    address := Failed;
  }

  /** The walk comes to this zone: those before it answered, and named no nameserver. */
  ghost predicate ComesTo(net: Network, resolver: string, labels: seq<string>, start: nat, zone: nat) {
    && start <= zone < |labels| - 1
    && forall z :: start <= z < zone ==>
      Query(net, resolver, Zone(labels, z), TYPE_NS).Given?
      && Nameserver(Query(net, resolver, Zone(labels, z), TYPE_NS).value).None?
  }

  /** The query of this zone breaks, or it names a nameserver that cannot be looked up. */
  ghost predicate ZoneBreaks(net: Network, resolver: string, labels: seq<string>, zone: nat)
    requires zone <= |labels|
  {
    var answers := Query(net, resolver, Zone(labels, zone), TYPE_NS);
    || QueryBreaks(net, resolver, Zone(labels, zone), TYPE_NS)
    || (answers.Given? && Nameserver(answers.value).Some? && !CanResolve(Nameserver(answers.value).value))
  }

  ghost predicate WalkBreaks(net: Network, resolver: string, labels: seq<string>, start: nat) {
    exists zone: nat :: ComesTo(net, resolver, labels, start, zone) && ZoneBreaks(net, resolver, labels, zone)
  }

  lemma ComesToFirst(net: Network, resolver: string, labels: seq<string>, start: nat, zone: nat)
    ensures ComesTo(net, resolver, labels, start, zone) <==>
      && start < |labels| - 1
      && (zone == start
          || (&& Query(net, resolver, Zone(labels, start), TYPE_NS).Given?
              && Nameserver(Query(net, resolver, Zone(labels, start), TYPE_NS).value).None?
              && ComesTo(net, resolver, labels, start + 1, zone)))
  {
    hide Query, Nameserver, Zone;
  }

  lemma {:induction false} WalkRaisesExactlyWhen(net: Network, resolver: string, labels: seq<string>, start: nat)
    ensures NameserverFrom(net, resolver, labels, start).Raised? <==> WalkBreaks(net, resolver, labels, start)
    decreases |labels| - start
  {
    forall zone: nat
      ensures ComesTo(net, resolver, labels, start, zone) <==>
        && start < |labels| - 1
        && (zone == start
            || (&& Query(net, resolver, Zone(labels, start), TYPE_NS).Given?
                && Nameserver(Query(net, resolver, Zone(labels, start), TYPE_NS).value).None?
                && ComesTo(net, resolver, labels, start + 1, zone)))
    {
      ComesToFirst(net, resolver, labels, start, zone);
    }
    hide Query, Nameserver, Zone, QueryBreaks, ComesTo, CanResolve;
    if start < |labels| - 1 {
      QueryRaisesExactlyWhen(net, resolver, Zone(labels, start), TYPE_NS);
      WalkRaisesExactlyWhen(net, resolver, labels, start + 1);
      assert ComesTo(net, resolver, labels, start, start);
    }
  }

  /** The zone is the first one come to that names a nameserver, and this is what its lookup came to. */
  ghost predicate LooksUp(
    net: Network, resolver: string, labels: seq<string>, start: nat, zone: nat, name: string)
  {
    && ComesTo(net, resolver, labels, start, zone)
    && Query(net, resolver, Zone(labels, zone), TYPE_NS).Given?
    && Nameserver(Query(net, resolver, Zone(labels, zone), TYPE_NS).value) == Some(name)
  }

  lemma LooksUpFirst(
    net: Network, resolver: string, labels: seq<string>, start: nat, zone: nat, name: string)
    ensures LooksUp(net, resolver, labels, start, zone, name) <==>
      && start < |labels| - 1 && Query(net, resolver, Zone(labels, start), TYPE_NS).Given?
      && var found := Nameserver(Query(net, resolver, Zone(labels, start), TYPE_NS).value);
         if found.Some? then zone == start && found == Some(name)
         else LooksUp(net, resolver, labels, start + 1, zone, name)
  {
    hide Query, Nameserver, Zone;
    ComesToFirst(net, resolver, labels, start, zone);
  }

  lemma {:induction false} WalkGives(
    net: Network, resolver: string, labels: seq<string>, start: nat, zone: nat, name: string)
    requires LooksUp(net, resolver, labels, start, zone, name)
    ensures NameserverFrom(net, resolver, labels, start) == Resolved(net, name)
    decreases |labels| - start
  {
    hide Query, Nameserver, Zone, LooksUp, Resolved;
    LooksUpFirst(net, resolver, labels, start, zone, name);
    if Nameserver(Query(net, resolver, Zone(labels, start), TYPE_NS).value).None? {
      WalkGives(net, resolver, labels, start + 1, zone, name);
    }
  }

  lemma {:induction false} WalkFinds(net: Network, resolver: string, labels: seq<string>, start: nat)
    returns (zone: nat, name: string)
    requires NameserverFrom(net, resolver, labels, start).Given?
    ensures LooksUp(net, resolver, labels, start, zone, name)
    ensures NameserverFrom(net, resolver, labels, start) == Resolved(net, name)
    decreases |labels| - start
  {
    hide Query, Nameserver, Zone, LooksUp, Resolved;
    var found := Nameserver(Query(net, resolver, Zone(labels, start), TYPE_NS).value);
    if found.Some? {
      zone, name := start, found.value;
    } else {
      zone, name := WalkFinds(net, resolver, labels, start + 1);
    }
    LooksUpFirst(net, resolver, labels, start, zone, name);
  }

  /** The walk gives an address exactly when the first nameserver named can be looked up, and has it. */
  lemma WalkGivesExactlyWhen(
    net: Network, resolver: string, labels: seq<string>, start: nat, address: string)
    ensures NameserverFrom(net, resolver, labels, start) == Given(address) <==>
      exists zone: nat, name ::
        LooksUp(net, resolver, labels, start, zone, name) && CanResolve(name) && net.resolve(name) == Some(address)
  {
    hide NameserverFrom, LooksUp, CanResolve;
    if NameserverFrom(net, resolver, labels, start) == Given(address) {
      var zone, name := WalkFinds(net, resolver, labels, start);
    }
    if zone: nat, name :|
      LooksUp(net, resolver, labels, start, zone, name) && CanResolve(name) && net.resolve(name) == Some(address)
    {
      WalkGives(net, resolver, labels, start, zone, name);
    }
  }

  /** A host name as the inventory declares one: labels of 1 to 63 ASCII characters. */
  predicate IsHostname(name: string) {
    forall i :: 0 <= i < |AskedParts(name)| ==>
      var part := AskedParts(name)[i];
      1 <= |part| < 64 && forall k :: 0 <= k < |part| ==> part[k] as int < 128
  }

  lemma {:induction false} JoinEnds(parts: seq<string>)
    requires parts != [] && parts[|parts| - 1] != "" && NoDot(parts[|parts| - 1])
    ensures Join(parts) != "" && Join(parts)[|Join(parts)| - 1] != '.'
  {
    if |parts| > 1 {
      JoinEnds(parts[1..]);
    }
  }

  /** Every zone of a declared host name, and the name itself, can be asked for. */
  lemma HostnamesCanBeAsked(hostname: string, zone: nat)
    requires IsHostname(hostname) && zone < |AskedParts(hostname)|
    ensures CanAsk(Zone(AskedParts(hostname), zone)) && CanAsk(hostname)
  {
    var labels := AskedParts(hostname)[zone..];
    JoinEnds(labels);
    JoinSplits(labels);
    assert AskedParts(Zone(AskedParts(hostname), zone)) == labels;
  }

  // ---- The answers of one domain ----

  function Both(net: Network, server: string, hostname: string): Asked<seq<TextAnswer>> {
    match Query(net, server, hostname, TYPE_A)
    case Failed => Failed
    case Raised => Raised
    case Given(v4) =>
      match Query(net, server, hostname, TYPE_AAAA)
      case Failed => Failed
      case Raised => Raised
      case Given(v6) => if v4 + v6 == [] then Failed else Given(Firsts(v4 + v6))
  }

  /** The addresses the zone's own nameserver gives; no record of either type is the cutover's own error. */
  function Authoritative(net: Network, hostname: string): Asked<seq<TextAnswer>> {
    if net.resolver.None? then Failed
    else
      match NameserverFrom(net, net.resolver.value, AskedParts(hostname), 0)
      case Failed => Failed
      case Raised => Raised
      case Given(server) => Both(net, server, hostname)
  }

  method AuthoritativeAnswers(net: Network, hostname: string) returns (answers: Asked<seq<TextAnswer>>)
    ensures answers == Authoritative(net, hostname)
    ensures answers.Given? ==> answers.value != []
  {
    hide Query, NameserverFrom, AskedParts;
    if net.resolver.None? {
      return Failed;
    }
    var server := ZoneNameserver(net, net.resolver.value, hostname);
    if !server.Given? {
      return if server.Failed? then Failed else Raised;
    }
    var v4 := Query(net, server.value, hostname, TYPE_A);
    if !v4.Given? {
      return v4;
    }
    var v6 := Query(net, server.value, hostname, TYPE_AAAA);
    if !v6.Given? {
      return v6;
    }
    if v4.value + v6.value == [] {
      return Failed;
    }
    FirstsKeep(v4.value + v6.value, (v4.value + v6.value)[0]);
    answers := Given(Firsts(v4.value + v6.value));
  }

  /** The nameserver found for a domain, with what it answers for each type of address. */
  ghost predicate Served(net: Network, hostname: string, server: string) {
    net.resolver.Some? && NameserverFrom(net, net.resolver.value, AskedParts(hostname), 0) == Given(server)
  }

  /**
   * The answers of a domain are those its nameserver gave to either query, each once; it has answers
   * exactly when both queries give some and one of them gives one at least.
   */
  lemma AnswersAreOfBothQueries(net: Network, hostname: string, server: string)
    requires Served(net, hostname, server)
    ensures
      var v4, v6 := Query(net, server, hostname, TYPE_A), Query(net, server, hostname, TYPE_AAAA);
      var answers := Authoritative(net, hostname);
      && (answers.Given? <==> v4.Given? && v6.Given? && (v4.value != [] || v6.value != []))
      && (answers.Failed? <==>
            v4.Failed? || (v4.Given? && v6.Failed?) || (v4.Given? && v6.Given? && v4.value == [] && v6.value == []))
      && (answers.Given? ==>
            && (forall a :: a in answers.value <==> a in v4.value || a in v6.value)
            && (forall i, j :: 0 <= i < j < |answers.value| ==> answers.value[i] != answers.value[j]))
  {
    hide Query, NameserverFrom, AskedParts, Firsts;
    var v4, v6 := Query(net, server, hostname, TYPE_A), Query(net, server, hostname, TYPE_AAAA);
    if v4.Given? && v6.Given? {
      forall a
        ensures a in Firsts(v4.value + v6.value) <==> a in v4.value || a in v6.value
      {
        FirstsKeep(v4.value + v6.value, a);
      }
      FirstsOnce(v4.value + v6.value);
    }
  }

  /**
   * A domain ends the check exactly when, on the way to its addresses, a name cannot be written in a
   * query, a field or label read of a response cannot be decoded, or the nameserver a zone names
   * cannot be looked up.
   */
  lemma EndsTheCheckExactlyWhen(net: Network, hostname: string)
    ensures Authoritative(net, hostname).Raised? <==>
      net.resolver.Some? &&
      var labels := AskedParts(hostname);
      var server := NameserverFrom(net, net.resolver.value, labels, 0);
      || WalkBreaks(net, net.resolver.value, labels, 0)
      || (server.Given? && QueryBreaks(net, server.value, hostname, TYPE_A))
      || (&& server.Given? && Query(net, server.value, hostname, TYPE_A).Given?
          && QueryBreaks(net, server.value, hostname, TYPE_AAAA))
  {
    hide Query, NameserverFrom, AskedParts, WalkBreaks, QueryBreaks;
    if net.resolver.Some? {
      WalkRaisesExactlyWhen(net, net.resolver.value, AskedParts(hostname), 0);
      var server := NameserverFrom(net, net.resolver.value, AskedParts(hostname), 0);
      if server.Given? {
        QueryRaisesExactlyWhen(net, server.value, hostname, TYPE_A);
        QueryRaisesExactlyWhen(net, server.value, hostname, TYPE_AAAA);
      }
    }
  }

  // ---- The check ----

  /** Some of the answers can be cached for longer than the bound. */
  predicate Above(answers: seq<TextAnswer>, bound: nat) {
    exists i :: 0 <= i < |answers| && answers[i].ttl > bound
  }

  lemma AboveOfBoth(all: seq<TextAnswer>, a: seq<TextAnswer>, b: seq<TextAnswer>, bound: nat)
    requires forall x :: x in all <==> x in a || x in b
    ensures Above(all, bound) <==> Above(a, bound) || Above(b, bound)
  {
    if i :| 0 <= i < |all| && all[i].ttl > bound {
      assert all[i] in all;
      assert all[i] in a || all[i] in b;
    }
    if i :| 0 <= i < |a| && a[i].ttl > bound {
      assert a[i] in all;
    }
    if i :| 0 <= i < |b| && b[i].ttl > bound {
      assert b[i] in all;
    }
  }

  /** The nameserver's answer to one of the two queries holds a record that is cached for longer than the bound. */
  ghost predicate TooLong(net: Network, server: string, hostname: string, recordType: U16, bound: nat) {
    var answers := Query(net, server, hostname, recordType);
    answers.Given? && Above(answers.value, bound)
  }

  /** Why a domain is reported: its answers cannot be had, or one of either type can be cached for too long. */
  ghost predicate Offends(net: Network, domain: string, bound: nat) {
    || net.resolver.None?
    || NameserverFrom(net, net.resolver.value, AskedParts(domain), 0).Failed?
    || exists server :: Served(net, domain, server) &&
         var v4, v6 := Query(net, server, domain, TYPE_A), Query(net, server, domain, TYPE_AAAA);
         || v4.Failed? || (v4.Given? && v6.Failed?)
         || (v4.Given? && v6.Given? && v4.value == [] && v6.value == [])
         || (&& v4.Given? && v6.Given?
             && (TooLong(net, server, domain, TYPE_A, bound) || TooLong(net, server, domain, TYPE_AAAA, bound)))
  }

  lemma ReportedExactlyWhen(net: Network, domain: string, bound: nat)
    requires !Authoritative(net, domain).Raised?
    ensures Offends(net, domain, bound) <==>
      var answers := Authoritative(net, domain);
      answers.Failed? || Above(answers.value, bound)
  {
    if net.resolver.Some? && NameserverFrom(net, net.resolver.value, AskedParts(domain), 0).Given? {
      var server := NameserverFrom(net, net.resolver.value, AskedParts(domain), 0).value;
      hide Query, NameserverFrom, AskedParts, Authoritative, Above;
      AnswersAreOfBothQueries(net, domain, server);
      OneServer(net, domain, server);
      var answers := Authoritative(net, domain);
      if answers.Given? {
        var v4, v6 := Query(net, server, domain, TYPE_A), Query(net, server, domain, TYPE_AAAA);
        AboveOfBoth(answers.value, v4.value, v6.value, bound);
      }
    }
  }

  lemma OneServer(net: Network, domain: string, server: string)
    requires Served(net, domain, server)
    ensures net.resolver.Some? && NameserverFrom(net, net.resolver.value, AskedParts(domain), 0).Given?
    ensures forall other :: Served(net, domain, other) ==> other == server
  {
    hide NameserverFrom, AskedParts;
  }

  method Highest(answers: seq<TextAnswer>) returns (highest: nat)
    requires answers != []
    ensures exists i :: 0 <= i < |answers| && answers[i].ttl == highest
    ensures forall i :: 0 <= i < |answers| ==> answers[i].ttl <= highest
  {
    highest := answers[0].ttl;
    for i := 1 to |answers|
      invariant exists k :: 0 <= k < i && answers[k].ttl == highest
      invariant forall k :: 0 <= k < i ==> answers[k].ttl <= highest
    {
      if answers[i].ttl > highest {
        highest := answers[i].ttl;
      }
    }
  }

  /**
   * The domains to report, in order: exactly those whose records can still be cached for longer than
   * the bound. There is no report when an error that is not the cutover's own is raised.
   */
  method CheckTtl(net: Network, domains: seq<string>, bound: nat)
    returns (report: Option<seq<string>>, ghost at: seq<nat>)
    ensures report.None? <==> exists i :: 0 <= i < |domains| && Authoritative(net, domains[i]).Raised?
    ensures report.Some? ==>
      && |report.value| == |at|
      && forall k :: 0 <= k < |at| ==> at[k] < |domains| && report.value[k] == domains[at[k]]
    ensures forall i, j :: 0 <= i < j < |at| ==> at[i] < at[j]
    ensures report.Some? ==> forall i: nat :: i < |domains| ==> (i in at <==> Offends(net, domains[i], bound))
  {
    hide Authoritative, Offends;
    var offenders: seq<string> := [];
    at := [];
    for i: nat := 0 to |domains|
      invariant |offenders| == |at| && forall k :: 0 <= k < |at| ==> at[k] < i && offenders[k] == domains[at[k]]
      invariant forall j, k :: 0 <= j < k < |at| ==> at[j] < at[k]
      invariant forall j: nat :: j < i ==>
        !Authoritative(net, domains[j]).Raised? && (j in at <==> Offends(net, domains[j], bound))
    {
      var answers := AuthoritativeAnswers(net, domains[i]);
      if answers.Raised? {
        return None, at;
      }
      var offends := true;
      if answers.Given? {
        var highest := Highest(answers.value);
        offends := highest > bound;
      }
      ReportedExactlyWhen(net, domains[i], bound);
      if offends {
        offenders, at := offenders + [domains[i]], at + [i];
      }
    }
    report := Some(offenders);
  }

  // ---- A nameserver no one can look up ----

  /**
   * A nameserver whose name has a label of 64 to 191 bytes is read from its response without an
   * error, and ends the check all the same: the address lookup takes at most 63.
   */
  lemma LongNameserverEndsTheCheck(
    net: Network, hostname: string, question: seq<Label>, long: Label, payload: Bytes, record: Encodable)
    requires net.resolver.Some? && |AskedParts(hostname)| > 1 && CanAsk(WithoutLastDots(hostname))
    requires Parts(question) == AskedParts(hostname) && forall l :: l in question ==> WireLabel(l)
    requires 64 <= |long| < POINTER_MASK && Ascii(long) && NoDot(Chars(long))
    requires record.owner.ValidIn(payload) && record.recordType == TYPE_NS && record.rdata == Target(Plain([long]))
    requires
      var server, zone := net.resolver.value, WithoutLastDots(hostname);
      && net.exchange(server, zone, TYPE_NS) == Replied(payload)
      && Responds(payload, net.id(server, zone, TYPE_NS), question, TYPE_NS, [record])
    ensures Authoritative(net, hostname).Raised?
  {
    var resolver, labels := net.resolver.value, AskedParts(hostname);
    assert labels[0..] == labels;
    SplitJoins(WithoutLastDots(hostname));
    assert Zone(labels, 0) == WithoutLastDots(hostname);
    ResolvableNames([long]);
    hide Query, NameserverFrom, Nameserver, CanResolve, Responds, AllGiven, AsItems, EncodeQuery, Parsed, Zone;
    hide AskedParts, NameText, CanAsk, Split, WithoutLastDots, Parts, AllWritten;
    var id := net.id(resolver, Zone(labels, 0), TYPE_NS);
    QueryIdIs(id, question, TYPE_NS);
    ResponseRoundTrip(payload, id, question, TYPE_NS, [record]);
    var answers := AllWritten(AnswersOf([record]), net.inet6);
    QueryGives(net, resolver, Zone(labels, 0), TYPE_NS, payload, AnswersOf([record]));
    OneNameserver(record, long, net.inet6);
    WalkStops(net, resolver, labels, answers, NameText([long]));
  }

  lemma QueryGives(
    net: Network, server: string, name: string, recordType: U16, payload: Bytes, answers: seq<DnsAnswer>)
    requires CanAsk(name) && net.exchange(server, name, recordType) == Replied(payload)
    requires Parsed(payload, EncodeU16(net.id(server, name, recordType))) == Ok(answers)
    ensures Query(net, server, name, recordType) == Given(AllWritten(answers, net.inet6))
  {
    hide Parsed, CanAsk;
  }

  lemma WalkStops(net: Network, resolver: string, labels: seq<string>, answers: seq<TextAnswer>, name: string)
    requires |labels| > 1 && Query(net, resolver, Zone(labels, 0), TYPE_NS) == Given(answers)
    requires answers != [] && IsNameserver(answers[0]) && answers[0].value == name && !CanResolve(name)
    ensures NameserverFrom(net, resolver, labels, 0).Raised?
  {
    hide Query, Zone, CanResolve;
  }

  lemma QueryIdIs(id: U16, question: seq<Label>, asked: U16)
    ensures EncodeQuery(id, question, asked)[..2] == EncodeU16(id)
  {
  }

  lemma OneNameserver(record: Encodable, long: Label, inet6: Bytes -> string)
    requires record.recordType == TYPE_NS && record.rdata == Target(Plain([long]))
    ensures
      var answers := AllWritten(AnswersOf([record]), inet6);
      |answers| == 1 && IsNameserver(answers[0]) && answers[0].value == NameText([long])
  {
    assert AsItems([record]) == [record.AsItem()];
    assert AllGiven([record.AsItem()]) == record.AsItem().Given();
  }
}
