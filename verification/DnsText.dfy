/**
 * Names and addresses as text (sdk/src/cloudfall/cutover.py): how a name is split into the labels of
 * a query, and how an answer's labels and bytes are written out.
 */
module DnsText {
  import opened Results
  import opened Names
  import opened Decimals
  import opened DnsNames
  import opened DnsResponses

  // ---- Dots ----

  predicate NoDot(text: string) { '.' !in text }

  /** The parts joined by dots. */
  function Join(parts: seq<string>): string { Separated(parts, ".") }

  /** The parts between the dots; there is always at least one. */
  function Split(text: string): (parts: seq<string>)
    ensures parts != [] && forall i :: 0 <= i < |parts| ==> NoDot(parts[i])
  {
    if text == "" then [""]
    else
      var rest := Split(text[1..]);
      if text[0] == '.' then [""] + rest else [[text[0]] + rest[0]] + rest[1..]
  }

  lemma {:induction false} SplitJoins(text: string)
    ensures Join(Split(text)) == text
  {
    if text != "" {
      var rest := Split(text[1..]);
      SplitJoins(text[1..]);
      assert text == [text[0]] + text[1..];
      if text[0] == '.' {
        assert ([""] + rest)[1..] == rest;
      } else {
        var parts := [[text[0]] + rest[0]] + rest[1..];
        assert parts[1..] == rest[1..];
      }
    }
  }

  lemma {:induction false} SplitOfOne(part: string)
    requires NoDot(part)
    ensures Split(part) == [part]
  {
    if part != "" {
      SplitOfOne(part[1..]);
      assert part == [part[0]] + part[1..];
    }
  }

  lemma {:induction false} SplitOfFirst(part: string, more: string)
    requires NoDot(part)
    ensures Split(part + "." + more) == [part] + Split(more)
  {
    var text := part + "." + more;
    if part == "" {
      assert text[1..] == more;
    } else {
      SplitOfFirst(part[1..], more);
      assert text[1..] == part[1..] + "." + more;
      assert part == [part[0]] + part[1..];
    }
  }

  /** Parts come back from their text exactly when there is one at least and none holds a dot. */
  lemma {:induction false} JoinSplits(parts: seq<string>)
    ensures Split(Join(parts)) == parts <==> parts != [] && forall i :: 0 <= i < |parts| ==> NoDot(parts[i])
  {
    if parts != [] && forall i :: 0 <= i < |parts| ==> NoDot(parts[i]) {
      if |parts| == 1 {
        SplitOfOne(parts[0]);
      } else {
        SplitOfFirst(parts[0], Join(parts[1..]));
        JoinSplits(parts[1..]);
        assert parts == [parts[0]] + parts[1..];
      }
    }
  }

  // ---- Names ----

  function Chars(bytes: Label): (text: string)
    ensures |text| == |bytes| && forall i :: 0 <= i < |text| ==> text[i] == bytes[i] as char
  {
    seq(|bytes|, i requires 0 <= i < |bytes| => bytes[i] as char)
  }

  function Parts(labels: seq<Label>): (parts: seq<string>)
    ensures |parts| == |labels| && forall i :: 0 <= i < |parts| ==> parts[i] == Chars(labels[i])
  {
    seq(|labels|, i requires 0 <= i < |labels| => Chars(labels[i]))
  }

  /** A name as it is written in an answer. */
  function NameText(labels: seq<Label>): string { Join(Parts(labels)) }

  function WithoutLastDots(name: string): string {
    if name != "" && name[|name| - 1] == '.' then WithoutLastDots(name[..|name| - 1]) else name
  }

  /** The labels a query asks for. */
  function AskedParts(name: string): (parts: seq<string>)
    ensures parts != []
  {
    Split(WithoutLastDots(name))
  }

  /** An answer for the queried name itself is written as the name was, but for dots at its end. */
  lemma QueriedNameComesBack(name: string, labels: seq<Label>)
    requires Parts(labels) == AskedParts(name)
    ensures NameText(labels) == WithoutLastDots(name)
  {
    SplitJoins(WithoutLastDots(name));
  }

  /** No label is empty, and none holds a dot. */
  predicate Dotless(labels: seq<Label>) {
    forall i :: 0 <= i < |labels| ==> labels[i] != [] && NoDot(Chars(labels[i]))
  }

  lemma CharsDiffer(a: Label, b: Label)
    requires Chars(a) == Chars(b)
    ensures a == b
  {
    assert |a| == |b|;
    forall i | 0 <= i < |a|
      ensures a[i] == b[i]
    {
      assert Chars(a)[i] == Chars(b)[i];
    }
  }

  lemma {:induction false} OnlyTheRootIsEmpty(labels: seq<Label>)
    requires Dotless(labels)
    ensures NameText(labels) == "" <==> labels == []
  {
    if labels != [] {
      assert Parts(labels)[0] == Chars(labels[0]) && |Chars(labels[0])| > 0;
      assert |Join(Parts(labels))| >= |Parts(labels)[0]|;
    }
  }

  /** Two names of labels without dots are written alike only when they are the same. */
  lemma NamesDiffer(a: seq<Label>, b: seq<Label>)
    requires Dotless(a) && Dotless(b) && NameText(a) == NameText(b)
    ensures a == b
  {
    OnlyTheRootIsEmpty(a);
    OnlyTheRootIsEmpty(b);
    JoinSplits(Parts(a));
    JoinSplits(Parts(b));
    if a != [] {
      assert Parts(a) == Parts(b);
      assert |a| == |Parts(a)| == |Parts(b)| == |b|;
      forall i | 0 <= i < |a|
        ensures a[i] == b[i]
      {
        assert Parts(a)[i] == Parts(b)[i];
        CharsDiffer(a[i], b[i]);
      }
    }
  }

  /** A label that holds a dot is written as two are. */
  lemma DotsMislead()
    ensures NameText([[97, 46, 98]]) == NameText([[97], [98]]) == "a.b"
  {
    assert Chars([97, 46, 98]) == "a.b" && Chars([97]) == "a" && Chars([98]) == "b";
    assert Parts([[97, 46, 98]]) == ["a.b"];
    assert Parts([[97], [98]]) == ["a", "b"];
    assert ["a", "b"][1..] == ["b"];
  }

  // ---- Answers ----

  function Octets(bytes: Bytes): (parts: seq<string>)
    ensures |parts| == |bytes| && forall i :: 0 <= i < |parts| ==> parts[i] == Decimal(bytes[i])
  {
    seq(|bytes|, i requires 0 <= i < |bytes| => Decimal(bytes[i]))
  }

  /** Addresses of four bytes are written in decimal; `inet6` writes those of sixteen. */
  function ValueText(value: Value, inet6: Bytes -> string): string {
    match value
    case V4(bytes) => Join(Octets(bytes))
    case V6(bytes) => inet6(bytes)
    case Host(labels) => NameText(labels)
  }

  function TypeName(recordType: U16): string {
    if recordType == TYPE_A then "A"
    else if recordType == TYPE_NS then "NS"
    else if recordType == TYPE_CNAME then "CNAME"
    else if recordType == TYPE_AAAA then "AAAA"
    else Decimal(recordType)
  }

  datatype TextAnswer = TextAnswer(name: string, recordType: string, ttl: nat, value: string)

  function Written(answer: DnsAnswer, inet6: Bytes -> string): TextAnswer {
    TextAnswer(NameText(answer.name), TypeName(answer.recordType), answer.ttl, ValueText(answer.value, inet6))
  }

  /** Four bytes are written in order with dots between them, and each type by its own name. */
  lemma AnswersAreWritten(answer: DnsAnswer, inet6: Bytes -> string)
    requires answer.value.V4? ==> |answer.value.bytes| == 4
    ensures
      var text := Written(answer, inet6);
      && text.name == Separated(Parts(answer.name), ".") && text.ttl == answer.ttl
      && (answer.value.Host? ==> text.value == Separated(Parts(answer.value.labels), "."))
      && (answer.value.V6? ==> text.value == inet6(answer.value.bytes))
      && (answer.value.V4? ==>
            var b := answer.value.bytes;
            text.value == Decimal(b[0]) + "." + (Decimal(b[1]) + "." + (Decimal(b[2]) + "." + Decimal(b[3]))))
      && (answer.recordType == 1 ==> text.recordType == "A") && (answer.recordType == 28 ==> text.recordType == "AAAA")
      && (answer.recordType == 2 ==> text.recordType == "NS")
      && (answer.recordType == 5 ==> text.recordType == "CNAME")
  {
    hide Parts, Decimal;
    if answer.value.V4? {
      var parts := Octets(answer.value.bytes);
      assert parts[1..][1..] == parts[2..] && parts[2..][1..] == parts[3..];
      assert Separated(parts[3..], ".") == parts[3];
      assert Separated(parts[2..], ".") == parts[2] + "." + parts[3];
      assert Separated(parts[1..], ".") == parts[1] + "." + Separated(parts[2..], ".");
    }
  }

  lemma AddressesDiffer(a: Bytes, b: Bytes)
    requires a != [] && b != [] && Join(Octets(a)) == Join(Octets(b))
    ensures a == b
  {
    forall i | 0 <= i < |a|
      ensures NoDot(Octets(a)[i])
    {
    }
    forall i | 0 <= i < |b|
      ensures NoDot(Octets(b)[i])
    {
    }
    JoinSplits(Octets(a));
    JoinSplits(Octets(b));
    assert Octets(a) == Octets(b);
    assert |a| == |Octets(a)| == |Octets(b)| == |b|;
    forall i | 0 <= i < |a|
      ensures a[i] == b[i]
    {
      assert Decimal(a[i]) == Octets(a)[i] == Octets(b)[i] == Decimal(b[i]);
      DecimalReadsBack(a[i]);
      DecimalReadsBack(b[i]);
    }
  }

  /** No two addresses of sixteen bytes are written alike. */
  ghost predicate TellsApart(inet6: Bytes -> string) {
    forall a, b :: |a| == |b| == 16 && inet6(a) == inet6(b) ==> a == b
  }

  /** An answer of the kind its type says: an address of four or sixteen bytes, or a name. */
  predicate WellTyped(answer: DnsAnswer) {
    && Dotless(answer.name)
    && match answer.value
       case V4(bytes) => answer.recordType == TYPE_A && |bytes| == 4
       case V6(bytes) => answer.recordType == TYPE_AAAA && |bytes| == 16
       case Host(labels) => (answer.recordType == TYPE_NS || answer.recordType == TYPE_CNAME) && Dotless(labels)
  }

  /** What is written of an answer tells it from every other one. */
  lemma AnswersDiffer(a: DnsAnswer, b: DnsAnswer, inet6: Bytes -> string)
    requires TellsApart(inet6) && WellTyped(a) && WellTyped(b) && Written(a, inet6) == Written(b, inet6)
    ensures a == b
  {
    NamesDiffer(a.name, b.name);
    assert |TypeName(TYPE_A)| == 1 && |TypeName(TYPE_NS)| == 2 && |TypeName(TYPE_CNAME)| == 5;
    assert |TypeName(TYPE_AAAA)| == 4;
    if a.value.V4? {
      AddressesDiffer(a.value.bytes, b.value.bytes);
    } else if a.value.Host? {
      NamesDiffer(a.value.labels, b.value.labels);
    }
  }

  function AllWritten(answers: seq<DnsAnswer>, inet6: Bytes -> string): (texts: seq<TextAnswer>)
    ensures |texts| == |answers| && forall i :: 0 <= i < |texts| ==> texts[i] == Written(answers[i], inet6)
  {
    seq(|answers|, i requires 0 <= i < |answers| => Written(answers[i], inet6))
  }

  /** What the cutover returns of a response: its answers, written out. */
  function TextsOf(payload: Bytes, expectedId: Bytes, inet6: Bytes -> string): Result<seq<TextAnswer>, DnsError> {
    match Parsed(payload, expectedId)
    case Ok(answers) => Ok(AllWritten(answers, inet6))
    case Err(error) => Err(error)
  }

  /**
   * The answers to a query of a name, written out: each record's, in order, and those for the name
   * itself bear it as it was queried.
   */
  lemma ResponseTexts(
    payload: Bytes, id: U16, name: string, question: seq<Label>, asked: U16, records: seq<Encodable>,
    inet6: Bytes -> string)
    requires Parts(question) == AskedParts(name) && forall l :: l in question ==> WireLabel(l)
    requires forall r :: r in records ==> r.ValidIn(payload)
    requires Responds(payload, id, question, asked, records)
    ensures
      TextsOf(payload, EncodeQuery(id, question, asked)[..2], inet6) ==
      Ok(AllWritten(AnswersOf(records), inet6))
    ensures forall i :: 0 <= i < |AnswersOf(records)| && AnswersOf(records)[i].name == question ==>
      AllWritten(AnswersOf(records), inet6)[i].name == WithoutLastDots(name)
  {
    hide Parsed, EncodeQuery, Responds, AnswersOf;
    ResponseRoundTrip(payload, id, question, asked, records);
    QueriedNameComesBack(name, question);
  }
}
