/**
 * Response payloads: the answer section as the cutover reads it (sdk/src/cloudfall/cutover.py), and
 * its round trip with the record format of section 4.1.3 of RFC 1035.
 */
module DnsResponses {
  import opened Results
  import opened DnsNames

  const HEADER := 12
  const TYPE_A := 1
  const TYPE_NS := 2
  const TYPE_CNAME := 5
  const TYPE_AAAA := 28
  const CLASS_IN := 1

  type U16 = n: nat | n < 0x1_0000

  type U32 = n: nat | n < 0x1_0000_0000

  /** A record's value; addresses stand for their text. */
  datatype Value = V4(bytes: Bytes) | V6(bytes: Bytes) | Host(labels: seq<Label>)

  datatype DnsAnswer = DnsAnswer(name: seq<Label>, recordType: U16, ttl: U32, value: Value)

  function ReadU16(payload: Bytes, at: nat): U16
    requires at + 2 <= |payload|
  {
    var high: int := payload[at];
    high * 256 + payload[at + 1]
  }

  function ReadU32(payload: Bytes, at: nat): U32
    requires at + 4 <= |payload|
  {
    ReadU16(payload, at) * 0x1_0000 + ReadU16(payload, at + 2)
  }

  // ---- Parsing ----

  function Name(payload: Bytes, offset: nat): Result<(seq<Label>, nat), DnsError> {
    match Scan(payload, offset, 0)
    case Ok(labels) => Ok((labels, End(payload, offset)))
    case Err(e) => Err(e)
  }

  function DecodeRdata(payload: Bytes, offset: nat, recordType: U16, rdata: Bytes): Result<Option<Value>, DnsError> {
    if recordType == TYPE_A && |rdata| == 4 then Ok(Some(V4(rdata)))
    else if recordType == TYPE_AAAA && |rdata| == 16 then Ok(Some(V6(rdata)))
    else if recordType == TYPE_NS || recordType == TYPE_CNAME then
      match Name(payload, offset)
      case Ok((labels, _)) => Ok(Some(Host(labels)))
      case Err(e) => Err(e)
    else Ok(None)
  }

  /** One record at `offset`: the answer it gives, if any, and where the next one starts. */
  function Record(payload: Bytes, offset: nat): Result<(seq<DnsAnswer>, nat), DnsError> {
    match Name(payload, offset)
    case Err(e) => Err(e)
    case Ok((owner, at)) =>
      if at + 10 > |payload| then Err(ShortField)
      else
        var recordType, ttl, length := ReadU16(payload, at), ReadU32(payload, at + 4), ReadU16(payload, at + 8);
        match DecodeRdata(payload, at + 10, recordType, Slice(payload, at + 10, at + 10 + length))
        case Err(e) => Err(e)
        case Ok(None) => Ok(([], at + 10 + length))
        case Ok(Some(value)) => Ok(([DnsAnswer(owner, recordType, ttl, value)], at + 10 + length))
  }

  /** Where the answers start: after `count` questions. */
  function Questions(payload: Bytes, count: nat, offset: nat): Result<nat, DnsError> {
    if count == 0 then Ok(offset)
    else
      match Name(payload, offset)
      case Err(e) => Err(e)
      case Ok((_, at)) => Questions(payload, count - 1, at + 4)
  }

  function Answers(payload: Bytes, count: nat, offset: nat): Result<seq<DnsAnswer>, DnsError> {
    if count == 0 then Ok([])
    else
      match Record(payload, offset)
      case Err(e) => Err(e)
      case Ok((answers, next)) => Joined(answers, Answers(payload, count - 1, next))
  }

  function Joined(answers: seq<DnsAnswer>, rest: Result<seq<DnsAnswer>, DnsError>): Result<seq<DnsAnswer>, DnsError> {
    match rest
    case Ok(more) => Ok(answers + more)
    case Err(e) => Err(e)
  }

  lemma JoinedTwice(a: seq<DnsAnswer>, b: seq<DnsAnswer>, rest: Result<seq<DnsAnswer>, DnsError>)
    ensures Joined(a, Joined(b, rest)) == Joined(a + b, rest)
  {
    if rest.Ok? {
      assert a + (b + rest.value) == a + b + rest.value;
    }
  }

  lemma JoinedNothing(a: seq<DnsAnswer>, rest: Result<seq<DnsAnswer>, DnsError>)
    ensures Joined([], rest) == rest && Joined(a, Ok([])) == Ok(a)
  {
    if rest.Ok? {
      assert [] + rest.value == rest.value;
    }
    assert a + [] == a;
  }

  function Parsed(payload: Bytes, expectedId: Bytes): Result<seq<DnsAnswer>, DnsError> {
    if |payload| < HEADER || payload[..2] != expectedId then Err(BadHeader)
    else
      match Questions(payload, ReadU16(payload, 4), HEADER)
      case Err(e) => Err(e)
      case Ok(offset) => Answers(payload, ReadU16(payload, 6), offset)
  }

  /** One turn of the answer loop. */
  method ReadRecord(payload: Bytes, start: nat) returns (record: Result<(seq<DnsAnswer>, nat), DnsError>)
    ensures record == Record(payload, start)
  {
    hide Scan, End, Slice, ReadU16, ReadU32;
    var name := ReadName(payload, start);
    if name.Err? {
      return Err(name.error);
    }
    var offset := name.value.1;
    if offset + 10 > |payload| {
      return Err(ShortField);
    }
    var recordType, ttl, length := ReadU16(payload, offset), ReadU32(payload, offset + 4), ReadU16(payload, offset + 8);
    offset := offset + 10;
    var rdata := Slice(payload, offset, offset + length);
    var value: Option<Value> := None;
    if recordType == TYPE_A && |rdata| == 4 {
      value := Some(V4(rdata));
    } else if recordType == TYPE_AAAA && |rdata| == 16 {
      value := Some(V6(rdata));
    } else if recordType == TYPE_NS || recordType == TYPE_CNAME {
      var host := ReadName(payload, offset);
      if host.Err? {
        return Err(host.error);
      }
      value := Some(Host(host.value.0));
    }
    offset := offset + length;
    if value.None? {
      return Ok(([], offset));
    }
    record := Ok(([DnsAnswer(name.value.0, recordType, ttl, value.value)], offset));
  }

  method ParseAnswers(payload: Bytes, expectedId: Bytes) returns (answers: Result<seq<DnsAnswer>, DnsError>)
    ensures answers == Parsed(payload, expectedId)
  {
    hide Scan, End, Record, ReadU16;
    if |payload| < HEADER || payload[..2] != expectedId {
      return Err(BadHeader);
    }
    var questionCount, answerCount := ReadU16(payload, 4), ReadU16(payload, 6);
    var offset: nat := HEADER;
    for i := 0 to questionCount
      invariant Questions(payload, questionCount, HEADER) == Questions(payload, questionCount - i, offset)
    {
      var name := ReadName(payload, offset);
      if name.Err? {
        return Err(name.error);
      }
      offset := name.value.1 + 4;
    }
    ghost var first := offset;
    var read: seq<DnsAnswer> := [];
    JoinedNothing([], Answers(payload, answerCount, first));
    for i := 0 to answerCount
      invariant Answers(payload, answerCount, first) == Joined(read, Answers(payload, answerCount - i, offset))
    {
      var record := ReadRecord(payload, offset);
      if record.Err? {
        return Err(record.error);
      }
      var (found, next) := record.value;
      JoinedTwice(read, found, Answers(payload, answerCount - i - 1, next));
      read := read + found;
      offset := next;
    }
    JoinedNothing(read, Ok([]));
    answers := Ok(read);
  }

  // ---- What a response is ----

  /** One record of the answer section; it has a value when it is of a type the cutover reads. */
  datatype Item = Item(owner: seq<Label>, recordType: U16, ttl: U32, value: Option<Value>) {
    function Given(): seq<DnsAnswer> {
      match value
      case Some(v) => [DnsAnswer(owner, recordType, ttl, v)]
      case None => []
    }
  }

  predicate NamesAHost(recordType: U16) { recordType == TYPE_NS || recordType == TYPE_CNAME }

  /** The bytes from the one offset to the other, cut off where the payload ends, are such a value. */
  ghost predicate DataLaid(payload: Bytes, from: nat, to: nat, recordType: U16, value: Option<Value>) {
    var data := Slice(payload, from, to);
    match value
    case Some(V4(bytes)) => recordType == TYPE_A && |bytes| == 4 && bytes == data
    case Some(V6(bytes)) => recordType == TYPE_AAAA && |bytes| == 16 && bytes == data
    case Some(Host(labels)) => NamesAHost(recordType) && IsName(payload, from, labels)
    case None =>
      !NamesAHost(recordType) && (recordType == TYPE_A ==> |data| != 4) && (recordType == TYPE_AAAA ==> |data| != 16)
  }

  /** Where the record at an offset ends: its name, ten bytes, and as many more as the last two of them say. */
  function Next(payload: Bytes, at: nat): nat {
    var fields := End(payload, at);
    if fields + 10 <= |payload| then fields + 10 + ReadU16(payload, fields + 8) else fields
  }

  /** The bytes at an offset are the record of section 4.1.3 of RFC 1035. */
  ghost predicate Laid(payload: Bytes, at: nat, item: Item) {
    var fields := End(payload, at);
    && IsName(payload, at, item.owner)
    && fields + 10 <= |payload|
    && ReadU16(payload, fields) == item.recordType && ReadU32(payload, fields + 4) == item.ttl
    && DataLaid(payload, fields + 10, Next(payload, at), item.recordType, item.value)
  }

  lemma DataReads(payload: Bytes, from: nat, to: nat, recordType: U16, value: Option<Value>)
    ensures DecodeRdata(payload, from, recordType, Slice(payload, from, to)) == Ok(value) <==>
            DataLaid(payload, from, to, recordType, value)
  {
    hide Scan, End, Slice, IsName;
    match value
    case Some(Host(labels)) => ReadsExactlyTheNames(payload, from, labels);
    case _ =>
  }

  lemma NameReads(payload: Bytes, at: nat, labels: seq<Label>)
    ensures Name(payload, at) == Ok((labels, End(payload, at))) <==> IsName(payload, at, labels)
    ensures Name(payload, at).Ok? ==> Name(payload, at).value.1 == End(payload, at)
  {
    hide Scan, End, IsName;
    ReadsExactlyTheNames(payload, at, labels);
  }

  lemma LaidReads(payload: Bytes, at: nat, item: Item)
    requires Laid(payload, at, item)
    ensures Record(payload, at) == Ok((item.Given(), Next(payload, at)))
  {
    hide Scan, End, IsName, DataLaid, DecodeRdata, Slice, ReadU16, ReadU32, Name;
    NameReads(payload, at, item.owner);
    DataReads(payload, End(payload, at) + 10, Next(payload, at), item.recordType, item.value);
  }

  lemma ReadIsLaid(payload: Bytes, at: nat) returns (item: Item)
    requires Record(payload, at).Ok?
    ensures Laid(payload, at, item) && Record(payload, at).value == (item.Given(), Next(payload, at))
  {
    hide Scan, End, IsName, DataLaid, DecodeRdata, Slice, ReadU16, ReadU32, Name;
    var owner := Name(payload, at).value.0;
    NameReads(payload, at, owner);
    var fields := End(payload, at);
    var recordType, ttl := ReadU16(payload, fields), ReadU32(payload, fields + 4);
    var value := DecodeRdata(payload, fields + 10, recordType, Slice(payload, fields + 10, Next(payload, at))).value;
    DataReads(payload, fields + 10, Next(payload, at), recordType, value);
    item := Item(owner, recordType, ttl, value);
  }

  /** Reading a record gives some answers and an end exactly when the bytes there are such a record. */
  lemma ReadsExactlyTheRecords(payload: Bytes, at: nat, answers: seq<DnsAnswer>, next: nat)
    ensures Record(payload, at) == Ok((answers, next)) <==>
            exists item :: Laid(payload, at, item) && item.Given() == answers && Next(payload, at) == next
  {
    hide Record, Laid, Next, Item.Given;
    if Record(payload, at) == Ok((answers, next)) {
      var item := ReadIsLaid(payload, at);
    }
    if item :| Laid(payload, at, item) && item.Given() == answers && Next(payload, at) == next {
      LaidReads(payload, at, item);
    }
  }

  /** Records one after the other. */
  ghost predicate AllLaid(payload: Bytes, at: nat, items: seq<Item>)
    decreases |items|
  {
    items == [] || (Laid(payload, at, items[0]) && AllLaid(payload, Next(payload, at), items[1..]))
  }

  function AllGiven(items: seq<Item>): seq<DnsAnswer> {
    if items == [] then [] else items[0].Given() + AllGiven(items[1..])
  }

  lemma {:induction false} AllLaidRead(payload: Bytes, at: nat, items: seq<Item>)
    requires AllLaid(payload, at, items)
    ensures Answers(payload, |items|, at) == Ok(AllGiven(items))
    decreases |items|
  {
    hide Laid, Record, Next, Item.Given;
    if items != [] {
      LaidReads(payload, at, items[0]);
      AllLaidRead(payload, Next(payload, at), items[1..]);
    }
  }

  lemma {:induction false} AllReadAreLaid(payload: Bytes, count: nat, at: nat) returns (items: seq<Item>)
    requires Answers(payload, count, at).Ok?
    ensures |items| == count && AllLaid(payload, at, items) && Answers(payload, count, at) == Ok(AllGiven(items))
  {
    hide Laid, Record, Next, Item.Given;
    if count == 0 {
      items := [];
    } else {
      var item := ReadIsLaid(payload, at);
      var rest := AllReadAreLaid(payload, count - 1, Next(payload, at));
      items := [item] + rest;
      assert items[1..] == rest;
    }
  }

  /** So many questions, each a name and four bytes, and where they end. */
  ghost predicate QuestionsLaid(payload: Bytes, count: nat, at: nat, end: nat) {
    if count == 0 then at == end
    else
      && (exists labels :: IsName(payload, at, labels))
      && QuestionsLaid(payload, count - 1, End(payload, at) + 4, end)
  }

  lemma {:induction false} QuestionsRead(payload: Bytes, count: nat, at: nat, end: nat)
    ensures Questions(payload, count, at) == Ok(end) <==> QuestionsLaid(payload, count, at, end)
  {
    hide Name, IsName, End;
    if count > 0 {
      if Name(payload, at).Ok? {
        NameReads(payload, at, Name(payload, at).value.0);
      }
      if labels :| IsName(payload, at, labels) {
        NameReads(payload, at, labels);
      }
      QuestionsRead(payload, count - 1, End(payload, at) + 4, end);
    }
  }

  /** A response: a header with the expected id, the questions, and the records it counts. */
  ghost predicate IsResponse(payload: Bytes, expectedId: Bytes, start: nat, items: seq<Item>) {
    && |payload| >= HEADER && payload[..2] == expectedId
    && QuestionsLaid(payload, ReadU16(payload, 4), HEADER, start)
    && |items| == ReadU16(payload, 6) && AllLaid(payload, start, items)
  }

  /**
   * Parsing gives some answers exactly when the payload is a response whose records give them, names
   * written out or compressed by pointers to anywhere, through at most 32 of them.
   */
  lemma ReadsExactlyTheResponses(payload: Bytes, expectedId: Bytes, answers: seq<DnsAnswer>)
    ensures Parsed(payload, expectedId) == Ok(answers) <==>
            exists start: nat, items :: IsResponse(payload, expectedId, start, items) && AllGiven(items) == answers
  {
    hide Questions, QuestionsLaid, Answers, AllLaid, AllGiven, ReadU16;
    if Parsed(payload, expectedId) == Ok(answers) {
      var start := Questions(payload, ReadU16(payload, 4), HEADER).value;
      QuestionsRead(payload, ReadU16(payload, 4), HEADER, start);
      var items := AllReadAreLaid(payload, ReadU16(payload, 6), start);
      assert IsResponse(payload, expectedId, start, items);
    }
    if start: nat, items :| IsResponse(payload, expectedId, start, items) && AllGiven(items) == answers {
      ResponseReads(payload, expectedId, start, items);
    }
  }

  lemma ResponseReads(payload: Bytes, expectedId: Bytes, start: nat, items: seq<Item>)
    requires IsResponse(payload, expectedId, start, items)
    ensures Parsed(payload, expectedId) == Ok(AllGiven(items))
  {
    hide Questions, QuestionsLaid, Answers, AllLaid, AllGiven, ReadU16;
    QuestionsRead(payload, ReadU16(payload, 4), HEADER, start);
    AllLaidRead(payload, start, items);
  }

  // ---- Writing ----

  function EncodeU16(n: U16): (bytes: Bytes)
    ensures |bytes| == 2
  {
    [n / 256, n % 256]
  }

  function EncodeU32(n: U32): Bytes {
    EncodeU16(n / 0x1_0000) + EncodeU16(n % 0x1_0000)
  }

  /** A query for one name: the header, the name and the type and class asked for. */
  function EncodeQuery(id: U16, name: seq<Label>, recordType: U16): Bytes {
    EncodeU16(id) + EncodeU16(0x0100) + EncodeU16(1) + EncodeU16(0) + EncodeU16(0) + EncodeU16(0)
    + EncodeQuestion(name, recordType)
  }

  function EncodeQuestion(name: seq<Label>, recordType: U16): Bytes {
    EncodeName(name) + (EncodeU16(recordType) + EncodeU16(CLASS_IN))
  }

  /** What a pointer can name: section 4.1.4 of RFC 1035 gives it fourteen bits. */
  type Offset = n: nat | n < 0x4000

  /** A name in a response: written out, or some labels and a pointer to where the rest of it is. */
  datatype WireName = Plain(labels: seq<Label>) | Pointing(prefix: seq<Label>, target: Offset, suffix: seq<Label>)
  {
    function Labels(): seq<Label> {
      match this
      case Plain(labels) => labels
      case Pointing(prefix, _, suffix) => prefix + suffix
    }

    function Encode(): Bytes {
      match this
      case Plain(labels) => EncodeName(labels)
      case Pointing(prefix, target, _) => EncodeLabels(prefix) + EncodePointer(target)
    }

    /** The payload has the rest of the name where the pointer goes. */
    ghost predicate ValidIn(payload: Bytes) {
      && (forall l :: l in (if Plain? then labels else prefix) ==> Readable(l))
      && (Pointing? ==> Serves(payload, target, suffix))
    }
  }

  /** A name that one pointer more still leads to. */
  ghost predicate Serves(payload: Bytes, target: nat, labels: seq<Label>) {
    exists hops: nat :: hops < MAX_JUMPS && Represents(payload, target, labels, hops)
  }

  /** Record data: an address, a name, or the data of a type the cutover does not read. */
  datatype Rdata = Address(bytes: Bytes) | Target(name: WireName) | Other(bytes: Bytes)

  datatype WireRecord = WireRecord(owner: WireName, recordType: U16, recordClass: U16, ttl: U32, rdata: Rdata)
  {
    function Data(): Bytes {
      match rdata
      case Address(bytes) => bytes
      case Target(name) => name.Encode()
      case Other(bytes) => bytes
    }

    ghost predicate ValidIn(payload: Bytes) {
      && owner.ValidIn(payload)
      && match rdata
         case Address(bytes) => (recordType == TYPE_A && |bytes| == 4) || (recordType == TYPE_AAAA && |bytes| == 16)
         case Target(name) => NamesAHost(recordType) && name.ValidIn(payload)
         case Other(_) => recordType !in {TYPE_A, TYPE_NS, TYPE_CNAME, TYPE_AAAA}
    }

    function Fields(): Bytes
      requires |Data()| < 0x1_0000
    {
      EncodeU16(recordType) + EncodeU16(recordClass) + EncodeU32(ttl) + EncodeU16(|Data()|)
    }

    function Encode(): Bytes
      requires |Data()| < 0x1_0000
    {
      owner.Encode() + (Fields() + Data())
    }

    function Value(): Option<Value> {
      match rdata
      case Address(bytes) => Some(if recordType == TYPE_A then V4(bytes) else V6(bytes))
      case Target(name) => Some(Host(name.Labels()))
      case Other(_) => None
    }

    function AsItem(): Item { Item(owner.Labels(), recordType, ttl, Value()) }
  }

  /** A record whose data fits its two length bytes. */
  type Encodable = r: WireRecord | |r.Data()| < 0x1_0000 witness WireRecord(Plain([]), 0, 0, 0, Address([]))

  function EncodeRecords(records: seq<Encodable>): Bytes {
    if records == [] then [] else records[0].Encode() + EncodeRecords(records[1..])
  }

  function AsItems(records: seq<Encodable>): seq<Item> {
    if records == [] then [] else [records[0].AsItem()] + AsItems(records[1..])
  }

  /** The answers these records give, in order: those of a type the cutover reads. */
  function AnswersOf(records: seq<Encodable>): seq<DnsAnswer> { AllGiven(AsItems(records)) }

  /**
   * A response to a query: its id, any flags and section counts after the answers', the query's own
   * question, the records, and whatever the other sections hold.
   */
  ghost predicate Responds(payload: Bytes, id: U16, question: seq<Label>, asked: U16, records: seq<Encodable>) {
    && |records| < 0x1_0000
    && Holds(payload, 0, EncodeU16(id))
    && Holds(payload, 4, EncodeU16(1)) && Holds(payload, 6, EncodeU16(|records|))
    && Holds(payload, HEADER, EncodeQuery(id, question, asked)[HEADER..])
    && Holds(payload, HEADER + |EncodeQuestion(question, asked)|, EncodeRecords(records))
  }

  // ---- The round trip ----

  lemma U16RoundTrip(payload: Bytes, at: nat, n: U16)
    requires Holds(payload, at, EncodeU16(n))
    ensures ReadU16(payload, at) == n
  {
    var two := payload[at..at + 2];
    assert two == EncodeU16(n) && payload[at] == two[0] && payload[at + 1] == two[1];
  }

  lemma U32RoundTrip(payload: Bytes, at: nat, n: U32)
    requires Holds(payload, at, EncodeU32(n))
    ensures ReadU32(payload, at) == n
  {
    HoldsParts(payload, at, EncodeU16(n / 0x1_0000), EncodeU16(n % 0x1_0000));
    U16RoundTrip(payload, at, n / 0x1_0000);
    U16RoundTrip(payload, at + 2, n % 0x1_0000);
  }

  lemma WireNameRoundTrip(payload: Bytes, at: nat, name: WireName)
    requires name.ValidIn(payload) && Holds(payload, at, name.Encode())
    ensures IsName(payload, at, name.Labels()) && End(payload, at) == at + |name.Encode()|
  {
    match name
    case Plain(labels) =>
      PlainName(payload, at, labels);
    case Pointing(prefix, target, suffix) =>
      var hops: nat :| hops < MAX_JUMPS && Represents(payload, target, suffix, hops);
      CompressedName(payload, at, prefix, target, suffix, hops);
  }

  lemma FieldsRoundTrip(payload: Bytes, at: nat, r: Encodable)
    requires Holds(payload, at, r.Fields())
    ensures at + 10 <= |payload|
    ensures ReadU16(payload, at) == r.recordType && ReadU32(payload, at + 4) == r.ttl
    ensures ReadU16(payload, at + 8) == |r.Data()|
  {
    var a, b, c, d := EncodeU16(r.recordType), EncodeU16(r.recordClass), EncodeU32(r.ttl), EncodeU16(|r.Data()|);
    HoldsParts(payload, at, a + b + c, d);
    HoldsParts(payload, at, a + b, c);
    HoldsParts(payload, at, a, b);
    U16RoundTrip(payload, at, r.recordType);
    U32RoundTrip(payload, at + 4, r.ttl);
    U16RoundTrip(payload, at + 8, |r.Data()|);
  }

  lemma DataRoundTrip(payload: Bytes, at: nat, r: Encodable)
    requires r.ValidIn(payload) && Holds(payload, at, r.Data())
    ensures DataLaid(payload, at, at + |r.Data()|, r.recordType, r.Value())
  {
    hide Represents, End, Scan, IsName, WireName.Encode, WireName.ValidIn;
    if r.rdata.Target? {
      WireNameRoundTrip(payload, at, r.rdata.name);
    }
  }

  /** An encoded record is laid out where it is written, up to its end. */
  lemma RecordRoundTrip(payload: Bytes, at: nat, r: Encodable)
    requires r.ValidIn(payload) && Holds(payload, at, r.Encode())
    ensures Laid(payload, at, r.AsItem()) && Next(payload, at) == at + |r.Encode()|
    ensures Record(payload, at) == Ok((r.AsItem().Given(), at + |r.Encode()|))
  {
    hide Represents, End, Scan, Holds, Slice, ReadU16, ReadU32, Record, IsName, DataLaid, WireName.ValidIn;
    hide WireName.Encode, WireRecord.Value;
    HoldsParts(payload, at, r.owner.Encode(), r.Fields() + r.Data());
    WireNameRoundTrip(payload, at, r.owner);
    var fields := at + |r.owner.Encode()|;
    HoldsParts(payload, fields, r.Fields(), r.Data());
    FieldsRoundTrip(payload, fields, r);
    DataRoundTrip(payload, fields + 10, r);
    LaidReads(payload, at, r.AsItem());
  }

  lemma {:induction false} RecordsRoundTrip(payload: Bytes, at: nat, records: seq<Encodable>)
    requires forall r :: r in records ==> r.ValidIn(payload)
    requires Holds(payload, at, EncodeRecords(records))
    ensures AllLaid(payload, at, AsItems(records)) && |AsItems(records)| == |records|
    decreases |records|
  {
    hide Laid, Next, Holds, Record, WireRecord.Encode, WireRecord.ValidIn, WireRecord.AsItem, WireRecord.Data;
    hide WireName.Encode, Item.Given;
    if records != [] {
      var first, rest := records[0], records[1..];
      assert EncodeRecords(records) == first.Encode() + EncodeRecords(rest);
      assert AsItems(records) == [first.AsItem()] + AsItems(rest);
      hide EncodeRecords, AsItems;
      HoldsParts(payload, at, first.Encode(), EncodeRecords(rest));
      RecordRoundTrip(payload, at, first);
      RecordsRoundTrip(payload, at + |first.Encode()|, rest);
      AllLaidNext(payload, at, first.AsItem(), AsItems(rest));
    }
  }

  lemma AllLaidNext(payload: Bytes, at: nat, item: Item, rest: seq<Item>)
    requires Laid(payload, at, item) && AllLaid(payload, Next(payload, at), rest)
    ensures AllLaid(payload, at, [item] + rest)
  {
    hide Laid, Next;
    assert ([item] + rest)[1..] == rest;
  }

  lemma QueryParts(id: U16, question: seq<Label>, asked: U16)
    ensures |EncodeQuery(id, question, asked)| >= HEADER
    ensures EncodeQuery(id, question, asked)[..2] == EncodeU16(id)
    ensures EncodeQuery(id, question, asked)[HEADER..] == EncodeQuestion(question, asked)
  {
  }

  lemma WireLabelsAreReadable(labels: seq<Label>)
    requires forall l :: l in labels ==> WireLabel(l)
    ensures forall l :: l in labels ==> Readable(l)
  {
    forall l | l in labels
      ensures Readable(l)
    {
      assert WireLabel(l);
    }
  }

  lemma QuestionRoundTrip(payload: Bytes, question: seq<Label>, asked: U16)
    requires forall l :: l in question ==> WireLabel(l)
    requires Holds(payload, HEADER, EncodeQuestion(question, asked))
    ensures Represents(payload, HEADER, question, 0)
    ensures QuestionsLaid(payload, 1, HEADER, HEADER + |EncodeQuestion(question, asked)|)
  {
    WireLabelsAreReadable(question);
    hide Represents, End, Scan, EncodeName, Holds, Readable, WireLabel;
    HoldsParts(payload, HEADER, EncodeName(question), EncodeU16(asked) + EncodeU16(CLASS_IN));
    PlainName(payload, HEADER, question);
    assert IsName(payload, HEADER, question);
    var next := HEADER + |EncodeQuestion(question, asked)|;
    assert QuestionsLaid(payload, 0, next, next);
  }

  /**
   * A response to the query the cutover sends parses to exactly its A, AAAA, NS and CNAME records,
   * in order, each with its name, TTL and value; names are written out, or go on wherever in the
   * response a pointer leads.
   */
  lemma ResponseRoundTrip(
    payload: Bytes, id: U16, question: seq<Label>, asked: U16, records: seq<Encodable>)
    requires forall l :: l in question ==> WireLabel(l)
    requires forall r :: r in records ==> r.ValidIn(payload)
    requires Responds(payload, id, question, asked, records)
    ensures Parsed(payload, EncodeQuery(id, question, asked)[..2]) == Ok(AnswersOf(records))
  {
    QueryParts(id, question, asked);
    QuestionRoundTrip(payload, question, asked);
    assert payload[..2] == EncodeU16(id);
    U16RoundTrip(payload, 4, 1);
    U16RoundTrip(payload, 6, |records|);
    hide Represents, EncodeQuery, EncodeQuestion, EncodeRecords, AllLaid, QuestionsLaid, WireLabel, AsItems, AllGiven;
    hide ReadU16, Parsed;
    var start := HEADER + |EncodeQuestion(question, asked)|;
    RecordsRoundTrip(payload, start, records);
    ResponseReads(payload, EncodeU16(id), start, AsItems(records));
  }

  // ---- Where pointers go ----

  lemma {:induction false} LabelsSplit(labels: seq<Label>, k: nat)
    requires k <= |labels|
    ensures EncodeLabels(labels) == EncodeLabels(labels[..k]) + EncodeLabels(labels[k..])
  {
    if k > 0 {
      LabelsSplit(labels[1..], k - 1);
      assert labels[..k][1..] == labels[1..][..k - 1];
      assert labels[k..] == labels[1..][k - 1..];
    } else {
      assert labels[0..] == labels;
    }
  }

  /** A written-out name serves from each of its labels on, and from its end as the root. */
  lemma WrittenNameServes(payload: Bytes, at: nat, labels: seq<Label>, k: nat)
    requires forall l :: l in labels ==> Readable(l)
    requires Holds(payload, at, EncodeName(labels)) && k <= |labels|
    ensures Serves(payload, at + |EncodeLabels(labels[..k])|, labels[k..])
  {
    hide Represents, End, Holds, Readable, EncodeLabels;
    LabelsSplit(labels, k);
    var before, after := EncodeLabels(labels[..k]), EncodeLabels(labels[k..]);
    assert EncodeName(labels) == before + EncodeName(labels[k..]);
    HoldsParts(payload, at, before, EncodeName(labels[k..]));
    PlainName(payload, at + |before|, labels[k..]);
  }

  /**
   * An alias and its address: the first record's owner points to the question, the second's into
   * the first one's data.
   */
  lemma AliasThenAddress(
    payload: Bytes, id: U16, question: seq<Label>, asked: U16, alias: seq<Label>, ttl: U32, address: Bytes,
    first: Encodable, second: Encodable)
    requires forall l :: l in question + alias ==> WireLabel(l)
    requires first == WireRecord(Pointing([], HEADER, question), TYPE_CNAME, CLASS_IN, ttl, Target(Plain(alias)))
    requires |address| == 4 && HEADER + |EncodeQuestion(question, asked)| + 12 < 0x4000
    requires
      var data := HEADER + |EncodeQuestion(question, asked)| + 12;
      second == WireRecord(Pointing([], data, alias), TYPE_A, CLASS_IN, ttl, Address(address))
    requires Responds(payload, id, question, asked, [first, second])
    ensures
      Parsed(payload, EncodeQuery(id, question, asked)[..2]) ==
        Ok([DnsAnswer(question, TYPE_CNAME, ttl, Host(alias)), DnsAnswer(alias, TYPE_A, ttl, V4(address))])
  {
    forall l | l in question || l in alias
      ensures WireLabel(l)
    {
      assert l in question + alias;
    }
    WireLabelsAreReadable(question);
    WireLabelsAreReadable(alias);
    var start := HEADER + |EncodeQuestion(question, asked)|;
    hide *;
    ResponseHolds(payload, id, question, asked, [first, second]);
    AliasIsHeld(payload, start, first, second);
    QuestionRoundTrip(payload, question, asked);
    RecordsAreValid(payload, start + 12, question, alias, first, second);
    ResponseRoundTrip(payload, id, question, asked, [first, second]);
    AliasAnswers(question, alias, first, second);
  }

  lemma ResponseHolds(payload: Bytes, id: U16, question: seq<Label>, asked: U16, records: seq<Encodable>)
    requires Responds(payload, id, question, asked, records)
    ensures Holds(payload, HEADER, EncodeQuestion(question, asked))
    ensures Holds(payload, HEADER + |EncodeQuestion(question, asked)|, EncodeRecords(records))
  {
    hide Holds, EncodeRecords;
    QueryParts(id, question, asked);
  }

  lemma RecordsAreValid(
    payload: Bytes, data: nat, question: seq<Label>, alias: seq<Label>, first: WireRecord, second: WireRecord)
    requires Represents(payload, HEADER, question, 0) && data < 0x4000
    requires Holds(payload, data, EncodeName(alias)) && forall l :: l in alias ==> Readable(l)
    requires first.owner == Pointing([], HEADER, question) && first.recordType == TYPE_CNAME
    requires first.rdata == Target(Plain(alias))
    requires second.owner == Pointing([], data, alias) && second.recordType == TYPE_A
    requires second.rdata.Address? && |second.rdata.bytes| == 4
    ensures first.ValidIn(payload) && second.ValidIn(payload)
  {
    hide Represents, EncodeLabels, EncodeName, Readable, Holds;
    WrittenNameServes(payload, data, alias, 0);
    FromTheStart(alias);
  }

  lemma AliasAnswers(question: seq<Label>, alias: seq<Label>, first: Encodable, second: Encodable)
    requires first.owner.Pointing? && first.owner.prefix == [] && first.owner.suffix == question
    requires first.rdata == Target(Plain(alias))
    requires second.owner.Pointing? && second.owner.prefix == [] && second.owner.suffix == alias
    requires second.rdata.Address? && second.recordType == TYPE_A
    ensures
      AnswersOf([first, second]) ==
        [DnsAnswer(question, first.recordType, first.ttl, Host(alias)),
         DnsAnswer(alias, TYPE_A, second.ttl, V4(second.rdata.bytes))]
  {
    AnswersOfTwo(first, second);
    assert [] + question == question && [] + alias == alias;
    hide AnswersOf;
  }

  lemma FromTheStart(labels: seq<Label>)
    ensures labels[0..] == labels && EncodeLabels(labels[..0]) == []
  {
  }

  lemma AnswersOfTwo(first: Encodable, second: Encodable)
    ensures AnswersOf([first, second]) == first.AsItem().Given() + second.AsItem().Given()
  {
    hide WireRecord.AsItem, Item.Given;
    var items := AsItems([first, second]);
    assert [first, second][1..] == [second] && [second][1..] == [];
    assert AsItems([second]) == [second.AsItem()];
    assert items == [first.AsItem(), second.AsItem()];
    assert items[1..] == [second.AsItem()] && items[1..][1..] == [];
    assert AllGiven([second.AsItem()]) == second.AsItem().Given();
  }

  lemma AliasIsHeld(payload: Bytes, start: nat, first: Encodable, second: Encodable)
    requires Holds(payload, start, EncodeRecords([first, second]))
    requires first.owner.Pointing? && first.owner.prefix == [] && first.rdata.Target? && first.rdata.name.Plain?
    ensures Holds(payload, start + 12, EncodeName(first.rdata.name.labels))
  {
    hide Holds;
    assert [first, second][1..] == [second];
    HoldsParts(payload, start, first.Encode(), EncodeRecords([second]));
    assert |first.owner.Encode()| == 2;
    HoldsParts(payload, start, first.owner.Encode(), first.Fields() + first.Data());
    HoldsParts(payload, start + 2, first.Fields(), first.Data());
  }
}
