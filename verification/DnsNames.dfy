/**
 * Names on the DNS wire: the cursor loop that reads one, with its compression pointers
 * (sdk/src/cloudfall/cutover.py), against the grammar of section 4.1.4 of RFC 1035.
 */
module DnsNames {
  import opened Results

  type Byte = b: int | 0 <= b < 256

  type Bytes = seq<Byte>

  /** A label is written after one byte that holds its length. */
  type Label = bytes: Bytes | |bytes| < 256

  /**
   * `Malformed` is the reader's own error and `BadHeader` the response check's; the other two are
   * raised by the byte decoding underneath and are not `CutoverError`s.
   */
  datatype DnsError = Malformed | BadHeader | ShortField | NotAscii

  const POINTER_MASK := 0xC0
  const MAX_JUMPS := 32

  predicate Ascii(bytes: Bytes) {
    forall i :: 0 <= i < |bytes| ==> bytes[i] < 128
  }

  function Clip(n: nat, payload: Bytes): (i: nat)
    ensures i <= |payload|
  {
    if n < |payload| then n else |payload|
  }

  function Slice(payload: Bytes, from: nat, to: nat): (part: Bytes)
    ensures from <= to ==> |part| <= to - from
  {
    if Clip(from, payload) <= Clip(to, payload) then payload[Clip(from, payload)..Clip(to, payload)] else []
  }

  function PointerAt(payload: Bytes, at: nat): nat
    requires at + 1 < |payload| && payload[at] >= POINTER_MASK
  {
    (payload[at] - POINTER_MASK) * 256 + payload[at + 1]
  }

  // ---- Reading ----

  /** The labels read from `cursor` on, when `jumps` pointers have been followed already. */
  function Scan(payload: Bytes, cursor: nat, jumps: nat): Result<seq<Label>, DnsError>
    requires jumps <= MAX_JUMPS + 1
    decreases MAX_JUMPS + 1 - jumps, |payload| - cursor
  {
    if cursor >= |payload| || jumps > MAX_JUMPS then Err(Malformed)
    else
      var length := payload[cursor];
      if length >= POINTER_MASK then
        if cursor + 1 >= |payload| then Err(ShortField) else Scan(payload, PointerAt(payload, cursor), jumps + 1)
      else if length == 0 then Ok([])
      else
        var part := Slice(payload, cursor + 1, cursor + 1 + length);
        if !Ascii(part) then Err(NotAscii) else Prepend([part], Scan(payload, cursor + 1 + length, jumps))
  }

  function Prepend(labels: seq<Label>, rest: Result<seq<Label>, DnsError>): Result<seq<Label>, DnsError> {
    match rest
    case Ok(more) => Ok(labels + more)
    case Err(e) => Err(e)
  }

  /** Where the bytes of the name at `cursor` end: after its zero byte, or after its first pointer. */
  function End(payload: Bytes, cursor: nat): nat
    decreases |payload| - cursor
  {
    if cursor >= |payload| then cursor
    else if payload[cursor] >= POINTER_MASK then cursor + 2
    else if payload[cursor] == 0 then cursor + 1
    else End(payload, cursor + 1 + payload[cursor])
  }

  lemma {:induction false} EndInBounds(payload: Bytes, cursor: nat, jumps: nat)
    requires jumps <= MAX_JUMPS + 1 && Scan(payload, cursor, jumps).Ok?
    ensures cursor < End(payload, cursor) <= |payload|
    decreases |payload| - cursor
  {
    if 0 < payload[cursor] < POINTER_MASK {
      EndInBounds(payload, cursor + 1 + payload[cursor], jumps);
    }
  }

  /** One name: its labels, and where reading goes on after it. It ends on every payload and offset. */
  method ReadName(payload: Bytes, offset: nat) returns (name: Result<(seq<Label>, nat), DnsError>)
    ensures name == match Scan(payload, offset, 0)
                    case Ok(labels) => Ok((labels, End(payload, offset)))
                    case Err(e) => Err(e)
    ensures name.Ok? ==> offset < name.value.1 <= |payload|
  {
    hide Scan, End, Prepend, Slice;
    var labels: seq<Label> := [];
    var jumps: nat, cursor: nat, end: nat, jumped := 0, offset, offset, false;
    PrependNothing(Scan(payload, offset, 0));
    while true
      invariant jumps <= MAX_JUMPS + 1
      invariant Scan(payload, offset, 0) == Prepend(labels, Scan(payload, cursor, jumps))
      invariant if jumped then end == End(payload, offset) else End(payload, cursor) == End(payload, offset)
      decreases MAX_JUMPS + 1 - jumps, |payload| - cursor
    {
      ScanStep(payload, cursor, jumps);
      if cursor >= |payload| || jumps > MAX_JUMPS {
        PrependError(labels, Malformed);
        return Err(Malformed);
      }
      var length := payload[cursor];
      if length >= POINTER_MASK {
        if cursor + 1 >= |payload| {
          PrependError(labels, ShortField);
          return Err(ShortField);
        }
        if !jumped {
          end := cursor + 2;
          jumped := true;
        }
        cursor := PointerAt(payload, cursor);
        jumps := jumps + 1;
        continue;
      }
      if length == 0 {
        if !jumped {
          end := cursor + 1;
        }
        PrependTo(labels, []);
        break;
      }
      var part := Slice(payload, cursor + 1, cursor + 1 + length);
      if !Ascii(part) {
        PrependError(labels, NotAscii);
        return Err(NotAscii);
      }
      PrependTwice(labels, part, Scan(payload, cursor + 1 + length, jumps));
      labels := labels + [part];
      cursor := cursor + 1 + length;
    }
    assert labels + [] == labels;
    EndInBounds(payload, offset, 0);
    name := Ok((labels, end));
  }

  /** One turn of the reader, spelled out. */
  lemma ScanStep(payload: Bytes, cursor: nat, jumps: nat)
    requires jumps <= MAX_JUMPS + 1
    ensures cursor >= |payload| || jumps > MAX_JUMPS ==> Scan(payload, cursor, jumps) == Err(Malformed)
    ensures cursor < |payload| && jumps <= MAX_JUMPS ==>
      var length := payload[cursor];
      if length >= POINTER_MASK then
        && Scan(payload, cursor, jumps) ==
           (if cursor + 1 >= |payload| then Err(ShortField) else Scan(payload, PointerAt(payload, cursor), jumps + 1))
        && End(payload, cursor) == cursor + 2
      else if length == 0 then
        Scan(payload, cursor, jumps) == Ok([]) && End(payload, cursor) == cursor + 1
      else
        var part := Slice(payload, cursor + 1, cursor + 1 + length);
        && Scan(payload, cursor, jumps) ==
           (if !Ascii(part) then Err(NotAscii) else Prepend([part], Scan(payload, cursor + 1 + length, jumps)))
        && End(payload, cursor) == End(payload, cursor + 1 + length)
  {
  }

  lemma PrependError(labels: seq<Label>, error: DnsError)
    ensures Prepend(labels, Err(error)) == Err(error)
  {
  }

  lemma PrependTo(labels: seq<Label>, more: seq<Label>)
    ensures Prepend(labels, Ok(more)) == Ok(labels + more)
  {
  }

  lemma PrependNothing(rest: Result<seq<Label>, DnsError>)
    ensures Prepend([], rest) == rest
  {
    if rest.Ok? {
      assert [] + rest.value == rest.value;
    }
  }

  lemma PrependTwice(labels: seq<Label>, part: Label, rest: Result<seq<Label>, DnsError>)
    ensures Prepend(labels, Prepend([part], rest)) == Prepend(labels + [part], rest)
  {
    if rest.Ok? {
      assert labels + ([part] + rest.value) == labels + [part] + rest.value;
    }
  }

  // ---- What a name is ----

  /**
   * The bytes at `at` represent `labels` through `hops` pointers: a zero byte, a label and the rest
   * of the name, or a pointer to where the name goes on.
   */
  ghost predicate Represents(payload: Bytes, at: nat, labels: seq<Label>, hops: nat)
    decreases |labels| + hops
  {
    at < |payload| &&
    if payload[at] >= POINTER_MASK then
      at + 1 < |payload| && hops > 0 && Represents(payload, PointerAt(payload, at), labels, hops - 1)
    else if payload[at] == 0 then labels == [] && hops == 0
    else
      && labels != []
      && at + 1 + payload[at] <= |payload|
      && labels[0] == payload[at + 1..at + 1 + payload[at]]
      && Ascii(labels[0])
      && Represents(payload, at + 1 + payload[at], labels[1..], hops)
  }

  lemma {:induction false} ReadsWhatIsRepresented(payload: Bytes, at: nat, labels: seq<Label>, hops: nat, jumps: nat)
    requires Represents(payload, at, labels, hops) && jumps <= MAX_JUMPS + 1
    ensures Scan(payload, at, jumps) == if jumps + hops <= MAX_JUMPS then Ok(labels) else Err(Malformed)
    decreases |labels| + hops
  {
    if jumps <= MAX_JUMPS && payload[at] >= POINTER_MASK {
      ReadsWhatIsRepresented(payload, PointerAt(payload, at), labels, hops - 1, jumps + 1);
    } else if jumps <= MAX_JUMPS && payload[at] != 0 {
      ReadsWhatIsRepresented(payload, at + 1 + payload[at], labels[1..], hops, jumps);
      assert labels == [labels[0]] + labels[1..];
    }
  }

  lemma {:induction false} RepresentsWhatIsRead(payload: Bytes, at: nat, jumps: nat) returns (hops: nat)
    requires jumps <= MAX_JUMPS + 1 && Scan(payload, at, jumps).Ok?
    ensures jumps + hops <= MAX_JUMPS && Represents(payload, at, Scan(payload, at, jumps).value, hops)
    decreases MAX_JUMPS + 1 - jumps, |payload| - at
  {
    if payload[at] >= POINTER_MASK {
      hops := RepresentsWhatIsRead(payload, PointerAt(payload, at), jumps + 1);
      hops := hops + 1;
    } else if payload[at] == 0 {
      hops := 0;
    } else {
      hops := RepresentsWhatIsRead(payload, at + 1 + payload[at], jumps);
      var rest := Scan(payload, at + 1 + payload[at], jumps).value;
      assert Scan(payload, at, jumps).value[1..] == rest;
    }
  }

  ghost predicate IsName(payload: Bytes, at: nat, labels: seq<Label>) {
    exists hops: nat :: hops <= MAX_JUMPS && Represents(payload, at, labels, hops)
  }

  /** Reading succeeds with some labels exactly when the bytes represent them through at most 32 pointers. */
  lemma ReadsExactlyTheNames(payload: Bytes, at: nat, labels: seq<Label>)
    ensures Scan(payload, at, 0) == Ok(labels) <==> IsName(payload, at, labels)
  {
    hide Scan, Represents;
    if Scan(payload, at, 0) == Ok(labels) {
      var hops := RepresentsWhatIsRead(payload, at, 0);
    }
    if IsName(payload, at, labels) {
      var hops: nat :| hops <= MAX_JUMPS && Represents(payload, at, labels, hops);
      ReadsWhatIsRepresented(payload, at, labels, hops, 0);
    }
  }

  // ---- Writing ----

  function EncodeLabels(labels: seq<Label>): Bytes
  {
    if labels == [] then [] else [|labels[0]|] + labels[0] + EncodeLabels(labels[1..])
  }

  function EncodeName(labels: seq<Label>): Bytes
  {
    EncodeLabels(labels) + [0]
  }

  function EncodePointer(target: nat): Bytes
    requires target < 0x4000
  {
    [POINTER_MASK + target / 256, target % 256]
  }

  predicate Holds(payload: Bytes, at: nat, bytes: Bytes) {
    at + |bytes| <= |payload| && payload[at..at + |bytes|] == bytes
  }

  lemma HoldsParts(payload: Bytes, at: nat, a: Bytes, b: Bytes)
    requires Holds(payload, at, a + b)
    ensures Holds(payload, at, a) && Holds(payload, at + |a|, b)
  {
    assert (a + b)[..|a|] == a && (a + b)[|a|..] == b;
    assert payload[at..at + |a|] == payload[at..at + |a + b|][..|a|];
    assert payload[at + |a|..at + |a| + |b|] == payload[at..at + |a + b|][|a|..];
  }

  /** A label the reader takes for one: not empty, shorter than a pointer byte, ASCII. */
  predicate Readable(name: Label) {
    1 <= |name| < POINTER_MASK && Ascii(name)
  }

  /** The labels of section 2.3.4 of RFC 1035. */
  predicate WireLabel(name: Label) {
    1 <= |name| <= 63 && Ascii(name)
  }

  lemma OneLabel(payload: Bytes, at: nat, head: Label, rest: seq<Label>, hops: nat)
    requires Readable(head) && Holds(payload, at, [|head|] + head)
    requires Represents(payload, at + 1 + |head|, rest, hops)
    ensures Represents(payload, at, [head] + rest, hops)
    ensures End(payload, at) == End(payload, at + 1 + |head|)
  {
    HoldsParts(payload, at, [|head|], head);
    assert payload[at..at + 1] == [|head|] && payload[at] == |head|;
    assert ([head] + rest)[1..] == rest;
  }

  lemma OnePointer(payload: Bytes, at: nat, target: nat, labels: seq<Label>, hops: nat)
    requires target < 0x4000 && Holds(payload, at, EncodePointer(target))
    requires Represents(payload, target, labels, hops)
    ensures Represents(payload, at, labels, hops + 1)
    ensures End(payload, at) == at + 2
  {
    var two := payload[at..at + 2];
    assert two == EncodePointer(target) && payload[at] == two[0] && payload[at + 1] == two[1];
    assert PointerAt(payload, at) == target;
  }

  lemma NoLabels(payload: Bytes, at: nat)
    requires Holds(payload, at, [0])
    ensures Represents(payload, at, [], 0)
    ensures End(payload, at) == at + 1
  {
    assert payload[at..at + 1] == [0] && payload[at] == 0;
  }

  /** Labels written before a name that is represented elsewhere: together they represent both. */
  lemma {:induction false} LabelsThen(
    payload: Bytes, at: nat, labels: seq<Label>, rest: seq<Label>, hops: nat)
    requires forall l :: l in labels ==> Readable(l)
    requires Holds(payload, at, EncodeLabels(labels))
    requires Represents(payload, at + |EncodeLabels(labels)|, rest, hops)
    ensures Represents(payload, at, labels + rest, hops)
    ensures End(payload, at) == End(payload, at + |EncodeLabels(labels)|)
    decreases |labels|
  {
    hide Represents, End, Holds, Readable;
    if labels == [] {
      assert labels + rest == rest;
    } else {
      var head: Bytes := [|labels[0]|] + labels[0];
      HoldsParts(payload, at, head, EncodeLabels(labels[1..]));
      LabelsThen(payload, at + |head|, labels[1..], rest, hops);
      OneLabel(payload, at, labels[0], labels[1..] + rest, hops);
      assert labels + rest == [labels[0]] + (labels[1..] + rest);
    }
  }

  lemma PlainName(payload: Bytes, at: nat, labels: seq<Label>)
    requires forall l :: l in labels ==> Readable(l)
    requires Holds(payload, at, EncodeName(labels))
    ensures Represents(payload, at, labels, 0)
    ensures End(payload, at) == at + |EncodeName(labels)|
  {
    hide Represents, End, Holds, Readable, EncodeLabels;
    HoldsParts(payload, at, EncodeLabels(labels), [0]);
    NoLabels(payload, at + |EncodeLabels(labels)|);
    LabelsThen(payload, at, labels, [], 0);
    assert labels + [] == labels;
  }

  /** A compressed name represents the same labels as its uncompressed form, through one more pointer. */
  lemma CompressedName(payload: Bytes, at: nat, prefix: seq<Label>, target: nat, suffix: seq<Label>, hops: nat)
    requires forall l :: l in prefix ==> Readable(l)
    requires target < 0x4000 && Holds(payload, at, EncodeLabels(prefix) + EncodePointer(target))
    requires Represents(payload, target, suffix, hops)
    ensures Represents(payload, at, prefix + suffix, hops + 1)
    ensures End(payload, at) == at + |EncodeLabels(prefix)| + 2
  {
    hide Represents, End, Holds, Readable, EncodeLabels;
    HoldsParts(payload, at, EncodeLabels(prefix), EncodePointer(target));
    OnePointer(payload, at + |EncodeLabels(prefix)|, target, suffix, hops);
    LabelsThen(payload, at, prefix, suffix, hops + 1);
  }

  lemma {:induction false} ReadLabelsAreReadable(payload: Bytes, at: nat, labels: seq<Label>, hops: nat)
    requires Represents(payload, at, labels, hops)
    ensures forall l :: l in labels ==> Readable(l)
    decreases |labels| + hops
  {
    if payload[at] >= POINTER_MASK {
      ReadLabelsAreReadable(payload, PointerAt(payload, at), labels, hops - 1);
    } else if payload[at] != 0 {
      ReadLabelsAreReadable(payload, at + 1 + payload[at], labels[1..], hops);
      assert labels == [labels[0]] + labels[1..];
    }
  }

  /**
   * A name written without compression reads back exactly when each label is ASCII and 1 to 191
   * bytes long. RFC 1035 allows 63; the lengths from 64 on are reserved there, and read as labels here.
   */
  lemma NameRoundTrip(payload: Bytes, at: nat, labels: seq<Label>)
    requires Holds(payload, at, EncodeName(labels))
    ensures Scan(payload, at, 0) == Ok(labels) <==> forall l :: l in labels ==> Readable(l)
  {
    if forall l :: l in labels ==> Readable(l) {
      PlainName(payload, at, labels);
      ReadsWhatIsRepresented(payload, at, labels, 0, 0);
    }
    if Scan(payload, at, 0) == Ok(labels) {
      var hops := RepresentsWhatIsRead(payload, at, 0);
      ReadLabelsAreReadable(payload, at, labels, hops);
    }
  }
}
