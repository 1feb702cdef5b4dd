/**
 * How reading a DNS response fails (sdk/src/cloudfall/cutover.py): with the cutover's own error, or
 * with one the byte decoding underneath raises, and on exactly which bytes.
 */
module DnsFailures {
  import opened Results
  import opened DnsNames
  import opened DnsResponses

  /** The cutover catches its own errors alone; any other passes through it. */
  predicate Caught(error: DnsError) { error.Malformed? || error.BadHeader? }

  // ---- Names ----

  /** The reader walks from `at` to `to`, over so many ASCII labels and through so many pointers. */
  ghost predicate Walks(payload: Bytes, at: nat, to: nat, labels: nat, hops: nat)
    decreases labels + hops
  {
    if labels == 0 && hops == 0 then at == to
    else
      at < |payload| &&
      if payload[at] >= POINTER_MASK then
        at + 1 < |payload| && hops > 0 && Walks(payload, PointerAt(payload, at), to, labels, hops - 1)
      else
        && payload[at] != 0 && labels > 0
        && Ascii(Slice(payload, at + 1, at + 1 + payload[at]))
        && Walks(payload, at + 1 + payload[at], to, labels - 1, hops)
  }

  /**
   * Where the reader gives up, and how: past the payload or its 33rd pointer, on half a pointer, on a label that is
   * not ASCII.
   */
  ghost predicate Stops(payload: Bytes, to: nat, hops: nat, error: DnsError) {
    match error
    case Malformed => hops == MAX_JUMPS + 1 || (hops <= MAX_JUMPS && to >= |payload|)
    case ShortField => hops <= MAX_JUMPS && to + 1 == |payload| && payload[to] >= POINTER_MASK
    case NotAscii =>
      && hops <= MAX_JUMPS && to < |payload| && 0 < payload[to] < POINTER_MASK
      && !Ascii(Slice(payload, to + 1, to + 1 + payload[to]))
    case BadHeader => false
  }

  ghost predicate StopsFrom(payload: Bytes, at: nat, error: DnsError, to: nat, labels: nat, hops: nat) {
    Walks(payload, at, to, labels, hops) && Stops(payload, to, hops, error)
  }

  ghost predicate NameFails(payload: Bytes, at: nat, error: DnsError) {
    exists to: nat, labels: nat, hops: nat :: StopsFrom(payload, at, error, to, labels, hops)
  }

  lemma WalkStep(payload: Bytes, at: nat, to: nat, labels: nat, hops: nat)
    ensures labels == 0 && hops == 0 ==> (Walks(payload, at, to, labels, hops) <==> at == to)
    ensures labels > 0 || hops > 0 ==>
      (Walks(payload, at, to, labels, hops) <==>
        at < |payload| &&
        if payload[at] >= POINTER_MASK then
          at + 1 < |payload| && hops > 0 && Walks(payload, PointerAt(payload, at), to, labels, hops - 1)
        else
          && payload[at] != 0 && labels > 0
          && Ascii(Slice(payload, at + 1, at + 1 + payload[at]))
          && Walks(payload, at + 1 + payload[at], to, labels - 1, hops))
  {
  }

  lemma {:induction false} WalkKeepsErrors(
    payload: Bytes, at: nat, to: nat, labels: nat, hops: nat, jumps: nat, error: DnsError)
    requires Walks(payload, at, to, labels, hops) && jumps + hops <= MAX_JUMPS + 1
    requires Scan(payload, to, jumps + hops) == Err(error)
    ensures Scan(payload, at, jumps) == Err(error)
    decreases labels + hops
  {
    hide Scan, Walks, Slice;
    WalkStep(payload, at, to, labels, hops);
    if labels > 0 || hops > 0 {
      ScanStep(payload, at, jumps);
      if payload[at] >= POINTER_MASK {
        WalkKeepsErrors(payload, PointerAt(payload, at), to, labels, hops - 1, jumps + 1, error);
      } else if jumps <= MAX_JUMPS {
        WalkKeepsErrors(payload, at + 1 + payload[at], to, labels - 1, hops, jumps, error);
      } else {
        ScanStep(payload, to, jumps + hops);
      }
    }
  }

  lemma {:induction false} ErrorsAreStops(payload: Bytes, at: nat, jumps: nat, error: DnsError)
    returns (to: nat, labels: nat, hops: nat)
    requires jumps <= MAX_JUMPS + 1 && Scan(payload, at, jumps) == Err(error)
    ensures Walks(payload, at, to, labels, hops) && Stops(payload, to, jumps + hops, error)
    decreases MAX_JUMPS + 1 - jumps, |payload| - at
  {
    hide Scan, Walks, Slice;
    ScanStep(payload, at, jumps);
    to, labels, hops := at, 0, 0;
    if jumps <= MAX_JUMPS && at + 1 < |payload| && payload[at] >= POINTER_MASK {
      to, labels, hops := ErrorsAreStops(payload, PointerAt(payload, at), jumps + 1, error);
      hops := hops + 1;
    } else if jumps <= MAX_JUMPS && at < |payload| && payload[at] < POINTER_MASK {
      if Ascii(Slice(payload, at + 1, at + 1 + payload[at])) {
        to, labels, hops := ErrorsAreStops(payload, at + 1 + payload[at], jumps, error);
        labels := labels + 1;
      }
    }
    WalkStep(payload, at, to, labels, hops);
  }

  /** Reading a name gives an error exactly when the walk from it stops that way. */
  lemma NameFailsExactlyWhen(payload: Bytes, at: nat, error: DnsError)
    ensures Scan(payload, at, 0) == Err(error) <==> NameFails(payload, at, error)
  {
    hide Scan, Walks, Stops;
    if Scan(payload, at, 0) == Err(error) {
      var to, labels, hops := ErrorsAreStops(payload, at, 0, error);
      assert StopsFrom(payload, at, error, to, labels, hops);
    }
    if NameFails(payload, at, error) {
      var to: nat, labels: nat, hops: nat :| StopsFrom(payload, at, error, to, labels, hops);
      StopScans(payload, to, hops, error);
      WalkKeepsErrors(payload, at, to, labels, hops, 0, error);
    }
  }

  lemma StopScans(payload: Bytes, to: nat, hops: nat, error: DnsError)
    requires Stops(payload, to, hops, error)
    ensures hops <= MAX_JUMPS + 1 && Scan(payload, to, hops) == Err(error)
  {
    hide Scan;
    ScanStep(payload, to, hops);
  }

  /** Half a pointer at the end of the payload, and a label byte above 127: neither error is caught. */
  lemma UncaughtNames()
    ensures Scan([192], 0, 0) == Err(ShortField) && !Caught(ShortField)
    ensures Scan([1, 200, 0], 0, 0) == Err(NotAscii) && !Caught(NotAscii)
  {
    ScanStep([192], 0, 0);
    ScanStep([1, 200, 0], 0, 0);
    var part := Slice([1, 200, 0], 1, 2);
    assert part == [200] && part[0] == 200;
  }

  // ---- Records ----

  /** A record cut short after its owner's name. */
  lemma UncaughtRecord()
    ensures Record([0], 0) == Err(ShortField)
  {
    ScanStep([0], 0, 0);
  }

  /** The owner's name fails, fewer than ten bytes follow it, or the name in its data fails. */
  ghost predicate RecordFails(payload: Bytes, offset: nat, error: DnsError) {
    match Name(payload, offset)
    case Err(_) => NameFails(payload, offset, error)
    case Ok((_, at)) =>
      if at + 10 > |payload| then error.ShortField?
      else
        && (ReadU16(payload, at) == TYPE_NS || ReadU16(payload, at) == TYPE_CNAME)
        && NameFails(payload, at + 10, error)
  }

  lemma RecordFailsExactlyWhen(payload: Bytes, offset: nat, error: DnsError)
    ensures Record(payload, offset) == Err(error) <==> RecordFails(payload, offset, error)
  {
    hide Scan, End, NameFails, ReadU16, ReadU32, Slice;
    NameFailsExactlyWhen(payload, offset, error);
    if Name(payload, offset).Ok? {
      NameFailsExactlyWhen(payload, Name(payload, offset).value.1 + 10, error);
    }
  }

  // ---- Responses ----

  /** Where a number of records end, when they can be read. */
  function Skipped(payload: Bytes, count: nat, offset: nat): Result<nat, DnsError> {
    if count == 0 then Ok(offset)
    else
      match Record(payload, offset)
      case Err(e) => Err(e)
      case Ok((_, next)) => Skipped(payload, count - 1, next)
  }

  ghost predicate QuestionFails(payload: Bytes, offset: nat, i: nat, error: DnsError) {
    Questions(payload, i, offset).Ok? && NameFails(payload, Questions(payload, i, offset).value, error)
  }

  ghost predicate AnswerFails(payload: Bytes, offset: nat, i: nat, error: DnsError) {
    Skipped(payload, i, offset).Ok? && RecordFails(payload, Skipped(payload, i, offset).value, error)
  }

  ghost predicate SomeQuestionFails(payload: Bytes, count: nat, offset: nat, error: DnsError) {
    exists i: nat :: i < count && QuestionFails(payload, offset, i, error)
  }

  /** Where the next question is, after a name that can be read. */
  function NextQuestion(payload: Bytes, offset: nat): nat
    requires Name(payload, offset).Ok?
  {
    Name(payload, offset).value.1 + 4
  }

  lemma QuestionFailsLater(payload: Bytes, offset: nat, i: nat, error: DnsError)
    requires Name(payload, offset).Ok?
    ensures QuestionFails(payload, offset, i + 1, error) <==>
            QuestionFails(payload, NextQuestion(payload, offset), i, error)
  {
    hide Name, NameFails;
  }

  lemma FirstQuestion(payload: Bytes, offset: nat, i: nat, error: DnsError)
    ensures QuestionFails(payload, offset, 0, error) <==> NameFails(payload, offset, error)
    ensures i > 0 && Name(payload, offset).Err? ==> !QuestionFails(payload, offset, i, error)
  {
    hide Name, NameFails;
    assert Questions(payload, 0, offset) == Ok(offset);
  }

  lemma FirstOrLaterQuestion(payload: Bytes, count: nat, offset: nat, error: DnsError)
    requires count > 0
    ensures SomeQuestionFails(payload, count, offset, error) <==>
            || NameFails(payload, offset, error)
            || (&& Name(payload, offset).Ok?
                && SomeQuestionFails(payload, count - 1, NextQuestion(payload, offset), error))
  {
    hide Name, NameFails, QuestionFails, NextQuestion;
    FirstQuestion(payload, offset, 0, error);
    if Name(payload, offset).Ok? {
      var next := NextQuestion(payload, offset);
      if i: nat :| i < count - 1 && QuestionFails(payload, next, i, error) {
        QuestionFailsLater(payload, offset, i, error);
        assert QuestionFails(payload, offset, i + 1, error);
      }
    }
    if i: nat :| i < count && QuestionFails(payload, offset, i, error) {
      FirstQuestion(payload, offset, i, error);
      if i > 0 && Name(payload, offset).Ok? {
        QuestionFailsLater(payload, offset, i - 1, error);
      }
    }
  }

  lemma QuestionsStep(payload: Bytes, count: nat, offset: nat, error: DnsError)
    ensures count == 0 ==> Questions(payload, count, offset).Ok?
    ensures count > 0 ==>
      (Questions(payload, count, offset) == Err(error) <==>
        if Name(payload, offset).Ok? then Questions(payload, count - 1, NextQuestion(payload, offset)) == Err(error)
        else Name(payload, offset) == Err(error))
  {
    hide Name;
  }

  lemma NameErrors(payload: Bytes, offset: nat, error: DnsError)
    ensures Name(payload, offset) == Err(error) <==> NameFails(payload, offset, error)
  {
    hide Scan, NameFails;
    NameFailsExactlyWhen(payload, offset, error);
  }

  lemma {:induction false} QuestionsFailExactlyWhen(payload: Bytes, count: nat, offset: nat, error: DnsError)
    ensures Questions(payload, count, offset) == Err(error) <==> SomeQuestionFails(payload, count, offset, error)
  {
    hide Name, NameFails, QuestionFails, SomeQuestionFails, NextQuestion, Questions;
    QuestionsStep(payload, count, offset, error);
    if count == 0 {
      NoneFails(payload, offset, error);
    } else {
      NameErrors(payload, offset, error);
      FirstOrLaterQuestion(payload, count, offset, error);
      if Name(payload, offset).Ok? {
        QuestionsFailExactlyWhen(payload, count - 1, NextQuestion(payload, offset), error);
      }
    }
  }

  lemma AnswerFailsLater(payload: Bytes, offset: nat, i: nat, error: DnsError)
    requires Record(payload, offset).Ok?
    ensures Skipped(payload, 0, offset) == Ok(offset)
    ensures AnswerFails(payload, offset, i + 1, error) <==>
            AnswerFails(payload, Record(payload, offset).value.1, i, error)
  {
    hide Record, RecordFails;
  }

  ghost predicate SomeAnswerFails(payload: Bytes, count: nat, offset: nat, error: DnsError) {
    exists i: nat :: i < count && AnswerFails(payload, offset, i, error)
  }

  lemma FirstOrLater(payload: Bytes, count: nat, offset: nat, error: DnsError)
    requires count > 0
    ensures SomeAnswerFails(payload, count, offset, error) <==>
            || RecordFails(payload, offset, error)
            || (&& Record(payload, offset).Ok?
                && SomeAnswerFails(payload, count - 1, Record(payload, offset).value.1, error))
  {
    hide Record, RecordFails;
    FirstAnswer(payload, offset, error);
    hide AnswerFails, Skipped;
    if Record(payload, offset).Ok? {
      var next := Record(payload, offset).value.1;
      if i: nat :| i < count - 1 && AnswerFails(payload, next, i, error) {
        AnswerFailsLater(payload, offset, i, error);
        assert AnswerFails(payload, offset, i + 1, error);
      }
    }
    if i: nat :| i < count && AnswerFails(payload, offset, i, error) {
      if i > 0 && Record(payload, offset).Ok? {
        AnswerFailsLater(payload, offset, i - 1, error);
      } else if i > 0 {
        NothingAfterAnError(payload, offset, i, error);
      }
    }
  }

  lemma FirstAnswer(payload: Bytes, offset: nat, error: DnsError)
    ensures AnswerFails(payload, offset, 0, error) <==> RecordFails(payload, offset, error)
  {
    hide RecordFails;
    assert Skipped(payload, 0, offset) == Ok(offset);
  }

  lemma NothingAfterAnError(payload: Bytes, offset: nat, i: nat, error: DnsError)
    requires i > 0 && Record(payload, offset).Err?
    ensures !AnswerFails(payload, offset, i, error)
  {
    hide Record, RecordFails;
  }

  lemma {:induction false} AnswersFailExactlyWhen(payload: Bytes, count: nat, offset: nat, error: DnsError)
    ensures Answers(payload, count, offset) == Err(error) <==> SomeAnswerFails(payload, count, offset, error)
  {
    hide Record, RecordFails, AnswerFails, SomeAnswerFails, Answers;
    AnswersStep(payload, count, offset, error);
    if count == 0 {
      NoneFails(payload, offset, error);
    } else {
      RecordFailsExactlyWhen(payload, offset, error);
      FirstOrLater(payload, count, offset, error);
      if Record(payload, offset).Ok? {
        AnswersFailExactlyWhen(payload, count - 1, Record(payload, offset).value.1, error);
        RecordGivesNoError(payload, offset, error);
      }
    }
  }

  lemma NoneFails(payload: Bytes, offset: nat, error: DnsError)
    ensures !SomeQuestionFails(payload, 0, offset, error) && !SomeAnswerFails(payload, 0, offset, error)
  {
    hide QuestionFails, AnswerFails;
  }

  lemma AnswersStep(payload: Bytes, count: nat, offset: nat, error: DnsError)
    ensures count == 0 ==> Answers(payload, count, offset).Ok?
    ensures count > 0 ==>
      (Answers(payload, count, offset) == Err(error) <==>
        if Record(payload, offset).Ok? then Answers(payload, count - 1, Record(payload, offset).value.1) == Err(error)
        else Record(payload, offset) == Err(error))
  {
    hide Record;
  }

  lemma RecordGivesNoError(payload: Bytes, offset: nat, error: DnsError)
    requires Record(payload, offset).Ok?
    ensures !RecordFails(payload, offset, error)
  {
    hide Record;
    RecordFailsExactlyWhen(payload, offset, error);
  }

  /** Where a response's error is: in its header, in a question's name, or in an answer's record. */
  ghost predicate ResponseFails(payload: Bytes, expectedId: Bytes, error: DnsError) {
    if |payload| < HEADER || payload[..2] != expectedId then error.BadHeader?
    else
      var questions, answers := ReadU16(payload, 4), ReadU16(payload, 6);
      || SomeQuestionFails(payload, questions, HEADER, error)
      || (Questions(payload, questions, HEADER).Ok?
          && SomeAnswerFails(payload, answers, Questions(payload, questions, HEADER).value, error))
  }

  /**
   * Exactly which error parsing a response gives. A short field is half a pointer at the end of the
   * payload or fewer than ten bytes after an owner's name; neither it nor a label that is not ASCII
   * is an error the cutover catches.
   */
  lemma ParsedFailsExactlyWhen(payload: Bytes, expectedId: Bytes, error: DnsError)
    ensures Parsed(payload, expectedId) == Err(error) <==> ResponseFails(payload, expectedId, error)
  {
    hide Questions, Answers, SomeQuestionFails, SomeAnswerFails, ReadU16;
    if |payload| >= HEADER && payload[..2] == expectedId {
      var count := ReadU16(payload, 4);
      QuestionsFailExactlyWhen(payload, count, HEADER, error);
      if Questions(payload, count, HEADER).Ok? {
        AnswersFailExactlyWhen(payload, ReadU16(payload, 6), Questions(payload, count, HEADER).value, error);
      }
    }
  }
}
