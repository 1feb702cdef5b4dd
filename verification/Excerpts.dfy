/**
 * Bounded excerpts of long texts (sdk/src/cloudfall/investigation.py, and the failure detail of
 * sdk/src/cloudfall/operator.py): what is kept, and what the mark says was dropped.
 */
module Excerpts {
  import opened Decimals

  const TEXT_LIMIT := 8000
  const DETAIL_LIMIT := 1000

  // ---- Slices that count from the end, as the program's language has them ----

  /** `text[-n:]`: the last `n` characters; all of them when `n` is zero. */
  function Last(text: string, n: int): string {
    if n == 0 then text
    else if n > 0 then (if n >= |text| then text else text[|text| - n..])
    else if -n >= |text| then "" else text[-n..]
  }

  /** `text[:n]`: the first `n` characters; when `n` is negative, all but the last `-n`. */
  function First(text: string, n: int): string {
    if n >= 0 then (if n >= |text| then text else text[..n])
    else if -n >= |text| then "" else text[..|text| + n]
  }

  // ---- Marks ----

  function CutMark(cut: nat): string { "[first " + Decimal(cut) + " characters cut]\n" }

  function TailMark(cut: nat): string { "\n[last " + Decimal(cut) + " characters cut]" }

  lemma MarkLengths(cut: nat)
    ensures |CutMark(cut)| == 24 + |Decimal(cut)| && |TailMark(cut)| == 23 + |Decimal(cut)|
  {
  }

  /** The count a mark names can be read off it. */
  lemma MarksName(cut: nat)
    ensures |CutMark(cut)| >= 24 && |TailMark(cut)| >= 23
    ensures
      var digits := CutMark(cut)[7..|CutMark(cut)| - 17];
      (forall i :: 0 <= i < |digits| ==> '0' <= digits[i] <= '9') && Reading(digits) == cut
    ensures
      var digits := TailMark(cut)[7..|TailMark(cut)| - 16];
      (forall i :: 0 <= i < |digits| ==> '0' <= digits[i] <= '9') && Reading(digits) == cut
  {
    MarkLengths(cut);
    DecimalReadsBack(cut);
    assert CutMark(cut)[7..|CutMark(cut)| - 17] == Decimal(cut);
    assert TailMark(cut)[7..|TailMark(cut)| - 16] == Decimal(cut);
  }

  // ---- Excerpts ----

  /** Keeps the end of a host output; the mark comes on top of the limit. */
  function HostText(text: string): string {
    if |text| <= TEXT_LIMIT then text else CutMark(|text| - TEXT_LIMIT) + Last(text, TEXT_LIMIT)
  }

  /** Keeps the end of a turn's text; the mark counts against the limit. */
  function TraceText(text: string, limit: nat): string {
    if |text| <= limit then text
    else
      var kept := limit - |CutMark(|text|)|;
      CutMark(|text| - kept) + Last(text, kept)
  }

  /** Keeps the start of an answer; the mark counts against the limit. */
  function HeadText(text: string, limit: nat): string {
    if |text| <= limit then text
    else
      var kept := limit - |TailMark(|text|)|;
      First(text, kept) + TailMark(|text| - kept)
  }

  /** Keeps the end of an engine's message behind the failure's code. */
  function FailureDetail(code: string, message: string): string {
    var head := "execution failed: " + code + ": ";
    if |head| + |message| <= DETAIL_LIMIT then head + message
    else head + "..." + Last(message, DETAIL_LIMIT - |head| - 3)
  }

  /** The text's end, behind a mark that names what was dropped before it. */
  ghost predicate EndOf(excerpt: string, text: string, dropped: nat) {
    dropped <= |text| && excerpt == CutMark(dropped) + text[dropped..]
  }

  ghost predicate StartOf(excerpt: string, text: string, dropped: nat) {
    dropped <= |text| && excerpt == text[..|text| - dropped] + TailMark(dropped)
  }

  lemma TraceTextKeepsTheEnd(text: string, limit: nat)
    requires |text| > limit > |CutMark(|text|)|
    ensures EndOf(TraceText(text, limit), text, |text| - limit + |CutMark(|text|)|)
    ensures |TraceText(text, limit)| <= limit
  {
    var kept := limit - |CutMark(|text|)|;
    MarkLengths(|text| - kept);
    MarkLengths(|text|);
    LengthGrows(|text| - kept, |text|);
    hide CutMark;
  }

  lemma TraceTextOverflows(text: string, limit: nat)
    requires |text| > limit && limit <= |CutMark(|text|)|
    ensures |TraceText(text, limit)| > limit
  {
    var kept := limit - |CutMark(|text|)|;
    MarkLengths(|text| - kept);
    MarkLengths(|text|);
    LengthGrows(|text|, |text| - kept);
    hide CutMark;
  }

  /** An excerpt keeps within the limit exactly when the limit is above the length of the mark. */
  lemma TraceTextFitsExactlyWhen(text: string, limit: nat)
    ensures |TraceText(text, limit)| <= limit <==> |text| <= limit || |CutMark(|text|)| < limit
  {
    if |text| > limit {
      if |CutMark(|text|)| < limit {
        TraceTextKeepsTheEnd(text, limit);
      } else {
        TraceTextOverflows(text, limit);
      }
    }
  }

  lemma HeadTextKeepsTheStart(text: string, limit: nat)
    requires |text| > limit >= |TailMark(|text|)|
    ensures StartOf(HeadText(text, limit), text, |text| - limit + |TailMark(|text|)|)
    ensures |HeadText(text, limit)| <= limit
  {
    var kept := limit - |TailMark(|text|)|;
    MarkLengths(|text| - kept);
    MarkLengths(|text|);
    LengthGrows(|text| - kept, |text|);
    hide TailMark;
  }

  /** Here nothing may be left of the text; the limit only has to hold the mark. */
  lemma HeadTextFitsExactlyWhen(text: string, limit: nat)
    ensures |HeadText(text, limit)| <= limit <==> |text| <= limit || |TailMark(|text|)| <= limit
  {
    if |text| > limit {
      if |TailMark(|text|)| <= limit {
        HeadTextKeepsTheStart(text, limit);
      } else {
        var kept := limit - |TailMark(|text|)|;
        MarkLengths(|text| - kept);
        MarkLengths(|text|);
        LengthGrows(|text|, |text| - kept);
        hide TailMark;
      }
    }
  }

  /** Every text a record keeps fits its 8000 characters: its length has far fewer digits. */
  lemma KeptTextsFit(text: string)
    requires |text| < TenTo(100)
    ensures |TraceText(text, TEXT_LIMIT)| <= TEXT_LIMIT && |HeadText(text, TEXT_LIMIT)| <= TEXT_LIMIT
  {
    LengthBound(|text|, 100, TenTo(100));
    MarkLengths(|text|);
    TraceTextFitsExactlyWhen(text, TEXT_LIMIT);
    HeadTextFitsExactlyWhen(text, TEXT_LIMIT);
    hide CutMark, TailMark, TraceText, HeadText, TenTo;
  }

  /** The whole text, or its last 8000 characters behind a mark that names the others. */
  lemma HostTextKeepsTheEnd(text: string)
    ensures |text| <= TEXT_LIMIT ==> HostText(text) == text
    ensures |text| > TEXT_LIMIT ==> EndOf(HostText(text), text, |text| - TEXT_LIMIT)
  {
  }

  /** The last `kept` characters of both are the same. */
  ghost predicate EndsAs(detail: string, message: string, kept: int) {
    0 <= kept <= |message| && kept <= |detail| && detail[|detail| - kept..] == message[|message| - kept..]
  }

  /** A failure's detail fits its receipt exactly when its code leaves room, and then ends as the message does. */
  lemma FailureDetailFitsExactlyWhen(code: string, message: string)
    ensures
      var detail := FailureDetail(code, message);
      && (|detail| <= DETAIL_LIMIT <==> 20 + |code| + |message| <= DETAIL_LIMIT || 23 + |code| < DETAIL_LIMIT)
      && (|detail| <= DETAIL_LIMIT ==>
            EndsAs(
              detail, message,
              if 20 + |code| + |message| <= DETAIL_LIMIT then |message| else DETAIL_LIMIT - 23 - |code|))
  {
    var head := "execution failed: " + code + ": ";
    var detail := FailureDetail(code, message);
    assert |head| == 20 + |code|;
    if |head| + |message| <= DETAIL_LIMIT {
      assert detail[|detail| - |message|..] == message == message[|message| - |message|..];
    } else if 23 + |code| < DETAIL_LIMIT {
      var kept := DETAIL_LIMIT - |head| - 3;
      assert detail[|detail| - kept..] == message[|message| - kept..];
    }
  }
}
