/**
 * The calls of an investigation and what they come to (sdk/src/cloudfall/investigation.py): which
 * run, what each returns, and what the model is shown of them.
 */
module InvestigationModel {
  import opened Results
  import opened Names
  import opened DecisionModel
  import opened Excerpts

  const TOOL_NAME_LIMIT := 128

  // ---- Calls ----

  datatype Outcome = RanRead | ProposedChange | FailedRun | Invalid | Repeated | UnknownTool

  /** What a tool hands back to the model: a document, a refusal, or an earlier one again. */
  datatype Content = Given(document: Json) | Refused(problem: string) | Again(first: Content)

  datatype ToolResult = ToolResult(outcome: Outcome, content: Content, decision: Option<string>)

  /**
   * `accepts` is the input schema; `run` answers the n-th tool run of an investigation, so that the
   * same call made twice may well be answered differently.
   */
  datatype Tool = Tool(accepts: Json -> bool, run: (Json, nat) -> ToolResult)

  /** Arguments as the model wrote them: a JSON object within the limit, or a problem. */
  datatype Arguments = Problem(text: string) | Object(value: Json)

  /** A call the model wrote; one without a function cannot be read. */
  datatype ModelCall = ModelCall(id: string, function_: Option<Function>)

  datatype Function = Function(name: string, arguments: Arguments)

  /** What makes two calls the same: the tool and the arguments. */
  datatype Key = Key(tool: string, arguments: Json)

  type Tools = map<string, Tool>

  type Seen = map<Key, ToolResult>

  datatype Step = Step(tool: string, arguments: Json, outcome: Outcome, decision: Option<string>)

  predicate Legible(call: ModelCall) { call.function_.Some? }

  /** The key of a call that is not refused. */
  function KeyOf(call: ModelCall, tools: Tools): Option<Key> {
    if !Legible(call) || call.function_.value.arguments.Problem? then None
    else
      var name, arguments := call.function_.value.name, call.function_.value.arguments.value;
      if name !in tools || !tools[name].accepts(arguments) then None else Some(Key(name, arguments))
  }

  /** What the calls so far have run, and what each returned. */
  function SeenAfter(calls: seq<ModelCall>, tools: Tools): (seen: Seen)
    ensures forall key :: key in seen ==> key.tool in tools
  {
    if calls == [] then map[]
    else
      var seen, key := SeenAfter(calls[..|calls| - 1], tools), KeyOf(calls[|calls| - 1], tools);
      if key.Some? && key.value !in seen
      then seen[key.value := tools[key.value.tool].run(key.value.arguments, |seen|)]
      else seen
  }

  function Refusal(call: ModelCall, tools: Tools): ToolResult
    requires Legible(call) && KeyOf(call, tools).None?
  {
    var arguments := call.function_.value.arguments;
    if arguments.Problem? then ToolResult(Invalid, Refused(arguments.text), None)
    else if call.function_.value.name !in tools then ToolResult(UnknownTool, Refused("no such tool"), None)
    else ToolResult(Invalid, Refused("arguments do not match the tool's schema"), None)
  }

  /** What a call returns after what was seen before it. */
  function ResultOf(call: ModelCall, tools: Tools, seen: Seen): ToolResult
    requires Legible(call)
  {
    var key := KeyOf(call, tools);
    if key.None? then Refusal(call, tools)
    else if key.value in seen then ToolResult(Repeated, Again(seen[key.value].content), seen[key.value].decision)
    else tools[key.value.tool].run(key.value.arguments, |seen|)
  }

  /** The step a record keeps of a call; refused ones keep the start of the name. */
  function StepOf(call: ModelCall, tools: Tools, result: ToolResult): Step
    requires Legible(call)
  {
    var name, arguments := call.function_.value.name, call.function_.value.arguments;
    var kept := First(name, TOOL_NAME_LIMIT);
    if arguments.Problem? then Step(kept, JObject(map[]), result.outcome, None)
    else if name !in tools then Step(kept, arguments.value, result.outcome, None)
    else Step(name, arguments.value, result.outcome, result.decision)
  }

  /** The results of calls that could all be read, each after those before it. */
  function ResultsOf(calls: seq<ModelCall>, tools: Tools): (results: seq<ToolResult>)
    requires forall i :: 0 <= i < |calls| ==> Legible(calls[i])
    ensures |results| == |calls|
  {
    if calls == [] then []
    else
      var earlier := calls[..|calls| - 1];
      ResultsOf(earlier, tools) + [ResultOf(calls[|calls| - 1], tools, SeenAfter(earlier, tools))]
  }

  function StepsOf(calls: seq<ModelCall>, tools: Tools): (steps: seq<Step>)
    requires forall i :: 0 <= i < |calls| ==> Legible(calls[i])
    ensures |steps| == |calls|
  {
    if calls == [] then []
    else
      var earlier, last := calls[..|calls| - 1], calls[|calls| - 1];
      StepsOf(earlier, tools) + [StepOf(last, tools, ResultOf(last, tools, SeenAfter(earlier, tools)))]
  }

  /** The tool runs the calls come to, in order. */
  function InvokedBy(calls: seq<ModelCall>, tools: Tools): seq<Key> {
    if calls == [] then []
    else
      var earlier, key := calls[..|calls| - 1], KeyOf(calls[|calls| - 1], tools);
      if key.Some? && key.value !in SeenAfter(earlier, tools)
      then InvokedBy(earlier, tools) + [key.value]
      else InvokedBy(earlier, tools)
  }

  /** Exactly which calls are run or repeated: their arguments are an object that a known tool accepts. */
  lemma AcceptedExactlyWhen(call: ModelCall, tools: Tools, key: Key)
    ensures KeyOf(call, tools) == Some(key) <==>
      && call.function_.Some? && call.function_.value.name == key.tool
      && call.function_.value.arguments == Object(key.arguments)
      && key.tool in tools && tools[key.tool].accepts(key.arguments)
  {
  }

  /** What a call returns, and the step kept of it: refused, repeated, or what the tool gave. */
  lemma CallComesTo(call: ModelCall, tools: Tools, seen: Seen)
    requires call.function_.Some?
    ensures
      var name, arguments := call.function_.value.name, call.function_.value.arguments;
      var result := ResultOf(call, tools, seen);
      var step := StepOf(call, tools, result);
      && step.outcome == result.outcome
      && (arguments.Problem? ==> result.outcome.Invalid? && result.decision.None? && step.arguments == JObject(map[]))
      && (arguments.Object? ==>
            && step.arguments == arguments.value
            && (name !in tools ==>
                  step.tool == First(name, TOOL_NAME_LIMIT) && result.outcome.UnknownTool? && result.decision.None?)
            && (name in tools ==>
                  && step.tool == name && step.decision == result.decision
                  && var key := Key(name, arguments.value);
                     if !tools[name].accepts(arguments.value) then result.outcome.Invalid? && result.decision.None?
                     else if key in seen then
                       result.outcome.Repeated? && result.decision == seen[key].decision
                       && result.content == Again(seen[key].content)
                     else result == tools[name].run(arguments.value, |seen|)))
  {
  }

  /** Each distinct call ran exactly once. */
  lemma {:induction false} InvokedOnce(calls: seq<ModelCall>, tools: Tools)
    ensures
      var invoked := InvokedBy(calls, tools);
      && (forall i, j :: 0 <= i < j < |invoked| ==> invoked[i] != invoked[j])
      && (forall key :: key in invoked <==> exists i :: 0 <= i < |calls| && KeyOf(calls[i], tools) == Some(key))
      && (forall key :: key in invoked <==> key in SeenAfter(calls, tools))
  {
    if calls != [] {
      var n := |calls| - 1;
      InvokedOnce(calls[..n], tools);
      hide KeyOf;
      var earlier, invoked := InvokedBy(calls[..n], tools), InvokedBy(calls, tools);
      forall i, j | 0 <= i < j < |invoked|
        ensures invoked[i] != invoked[j]
      {
        assert earlier[i] in SeenAfter(calls[..n], tools);
        if j < |earlier| {
          assert invoked[i] == earlier[i] && invoked[j] == earlier[j];
        }
      }
      forall key: Key
        ensures (exists i :: 0 <= i < |calls| && KeyOf(calls[i], tools) == Some(key)) <==>
                KeyOf(calls[n], tools) == Some(key)
                || exists i :: 0 <= i < n && KeyOf(calls[..n][i], tools) == Some(key)
      {
        if i :| 0 <= i < n && KeyOf(calls[i], tools) == Some(key) {
          assert KeyOf(calls[..n][i], tools) == Some(key);
        }
      }
    }
  }

  /** What was seen stays as it was first seen. */
  lemma {:induction false} SeenStays(calls: seq<ModelCall>, i: nat, tools: Tools, key: Key)
    requires i <= |calls| && key in SeenAfter(calls[..i], tools)
    ensures key in SeenAfter(calls, tools) && SeenAfter(calls, tools)[key] == SeenAfter(calls[..i], tools)[key]
    decreases |calls|
  {
    if i == |calls| {
      assert calls[..i] == calls;
    } else {
      var shorter := calls[..|calls| - 1];
      assert shorter[..i] == calls[..i];
      SeenStays(shorter, i, tools, key);
    }
  }

  lemma {:induction false} ResultAt(calls: seq<ModelCall>, i: nat, tools: Tools)
    requires i < |calls| && forall k :: 0 <= k < |calls| ==> Legible(calls[k])
    ensures ResultsOf(calls, tools)[i] == ResultOf(calls[i], tools, SeenAfter(calls[..i], tools))
  {
    var n := |calls| - 1;
    if i < n {
      ResultAt(calls[..n], i, tools);
      assert calls[..n][..i] == calls[..i];
    }
  }

  /** A call made again returns what the first one returned, and runs nothing. */
  lemma RepeatsReturnTheFirst(calls: seq<ModelCall>, i: nat, j: nat, tools: Tools)
    requires i < j < |calls| && forall k :: 0 <= k < |calls| ==> Legible(calls[k])
    requires KeyOf(calls[i], tools).Some? && KeyOf(calls[i], tools) == KeyOf(calls[j], tools)
    requires forall k :: 0 <= k < i ==> KeyOf(calls[k], tools) != KeyOf(calls[i], tools)
    ensures
      var first, again := ResultsOf(calls, tools)[i], ResultsOf(calls, tools)[j];
      again == ToolResult(Repeated, Again(first.content), first.decision)
  {
    hide KeyOf;
    var key := KeyOf(calls[i], tools).value;
    ResultAt(calls, i, tools);
    ResultAt(calls, j, tools);
    InvokedOnce(calls[..i], tools);
    assert key !in SeenAfter(calls[..i], tools);
    var next := calls[..i + 1];
    assert next[..|next| - 1] == calls[..i];
    assert calls[..j][..i + 1] == next;
    SeenStays(calls[..j], i + 1, tools, key);
  }

  // ---- Turns and messages ----

  datatype Usage = Usage(prompt: int, completion: int) {
    function Plus(other: Usage): Usage { Usage(prompt + other.prompt, completion + other.completion) }
  }

  /** A message of the model: its text without the blanks around it, its calls, and what it cost. */
  datatype Said = Said(text: string, calls: seq<ModelCall>, tokens: Usage)

  datatype Message =
    | System
    | User(alert: string)
    | Assistant(said: Said)
    | ToolMessage(callId: string, content: Content)

  datatype Turn = Turn(number: nat, text: string, calls: nat, tokens: Usage)

  function TurnOf(number: nat, said: Said): Turn {
    Turn(number, TraceText(said.text, TEXT_LIMIT), |said.calls|, said.tokens)
  }

  function TraceOf(said: seq<Said>): seq<Turn> {
    seq(|said|, i requires 0 <= i < |said| => TurnOf(i + 1, said[i]))
  }

  function Spent(said: seq<Said>): Usage {
    if said == [] then Usage(0, 0) else Spent(said[..|said| - 1]).Plus(said[|said| - 1].tokens)
  }

  /** Every call of these messages, in order. */
  function CallsOf(said: seq<Said>): seq<ModelCall> {
    if said == [] then [] else CallsOf(said[..|said| - 1]) + said[|said| - 1].calls
  }

  predicate AllLegible(calls: seq<ModelCall>) {
    forall i :: 0 <= i < |calls| ==> Legible(calls[i])
  }

  /** One message for each of these calls, made after the earlier ones. */
  function ToolMessages(earlier: seq<ModelCall>, calls: seq<ModelCall>, tools: Tools): (messages: seq<Message>)
    requires AllLegible(calls)
    ensures |messages| == |calls|
  {
    if calls == [] then []
    else
      var before, last := calls[..|calls| - 1], calls[|calls| - 1];
      ToolMessages(earlier, before, tools)
      + [ToolMessage(last.id, ResultOf(last, tools, SeenAfter(earlier + before, tools)).content)]
  }

  lemma PartsAreLegible(said: seq<Said>)
    requires said != [] && AllLegible(CallsOf(said))
    ensures AllLegible(CallsOf(said[..|said| - 1])) && AllLegible(said[|said| - 1].calls)
  {
    var earlier, calls := CallsOf(said[..|said| - 1]), said[|said| - 1].calls;
    var all := earlier + calls;
    assert CallsOf(said) == all;
    forall i | 0 <= i < |earlier|
      ensures Legible(earlier[i])
    {
      assert all[i] == earlier[i];
    }
    forall i | 0 <= i < |calls|
      ensures Legible(calls[i])
    {
      assert all[|earlier| + i] == calls[i];
    }
  }

  /** What the model is shown after these messages of its, all their calls answered. */
  function Transcript(alert: string, said: seq<Said>, tools: Tools): seq<Message>
    requires AllLegible(CallsOf(said))
  {
    if said == [] then [System, User(alert)]
    else
      var before, last := said[..|said| - 1], said[|said| - 1];
      PartsAreLegible(said);
      Transcript(alert, before, tools) + [Assistant(last)] + ToolMessages(CallsOf(before), last.calls, tools)
  }

  /** A message stands there, with one answer to each of its calls right after it, in order. */
  predicate AnsweredAt(messages: seq<Message>, at: nat, m: Said) {
    && at + |m.calls| < |messages| && messages[at] == Assistant(m)
    && forall i :: at < i <= at + |m.calls| ==>
      messages[i].ToolMessage? && messages[i].callId == m.calls[i - at - 1].id
  }

  lemma AnsweredInLonger(messages: seq<Message>, more: seq<Message>, at: nat, m: Said)
    requires AnsweredAt(messages, at, m)
    ensures AnsweredAt(messages + more, at, m)
  {
  }

  /** The transcript: the prompt and the alert, then each message with the answers to its calls. */
  lemma {:induction false} TranscriptAt(alert: string, said: seq<Said>, tools: Tools, t: nat) returns (at: nat)
    requires AllLegible(CallsOf(said)) && t < |said|
    ensures
      var messages := Transcript(alert, said, tools);
      && |messages| >= 2 && messages[0] == System && messages[1] == User(alert)
      && 2 <= at && AnsweredAt(messages, at, said[t])
  {
    hide Transcript, CallsOf, ToolMessages, AnsweredAt, AllLegible;
    var n := |said| - 1;
    var before := said[..n];
    TranscriptLast(alert, said, tools);
    MessagesBegin(alert, before, tools);
    MessagesBegin(alert, said, tools);
    var earlier, answers := Transcript(alert, before, tools), ToolMessages(CallsOf(before), said[n].calls, tools);
    if t < n {
      at := TranscriptAt(alert, before, tools, t);
      AnsweredInLonger(earlier, [Assistant(said[n])] + answers, at, said[t]);
    } else {
      at := |earlier|;
      ToolMessagesHold(CallsOf(before), said[n].calls, tools);
      AnsweredAtEnd(earlier, answers, said[n]);
    }
  }

  lemma AnsweredAtEnd(earlier: seq<Message>, answers: seq<Message>, m: Said)
    requires |answers| == |m.calls|
    requires forall i :: 0 <= i < |m.calls| ==> answers[i].ToolMessage? && answers[i].callId == m.calls[i].id
    ensures AnsweredAt(earlier + ([Assistant(m)] + answers), |earlier|, m)
  {
  }

  lemma TranscriptLast(alert: string, said: seq<Said>, tools: Tools)
    requires AllLegible(CallsOf(said)) && said != []
    ensures
      var before, last := said[..|said| - 1], said[|said| - 1];
      && AllLegible(CallsOf(before)) && AllLegible(last.calls)
      && Transcript(alert, said, tools) ==
         Transcript(alert, before, tools) + ([Assistant(last)] + ToolMessages(CallsOf(before), last.calls, tools))
  {
    hide ToolMessages, CallsOf, AllLegible;
    var before, last := said[..|said| - 1], said[|said| - 1];
    PartsAreLegible(said);
    Regroup(
      Transcript(alert, before, tools), [Assistant(last)], ToolMessages(CallsOf(before), last.calls, tools));
  }

  lemma Regroup(a: seq<Message>, b: seq<Message>, c: seq<Message>)
    ensures a + b + c == a + (b + c)
  {
  }

  lemma {:induction false} MessagesBegin(alert: string, said: seq<Said>, tools: Tools)
    requires AllLegible(CallsOf(said))
    ensures |Transcript(alert, said, tools)| >= 2
    ensures Transcript(alert, said, tools)[0] == System && Transcript(alert, said, tools)[1] == User(alert)
  {
    if said != [] {
      var n := |said| - 1;
      PartsAreLegible(said);
      MessagesBegin(alert, said[..n], tools);
    }
  }

  lemma {:induction false} ToolMessagesHold(earlier: seq<ModelCall>, calls: seq<ModelCall>, tools: Tools)
    requires AllLegible(calls)
    ensures
      var messages := ToolMessages(earlier, calls, tools);
      forall i :: 0 <= i < |calls| ==> messages[i].ToolMessage? && messages[i].callId == calls[i].id
  {
    if calls != [] {
      ToolMessagesHold(earlier, calls[..|calls| - 1], tools);
    }
  }

  // ---- Findings ----

  /** The three lines of an answer, with the decision ids of the middle one as they stand. */
  datatype Lines = Lines(rootCause: string, named: seq<string>, why: string)

  datatype Finding = Finding(rootCause: string, proposed: seq<string>, unrecorded: seq<string>, why: string)

  function Filter(names: seq<string>, kept: set<string>): seq<string> {
    if names == [] then []
    else if names[0] in kept then [names[0]] + Filter(names[1..], kept) else Filter(names[1..], kept)
  }

  function Written(steps: seq<Step>): set<string> {
    set i | 0 <= i < |steps| && steps[i].decision.Some? :: steps[i].decision.value
  }

  /** A repeated step carries the decision of the call it repeats: only the original proposal counts. */
  function ProposedIn(steps: seq<Step>): set<string> {
    set i | 0 <= i < |steps| && steps[i].decision.Some? && steps[i].outcome.ProposedChange? :: steps[i].decision.value
  }

  function FindingOf(lines: Option<Lines>, steps: seq<Step>): Option<Finding> {
    if lines.None? then None
    else
      var named := Firsts(lines.value.named);
      Some(Finding(
        HeadText(lines.value.rootCause, TEXT_LIMIT),
        Filter(named, ProposedIn(steps)),
        Filter(named, (set name | name in named) - Written(steps)),
        HeadText(lines.value.why, TEXT_LIMIT)))
  }

  lemma {:induction false} FilterKeeps(names: seq<string>, kept: set<string>, name: string)
    ensures name in Filter(names, kept) <==> name in names && name in kept
  {
    if names != [] {
      FilterKeeps(names[1..], kept, name);
      assert names == [names[0]] + names[1..];
    }
  }

  lemma {:induction false} FilterInOrder(names: seq<string>, kept: set<string>) returns (at: seq<nat>)
    ensures |at| == |Filter(names, kept)|
    ensures forall k :: 0 <= k < |at| ==> at[k] < |names| && Filter(names, kept)[k] == names[at[k]]
    ensures forall j, k :: 0 <= j < k < |at| ==> at[j] < at[k]
  {
    if names == [] {
      at := [];
    } else {
      var rest := FilterInOrder(names[1..], kept);
      var tail := Filter(names[1..], kept);
      assert Filter(names, kept) == if names[0] in kept then [names[0]] + tail else tail;
      hide Filter;
      var later: seq<nat> := seq(|rest|, k requires 0 <= k < |rest| => rest[k] + 1);
      forall k | 0 <= k < |later|
        ensures later[k] < |names| && tail[k] == names[later[k]]
      {
        assert names[1..][rest[k]] == names[rest[k] + 1];
      }
      at := if names[0] in kept then [0] + later else later;
    }
  }

  lemma PlacesOf(names: seq<string>, kept: set<string>) returns (at: seq<nat>)
    ensures FirstPlaces(at, names, Filter(Firsts(names), kept))
  {
    var outer := FirstsInOrder(names);
    var inner := FilterInOrder(Firsts(names), kept);
    hide Filter, Firsts;
    at := seq(|inner|, k requires 0 <= k < |inner| => outer[inner[k]]);
  }

  /** A finding lists its proposals as they were named, each at its first place, and so what it calls unrecorded. */
  lemma FindingKeepsOrder(lines: Lines, steps: seq<Step>) returns (proposed: seq<nat>, unrecorded: seq<nat>)
    ensures
      var finding := FindingOf(Some(lines), steps).value;
      && FirstPlaces(proposed, lines.named, finding.proposed)
      && FirstPlaces(unrecorded, lines.named, finding.unrecorded)
  {
    proposed := PlacesOf(lines.named, ProposedIn(steps));
    unrecorded := PlacesOf(lines.named, (set name | name in Firsts(lines.named)) - Written(steps));
  }

  /**
   * A finding's proposals are the named ones this investigation proposed itself; those it calls
   * unrecorded are the named ones no step of it wrote; none is both.
   */
  lemma FindingsAreHonest(lines: Lines, steps: seq<Step>, name: string)
    ensures
      var finding := FindingOf(Some(lines), steps).value;
      && (name in finding.proposed <==>
            name in lines.named
            && exists i :: 0 <= i < |steps| && steps[i].decision == Some(name) && steps[i].outcome.ProposedChange?)
      && (name in finding.unrecorded <==>
            name in lines.named && forall i :: 0 <= i < |steps| ==> steps[i].decision != Some(name))
      && !(name in finding.proposed && name in finding.unrecorded)
      && finding.rootCause == HeadText(lines.rootCause, TEXT_LIMIT) && finding.why == HeadText(lines.why, TEXT_LIMIT)
  {
    var named := Firsts(lines.named);
    FirstsKeep(lines.named, name);
    FilterKeeps(named, ProposedIn(steps), name);
    FilterKeeps(named, (set other | other in named) - Written(steps), name);
  }
}
