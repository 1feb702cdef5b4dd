/**
 * The investigation loop (sdk/src/cloudfall/investigation.py): turns of a model that calls tools
 * until it answers, and the record it ends in.
 */
module Investigation {
  import opened Results
  import opened Decimals
  import opened DecisionModel
  import opened Excerpts
  import opened InvestigationModel

  // ---- One call ----

  /**
   * Runs, repeats or refuses one call; none when the call cannot be read. `invoked` lists the tool
   * runs so far.
   */
  method RunCall(
    call: ModelCall, tools: Tools, seen: Seen, ghost earlier: seq<ModelCall>, ghost invoked: seq<Key>)
    returns (ran: Option<(Step, ToolResult)>, now: Seen, ghost all: seq<Key>)
    requires seen == SeenAfter(earlier, tools) && invoked == InvokedBy(earlier, tools)
    ensures ran == if !Legible(call) then None
                   else var result := ResultOf(call, tools, seen); Some((StepOf(call, tools, result), result))
    ensures now == SeenAfter(if Legible(call) then earlier + [call] else earlier, tools)
    ensures all == InvokedBy(if Legible(call) then earlier + [call] else earlier, tools)
  {
    now, all := seen, invoked;
    assert (earlier + [call])[..|earlier|] == earlier;
    if !Legible(call) {
      return None, now, all;
    }
    var function_ := call.function_.value;
    var name := function_.name;
    var kept := First(name, TOOL_NAME_LIMIT);
    if function_.arguments.Problem? {
      var result := ToolResult(Invalid, Refused(function_.arguments.text), None);
      return Some((Step(kept, JObject(map[]), Invalid, None), result)), now, all;
    }
    var arguments := function_.arguments.value;
    if name !in tools {
      var result := ToolResult(UnknownTool, Refused("no such tool"), None);
      return Some((Step(kept, arguments, UnknownTool, None), result)), now, all;
    }
    if !tools[name].accepts(arguments) {
      var result := ToolResult(Invalid, Refused("arguments do not match the tool's schema"), None);
      return Some((Step(name, arguments, Invalid, None), result)), now, all;
    }
    var key := Key(name, arguments);
    if key in seen {
      var first := seen[key];
      var repeated := ToolResult(Repeated, Again(first.content), first.decision);
      return Some((Step(name, arguments, Repeated, first.decision), repeated)), now, all;
    }
    var result := tools[name].run(arguments, |seen|);
    all := invoked + [key];
    now := seen[key := result];
    ran := Some((Step(name, arguments, result.outcome, result.decision), result));
  }

  // ---- The loop ----

  datatype Status = Answered | Unstructured | TurnLimit | ModelUnavailable | Stopped

  datatype Record = Record(
    status: Status, turns: nat, usage: Usage, steps: seq<Step>, answer: string, finding: Option<Finding>,
    trace: seq<Turn>)

  /**
   * What asking the model comes to: no answer, an answer without a message, a message whose calls are
   * not a list of mappings, or one whose calls are. Only the first two are errors the loop records.
   */
  datatype ModelAnswer = Unreachable | NoMessage(tokens: Usage) | Garbled | Answer(said: Said)

  type Model = (nat, seq<Message>) -> ModelAnswer

  /** How far the calls of one turn came: all answered, one that cannot be read, or the reader gone. */
  datatype Progress = AllAnswered | Illegible | ReaderGone

  lemma CallsSnoc(said: seq<Said>, m: Said)
    ensures CallsOf(said + [m]) == CallsOf(said) + m.calls
  {
    assert (said + [m])[..|said|] == said;
  }

  lemma StepsSnoc(calls: seq<ModelCall>, call: ModelCall, tools: Tools)
    requires AllLegible(calls) && Legible(call)
    ensures AllLegible(calls + [call])
    ensures
      StepsOf(calls + [call], tools) ==
        StepsOf(calls, tools) + [StepOf(call, tools, ResultOf(call, tools, SeenAfter(calls, tools)))]
  {
    assert (calls + [call])[..|calls|] == calls;
  }

  lemma ToolMessagesSnoc(earlier: seq<ModelCall>, calls: seq<ModelCall>, call: ModelCall, tools: Tools)
    requires AllLegible(calls) && Legible(call)
    ensures AllLegible(calls + [call])
    ensures
      ToolMessages(earlier, calls + [call], tools) ==
        ToolMessages(earlier, calls, tools)
        + [ToolMessage(call.id, ResultOf(call, tools, SeenAfter(earlier + calls, tools)).content)]
  {
    assert (calls + [call])[..|calls|] == calls;
  }

  lemma TranscriptSnoc(alert: string, said: seq<Said>, m: Said, tools: Tools)
    requires AllLegible(CallsOf(said)) && AllLegible(m.calls)
    ensures AllLegible(CallsOf(said + [m]))
    ensures
      Transcript(alert, said + [m], tools) ==
        Transcript(alert, said, tools) + [Assistant(m)] + ToolMessages(CallsOf(said), m.calls, tools)
  {
    CallsSnoc(said, m);
    assert (said + [m])[..|said|] == said;
  }

  lemma SpentSnoc(said: seq<Said>, m: Said)
    ensures Spent(said + [m]) == Spent(said).Plus(m.tokens)
  {
    assert (said + [m])[..|said|] == said;
  }

  /** Runs the calls of one message in order, each answered with one tool message. */
  method AnswerCalls(
    calls: seq<ModelCall>, tools: Tools, messages: seq<Message>, steps: seq<Step>, seen: Seen,
    events: nat, leaves: nat -> bool,
    ghost earlier: seq<ModelCall>, ghost invoked: seq<Key>)
    returns (
      progress: Progress, messages': seq<Message>, steps': seq<Step>, seen': Seen, events': nat,
      answered: nat, ghost invoked': seq<Key>)
    requires AllLegible(earlier) && steps == StepsOf(earlier, tools)
    requires seen == SeenAfter(earlier, tools) && invoked == InvokedBy(earlier, tools)
    ensures answered <= |calls| && AllLegible(calls[..answered]) && AllLegible(earlier + calls[..answered])
    ensures steps' == StepsOf(earlier + calls[..answered], tools)
    ensures seen' == SeenAfter(earlier + calls[..answered], tools)
    ensures invoked' == InvokedBy(earlier + calls[..answered], tools)
    ensures progress.AllAnswered? ==>
      answered == |calls| && messages' == messages + ToolMessages(earlier, calls[..answered], tools)
    ensures progress.Illegible? ==> answered < |calls| && !Legible(calls[answered])
    ensures progress.ReaderGone? ==> answered > 0
  {
    hide StepsOf, SeenAfter, InvokedBy, ToolMessages, KeyOf, ResultOf, StepOf;
    messages', steps', seen', events', invoked' := messages, steps, seen, events, invoked;
    assert earlier + calls[..0] == earlier;
    assert ToolMessages(earlier, calls[..0], tools) == [];
    for i := 0 to |calls|
      invariant AllLegible(calls[..i]) && AllLegible(earlier + calls[..i])
      invariant steps' == StepsOf(earlier + calls[..i], tools)
      invariant seen' == SeenAfter(earlier + calls[..i], tools)
      invariant invoked' == InvokedBy(earlier + calls[..i], tools)
      invariant messages' == messages + ToolMessages(earlier, calls[..i], tools)
    {
      var call := calls[i];
      ghost var before := earlier + calls[..i];
      assert calls[..i + 1] == calls[..i] + [call] && earlier + calls[..i + 1] == before + [call];
      var ran, now;
      ghost var all;
      ran, now, all := RunCall(call, tools, seen', before, invoked');
      if ran.None? {
        return Illegible, messages', steps', seen', events', i, invoked';
      }
      StepsSnoc(before, call, tools);
      ToolMessagesSnoc(earlier, calls[..i], call, tools);
      seen', invoked' := now, all;
      steps' := steps' + [ran.value.0];
      if leaves(events') {
        return ReaderGone, messages', steps', seen', events', i + 1, invoked';
      }
      events' := events' + 1;
      messages' := messages' + [ToolMessage(call.id, ran.value.1.content)];
    }
    assert calls[..|calls|] == calls;
    progress, answered := AllAnswered, |calls|;
  }

  // ---- What a record accounts for ----

  /** The messages the model gave, the questions it was asked, and the tool runs, in order. */
  datatype History = History(said: seq<Said>, asked: seq<seq<Message>>, invoked: seq<Key>)

  /** What an investigation is given: the alert, the tools, the model, and the reader of answers. */
  datatype Setting = Setting(
    alert: string, tools: Tools, model: Model, readLines: string -> Option<Lines>, maxTurns: int)

  /** The record's steps, its trace and the tool runs are those of the turns taken, as far as they were answered. */
  ghost predicate Accounts(record: Record, h: History, answered: nat, tools: Tools) {
    && answered <= |CallsOf(h.said)| && AllLegible(CallsOf(h.said)[..answered])
    && record.steps == StepsOf(CallsOf(h.said)[..answered], tools)
    && record.trace == TraceOf(h.said)
    && h.invoked == InvokedBy(CallsOf(h.said)[..answered], tools)
    && (forall t :: 0 <= t < |h.said| - 1 ==> h.said[t].calls != [])
  }

  /** Each question is the whole transcript so far, and each message the model's answer to it. */
  ghost predicate Asked(h: History, g: Setting) {
    && |h.said| <= |h.asked| <= |h.said| + 1
    && (forall t :: 0 <= t < |h.asked| ==> IsTranscript(h.asked[t], h.said, t, g))
    && (forall t :: 0 <= t < |h.said| ==> g.model(t + 1, h.asked[t]) == Answer(h.said[t]))
  }

  ghost predicate IsTranscript(messages: seq<Message>, said: seq<Said>, t: nat, g: Setting) {
    t <= |said| && AllLegible(CallsOf(said[..t])) && messages == Transcript(g.alert, said[..t], g.tools)
  }

  lemma TranscriptStays(messages: seq<Message>, said: seq<Said>, t: nat, g: Setting, m: Said)
    requires IsTranscript(messages, said, t, g)
    ensures IsTranscript(messages, said + [m], t, g)
  {
    assert (said + [m])[..t] == said[..t];
  }

  /** How the ways to end differ: in turns, tokens and calls left unanswered. */
  ghost predicate EndsAs(record: Record, h: History, answered: nat, g: Setting) {
    var said, calls := h.said, CallsOf(h.said);
    match record.status
    case TurnLimit =>
      && answered == |calls| && record.turns == |said| && record.turns == (if g.maxTurns > 0 then g.maxTurns else 0)
      && record.usage == Spent(said) && (said != [] ==> said[|said| - 1].calls != [])
      && record.answer == "" && record.finding.None?
    case Answered | Unstructured =>
      && answered == |calls| && record.turns == |said| && said != [] && record.usage == Spent(said)
      && var last := said[|said| - 1];
         && last.calls == [] && record.answer == HeadText(last.text, TEXT_LIMIT)
         && record.finding == (if last.text == "" then None else FindingOf(g.readLines(last.text), record.steps))
         && (record.status.Answered? <==> record.finding.Some?)
    case ModelUnavailable =>
      && record.answer == "" && record.finding.None?
      && if record.turns == |said|
         then answered < |calls| && !Legible(calls[answered]) && record.usage == Spent(said)
         else
           && answered == |calls| && record.turns == |said| + 1 && |h.asked| == record.turns
           && var failed := g.model(record.turns, h.asked[|said|]);
              && (failed.Unreachable? || failed.NoMessage?)
              && record.usage == if failed.NoMessage? then Spent(said).Plus(failed.tokens) else Spent(said)
    case Stopped =>
      && record.turns == |said| && said != [] && record.usage == Spent(said)
      && record.answer == "" && record.finding.None?
  }

  /** The model was asked this many times, and this answer's calls could not be walked. */
  ghost predicate GarbledAt(h: History, g: Setting, t: nat) {
    t < |h.asked| && g.model(t + 1, h.asked[t]).Garbled?
  }

  /** An answer whose calls cannot be walked is the last, and no call of it has run. */
  ghost predicate EndsGarbled(h: History, g: Setting) {
    && |h.asked| == |h.said| + 1 <= g.maxTurns && GarbledAt(h, g, |h.said|)
    && AllLegible(CallsOf(h.said)) && h.invoked == InvokedBy(CallsOf(h.said), g.tools)
  }

  lemma EndGarbled(s: State, h: History, g: Setting)
    requires Between(s, h, g) && |h.said| < g.maxTurns && g.model(|h.said| + 1, s.messages).Garbled?
    ensures
      var asked := h.(asked := h.asked + [s.messages]);
      Asked(asked, g) && EndsGarbled(asked, g)
  {
    hide CallsOf, InvokedBy, AllLegible, Asked, Between;
    BetweenGives(s, h, g);
    AskedNext(s, h, g);
  }

  lemma FaithfulIsNotGarbled(record: Record, h: History, answered: nat, g: Setting)
    requires Faithful(record, h, answered, g)
    ensures forall t: nat :: !GarbledAt(h, g, t)
  {
    hide CallsOf, StepsOf, InvokedBy, Spent, AllLegible, FindingOf, HeadText, Usage.Plus, IsTranscript, TraceOf;
    hide Legible;
    forall t: nat | t < |h.asked|
      ensures !g.model(t + 1, h.asked[t]).Garbled?
    {
      if t < |h.said| {
        assert g.model(t + 1, h.asked[t]) == Answer(h.said[t]);
      }
    }
  }

  /** The whole promise of a record. */
  ghost predicate Faithful(record: Record, h: History, answered: nat, g: Setting) {
    && Accounts(record, h, answered, g.tools) && Asked(h, g) && EndsAs(record, h, answered, g)
    && |h.asked| == record.turns <= if g.maxTurns > 0 then g.maxTurns else 0
  }

  /** What a record says on its own. */
  predicate Plausible(record: Record, maxTurns: int) {
    && record.turns <= (if maxTurns > 0 then maxTurns else 0)
    && (record.status.TurnLimit? ==> record.turns == if maxTurns > 0 then maxTurns else 0)
    && |record.trace| <= record.turns <= |record.trace| + 1
    && (|record.trace| != record.turns ==> record.status.ModelUnavailable?)
    && (record.finding.Some? <==> record.status.Answered?)
    && (record.answer != "" ==> record.status.Answered? || record.status.Unstructured?)
  }

  lemma FaithfulIsPlausible(record: Record, h: History, answered: nat, g: Setting)
    requires Faithful(record, h, answered, g)
    ensures Plausible(record, g.maxTurns)
  {
    hide Asked, CallsOf, StepsOf, InvokedBy, Spent, AllLegible, FindingOf, HeadText, Usage.Plus;
  }

  // ---- The loop's state between turns ----

  /** What the loop updates. */
  datatype State = State(messages: seq<Message>, steps: seq<Step>, seen: Seen, usage: Usage, trace: seq<Turn>)

  /** Every call answered so far, and no turn without calls. */
  ghost predicate Between(s: State, h: History, g: Setting) {
    var calls := CallsOf(h.said);
    && AllLegible(calls) && s.messages == Transcript(g.alert, h.said, g.tools)
    && s.steps == StepsOf(calls, g.tools) && s.seen == SeenAfter(calls, g.tools)
    && h.invoked == InvokedBy(calls, g.tools)
    && s.usage == Spent(h.said) && s.trace == TraceOf(h.said)
    && |h.asked| == |h.said| && Asked(h, g)
    && forall t :: 0 <= t < |h.said| ==> h.said[t].calls != []
  }

  lemma BetweenAtStart(g: Setting)
    ensures Between(State([System, User(g.alert)], [], map[], Usage(0, 0), []), History([], [], []), g)
  {
  }

  lemma BetweenGives(s: State, h: History, g: Setting)
    requires Between(s, h, g)
    ensures AllLegible(CallsOf(h.said)) && s.steps == StepsOf(CallsOf(h.said), g.tools)
    ensures s.seen == SeenAfter(CallsOf(h.said), g.tools) && h.invoked == InvokedBy(CallsOf(h.said), g.tools)
    ensures s.usage == Spent(h.said) && s.trace == TraceOf(h.said)
    ensures |h.asked| == |h.said| && Asked(h, g) && forall t :: 0 <= t < |h.said| ==> h.said[t].calls != []
    ensures IsTranscript(s.messages, h.said, |h.said|, g)
  {
    assert h.said[..|h.said|] == h.said;
  }

  lemma AskedNext(s: State, h: History, g: Setting)
    requires Between(s, h, g)
    ensures Asked(h.(asked := h.asked + [s.messages]), g)
  {
    hide IsTranscript, Between;
    BetweenGives(s, h, g);
  }

  lemma SaidNext(s: State, h: History, g: Setting, m: Said)
    requires Between(s, h, g) && g.model(|h.said| + 1, s.messages) == Answer(m)
    ensures Asked(HistoryWith(h, s, m), g)
  {
    hide IsTranscript, Between;
    BetweenGives(s, h, g);
    var asked, said := h.asked + [s.messages], h.said + [m];
    forall t: nat | t < |asked|
      ensures IsTranscript(asked[t], said, t, g)
    {
      TranscriptStays(asked[t], h.said, t, g, m);
    }
  }

  lemma AskedWhateverRan(h: History, g: Setting, invoked: seq<Key>)
    requires Asked(h, g)
    ensures Asked(h.(invoked := invoked), g)
  {
    hide IsTranscript;
  }

  lemma TraceSnoc(said: seq<Said>, m: Said)
    ensures TraceOf(said + [m]) == TraceOf(said) + [TurnOf(|said| + 1, m)]
  {
    hide TurnOf;
  }

  /** The state once a message came in, its calls not yet run. */
  function WithMessage(s: State, number: nat, m: Said): State {
    s.(messages := s.messages + [Assistant(m)], usage := s.usage.Plus(m.tokens), trace := s.trace + [TurnOf(number, m)])
  }

  ghost function HistoryWith(h: History, s: State, m: Said): History {
    h.(asked := h.asked + [s.messages], said := h.said + [m])
  }

  /** A turn all of whose calls were answered. */
  lemma BetweenNext(s: State, h: History, g: Setting, m: Said, s': State, invoked: seq<Key>)
    requires Between(s, h, g) && g.model(|h.said| + 1, s.messages) == Answer(m)
    requires m.calls != [] && AllLegible(m.calls)
    requires
      var w, earlier := WithMessage(s, |h.said| + 1, m), CallsOf(h.said);
      && s'.messages == w.messages + ToolMessages(earlier, m.calls, g.tools)
      && AllLegible(earlier + m.calls) && s'.steps == StepsOf(earlier + m.calls, g.tools)
      && s'.seen == SeenAfter(earlier + m.calls, g.tools) && invoked == InvokedBy(earlier + m.calls, g.tools)
      && s'.usage == w.usage && s'.trace == w.trace
    ensures Between(s', HistoryWith(h, s, m).(invoked := invoked), g)
  {
    hide CallsOf, StepsOf, SeenAfter, InvokedBy, Spent, TraceOf, ToolMessages, TurnOf, Asked, IsTranscript, Usage.Plus;
    BetweenGives(s, h, g);
    SaidNext(s, h, g, m);
    CallsSnoc(h.said, m);
    TranscriptSnoc(g.alert, h.said, m, g.tools);
    SpentSnoc(h.said, m);
    TraceSnoc(h.said, m);
    AskedWhateverRan(HistoryWith(h, s, m), g, invoked);
    hide Transcript;
  }

  // ---- The ways to end ----

  /** Between two turns the accounts are whole. */
  lemma BetweenAccounts(s: State, h: History, g: Setting, record: Record)
    requires Between(s, h, g) && record.steps == s.steps && record.trace == s.trace
    ensures Accounts(record, h, |CallsOf(h.said)|, g.tools)
  {
    hide StepsOf, InvokedBy, TraceOf, Asked, Transcript, SeenAfter;
    assert CallsOf(h.said)[..|CallsOf(h.said)|] == CallsOf(h.said);
  }

  lemma EndWithoutMessage(s: State, h: History, g: Setting, record: Record)
    requires Between(s, h, g) && |h.said| < g.maxTurns && record.turns == |h.said| + 1
    requires g.model(record.turns, s.messages).Unreachable? || g.model(record.turns, s.messages).NoMessage?
    requires
      var reply := g.model(record.turns, s.messages);
      record.usage == if reply.NoMessage? then s.usage.Plus(reply.tokens) else s.usage
    requires record.status.ModelUnavailable? && record.answer == "" && record.finding.None?
    requires record.steps == s.steps && record.trace == s.trace
    ensures Faithful(record, h.(asked := h.asked + [s.messages]), |CallsOf(h.said)|, g)
  {
    hide CallsOf, StepsOf, InvokedBy, Spent, TraceOf, Asked, Between, Usage.Plus;
    BetweenGives(s, h, g);
    BetweenAccounts(s, h, g, record);
    AskedNext(s, h, g);
  }

  lemma EndAtTurnLimit(s: State, h: History, g: Setting, record: Record)
    requires Between(s, h, g) && record.turns == |h.said| == if g.maxTurns > 0 then g.maxTurns else 0
    requires record == Record(TurnLimit, record.turns, s.usage, s.steps, "", None, s.trace)
    ensures Faithful(record, h, |CallsOf(h.said)|, g)
  {
    hide CallsOf, Spent, Asked, Between, Accounts;
    BetweenGives(s, h, g);
    BetweenAccounts(s, h, g, record);
  }

  /** Once a message came in and so many of its calls were answered: the accounts, however it ends. */
  lemma PartwayAccounts(s: State, h: History, g: Setting, m: Said, done: nat, invoked: seq<Key>, record: Record)
    requires Between(s, h, g) && g.model(|h.said| + 1, s.messages) == Answer(m)
    requires done <= |m.calls| && AllLegible(CallsOf(h.said) + m.calls[..done])
    requires record.steps == StepsOf(CallsOf(h.said) + m.calls[..done], g.tools)
    requires invoked == InvokedBy(CallsOf(h.said) + m.calls[..done], g.tools)
    requires record.usage == s.usage.Plus(m.tokens) && record.trace == s.trace + [TurnOf(|h.said| + 1, m)]
    ensures
      var now, answered := HistoryWith(h, s, m).(invoked := invoked), |CallsOf(h.said)| + done;
      && Accounts(record, now, answered, g.tools) && Asked(now, g) && record.usage == Spent(now.said)
      && CallsOf(now.said) == CallsOf(h.said) + m.calls
  {
    hide CallsOf, Transcript, StepsOf, InvokedBy, Spent, TraceOf, TurnOf, Asked, AllLegible, Between, Usage.Plus;
    BetweenGives(s, h, g);
    SaidNext(s, h, g, m);
    CallsSnoc(h.said, m);
    SpentSnoc(h.said, m);
    TraceSnoc(h.said, m);
    var now, answered := HistoryWith(h, s, m).(invoked := invoked), |CallsOf(h.said)| + done;
    assert (CallsOf(h.said) + m.calls)[..answered] == CallsOf(h.said) + m.calls[..done];
    AskedWhateverRan(HistoryWith(h, s, m), g, invoked);
  }

  lemma EndPartway(s: State, h: History, g: Setting, m: Said, done: nat, invoked: seq<Key>, record: Record)
    requires Between(s, h, g) && |h.said| < g.maxTurns && g.model(|h.said| + 1, s.messages) == Answer(m)
    requires done <= |m.calls| && AllLegible(CallsOf(h.said) + m.calls[..done])
    requires invoked == InvokedBy(CallsOf(h.said) + m.calls[..done], g.tools)
    requires record.steps == StepsOf(CallsOf(h.said) + m.calls[..done], g.tools)
    requires record.usage == s.usage.Plus(m.tokens) && record.trace == s.trace + [TurnOf(|h.said| + 1, m)]
    requires record.turns == |h.said| + 1 && record.answer == "" && record.finding == None
    requires record.status.Stopped? || (record.status.ModelUnavailable? && done < |m.calls| && !Legible(m.calls[done]))
    ensures Faithful(record, HistoryWith(h, s, m).(invoked := invoked), |CallsOf(h.said)| + done, g)
  {
    hide CallsOf, StepsOf, InvokedBy, Spent, TurnOf, Asked, AllLegible, Between, Accounts, Usage.Plus, Legible;
    BetweenGives(s, h, g);
    PartwayAccounts(s, h, g, m, done, invoked, record);
  }

  lemma EndWithAnswer(s: State, h: History, g: Setting, m: Said, record: Record)
    requires Between(s, h, g) && |h.said| < g.maxTurns
    requires g.model(|h.said| + 1, s.messages) == Answer(m) && m.calls == []
    requires record.usage == s.usage.Plus(m.tokens) && record.trace == s.trace + [TurnOf(|h.said| + 1, m)]
    requires record.turns == |h.said| + 1 && record.steps == s.steps && record.answer == HeadText(m.text, TEXT_LIMIT)
    requires record.finding == if m.text == "" then None else FindingOf(g.readLines(m.text), s.steps)
    requires record.status == if record.finding.Some? then Answered else Unstructured
    ensures Faithful(record, HistoryWith(h, s, m), |CallsOf(h.said)|, g)
  {
    hide CallsOf, StepsOf, InvokedBy, Spent, TurnOf, Asked, AllLegible, Between, Accounts, Usage.Plus;
    hide FindingOf, HeadText;
    BetweenGives(s, h, g);
    assert CallsOf(h.said) + m.calls[..0] == CallsOf(h.said);
    assert CallsOf(h.said) + m.calls == CallsOf(h.said);
    PartwayAccounts(s, h, g, m, 0, h.invoked, record);
    assert HistoryWith(h, s, m).(invoked := h.invoked) == HistoryWith(h, s, m);
  }

  // ---- The loop ----

  /**
   * Works an alert until the model answers, its turns run out, it fails, or the reader goes away
   * (`leaves` says at which event). `answered` is how many of the model's calls were answered. There
   * is no record exactly when an answer's calls cannot be walked: that error is not the loop's own.
   */
  method Investigate(g: Setting, leaves: nat -> bool)
    returns (kept: Option<Record>, ghost h: History, ghost answered: nat)
    ensures kept.Some? ==> Faithful(kept.value, h, answered, g) && Plausible(kept.value, g.maxTurns)
    ensures kept.None? ==> Asked(h, g) && EndsGarbled(h, g)
    ensures kept.None? <==> exists t: nat :: GarbledAt(h, g, t)
  {
    hide GarbledAt, EndsGarbled;
    hide Between, Faithful, Plausible, StepsOf, SeenAfter, InvokedBy, ToolMessages, CallsOf, TurnOf, FindingOf;
    hide HeadText, Usage.Plus, AllLegible, Legible, Asked, IsTranscript, Spent, TraceOf;
    var s := State([System, User(g.alert)], [], map[], Usage(0, 0), []);
    var turns, events: nat := 0, 0;
    h := History([], [], []);
    BetweenAtStart(g);
    while turns < g.maxTurns
      invariant turns == |h.said| && turns <= (if g.maxTurns > 0 then g.maxTurns else 0)
      invariant Between(s, h, g)
      decreases g.maxTurns - turns
    {
      turns := turns + 1;
      var reply := g.model(turns, s.messages);
      if reply.Garbled? {
        EndGarbled(s, h, g);
        answered, h := |CallsOf(h.said)|, h.(asked := h.asked + [s.messages]);
        LastIsGarbled(h, g);
        return None, h, answered;
      }
      if !reply.Answer? {
        var usage := if reply.NoMessage? then s.usage.Plus(reply.tokens) else s.usage;
        var record := Record(ModelUnavailable, turns, usage, s.steps, "", None, s.trace);
        EndWithoutMessage(s, h, g, record);
        answered, h := |CallsOf(h.said)|, h.(asked := h.asked + [s.messages]);
        FaithfulIsPlausible(record, h, answered, g);
        FaithfulIsNotGarbled(record, h, answered, g);
        return Some(record), h, answered;
      }
      var m := reply.said;
      ghost var before, earlier := s, CallsOf(h.said);
      BetweenGives(s, h, g);
      s := WithMessage(s, turns, m);
      if leaves(events) {
        var record := Record(Stopped, turns, s.usage, s.steps, "", None, s.trace);
        assert earlier + m.calls[..0] == earlier;
        EndPartway(before, h, g, m, 0, h.invoked, record);
        h, answered := HistoryWith(h, before, m), |earlier|;
        FaithfulIsPlausible(record, h, answered, g);
        FaithfulIsNotGarbled(record, h, answered, g);
        return Some(record), h, answered;
      }
      events := events + 1;
      if m.calls == [] {
        var finding := if m.text == "" then None else FindingOf(g.readLines(m.text), s.steps);
        var record := Record(
          if finding.Some? then Answered else Unstructured,
          turns, s.usage, s.steps, HeadText(m.text, TEXT_LIMIT), finding, s.trace);
        EndWithAnswer(before, h, g, m, record);
        h, answered := HistoryWith(h, before, m), |earlier|;
        FaithfulIsPlausible(record, h, answered, g);
        FaithfulIsNotGarbled(record, h, answered, g);
        return Some(record), h, answered;
      }
      ghost var invoked: seq<Key>;
      var progress, messages, steps, seen, done;
      progress, messages, steps, seen, events, done, invoked :=
        AnswerCalls(m.calls, g.tools, s.messages, s.steps, s.seen, events, leaves, earlier, h.invoked);
      s := s.(messages := messages, steps := steps, seen := seen);
      if !progress.AllAnswered? {
        var record := Record(
          if progress.Illegible? then ModelUnavailable else Stopped, turns, s.usage, s.steps, "", None, s.trace);
        EndPartway(before, h, g, m, done, invoked, record);
        h, answered := HistoryWith(h, before, m).(invoked := invoked), |earlier| + done;
        FaithfulIsPlausible(record, h, answered, g);
        FaithfulIsNotGarbled(record, h, answered, g);
        return Some(record), h, answered;
      }
      assert m.calls[..done] == m.calls;
      BetweenNext(before, h, g, m, s, invoked);
      h := HistoryWith(h, before, m).(invoked := invoked);
    }
    var record := Record(TurnLimit, turns, s.usage, s.steps, "", None, s.trace);
    EndAtTurnLimit(s, h, g, record);
    answered := |CallsOf(h.said)|;
    FaithfulIsPlausible(record, h, answered, g);
    FaithfulIsNotGarbled(record, h, answered, g);
    kept := Some(record);
  }

  lemma LastIsGarbled(h: History, g: Setting)
    requires EndsGarbled(h, g)
    ensures GarbledAt(h, g, |h.said|)
  {
  }

  // ---- What a faithful record says ----

  /** The prompt tokens of these turns, and the completion tokens. */
  function PromptTokens(trace: seq<Turn>): int {
    if trace == [] then 0 else PromptTokens(trace[..|trace| - 1]) + trace[|trace| - 1].tokens.prompt
  }

  function CompletionTokens(trace: seq<Turn>): int {
    if trace == [] then 0 else CompletionTokens(trace[..|trace| - 1]) + trace[|trace| - 1].tokens.completion
  }

  lemma {:induction false} TraceSpends(said: seq<Said>)
    ensures Spent(said).prompt == PromptTokens(TraceOf(said))
    ensures Spent(said).completion == CompletionTokens(TraceOf(said))
  {
    if said != [] {
      TraceSpends(said[..|said| - 1]);
      assert TraceOf(said)[..|said| - 1] == TraceOf(said[..|said| - 1]);
    }
  }

  /** What the trace keeps of each turn the model took. */
  lemma TraceKeeps(record: Record, h: History, answered: nat, g: Setting)
    requires Faithful(record, h, answered, g)
    ensures |record.trace| == |h.said|
    ensures forall t :: 0 <= t < |record.trace| ==>
      && record.trace[t].number == t + 1 && record.trace[t].tokens == h.said[t].tokens
      && record.trace[t].calls == |h.said[t].calls|
      && record.trace[t].text == TraceText(h.said[t].text, TEXT_LIMIT)
  {
    hide IsTranscript, Spent, CallsOf, StepsOf, InvokedBy, FindingOf, HeadText, AllLegible, Usage.Plus, TraceText;
  }

  /**
   * The trace, the turns and the tokens agree at every way to end, but for a turn the model failed:
   * that one is counted and not traced, and spent only what a malformed answer reported.
   */
  lemma LedgerAgrees(record: Record, h: History, answered: nat, g: Setting)
    requires Faithful(record, h, answered, g)
    ensures |record.trace| == record.turns ==>
      record.usage == Usage(PromptTokens(record.trace), CompletionTokens(record.trace))
    ensures |record.trace| != record.turns ==>
      && record.status.ModelUnavailable? && record.turns == |record.trace| + 1 == |h.asked|
      && var failed := g.model(record.turns, h.asked[|record.trace|]);
         && (failed.Unreachable? || failed.NoMessage?)
         && record.usage.prompt ==
            PromptTokens(record.trace) + (if failed.NoMessage? then failed.tokens.prompt else 0)
         && record.usage.completion ==
            CompletionTokens(record.trace) + if failed.NoMessage? then failed.tokens.completion else 0
  {
    hide IsTranscript, Spent, CallsOf, StepsOf, InvokedBy, FindingOf, HeadText, AllLegible;
    hide PromptTokens, CompletionTokens;
    TraceSpends(h.said);
  }

  /** Each distinct call of a record ran exactly once, whatever the record's end. */
  lemma RecordInvokedOnce(record: Record, h: History, answered: nat, g: Setting, i: nat, j: nat)
    requires Faithful(record, h, answered, g) && i < j < |h.invoked|
    ensures h.invoked[i] != h.invoked[j]
  {
    hide Asked, EndsAs, CallsOf, StepsOf, TraceOf, InvokedBy, AllLegible, KeyOf, SeenAfter;
    var calls := CallsOf(h.said)[..answered];
    assert h.invoked == InvokedBy(calls, g.tools);
    InvokedOnce(calls, g.tools);
  }

  lemma LastToolMessage(earlier: seq<ModelCall>, calls: seq<ModelCall>, tools: Tools)
    requires AllLegible(earlier + calls) && AllLegible(calls) && calls != []
    ensures
      var n := |calls| - 1;
      ToolMessages(earlier, calls, tools)[n] ==
        ToolMessage(calls[n].id, ResultsOf(earlier + calls, tools)[|earlier| + n].content)
  {
    hide ResultOf, KeyOf, SeenAfter, ResultsOf;
    var n := |calls| - 1;
    ResultAt(earlier + calls, |earlier| + n, tools);
    assert (earlier + calls)[..|earlier| + n] == earlier + calls[..n];
  }

  /** The i-th answered call of a turn has the i-th tool message, with its id and its result. */
  lemma {:induction false} ToolMessageAt(earlier: seq<ModelCall>, calls: seq<ModelCall>, i: nat, tools: Tools)
    requires AllLegible(earlier + calls) && AllLegible(calls) && i < |calls|
    ensures
      ToolMessages(earlier, calls, tools)[i] ==
        ToolMessage(calls[i].id, ResultsOf(earlier + calls, tools)[|earlier| + i].content)
  {
    hide ResultOf, KeyOf, SeenAfter;
    var n := |calls| - 1;
    if i == n {
      LastToolMessage(earlier, calls, tools);
    } else {
      assert (earlier + calls)[..|earlier| + n] == earlier + calls[..n];
      ToolMessageAt(earlier, calls[..n], i, tools);
    }
  }

  // ---- Saving ----

  const SAVE_ATTEMPTS := 100

  function SavedId(base: string, attempt: nat): string {
    if attempt == 1 then base else base + "-" + Decimal(attempt)
  }

  lemma SavedIdsDiffer(base: string, a: nat, b: nat)
    requires 1 <= a && 1 <= b && SavedId(base, a) == SavedId(base, b)
    ensures a == b
  {
    DecimalReadsBack(a);
    DecimalReadsBack(b);
    if a != 1 && b != 1 {
      assert SavedId(base, a)[|base| + 1..] == Decimal(a);
      assert SavedId(base, b)[|base| + 1..] == Decimal(b);
    }
  }

  class InvestigationStore {
    var records: map<string, Record>

    /** Keeps a record under the first id of its second that is free; none is ever overwritten. */
    method Save(base: string, record: Record) returns (saved: Option<string>)
      modifies this
      ensures saved.None? <==> forall k: nat :: 1 <= k <= SAVE_ATTEMPTS ==> SavedId(base, k) in old(records)
      ensures saved.None? ==> records == old(records)
      ensures saved.Some? ==>
        && saved.value !in old(records) && records == old(records)[saved.value := record]
        && exists k: nat ::
             && 1 <= k <= SAVE_ATTEMPTS && saved.value == SavedId(base, k)
             && forall j: nat :: 1 <= j < k ==> SavedId(base, j) in old(records)
    {
      for attempt: nat := 1 to SAVE_ATTEMPTS + 1
        invariant records == old(records)
        invariant forall j: nat :: 1 <= j < attempt ==> SavedId(base, j) in records
      {
        var id := SavedId(base, attempt);
        if id !in records {
          records := records[id := record];
          return Some(id);
        }
      }
      saved := None;
    }
  }
}
