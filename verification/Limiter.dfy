/**
 * The demo's limits (demo/src/cloudfall_demo/server.py): a window of runs per address that is
 * pruned as it is read, and a daily budget of tokens.
 */
module Limiter {
  import opened Results

  const WINDOW := 3600.0

  /** An accepted run: when its address asked, and when the run was noted. */
  datatype Accepted = Accepted(address: string, asked: real, noted: real)

  /** How many runs of an address were noted at or after an instant, of its whole history. */
  function CountSince(history: seq<Accepted>, address: string, since: real): (count: nat) {
    if history == [] then 0
    else
      var last := history[|history| - 1];
      CountSince(history[..|history| - 1], address, since)
      + if last.address == address && since <= last.noted then 1 else 0
  }

  /** How many were noted within a closed window. */
  function CountWithin(history: seq<Accepted>, address: string, from: real, until: real): (count: nat) {
    if history == [] then 0
    else
      var last := history[|history| - 1];
      CountWithin(history[..|history| - 1], address, from, until)
      + if last.address == address && from <= last.noted <= until then 1 else 0
  }

  /** Runs in the order of a clock that never goes back, each let in with fewer than the limit before it. */
  ghost predicate Licensed(history: seq<Accepted>, limit: int) {
    history == [] ||
    var earlier, last := history[..|history| - 1], history[|history| - 1];
    && Licensed(earlier, limit)
    && last.asked <= last.noted
    && (earlier != [] ==> earlier[|earlier| - 1].noted <= last.asked)
    && CountSince(earlier, last.address, last.asked - WINDOW) < limit
  }

  /** A window that reaches back less counts no more. */
  lemma {:induction false} WithinIsSince(history: seq<Accepted>, address: string, from: real, until: real, since: real)
    requires since <= from
    ensures CountWithin(history, address, from, until) <= CountSince(history, address, since)
  {
    if history != [] {
      WithinIsSince(history[..|history| - 1], address, from, until, since);
    }
  }

  /** No closed window of an hour holds more accepted runs of one address than the limit. */
  lemma {:induction false} HourBound(history: seq<Accepted>, limit: int, address: string, from: real)
    requires Licensed(history, limit) && limit >= 0
    ensures CountWithin(history, address, from, from + WINDOW) <= limit
  {
    if history != [] {
      var earlier, last := history[..|history| - 1], history[|history| - 1];
      if last.address == address && from <= last.noted <= from + WINDOW {
        WithinIsSince(earlier, address, from, from + WINDOW, last.asked - WINDOW);
      } else {
        HourBound(earlier, limit, address, from);
      }
    }
  }

  function Own(history: seq<Accepted>, address: string): seq<Accepted> {
    if history == [] then []
    else
      var last := history[|history| - 1];
      var earlier := Own(history[..|history| - 1], address);
      if last.address == address then earlier + [last] else earlier
  }

  /** What other addresses did plays no part. */
  lemma {:induction false} OnlyOwnRunsCount(history: seq<Accepted>, address: string, since: real)
    ensures CountSince(history, address, since) == CountSince(Own(history, address), address, since)
  {
    if history != [] {
      var earlier, last := history[..|history| - 1], history[|history| - 1];
      OnlyOwnRunsCount(earlier, address, since);
      if last.address == address {
        var own := Own(history, address);
        assert own[..|own| - 1] == Own(earlier, address) && own[|own| - 1] == last;
      }
    }
  }

  /** The instants an address's runs were noted at. */
  function Times(history: seq<Accepted>, address: string): seq<real> {
    if history == [] then []
    else
      var last := history[|history| - 1];
      var earlier := Times(history[..|history| - 1], address);
      if last.address == address then earlier + [last.noted] else earlier
  }

  /** A queue that lost only instants before this one, from its front. */
  ghost predicate Pruned(queue: seq<real>, times: seq<real>, before: real) {
    && |queue| <= |times|
    && queue == times[|times| - |queue|..]
    && forall k :: 0 <= k < |times| - |queue| ==> times[k] < before
  }

  lemma PrunedLater(queue: seq<real>, times: seq<real>, before: real, later: real)
    requires Pruned(queue, times, before) && before <= later
    ensures Pruned(queue, times, later)
  {
  }

  lemma PrunedTail(queue: seq<real>, times: seq<real>, before: real)
    requires Pruned(queue, times, before) && queue != [] && queue[0] < before
    ensures Pruned(queue[1..], times, before)
  {
    assert queue[0] == times[|times| - |queue|];
    assert times[|times| - |queue[1..]|..] == queue[1..];
  }

  lemma PrunedSnoc(queue: seq<real>, times: seq<real>, before: real, time: real)
    requires Pruned(queue, times, before)
    ensures Pruned(queue + [time], times + [time], before)
  {
  }

  ghost predicate Ordered(times: seq<real>) {
    forall i, j :: 0 <= i < j < |times| ==> times[i] <= times[j]
  }

  function CountFrom(times: seq<real>, since: real): (count: nat) {
    if times == [] then 0
    else CountFrom(times[..|times| - 1], since) + if since <= times[|times| - 1] then 1 else 0
  }

  lemma {:induction false} CountOfTimes(history: seq<Accepted>, address: string, since: real)
    ensures CountSince(history, address, since) == CountFrom(Times(history, address), since)
  {
    if history != [] {
      var earlier, last := history[..|history| - 1], history[|history| - 1];
      CountOfTimes(earlier, address, since);
      if last.address == address {
        var times := Times(history, address);
        assert times[..|times| - 1] == Times(earlier, address) && times[|times| - 1] == last.noted;
      }
    }
  }

  lemma {:induction false} NotedUpTo(history: seq<Accepted>, limit: int, address: string)
    requires Licensed(history, limit)
    ensures Ordered(Times(history, address))
    ensures history != [] ==> forall k :: 0 <= k < |Times(history, address)| ==>
              Times(history, address)[k] <= history[|history| - 1].noted
  {
    if history != [] {
      NotedUpTo(history[..|history| - 1], limit, address);
    }
  }

  /** A queue whose front is recent holds every recent instant. */
  lemma {:induction false} QueueCounts(queue: seq<real>, times: seq<real>, since: real)
    requires Ordered(times) && Pruned(queue, times, since) && (queue != [] ==> since <= queue[0])
    ensures CountFrom(times, since) == |queue|
  {
    if times != [] {
      var shorter := times[..|times| - 1];
      if queue == [] {
        QueueCounts([], shorter, since);
      } else {
        assert queue[|queue| - 1] == times[|times| - 1];
        assert since <= queue[0] <= queue[|queue| - 1] by {
          assert queue[0] == times[|times| - |queue|];
        }
        QueueCounts(queue[..|queue| - 1], shorter, since);
      }
    }
  }

  function Queue(runs: map<string, seq<real>>, address: string): seq<real> {
    if address in runs then runs[address] else []
  }

  /** Each address's queue is its whole history but for runs more than an hour old. */
  ghost predicate QueuesHold(runs: map<string, seq<real>>, history: seq<Accepted>, now: real) {
    forall address :: Pruned(Queue(runs, address), Times(history, address), now - WINDOW)
  }

  lemma QueueHolds(runs: map<string, seq<real>>, history: seq<Accepted>, now: real, address: string)
    requires QueuesHold(runs, history, now)
    ensures Pruned(Queue(runs, address), Times(history, address), now - WINDOW)
  {
  }

  lemma QueuePruned(
    runs: map<string, seq<real>>, history: seq<Accepted>, before: real, now: real, address: string, recent: seq<real>)
    requires QueuesHold(runs, history, before) && before <= now
    requires Pruned(recent, Times(history, address), now - WINDOW)
    ensures QueuesHold(runs[address := recent], history, now)
  {
    hide Pruned, Times;
    forall other
      ensures Pruned(Queue(runs[address := recent], other), Times(history, other), now - WINDOW)
    {
      PrunedLater(Queue(runs, other), Times(history, other), before - WINDOW, now - WINDOW);
    }
  }

  lemma QueueExtended(runs: map<string, seq<real>>, history: seq<Accepted>, now: real, run: Accepted)
    requires QueuesHold(runs, history, now) && now <= run.noted
    ensures QueuesHold(runs[run.address := Queue(runs, run.address) + [run.noted]], history + [run], run.noted)
  {
    hide Pruned;
    assert (history + [run])[..|history|] == history;
    forall other
      ensures
        Pruned(Queue(runs[run.address := Queue(runs, run.address) + [run.noted]], other), Times(history + [run], other),
               run.noted - WINDOW)
    {
      var queue, times := Queue(runs, other), Times(history, other);
      PrunedLater(queue, times, now - WINDOW, run.noted - WINDOW);
      if other == run.address {
        assert Times(history + [run], other) == times + [run.noted];
        PrunedSnoc(queue, times, run.noted - WINDOW, run.noted);
      } else {
        assert Times(history + [run], other) == times;
      }
    }
  }

  lemma RunLicensed(history: seq<Accepted>, limit: int, run: Accepted)
    requires Licensed(history, limit) && run.asked <= run.noted
    requires history != [] ==> history[|history| - 1].noted <= run.asked
    requires CountSince(history, run.address, run.asked - WINDOW) < limit
    ensures Licensed(history + [run], limit)
  {
    assert (history + [run])[..|history|] == history;
  }

  /** Drops the instants before one from the front. */
  method Prune(queue: seq<real>, before: real, ghost times: seq<real>) returns (recent: seq<real>)
    requires Pruned(queue, times, before)
    ensures Pruned(recent, times, before) && (recent != [] ==> before <= recent[0])
  {
    hide Pruned;
    recent := queue;
    while recent != [] && recent[0] < before
      invariant Pruned(recent, times, before)
      decreases |recent|
    {
      PrunedTail(recent, times, before);
      recent := recent[1..];
    }
  }

  datatype Refusal = BudgetSpent | TooManyRuns

  /** One line of an investigation's stream: a turn with its tokens, or anything else. */
  datatype Line = TurnLine(prompt: int, completion: int) | OtherLine

  function Spent(lines: seq<Line>): int {
    if lines == [] then 0
    else
      var last := lines[|lines| - 1];
      Spent(lines[..|lines| - 1]) + if last.TurnLine? then last.prompt + last.completion else 0
  }

  lemma SpentSnoc(lines: seq<Line>, line: Line)
    ensures Spent(lines + [line]) == Spent(lines) + if line.TurnLine? then line.prompt + line.completion else 0
  {
    assert (lines + [line])[..|lines|] == lines;
  }

  class Limits {
    var runs: map<string, seq<real>>
    var day: string
    var tokens: int
    const runsPerHour: int
    const dailyTokens: int
    ghost var accepted: seq<Accepted>
    ghost var latest: real
    /** The lines of every stream since the day last changed. */
    ghost var lines: seq<Line>

    ghost predicate Valid()
      reads this
    {
      && tokens == Spent(lines)
      && Licensed(accepted, runsPerHour)
      && (accepted != [] ==> accepted[|accepted| - 1].noted <= latest)
      && QueuesHold(runs, accepted, latest)
    }

    constructor (runsPerHour: int, dailyTokens: int, now: real)
      ensures Valid() && accepted == [] && lines == [] && latest == now
      ensures this.runsPerHour == runsPerHour && this.dailyTokens == dailyTokens
    {
      this.runsPerHour := runsPerHour;
      this.dailyTokens := dailyTokens;
      runs := map[];
      day := "";
      tokens := 0;
      accepted := [];
      lines := [];
      latest := now;
    }

    /** A new day begins with nothing spent. */
    method RollOver(today: string)
      requires Valid()
      modifies `day, `tokens, `lines
      ensures Valid() && day == today
      ensures tokens == (if today == old(day) then old(tokens) else 0)
      ensures lines == if today == old(day) then old(lines) else []
    {
      hide Licensed, QueuesHold;
      if today != day {
        day, tokens, lines := today, 0, [];
      }
    }

    /**
     * Decides as counting the address's whole history would: `asked` and `noted` are the two
     * readings of the monotonic clock.
     */
    method Refuse(address: string, today: string, asked: real, noted: real) returns (refusal: Option<Refusal>)
      requires Valid() && latest <= asked <= noted
      modifies this
      ensures Valid()
      ensures
        var spent := if today == old(day) then old(tokens) else 0;
        && day == today && tokens == spent && lines == (if today == old(day) then old(lines) else [])
        && refusal == (
             if spent >= dailyTokens then Some(BudgetSpent)
             else if CountSince(old(accepted), address, asked - WINDOW) >= runsPerHour then Some(TooManyRuns)
             else None)
      ensures accepted == if refusal.None? then old(accepted) + [Accepted(address, asked, noted)] else old(accepted)
    {
      hide Licensed, QueuesHold, CountSince, CountFrom, Times, Ordered, Pruned;
      RollOver(today);
      if tokens >= dailyTokens {
        return Some(BudgetSpent);
      }
      var recent := Queue(runs, address);
      var hourAgo := asked - WINDOW;
      ghost var times := Times(accepted, address);
      NotedUpTo(accepted, runsPerHour, address);
      QueueHolds(runs, accepted, latest, address);
      PrunedLater(recent, times, latest - WINDOW, hourAgo);
      recent := Prune(recent, hourAgo, times);
      QueueCounts(recent, times, hourAgo);
      CountOfTimes(accepted, address, hourAgo);
      QueuePruned(runs, accepted, latest, asked, address, recent);
      runs := runs[address := recent];
      latest := asked;
      if |recent| >= runsPerHour {
        return Some(TooManyRuns);
      }
      ghost var run := Accepted(address, asked, noted);
      RunLicensed(accepted, runsPerHour, run);
      QueueExtended(runs, accepted, asked, run);
      runs := runs[address := recent + [noted]];
      accepted := accepted + [run];
      latest := noted;
      refusal := None;
    }

    /** Each turn's tokens are spent as it arrives, in every stream, whether or not its visitor stays. */
    method CountTokens(line: Line)
      requires Valid()
      modifies `tokens, `lines
      ensures Valid() && lines == old(lines) + [line]
    {
      SpentSnoc(lines, line);
      hide Licensed, QueuesHold, Spent;
      if line.TurnLine? {
        tokens := tokens + line.prompt + line.completion;
      }
      lines := lines + [line];
    }
  }
}
