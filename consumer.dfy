/** `run_market_research_crew`: the consumer side of the stream, a generator that takes
    items off the queue and yields them to the HTTP response until the end marker, an
    error item, or a thread that died without saying so. Threads and timing are not
    modelled: what the consumer sees is given as a sequence of `Poll` results, each
    either an item taken off the queue or a one-second timeout with the runner thread's
    liveness at that moment. */
module Consumer {
  import opened PyStr
  import opened Sanitize
  import opened Formatter
  import opened Capture
  import opened Runner

  /** The outcome of one `get(timeout=1)`. */
  datatype Poll = Got(item: string) | TimedOut(alive: bool)

  const TerminatedMessage: string := "Error: CrewAI thread terminated unexpectedly or timed out.\n"

  /** What the generator yielded, and whether it has finished (rather than still waiting
      for more polls). */
  datatype Consumption = Consumption(yielded: seq<string>, finished: bool)

  /** The generator driven by the polls, in the order they happen. */
  function Consumed(polls: seq<Poll>): Consumption
    decreases |polls|
  {
    if polls == [] then Consumption([], false)
    else match polls[0]
      case Got(item) =>
        if item == EndOfStreamMarker then Consumption([], true)
        else if ErrorStreamMarker <= item then Consumption([item[|ErrorStreamMarker|..]], true)
        else
          var rest := Consumed(polls[1..]);
          Consumption([item] + rest.yielded, rest.finished)
      case TimedOut(alive) =>
        if alive then Consumed(polls[1..]) else Consumption([TerminatedMessage], true)
  }

  /** The dispatch loop of the generator. */
  method Consume(polls: seq<Poll>) returns (yielded: seq<string>, finished: bool)
    ensures Consumption(yielded, finished) == Consumed(polls)
  {
    yielded, finished := [], false;
    var i := 0;
    while i < |polls|
      invariant 0 <= i <= |polls|
      invariant Consumed(polls) == Consumption(yielded + Consumed(polls[i..]).yielded, Consumed(polls[i..]).finished)
    {
      ConsumedStep(polls, i);
      match polls[i] {
        case Got(item) =>
          if item == EndOfStreamMarker {
            finished := true;
            break;
          } else if ErrorStreamMarker <= item {
            yielded := yielded + [item[|ErrorStreamMarker|..]];
            finished := true;
            break;
          }
          yielded := yielded + [item];
        case TimedOut(alive) =>
          if !alive {
            yielded := yielded + [TerminatedMessage];
            finished := true;
            break;
          }
      }
      i := i + 1;
    }
    if !finished {
      assert polls[i..] == [];
      assert yielded + [] == yielded;
    }
  }

  lemma {:induction false} ConsumedStep(polls: seq<Poll>, i: nat)
    requires i < |polls|
    ensures Consumed(polls[i..]) == match polls[i]
      case Got(item) =>
        if item == EndOfStreamMarker then Consumption([], true)
        else if ErrorStreamMarker <= item then Consumption([item[|ErrorStreamMarker|..]], true)
        else Consumption([item] + Consumed(polls[i + 1..]).yielded, Consumed(polls[i + 1..]).finished)
      case TimedOut(alive) =>
        if alive then Consumed(polls[i + 1..]) else Consumption([TerminatedMessage], true)
  {
    assert polls[i..][0] == polls[i];
    assert polls[i..][1..] == polls[i + 1..];
  }

  /** The polls when every item is already on the queue: each `get` returns the next one. */
  function Delivered(items: seq<string>): (polls: seq<Poll>)
    ensures |polls| == |items|
    ensures forall k :: 0 <= k < |items| ==> polls[k] == Got(items[k])
  {
    if items == [] then [] else [Got(items[0])] + Delivered(items[1..])
  }

  /** The items the consumer took off the queue, in order. */
  function Received(polls: seq<Poll>): seq<string> {
    if polls == [] then []
    else match polls[0]
      case Got(item) => [item] + Received(polls[1..])
      case TimedOut(_) => Received(polls[1..])
  }

  /** `polls` is what a consumer can observe while the runner puts `items` on the FIFO
      queue: items come off in the order they were put. A timeout says nothing about the
      items still to come: `get` may time out just before the runner puts its last items
      and exits, and `is_alive()` then already reports the thread dead. This admits a
      superset of the real schedules (a timeout while items wait, a live timeout after the
      runner exited), which suits lemmas that hold for every schedule. */
  predicate Observes(polls: seq<Poll>, items: seq<string>)
    decreases |polls|
  {
    polls == [] ||
    match polls[0]
    case Got(item) => items != [] && items[0] == item && Observes(polls[1..], items[1..])
    case TimedOut(_) => Observes(polls[1..], items)
  }

  /** The consumer only ever takes off the queue a prefix of what the runner put on it. */
  lemma {:induction false} ReceivedPrefix(polls: seq<Poll>, items: seq<string>)
    requires Observes(polls, items)
    ensures Received(polls) <= items
    decreases |polls|
  {
    if polls != [] {
      match polls[0] {
        case Got(item) =>
          ReceivedPrefix(polls[1..], items[1..]);
          assert items == [items[0]] + items[1..];
        case TimedOut(_) =>
          ReceivedPrefix(polls[1..], items);
      }
    }
  }

  /** The polls before the first timeout that finds the runner thread dead. */
  function Live(polls: seq<Poll>): (live: seq<Poll>)
    ensures live <= polls
    ensures live == polls <==> TimedOut(false) !in polls
    ensures TimedOut(false) !in live
    ensures live != polls ==> polls[|live|] == TimedOut(false)
    decreases |polls|
  {
    if polls == [] then []
    else if polls[0] == TimedOut(false) then []
    else
      assert polls == [polls[0]] + polls[1..];
      [polls[0]] + Live(polls[1..])
  }

  /** What the generator ends with when a timeout finds the thread dead after it yielded
      `c`: nothing more if it had already stopped, the termination message otherwise. */
  function DeadAfter(c: Consumption): Consumption {
    if c.finished then c else Consumption(c.yielded + [TerminatedMessage], true)
  }

  /** Timeouts at which the runner is alive do not matter: the consumer yields what it
      would have yielded had every item it took been waiting on the queue from the start.
      The first timeout at which the runner is dead cuts the stream there, whatever items
      are still to come. */
  lemma {:induction false} TimingIrrelevant(polls: seq<Poll>)
    ensures Live(polls) == polls ==> Consumed(polls) == Consumed(Delivered(Received(polls)))
    ensures Live(polls) != polls ==> Consumed(polls) == DeadAfter(Consumed(Delivered(Received(Live(polls)))))
    decreases |polls|
  {
    if polls != [] {
      var rest := polls[1..];
      match polls[0] {
        case Got(item) =>
          assert Live(polls) == [Got(item)] + Live(rest);
          assert ([Got(item)] + Live(rest))[1..] == Live(rest);
          DeliveredCons(item, Received(rest));
          DeliveredCons(item, Received(Live(rest)));
          TimingIrrelevant(rest);
          if item != EndOfStreamMarker && !(ErrorStreamMarker <= item) && Live(polls) != polls {
            var c := Consumed(Delivered(Received(Live(rest))));
            assert Consumed(rest) == DeadAfter(c);
            if !c.finished {
              assert [item] + (c.yielded + [TerminatedMessage]) == ([item] + c.yielded) + [TerminatedMessage];
            }
          }
        case TimedOut(alive) =>
          if alive {
            assert Live(polls) == [TimedOut(true)] + Live(rest);
            assert ([TimedOut(true)] + Live(rest))[1..] == Live(rest);
            TimingIrrelevant(rest);
          }
      }
    }
  }

  lemma {:induction false} DeliveredCons(item: string, rest: seq<string>)
    ensures Delivered([item] + rest) == [Got(item)] + Delivered(rest)
  {
    assert ([item] + rest)[1..] == rest;
  }

  /** A runner that put nothing (the crew could not be built) and died: the consumer yields
      the termination message at the first timeout that finds the thread dead, and until
      then yields nothing and keeps waiting. */
  lemma {:induction false} DeadRunnerReported(polls: seq<Poll>)
    requires Observes(polls, [])
    ensures Consumed(polls).finished <==> TimedOut(false) in polls
    ensures Consumed(polls).yielded == if TimedOut(false) in polls then [TerminatedMessage] else []
    decreases |polls|
  {
    if polls != [] {
      assert polls == [polls[0]] + polls[1..];
      assert polls[0].TimedOut?;
      DeadRunnerReported(polls[1..]);
    }
  }

  /** An item the consumer passes on as it is and then keeps reading. */
  predicate Ordinary(item: string) {
    item != EndOfStreamMarker && !(ErrorStreamMarker <= item)
  }

  /** Ordinary items are yielded unchanged, in order, ahead of whatever the rest yields. */
  lemma {:induction false} OrdinaryPassThrough(head: seq<string>, tail: seq<string>)
    requires forall j :: 0 <= j < |head| ==> Ordinary(head[j])
    ensures Consumed(Delivered(head + tail))
            == Consumption(head + Consumed(Delivered(tail)).yielded, Consumed(Delivered(tail)).finished)
    decreases |head|
  {
    if head == [] {
      assert head + tail == tail;
    } else {
      assert head + tail == [head[0]] + (head[1..] + tail);
      DeliveredCons(head[0], head[1..] + tail);
      var polls := [Got(head[0])] + Delivered(head[1..] + tail);
      assert polls[1..] == Delivered(head[1..] + tail);
      OrdinaryPassThrough(head[1..], tail);
      assert head == [head[0]] + head[1..];
    }
  }

  /** No queued line of output starts with the error marker. */
  predicate NoMarkedLine(items: seq<string>) {
    forall j :: 0 <= j < |items| ==> !(ErrorStreamMarker <= items[j])
  }

  lemma {:induction false} TextLinesOrdinary(items: seq<string>)
    requires NoMarkedLine(items)
    requires forall j :: 0 <= j < |items| ==> IsTextLine(items[j])
    ensures forall j :: 0 <= j < |items| ==> Ordinary(items[j])
  {
    assert EndOfStreamMarker[|EndOfStreamMarker| - 1] != '\n';
  }

  /** The crew's output, as the runner queues it on success: its lines, and the flushed
      residue. */
  function SuccessOutput(calls: seq<StdoutCall>): seq<string> {
    var progress := Replay("", calls);
    progress.items + Chunks([progress.residue])
  }

  /** A successful run, all items delivered: the client receives every formatted line of
      output and then the final result, and the generator finishes. */
  lemma {:induction false} SuccessStream(calls: seq<StdoutCall>, result: string)
    requires NoMarkedLine(SuccessOutput(calls))
    ensures Consumed(Delivered(RunnerItems(Kickoff(calls, Returned(result)))))
            == Consumption(SuccessOutput(calls) + [FinalResultItem(result)], true)
  {
    var progress := Replay("", calls);
    var out := SuccessOutput(calls);
    ReplayShape("", calls);
    ChunksShape([progress.residue]);
    TextLinesConcat(progress.items, Chunks([progress.residue]));
    var tail := [FinalResultItem(result), EndOfStreamMarker];
    var head := out + [FinalResultItem(result)];
    assert FinalResultItem(result)[0] != ErrorStreamMarker[0];
    TextLinesOrdinary(out);
    assert forall j :: 0 <= j < |head| ==> Ordinary(head[j]) by {
      forall j | 0 <= j < |head| ensures Ordinary(head[j]) {
        if j < |out| {
          assert head[j] == out[j];
        }
      }
    }
    assert RunnerItems(Kickoff(calls, Returned(result))) == head + [EndOfStreamMarker];
    OrdinaryPassThrough(head, [EndOfStreamMarker]);
    assert Delivered([EndOfStreamMarker]) == [Got(EndOfStreamMarker)];
    assert head + [] == head;
  }

  /** A run whose kickoff raised, all items delivered: the client receives the lines queued
      before the exception, then the error message without its marker, and the generator
      finishes there without reading the end marker. */
  lemma {:induction false} FailureStream(calls: seq<StdoutCall>, message: string)
    requires NoMarkedLine(Replay("", calls).items)
    ensures Consumed(Delivered(RunnerItems(Kickoff(calls, Raised(message)))))
            == Consumption(Replay("", calls).items + [ErrorMessage(message)], true)
  {
    var progress := Replay("", calls).items;
    ReplayShape("", calls);
    TextLinesOrdinary(progress);
    var tail := [ErrorItem(message), EndOfStreamMarker];
    assert RunnerItems(Kickoff(calls, Raised(message))) == progress + tail;
    OrdinaryPassThrough(progress, tail);
    ErrorTail(message);
  }

  /** The error item stops the consumer, which yields its message without the marker. */
  lemma {:induction false} ErrorTail(message: string)
    ensures Consumed(Delivered([ErrorItem(message), EndOfStreamMarker])) == Consumption([ErrorMessage(message)], true)
  {
    var tail := [ErrorItem(message), EndOfStreamMarker];
    assert Delivered(tail) == [Got(ErrorItem(message))] + Delivered([EndOfStreamMarker]) by {
      assert tail[1..] == [EndOfStreamMarker];
    }
    assert ErrorItem(message) != EndOfStreamMarker by {
      assert ErrorItem(message)[2] != EndOfStreamMarker[2];
    }
  }

  /** For any schedule the consumer can observe of a run, it takes off a prefix of the
      runner's items. Until a timeout finds the runner dead, it yields what it would have
      yielded had those items been waiting from the start; at that timeout it stops. */
  lemma {:induction false} StreamTiming(run: Kickoff, polls: seq<Poll>)
    requires Observes(polls, RunnerItems(run))
    ensures Received(polls) <= RunnerItems(run)
    ensures TimedOut(false) !in polls ==> Consumed(polls) == Consumed(Delivered(Received(polls)))
    ensures TimedOut(false) in polls ==> Consumed(polls) == DeadAfter(Consumed(Delivered(Received(Live(polls)))))
  {
    ReceivedPrefix(polls, RunnerItems(run));
    TimingIrrelevant(polls);
  }

  /** The race between the timeout and the liveness test: `get` times out on an empty
      queue, the runner then puts the final result and the end marker and exits, and
      `is_alive()` reports it dead. The client receives the termination message and
      never the final result of a run that succeeded. */
  lemma {:induction false} RaceLosesResult(result: string)
    ensures Observes([TimedOut(false)], RunnerItems(Kickoff([], Returned(result))))
    ensures Consumed([TimedOut(false)]) == Consumption([TerminatedMessage], true)
    ensures FinalResultItem(result) !in Consumed([TimedOut(false)]).yielded
  {
    assert [TimedOut(false)][1..] == [];
    var f := FinalResultItem(result);
    assert f[|f| - 2] == '`';
    assert TerminatedMessage[|TerminatedMessage| - 2] == '.';
  }

  /** The error marker travels in band: a line the crew prints whose sanitised form starts
      with the marker and holds no heading phrase is queued as that sanitised form, and the
      consumer takes it for the runner's error item. A successful run that prints such a
      line ends its stream there with a bogus error, and the final result never reaches
      the client. */
  lemma {:induction false} MarkedLineEndsStream(x: string, result: string)
    requires '\n' !in x && ErrorStreamMarker <= Sanitized(x) && !IsHeading(Sanitized(x))
    ensures RunnerItems(Kickoff([Write(x + "\n")], Returned(result)))
            == [Sanitized(x) + "\n", FinalResultItem(result), EndOfStreamMarker]
    ensures Consumed(Delivered(RunnerItems(Kickoff([Write(x + "\n")], Returned(result)))))
            == Consumption([(Sanitized(x) + "\n")[|ErrorStreamMarker|..]], true)
    ensures FinalResultItem(result) !in Consumed(Delivered(RunnerItems(Kickoff([Write(x + "\n")], Returned(result))))).yielded
  {
    var item := Sanitized(x) + "\n";
    MarkedLineQueued(x, result);
    MarkedItemStops(item, [FinalResultItem(result), EndOfStreamMarker]);
    var y := item[|ErrorStreamMarker|..];
    var f := FinalResultItem(result);
    assert f[0] == "\n\n**FINAL RESULT:**\n```\n"[0] == '\n';
    assert |f| > 1;
    if |y| > 1 {
      SanitizedClean(x);
      assert y[0] == Sanitized(x)[|ErrorStreamMarker|];
      assert IsControl('\n');
    }
  }

  /** An item carrying the error marker stops the consumer whatever follows it. */
  lemma {:induction false} MarkedItemStops(item: string, rest: seq<string>)
    requires ErrorStreamMarker <= item
    ensures Consumed(Delivered([item] + rest)) == Consumption([item[|ErrorStreamMarker|..]], true)
  {
    assert |item| >= |ErrorStreamMarker| > |EndOfStreamMarker|;
    assert ([item] + rest)[0] == item;
    assert ([item] + rest)[1..] == rest;
  }

  /** A line whose sanitised form starts with the error marker and holds no heading phrase
      formats to that sanitised form: no rule rewrites a line that opens with `_`. */
  lemma {:induction false} MarkedLineFormatted(x: string)
    requires ErrorStreamMarker <= Sanitized(x) && !IsHeading(Sanitized(x))
    ensures FormatLine(x) == Sanitized(x)
  {
    var t := Sanitized(x);
    assert t[0] == ErrorStreamMarker[0] == '_';
    assert !IsSeparator(t);
    PlainNoLabel(t);
  }

  /** Such a line, printed with its line feed, is queued as its sanitised form before the
      final result. */
  lemma {:induction false} MarkedLineQueued(x: string, result: string)
    requires '\n' !in x && ErrorStreamMarker <= Sanitized(x) && !IsHeading(Sanitized(x))
    ensures RunnerItems(Kickoff([Write(x + "\n")], Returned(result)))
            == [Sanitized(x) + "\n", FinalResultItem(result), EndOfStreamMarker]
  {
    MarkedLineFormatted(x);
    WriteOneLine(x);
    assert Chunk(x) == [Sanitized(x) + "\n"];
    SuccessNoResidue([Write(x + "\n")], result);
  }

  /** The marker followed by `boom` is such a line. */
  lemma {:induction false} MarkedLineExample()
    ensures var x := ErrorStreamMarker + "boom";
            '\n' !in x && Sanitized(x) == x && ErrorStreamMarker <= Sanitized(x) && !IsHeading(Sanitized(x))
  {
    var x := ErrorStreamMarker + "boom";
    MarkedLinePlain(x);
    PlainSanitized(x);
    PlainNoHeading(x);
  }

  /** The condition on heading phrases is needed: a marked line that holds one is rewritten
      by the heading rule, no longer starts with the marker, and is passed on as an ordinary
      item. */
  lemma {:induction false} MarkedHeadingPassesThrough()
    ensures var x := ErrorStreamMarker + " Task Output x";
            Sanitized(x) == x && IsHeading(x) && Ordinary(FormatLine(x) + "\n")
  {
    var x := ErrorStreamMarker + " Task Output x";
    MarkedHeadingSanitized(x);
    assert OccursAt(x, " Task Output ", |ErrorStreamMarker|);
    assert x[0] == '_';
    HeadingRule(x);
    var r := FormatLine(x) + "\n";
    assert r[0] == '\n';
    assert |r| != |EndOfStreamMarker|;
  }

  lemma {:induction false} MarkedHeadingSanitized(x: string)
    requires x == ErrorStreamMarker + " Task Output x"
    ensures Sanitized(x) == x
  {
    assert x == "__CREW_ERROR_OCCURRED__ Task Output x";
    assert forall k :: 0 <= k < |x| ==> x[k] == ' ' || x[k] == '_' || 'A' <= x[k] <= 'Z' || 'a' <= x[k] <= 'z';
    PlainSanitized(x);
  }

  lemma {:induction false} MarkedLinePlain(line: string)
    requires line == ErrorStreamMarker + "boom"
    ensures line != [] && line[0] == '_'
    ensures Printable(line) && '\n' !in line
    ensures forall k :: 0 <= k < |line| ==> !IsSpace(line[k])
  {
    assert line == "__CREW_ERROR_OCCURRED__boom";
    assert forall k :: 0 <= k < |line| ==> line[k] == '_' || 'A' <= line[k] <= 'Z' || 'a' <= line[k] <= 'z';
  }
}
