/** `_run_crew_in_thread`: the producer side of the stream. It installs a `StreamCapture`
    as standard output, kicks the crew off, and puts on the queue what the crew printed,
    then either the final result or an error item, and always the end-of-stream marker.
    The crew itself is not modelled: one run of it is given as a `Kickoff` value, the
    calls it made on standard output and how `kickoff` ended. */
module Runner {
  import opened Sanitize
  import opened Formatter
  import opened Capture

  /** One call the crew made on the redirected standard output. */
  datatype StdoutCall = Write(text: string) | Flush

  /** How the thread's work ended: `kickoff` returned a result (already converted with
      `str`), `kickoff` raised an exception with the given message, or building the crew
      raised before the `try` block was entered. */
  datatype Outcome = Returned(result: string) | Raised(message: string) | NotBuilt

  /** One run of the crew, as the runner observes it. */
  datatype Kickoff = Kickoff(calls: seq<StdoutCall>, outcome: Outcome)

  const EndOfStreamMarker: string := "__END_OF_CREW_OUTPUT__"
  const ErrorStreamMarker: string := "__CREW_ERROR_OCCURRED__"

  /** The item put on the queue after a successful kickoff. */
  function FinalResultItem(result: string): (item: string)
    ensures IsTextLine(item)
    ensures "\n\n**FINAL RESULT:**\n```\n" <= item
  {
    "\n\n**FINAL RESULT:**\n```\n" + StripAnsiCodes(result) + "\n```\n"
  }

  /** The message an error item carries after the marker. */
  function ErrorMessage(message: string): string {
    "Error during CrewAI execution: " + message + "\n"
  }

  /** The item put on the queue when kickoff raised: the error marker, then the message. */
  function ErrorItem(message: string): (item: string)
    ensures ErrorStreamMarker <= item
    ensures item[|ErrorStreamMarker|..] == ErrorMessage(message)
    ensures IsTextLine(item)
  {
    ErrorStreamMarker + ErrorMessage(message)
  }

  /** What a stream capture queues, and what it keeps buffered, after a sequence of calls. */
  datatype Replayed = Replayed(items: seq<string>, residue: string)

  /** The effect of one call on a capture whose buffer is `buffer`: the items it queues and
      the buffer it leaves, as `StreamCapture.Write` and `StreamCapture.Flush` promise. */
  function Step(buffer: string, call: StdoutCall): Replayed {
    match call
    case Write(t) => Replayed(Chunks(CompleteLines(buffer + t)), Residue(buffer + t))
    case Flush => Replayed(Chunks([buffer]), "")
  }

  /** The calls replayed one after the other on a capture whose buffer is `buffer`. */
  function Replay(buffer: string, calls: seq<StdoutCall>): Replayed
    decreases |calls|
  {
    if calls == [] then Replayed([], buffer)
    else
      var first := Step(buffer, calls[0]);
      var rest := Replay(first.residue, calls[1..]);
      Replayed(first.items + rest.items, rest.residue)
  }

  /** Replaying from position `i` is one step followed by replaying from `i + 1`. */
  lemma {:induction false} ReplayStep(buffer: string, calls: seq<StdoutCall>, i: nat)
    requires i < |calls|
    ensures var first := Step(buffer, calls[i]);
            var rest := Replay(first.residue, calls[i + 1..]);
            Replay(buffer, calls[i..]) == Replayed(first.items + rest.items, rest.residue)
  {
    assert calls[i..][0] == calls[i];
    assert calls[i..][1..] == calls[i + 1..];
  }

  /** Everything the runner puts on the queue for one run. On success the capture is
      flushed before the final result; on failure it is not, so a last line without a
      line feed is lost; when the crew could not even be built nothing is put at all. */
  function RunnerItems(run: Kickoff): seq<string> {
    var progress := Replay("", run.calls);
    match run.outcome
    case Returned(r) => progress.items + Chunks([progress.residue]) + [FinalResultItem(r), EndOfStreamMarker]
    case Raised(m) => progress.items + [ErrorItem(m), EndOfStreamMarker]
    case NotBuilt => []
  }

  /** The crew's calls on standard output while `kickoff` runs, each handled by the
      capture installed in its place. */
  method ReplayCalls(capture: StreamCapture, calls: seq<StdoutCall>)
    modifies capture, capture.queue
    ensures capture.queue.items == old(capture.queue.items) + Replay(old(capture.buffer), calls).items
    ensures capture.buffer == Replay(old(capture.buffer), calls).residue
  {
    var i := 0;
    while i < |calls|
      invariant 0 <= i <= |calls|
      invariant capture.queue.items + Replay(capture.buffer, calls[i..]).items
                == old(capture.queue.items) + Replay(old(capture.buffer), calls).items
      invariant Replay(capture.buffer, calls[i..]).residue == Replay(old(capture.buffer), calls).residue
    {
      ghost var before := capture.buffer;
      ghost var queued := capture.queue.items;
      Perform(capture, calls[i]);
      ReplayAdvance(old(capture.queue.items), old(capture.buffer), calls, i, queued, before,
                    capture.queue.items, capture.buffer);
      i := i + 1;
    }
    LoopExit(old(capture.queue.items), capture.queue.items, old(capture.buffer), capture.buffer, calls);
  }

  /** One call on the redirected standard output, handled by the capture. */
  method Perform(capture: StreamCapture, call: StdoutCall)
    modifies capture, capture.queue
    ensures capture.queue.items == old(capture.queue.items) + Step(old(capture.buffer), call).items
    ensures capture.buffer == Step(old(capture.buffer), call).residue
  {
    match call {
      case Write(t) => capture.Write(t);
      case Flush => capture.Flush();
    }
  }

  /** The runner thread: installs a fresh stream capture, replays the crew's calls through
      it, then queues the outcome and the end marker. */
  method RunCrewInThread(run: Kickoff, queue: OutputQueue)
    modifies queue
    ensures queue.items == old(queue.items) + RunnerItems(run)
  {
    if run.outcome == NotBuilt {
      return;
    }
    var capture := new StreamCapture(queue);
    ReplayCalls(capture, run.calls);
    ghost var progress := Replay("", run.calls);
    ghost var tail: seq<string>;
    if run.outcome.Returned? {
      ReportResult(capture, run.outcome.result);
      tail := Chunks([progress.residue]) + [FinalResultItem(run.outcome.result), EndOfStreamMarker];
    } else {
      ReportError(queue, run.outcome.message);
      tail := [ErrorItem(run.outcome.message), EndOfStreamMarker];
    }
    AppendAssoc(old(queue.items), progress.items, tail);
  }

  /** The end of the `try` block once `kickoff` returned: the capture is flushed, then the
      final result and (in the `finally` block) the end marker are queued. */
  method ReportResult(capture: StreamCapture, result: string)
    modifies capture, capture.queue
    ensures capture.queue.items
            == old(capture.queue.items) + (Chunks([old(capture.buffer)]) + [FinalResultItem(result), EndOfStreamMarker])
    ensures capture.buffer == ""
  {
    capture.Flush();
    capture.queue.Put(FinalResultItem(result));
    capture.queue.Put(EndOfStreamMarker);
  }

  /** The `except` block and then the `finally` block: the error item, then the end marker. */
  method ReportError(queue: OutputQueue, message: string)
    modifies queue
    ensures queue.items == old(queue.items) + [ErrorItem(message), EndOfStreamMarker]
  {
    queue.Put(ErrorItem(message));
    queue.Put(EndOfStreamMarker);
  }

  /** One turn of the loop in `ReplayCalls` keeps its invariant. */
  lemma {:induction false} ReplayAdvance(q0: seq<string>, start: string, calls: seq<StdoutCall>, i: nat,
                      queued: seq<string>, before: string, items: seq<string>, buffer: string)
    requires i < |calls|
    requires queued + Replay(before, calls[i..]).items == q0 + Replay(start, calls).items
    requires Replay(before, calls[i..]).residue == Replay(start, calls).residue
    requires items == queued + Step(before, calls[i]).items && buffer == Step(before, calls[i]).residue
    ensures items + Replay(buffer, calls[i + 1..]).items == q0 + Replay(start, calls).items
    ensures Replay(buffer, calls[i + 1..]).residue == Replay(start, calls).residue
  {
    ReplayStep(before, calls, i);
    AppendAssoc(queued, Step(before, calls[i]).items, Replay(buffer, calls[i + 1..]).items);
  }

  /** When the loop in the runner stops, the queue holds the items of the whole replay
      and the capture's buffer is its residue. */
  lemma {:induction false} LoopExit(q0: seq<string>, items: seq<string>, start: string, buffer: string, calls: seq<StdoutCall>)
    requires items + Replay(buffer, calls[|calls|..]).items == q0 + Replay(start, calls).items
    requires Replay(buffer, calls[|calls|..]).residue == Replay(start, calls).residue
    ensures items == q0 + Replay(start, calls).items
    ensures buffer == Replay(start, calls).residue
  {
    assert calls[|calls|..] == [];
    assert items + [] == items;
  }

  /** Every item a capture queues is a non-empty line ending in a line feed. */
  lemma {:induction false} ReplayShape(buffer: string, calls: seq<StdoutCall>)
    ensures forall j :: 0 <= j < |Replay(buffer, calls).items| ==> IsTextLine(Replay(buffer, calls).items[j])
    decreases |calls|
  {
    if calls != [] {
      var first := Step(buffer, calls[0]);
      var rest := Replay(first.residue, calls[1..]);
      ReplayShape(first.residue, calls[1..]);
      match calls[0] {
        case Write(t) => ChunksShape(CompleteLines(buffer + t));
        case Flush => ChunksShape([buffer]);
      }
      TextLinesConcat(first.items, rest.items);
    }
  }

  lemma {:induction false} TextLinesConcat(a: seq<string>, b: seq<string>)
    requires forall j :: 0 <= j < |a| ==> IsTextLine(a[j])
    requires forall j :: 0 <= j < |b| ==> IsTextLine(b[j])
    ensures forall j :: 0 <= j < |a + b| ==> IsTextLine((a + b)[j])
  {
    forall j | 0 <= j < |a + b| ensures IsTextLine((a + b)[j]) {
      if j >= |a| {
        assert (a + b)[j] == b[j - |a|];
      }
    }
  }

  /** The end marker is the last item put, and it is put exactly once: no line of output,
      no final result and no error item can be mistaken for it. The item before it is the
      final result on success and the marked error item on failure. A crew that could not
      be built puts nothing at all. */
  lemma {:induction false} RunnerItemsShape(run: Kickoff)
    ensures run.outcome == NotBuilt <==> RunnerItems(run) == []
    ensures var items := RunnerItems(run);
            run.outcome != NotBuilt ==>
              && |items| >= 2
              && items[|items| - 1] == EndOfStreamMarker
              && (forall j :: 0 <= j < |items| - 1 ==> IsTextLine(items[j]) && items[j] != EndOfStreamMarker)
    ensures var items := RunnerItems(run);
            run.outcome.Returned? ==> items[|items| - 2] == FinalResultItem(run.outcome.result)
    ensures var items := RunnerItems(run);
            run.outcome.Raised? ==> items[|items| - 2] == ErrorItem(run.outcome.message)
  {
    var progress := Replay("", run.calls);
    ReplayShape("", run.calls);
    match run.outcome {
      case Returned(r) =>
        ChunksShape([progress.residue]);
        TextLinesConcat(progress.items, Chunks([progress.residue]));
        EndMarkedShape(progress.items + Chunks([progress.residue]), FinalResultItem(r));
      case Raised(m) =>
        EndMarkedShape(progress.items, ErrorItem(m));
      case NotBuilt =>
    }
  }

  /** Text lines, one more text line, then the end marker: the marker is last and only last. */
  lemma {:induction false} EndMarkedShape(body: seq<string>, last: string)
    requires forall j :: 0 <= j < |body| ==> IsTextLine(body[j])
    requires IsTextLine(last)
    ensures var items := body + [last, EndOfStreamMarker];
            && |items| >= 2
            && items[|items| - 1] == EndOfStreamMarker
            && items[|items| - 2] == last
            && (forall j :: 0 <= j < |items| - 1 ==> IsTextLine(items[j]) && items[j] != EndOfStreamMarker)
  {
    var items := body + [last, EndOfStreamMarker];
    assert EndOfStreamMarker[|EndOfStreamMarker| - 1] != '\n';
    forall j | 0 <= j < |items| - 1 ensures IsTextLine(items[j]) {
      if j < |body| {
        assert items[j] == body[j];
      }
    }
  }

  /** Only `Write` calls. */
  predicate OnlyWrites(calls: seq<StdoutCall>) {
    forall j :: 0 <= j < |calls| ==> calls[j].Write?
  }

  /** Everything written by a sequence of `Write` calls, in order. */
  function Written(calls: seq<StdoutCall>): string
    requires OnlyWrites(calls)
  {
    if calls == [] then "" else calls[0].text + Written(calls[1..])
  }

  /** How the crew cuts its output into `write` calls does not matter: replaying writes
      queues the formatted complete lines of everything written, and keeps the rest. */
  lemma {:induction false} ReplayWrites(buffer: string, calls: seq<StdoutCall>)
    requires OnlyWrites(calls) && '\n' !in buffer
    ensures Replay(buffer, calls)
            == Replayed(Chunks(CompleteLines(buffer + Written(calls))), Residue(buffer + Written(calls)))
    decreases |calls|
  {
    if calls == [] {
      assert buffer + "" == buffer;
      ResidueNoNewline(buffer);
    } else {
      var t := calls[0].text;
      var rest := Written(calls[1..]);
      assert Written(calls) == t + rest;
      ReplayWriteFirst(buffer, t, calls);
      SplitNoNewline(buffer + t);
      ReplayWrites(Residue(buffer + t), calls[1..]);
      WritesCompose(buffer, t, rest);
      AppendAssoc(buffer, t, rest);
    }
  }

  /** Replaying calls that start with a `Write`: the lines it completes, then the rest. */
  lemma {:induction false} ReplayWriteFirst(buffer: string, t: string, calls: seq<StdoutCall>)
    requires calls != [] && calls[0] == Write(t)
    ensures var rest := Replay(Residue(buffer + t), calls[1..]);
            Replay(buffer, calls) == Replayed(Chunks(CompleteLines(buffer + t)) + rest.items, rest.residue)
  {
  }

  /** Python's `text.split('\n')`: the complete lines followed by the residue. */
  function SplitLines(text: string): (lines: seq<string>)
    ensures |lines| >= 1 && lines[|lines| - 1] == Residue(text)
    ensures forall j :: 0 <= j < |lines| ==> '\n' !in lines[j]
    ensures Joined(lines[..|lines| - 1]) + lines[|lines| - 1] == text
  {
    SplitJoin(text);
    SplitNoNewline(text);
    var lines := CompleteLines(text) + [Residue(text)];
    assert lines[..|lines| - 1] == CompleteLines(text);
    lines
  }

  /** A successful run whose crew only wrote: the stream is the formatted lines of what it
      wrote, the last one whether or not it ended with a line feed, then the final result
      and the end marker. */
  lemma {:induction false} SuccessAfterWrites(calls: seq<StdoutCall>, result: string)
    requires OnlyWrites(calls)
    ensures RunnerItems(Kickoff(calls, Returned(result)))
            == Chunks(SplitLines(Written(calls))) + [FinalResultItem(result), EndOfStreamMarker]
  {
    ReplayWrites("", calls);
    assert "" + Written(calls) == Written(calls);
    ChunksAppend(CompleteLines(Written(calls)), [Residue(Written(calls))]);
  }

  /** A run whose crew only wrote and whose kickoff raised: the stream is the formatted
      complete lines of what it wrote, then the error item and the end marker. The text
      after the last line feed is still buffered when kickoff raises, and it is never
      queued because the except path does not flush. */
  lemma {:induction false} FailureAfterWrites(calls: seq<StdoutCall>, message: string)
    requires OnlyWrites(calls)
    ensures RunnerItems(Kickoff(calls, Raised(message)))
            == Chunks(CompleteLines(Written(calls))) + [ErrorItem(message), EndOfStreamMarker]
  {
    ReplayWrites("", calls);
    assert "" + Written(calls) == Written(calls);
  }

  /** When kickoff raises, the capture is not flushed: a single write without a line feed
      never reaches the queue. */
  lemma {:induction false} UnterminatedLineOnFailure(text: string, message: string)
    requires '\n' !in text
    ensures RunnerItems(Kickoff([Write(text)], Raised(message))) == [ErrorItem(message), EndOfStreamMarker]
  {
    ReplayOneWrite(text);
  }

  /** When kickoff returns, the same output is flushed and queued before the result. */
  lemma {:induction false} UnterminatedLineOnSuccess(text: string, result: string)
    requires '\n' !in text
    ensures RunnerItems(Kickoff([Write(text)], Returned(result)))
            == Chunk(text) + [FinalResultItem(result), EndOfStreamMarker]
  {
    ReplayOneWrite(text);
    ChunksSingle(text);
    var tail := [FinalResultItem(result), EndOfStreamMarker];
    assert [] + Chunks([text]) + tail == Chunk(text) + tail;
  }

  lemma {:induction false} ReplayOneWrite(text: string)
    requires '\n' !in text
    ensures Replay("", [Write(text)]) == Replayed([], text)
  {
    assert "" + text == text;
    ResidueNoNewline(text);
    assert Chunks([]) == [];
  }

  /** A second `flush` in a row queues nothing and changes nothing. */
  lemma {:induction false} FlushTwice(buffer: string, calls: seq<StdoutCall>)
    ensures Replay(buffer, [Flush, Flush] + calls) == Replay(buffer, [Flush] + calls)
  {
    assert [Flush, Flush] + calls == [Flush] + ([Flush] + calls);
    ReplayCons(buffer, Flush, [Flush] + calls);
    ReplayCons(buffer, Flush, calls);
    ReplayCons("", Flush, calls);
    FormatEmptyLine();
    ChunksSingle("");
    assert Chunks([""]) + Replay("", calls).items == Replay("", calls).items;
  }

  lemma {:induction false} ReplayCons(buffer: string, call: StdoutCall, calls: seq<StdoutCall>)
    ensures var first := Step(buffer, call);
            var rest := Replay(first.residue, calls);
            Replay(buffer, [call] + calls) == Replayed(first.items + rest.items, rest.residue)
  {
    assert ([call] + calls)[0] == call;
    assert ([call] + calls)[1..] == calls;
  }

  /** A single write of one whole line queues the formatted line and leaves nothing buffered. */
  lemma {:induction false} WriteOneLine(line: string)
    requires '\n' !in line
    ensures Replay("", [Write(line + "\n")]) == Replayed(Chunk(line), "")
  {
    assert "" + (line + "\n") == line + "\n";
    OneLine(line);
    ChunksSingle(line);
    assert Replay("", [Write(line + "\n")]) == Replayed(Chunks([line]) + Replay("", []).items, Replay("", []).residue);
    assert Chunk(line) + [] == Chunk(line);
  }

  /** When the output ends with a line feed, flushing on success queues nothing more. */
  lemma {:induction false} SuccessNoResidue(calls: seq<StdoutCall>, result: string)
    requires Replay("", calls).residue == ""
    ensures RunnerItems(Kickoff(calls, Returned(result)))
            == Replay("", calls).items + [FinalResultItem(result), EndOfStreamMarker]
  {
    FormatEmptyLine();
    ChunksSingle("");
    assert Replay("", calls).items + [] == Replay("", calls).items;
  }
}
