# Market-research crew stream, modelled in Dafny

The website builder API runs a "market research" crew of language-model agents and
streams its verbose console output to the HTTP client as Markdown while it works.
`website_builder_api/services/crew_runner.py` does this with two threads joined by a
FIFO queue:

* the **runner thread** (`_run_crew_in_thread`) builds the crew and replaces its standard
  output with a `StreamCapture`. Then it calls `kickoff`. On success it flushes the
  capture and queues a `FINAL RESULT` block. On an exception it queues an item that
  starts with the error marker `__CREW_ERROR_OCCURRED__`. In both cases it queues the
  end marker `__END_OF_CREW_OUTPUT__` last;
* the **stream capture** (`StreamCapture`) buffers whatever is written to it. It splits
  the buffer at line feeds, formats each complete line, and queues every non-empty result
  with a line feed. `flush` does the same for the text left after the last line feed;
* the **formatter** (`format_crewai_output_to_markdown`) first deletes ANSI colour
  sequences and control characters (`strip_ansi_codes`) and strips whitespace. It then
  rewrites the line by the first rule that matches:
  * a `---`/`===` separator;
  * a crew or task heading;
  * one of eight labels such as `Thought:` or `Action Input:`;
  * otherwise the line is kept as it is;
* the **consumer** (the loop in `run_market_research_crew`) is a generator. It yields
  queue items until it sees the end marker or an error item (it yields the error
  message without its marker) or a timeout at which the runner thread is dead.

The Dafny project has one module per part:

* `PyStr` (`pystr.dfy`): the Python string operations used: `isspace`, `strip`,
  `replace(c, '')` and `in`. `startswith` is Dafny's prefix relation `<=`.
* `Sanitize` (`sanitize.dfy`): `strip_ansi_codes`. Its two regular-expression
  substitutions are written as two recursive scans. Lemmas prove that these scans match
  what the patterns match.
* `Formatter` (`formatter.dfy`): the formatter, as a function, with one lemma per rule.
* `Capture` (`capture.dfy`):
  * the queue (`OutputQueue`, whose `items` field the producer appends to);
  * the `StreamCapture` class, with its `buffer` field and `Write`/`Flush` methods.
    The methods are proved against the line-splitting functions `CompleteLines` and
    `Residue`.
* `Runner` (`runner.dfy`): `_run_crew_in_thread` as a method.
  * Building and running the crew is out of view. A `Kickoff` value stands in for it:
    the sequence of `write`/`flush` calls the crew makes on standard output, and how
    `kickoff` ended (a result, an exception, or a crew that could not be built).
  * The function `RunnerItems` is the specification of everything the thread queues.
* `Consumer` (`consumer.dfy`): the generator's dispatch loop, as a method. It runs over
  the sequence of `get(timeout=1)` outcomes the generator observes, and is proved
  against the function `Consumed`. The predicate `Observes` ties those outcomes to the
  runner's items. With it, the lemmas cover:
  * the consumer sees a prefix of the runner's items, in order;
  * timeouts at which the runner is alive do not change what is yielded;
  * the first timeout at which the runner is dead ends the stream there, even when
    items are still to come;
  * what a client receives on success and on failure.

Four behaviours of the code are worth knowing; the model states each of them:

* On failure the capture is **not** flushed. Text still buffered (not yet flushed) when
  `kickoff` raises is never queued (`Runner.FailureAfterWrites`,
  `Runner.UnterminatedLineOnFailure`). On success it is flushed and queued
  (`Runner.SuccessAfterWrites`, `Runner.UnterminatedLineOnSuccess`). Text the crew
  flushed itself before raising is queued like any other.
* On failure the runner queues both the error item and the end marker. The consumer
  stops at the error item and never reads the end marker (`Consumer.FailureStream`).
* The error marker travels in band with the crew's own output. Take a printed line
  whose sanitised form starts with `__CREW_ERROR_OCCURRED__` and holds no heading phrase.
  It is queued as that sanitised form, and the consumer takes it for the runner's error
  item. The stream of a successful run then ends there without the final result
  (`Consumer.MarkedLineEndsStream`, proved for a run whose only output is that line).
  A marked line that holds a heading phrase is rewritten by the heading rule and passes
  through (`Consumer.MarkedHeadingPassesThrough`). The model keeps this behaviour as
  written. The lemmas about successful and failed streams assume that no line of output
  carries the marker (`Consumer.NoMarkedLine`).
* The liveness test races with the runner. `get` can time out on an empty queue just
  before the runner puts its last items and exits. `is_alive()` then reports the thread
  dead, and the consumer yields the termination message and stops. The final result of a
  successful run is then lost (`Consumer.RaceLosesResult`). The model admits this
  schedule: `Consumer.Observes` puts no constraint on timeouts, so it describes a superset
  of the schedules that can happen.

## Model

| member | source | states |
|---|---|---|
| PyStr.IsSpace | website_builder_api/services/crew_runner.py:55 | Python `str.isspace()` on one character: Unicode White_Space plus U+001C..U+001F (definition; used by `strip`) |
| PyStr.Strip | website_builder_api/services/crew_runner.py:55 | `s.strip()`: the slice between the leading and the trailing whitespace runs (definition; its properties are the `Strip…` and `…SpacesRun` lemmas) |
| PyStr.RemoveAll | website_builder_api/services/crew_runner.py:61 | `s.replace(c, '')`: every occurrence of `c` deleted, the rest kept in order (definition; see `PyStr.RemoveAllChars`) |
| PyStr.Contains | website_builder_api/services/crew_runner.py:63 | Python `p in s`: `p` occurs as a contiguous slice of `s` (definition; see `PyStr.ContainsChars`) |
| PyStr.LeadingSpacesRun | website_builder_api/services/crew_runner.py:55 | the leading run `strip` removes is all whitespace, and the character after it is not whitespace |
| PyStr.TrailingSpacesRun | website_builder_api/services/crew_runner.py:55 | the trailing run `strip` removes is all whitespace, and the character before it is not whitespace |
| PyStr.StripEnds | website_builder_api/services/crew_runner.py:55 | a stripped string neither starts nor ends with whitespace |
| PyStr.StripEmptyIff | website_builder_api/services/crew_runner.py:55-58 | `strip()` gives the empty string exactly when every character is whitespace (both directions) |
| PyStr.StripIdempotent | website_builder_api/services/crew_runner.py:55 | stripping twice equals stripping once |
| PyStr.RemoveAllChars | website_builder_api/services/crew_runner.py:61 | `replace(c, '')` keeps exactly the characters other than `c` (both directions) |
| PyStr.RemoveAllAbsent | website_builder_api/services/crew_runner.py:61 | `replace(c, '')` leaves a string without `c` unchanged |
| PyStr.ContainsChars | website_builder_api/services/crew_runner.py:63 | when `p in s` holds, every character of `p` occurs in `s` |
| Sanitize.StripAnsiCodes | website_builder_api/services/crew_runner.py:32-44 | `strip_ansi_codes`: the escape-sequence substitution, then the control-character substitution (definition; see the `StripAnsiCodes…` lemmas) |
| Sanitize.SgrLength | website_builder_api/services/crew_runner.py:41 | the length of the `\x1b\[[0-9;]*m` match at the start of the text, 0 when there is none; never more than the text (soundness and completeness in `SgrLengthSound`/`SgrLengthComplete`) |
| Sanitize.ParamRunMaximal | website_builder_api/services/crew_runner.py:41 | the `[0-9;]*` run is made of digits and semicolons and is maximal |
| Sanitize.SgrLengthSound | website_builder_api/services/crew_runner.py:41 | every sequence the scan removes is ESC, `[`, digits or semicolons, then `m` |
| Sanitize.SgrLengthComplete | website_builder_api/services/crew_runner.py:41 | every text that begins with a match of `\x1b\[[0-9;]*m` has that match found and removed in full |
| Sanitize.StripSgr | website_builder_api/services/crew_runner.py:41 | the first substitution never lengthens the text |
| Sanitize.StripControls | website_builder_api/services/crew_runner.py:43 | the second substitution never lengthens the text |
| Sanitize.StripControlsChars | website_builder_api/services/crew_runner.py:43 | the second substitution keeps exactly the characters outside `[\x00-\x1F\x7F-\x9F]` (both directions) |
| Sanitize.StripSgrNoEsc | website_builder_api/services/crew_runner.py:41 | text without an escape character passes the first substitution unchanged |
| Sanitize.StripControlsPrintable | website_builder_api/services/crew_runner.py:43 | text without control characters passes the second substitution unchanged |
| Sanitize.StripAnsiCodesPrintable | website_builder_api/services/crew_runner.py:32-44 | no control character survives `strip_ansi_codes`, and the result is no longer than the input |
| Sanitize.StripAnsiCodesFixed | website_builder_api/services/crew_runner.py:32-44 | `strip_ansi_codes` leaves text without control characters unchanged |
| Sanitize.StripAnsiCodesIdempotent | website_builder_api/services/crew_runner.py:32-44 | applying `strip_ansi_codes` twice equals applying it once |
| Formatter.FormatLine | website_builder_api/services/crew_runner.py:47-85 | `format_crewai_output_to_markdown`: sanitise and strip, then apply the rules (definition; its rules are `SeparatorRule`, `HeadingRule`, `LabelRules`, `UnlabelledLine`) |
| Formatter.ApplyRules | website_builder_api/services/crew_runner.py:57-85 | the rule chain on a sanitised line: empty, separator, heading, then the label rules (definition) |
| Formatter.LabelLine | website_builder_api/services/crew_runner.py:66-85 | the first label the line starts with decides the output, else the line itself (definition; see `LabelRules`/`UnlabelledLine`) |
| Formatter.Labelled | website_builder_api/services/crew_runner.py:66-83 | bold label, a space, the stripped rest of the line, in backticks for the code labels; requires the line to start with the label, as each `startswith` guard ensures (definition) |
| Formatter.FirstLabel | website_builder_api/services/crew_runner.py:66-83 | the label search returns a position in the label list whose label starts the line, or the end of the list |
| Formatter.FirstLabelSkips | website_builder_api/services/crew_runner.py:66-83 | the search passes over only labels that do not start the line, so the first matching label wins |
| Formatter.SeparatorRule | website_builder_api/services/crew_runner.py:60-62 | a sanitised line opening with `---` or `===` becomes `\n---\n**content**`, and the content holds no `-` or `=` |
| Formatter.HeadingRule | website_builder_api/services/crew_runner.py:63-64 | a non-separator line containing ` Crew Execution Started ` or ` Task Output ` becomes `\n**line**` |
| Formatter.LabelRules | website_builder_api/services/crew_runner.py:66-83 | on a line that is neither separator nor heading, the first label the line starts with decides the result: bold label, space, stripped remainder, in backticks for `Tool Executing:` and `Action Input:` |
| Formatter.UnlabelledLine | website_builder_api/services/crew_runner.py:85 | a line that no rule matches is returned as it is |
| Formatter.NoLabelShadowed | website_builder_api/services/crew_runner.py:66-83 | no label is a prefix of a later one, so each of the eight label rules can fire |
| Formatter.LabelInitials | website_builder_api/services/crew_runner.py:66-83 | every label is non-empty and begins with T, F, O or A |
| Formatter.PlainSanitized | website_builder_api/services/crew_runner.py:55 | a printable line without surrounding whitespace is its own sanitised form |
| Formatter.PlainNoHeading | website_builder_api/services/crew_runner.py:63 | a line without whitespace contains neither heading phrase |
| Formatter.PlainNoLabel | website_builder_api/services/crew_runner.py:66-85 | a line whose first character is not T, F, O or A matches no label and is kept |
| Formatter.PlainLineUnchanged | website_builder_api/services/crew_runner.py:47-85 | a printable line without whitespace whose first character opens no rule is formatted to itself |
| Formatter.FormatEmptyIff | website_builder_api/services/crew_runner.py:55-58 | the formatted line is empty exactly when the sanitised line is, which holds exactly when the text left after removing control codes is all whitespace |
| Formatter.FormatEmptyLine | website_builder_api/services/crew_runner.py:57-58 | the empty line formats to the empty string |
| Formatter.LabelLineNonEmpty | website_builder_api/services/crew_runner.py:66-85 | the label rules never turn a non-empty line into the empty string |
| Formatter.SanitizedClean | website_builder_api/services/crew_runner.py:55 | the sanitised line is printable, has no surrounding whitespace, and sanitising it again changes nothing |
| Formatter.RemoveAllPrintable | website_builder_api/services/crew_runner.py:61 | removing a character from printable text keeps it printable |
| Formatter.StripPrintable | website_builder_api/services/crew_runner.py:55 | stripping printable text keeps it printable |
| Formatter.LabelsPrintable | website_builder_api/services/crew_runner.py:66-83 | no label holds a control character |
| Formatter.LabelledPrintable | website_builder_api/services/crew_runner.py:66-83 | a label rule applied to printable text yields printable text |
| Formatter.LabelLinePrintable | website_builder_api/services/crew_runner.py:66-85 | the label rules add no control character, not even a line feed |
| Formatter.SeparatorClean | website_builder_api/services/crew_runner.py:60-62 | the separator rule adds no control character other than line feeds |
| Formatter.HeadingClean | website_builder_api/services/crew_runner.py:63-64 | the heading rule adds no control character other than a line feed |
| Formatter.FormatLineClean | website_builder_api/services/crew_runner.py:47-85 | a formatted line holds no control character other than line feeds, and holds none at all unless the separator or heading rule fired |
| Capture.OutputQueue.constructor | website_builder_api/services/crew_runner.py:176 | a new queue is empty |
| Capture.OutputQueue.Put | website_builder_api/services/crew_runner.py:108 | `put` appends the item at the tail of the FIFO queue |
| Capture.CompleteLines | website_builder_api/services/crew_runner.py:103-105 | the line-feed-terminated lines of the buffer, without their line feeds, in order (definition; see `SplitJoin`, `CompleteLinesCount`) |
| Capture.Residue | website_builder_api/services/crew_runner.py:103-105 | the text after the last line feed, which `write` leaves buffered (definition; see `SplitJoin`, `SplitNoNewline`) |
| Capture.Chunks | website_builder_api/services/crew_runner.py:106-108 | the queue items for a run of lines: each formatted line plus a line feed, empty results dropped (definition; see `ChunksShape`, `ChunksAppend`) |
| Capture.FirstNewline | website_builder_api/services/crew_runner.py:104-105 | the split position lies within the buffer |
| Capture.FirstNewlineSpec | website_builder_api/services/crew_runner.py:104-105 | `split('\n', 1)` cuts at the first line feed: none before it, one at it when the buffer has one |
| Capture.FirstNewlineFound | website_builder_api/services/crew_runner.py:104 | when `'\n' in buffer` holds, the first line feed lies inside the buffer |
| Capture.FirstNewlineAbsent | website_builder_api/services/crew_runner.py:104 | without a line feed, the split position is the end of the buffer |
| Capture.FirstNewlineAfter | website_builder_api/services/crew_runner.py:104-105 | a prefix without line feeds shifts the first line feed by its length |
| Capture.FirstNewlineAppend | website_builder_api/services/crew_runner.py:103-105 | appending text does not move a line feed already in the buffer |
| Capture.SplitFirst | website_builder_api/services/crew_runner.py:105 | one split peels off the first complete line and leaves the rest to be split alone |
| Capture.SplitFirstText | website_builder_api/services/crew_runner.py:105 | the buffer is its first line, a line feed, and the new buffer |
| Capture.SplitFirstAppend | website_builder_api/services/crew_runner.py:103-105 | splitting `a + t` at a line feed in `a` leaves the rest of `a` followed by `t` |
| Capture.ResidueNoNewline | website_builder_api/services/crew_runner.py:104 | a buffer without a line feed has no complete line and stays as it is |
| Capture.OneLine | website_builder_api/services/crew_runner.py:104-105 | one line and its line feed split into that line and an empty buffer |
| Capture.SplitJoin | website_builder_api/services/crew_runner.py:103-105 | the complete lines, each followed by its line feed, then the residue, give back the text (round trip) |
| Capture.SplitNoNewline | website_builder_api/services/crew_runner.py:104-105 | no complete line and no residue holds a line feed |
| Capture.FirstLineCount | website_builder_api/services/crew_runner.py:105 | the first line holds no line feed |
| Capture.NewlineCountAt | website_builder_api/services/crew_runner.py:105 | cutting at a line feed divides the line-feed count around it |
| Capture.CompleteLinesCount | website_builder_api/services/crew_runner.py:104-105 | the number of complete lines equals the number of line feeds |
| Capture.ResidueAppend | website_builder_api/services/crew_runner.py:103-105 | what stays buffered after appending `t` depends only on the earlier residue and `t` |
| Capture.SplitAppend | website_builder_api/services/crew_runner.py:103-105 | appending text only adds complete lines after those already complete |
| Capture.ChunksAppend | website_builder_api/services/crew_runner.py:106-108 | the items for two runs of lines are the items of each, in order |
| Capture.ChunkShape | website_builder_api/services/crew_runner.py:106-108 | a line yields at most one item, a non-empty line ending in a line feed |
| Capture.ChunksShape | website_builder_api/services/crew_runner.py:104-108 | there are at most as many items as lines, each a non-empty line ending in a line feed |
| Capture.ChunksSnoc | website_builder_api/services/crew_runner.py:106-108 | handling one more line appends its item after the earlier ones |
| Capture.WritesCompose | website_builder_api/services/crew_runner.py:98-108 | writing `s1` then `s2` buffers and queues the same as writing `s1 + s2` once |
| Capture.WriteDone | website_builder_api/services/crew_runner.py:104 | when the `write` loop stops, every complete line has been handled and the buffer is the residue |
| Capture.StreamCapture.constructor | website_builder_api/services/crew_runner.py:93-96 | a new capture is bound to the given queue and has an empty buffer |
| Capture.StreamCapture.Write | website_builder_api/services/crew_runner.py:98-108 | after `write(s)` the buffer is the text after the last line feed of old buffer + `s` and holds no line feed; the queue gained the formatted, non-empty complete lines, in order, each with a line feed |
| Capture.StreamCapture.TakeLine | website_builder_api/services/crew_runner.py:105-108 | one turn of the loop: the line before the first line feed is taken out, the buffer keeps what follows it, and the line's item, if any, is queued |
| Capture.StreamCapture.Emit | website_builder_api/services/crew_runner.py:106-108 | a line is queued as its formatted text plus a line feed, or not at all when that text is empty |
| Capture.StreamCapture.Flush | website_builder_api/services/crew_runner.py:110-117 | `flush` queues the formatted residue, if there is one and it is non-empty, and empties the buffer; an empty buffer queues nothing |
| Runner.Step | website_builder_api/services/crew_runner.py:98-117 | the effect of one `write` or `flush` on a capture, as the contracts of `Write` and `Flush` give it (definition) |
| Runner.Replay | website_builder_api/services/crew_runner.py:98-117 | the crew's stdout calls replayed one after another on a capture (definition; see `ReplayShape`, `ReplayWrites`, `FlushTwice`) |
| Runner.RunnerItems | website_builder_api/services/crew_runner.py:120-168 | everything the thread queues for one run: replayed output, then flushed residue, final result and end marker on success, error item and end marker on failure, nothing when the crew is not built (definition; see `RunnerItemsShape`) |
| Runner.FinalResultItem | website_builder_api/services/crew_runner.py:155-156 | the final result item opens with the `FINAL RESULT` header and is a non-empty line ending in a line feed |
| Runner.ErrorItem | website_builder_api/services/crew_runner.py:159-160 | the error item is the error marker followed by the error message, and ends in a line feed |
| Runner.Perform | website_builder_api/services/crew_runner.py:144-148 | one `write` or `flush` on the redirected stdout queues and buffers what the capture's specification says |
| Runner.ReplayCalls | website_builder_api/services/crew_runner.py:144-148 | while `kickoff` runs, the capture queues the items of the replayed calls and keeps their residue |
| Runner.ReportResult | website_builder_api/services/crew_runner.py:151-168 | on success the capture is flushed, leaving its buffer empty, then the final result and the end marker are queued, in that order |
| Runner.ReportError | website_builder_api/services/crew_runner.py:158-168 | on an exception the error item and then the end marker are queued, without a flush |
| Runner.RunCrewInThread | website_builder_api/services/crew_runner.py:120-168 | the thread appends exactly `RunnerItems(run)` to the queue: nothing when the crew is not built; otherwise the replayed output, then the flushed residue and the final result, or the error item, then the end marker |
| Runner.ReplayShape | website_builder_api/services/crew_runner.py:98-117 | every item a capture queues is a non-empty line ending in a line feed |
| Runner.EndMarkedShape | website_builder_api/services/crew_runner.py:164-168 | text lines, then one more text line, then the end marker: the marker is last and appears nowhere else |
| Runner.RunnerItemsShape | website_builder_api/services/crew_runner.py:120-168 | the end marker is queued exactly once and last, unless the crew was not built, in which case nothing is queued (both directions); before it comes the final result on success and the error item on failure |
| Runner.ReplayWrites | website_builder_api/services/crew_runner.py:98-108 | how the crew cuts its output into `write` calls does not matter: only the concatenated text decides what is queued and buffered |
| Runner.SplitLines | website_builder_api/services/crew_runner.py:103-115 | Python's `text.split('\n')`: no piece holds a line feed, the pieces joined with line feeds give back the text, and the last piece is the residue that `flush` handles |
| Runner.SuccessAfterWrites | website_builder_api/services/crew_runner.py:146-168 | a successful run that only writes queues the formatted lines of all that was written, including a last line without a line feed, then the final result and the end marker |
| Runner.ReplayOneWrite | website_builder_api/services/crew_runner.py:98-108 | writing text without a line feed queues nothing and buffers the text |
| Runner.WriteOneLine | website_builder_api/services/crew_runner.py:98-108 | writing one whole line queues its item and leaves the buffer empty |
| Runner.FlushTwice | website_builder_api/services/crew_runner.py:110-117 | a second `flush` in a row queues nothing and changes nothing |
| Runner.FailureAfterWrites | website_builder_api/services/crew_runner.py:146-168 | a failed run that only writes queues the formatted complete lines of all that was written, then the error item and the end marker; the text after the last line feed, still buffered when `kickoff` raises, is never queued |
| Runner.UnterminatedLineOnFailure | website_builder_api/services/crew_runner.py:158-168 | when `kickoff` raises after a single write without a line feed, that text is never queued: only the error item and the end marker are |
| Runner.UnterminatedLineOnSuccess | website_builder_api/services/crew_runner.py:151-156 | when `kickoff` returns, output after the last line feed is flushed and queued before the final result |
| Runner.SuccessNoResidue | website_builder_api/services/crew_runner.py:151-156 | when the output ends with a line feed, the flush before the final result queues nothing |
| Consumer.Consumed | website_builder_api/services/crew_runner.py:189-208 | the generator driven by the poll outcomes: ordinary items yielded, error item yields its message and stops, end marker stops, dead timeout yields the termination message and stops, live timeout waits (definition; `Consume` is proved against it) |
| Consumer.Observes | website_builder_api/services/crew_runner.py:189-208 | the poll sequences a consumer can see while the runner puts `items` on the FIFO queue: items in the order put, timeouts anywhere (definition) |
| Consumer.Consume | website_builder_api/services/crew_runner.py:189-208 | the loop yields what `Consumed` specifies: each ordinary item; the error message without its marker, then stop; stop at the end marker; the termination message, then stop, when a timeout finds the thread dead; keep waiting when it is alive |
| Consumer.Delivered | website_builder_api/services/crew_runner.py:192 | when every item is already queued, the `k`-th `get` returns the `k`-th item |
| Consumer.ReceivedPrefix | website_builder_api/services/crew_runner.py:192 | the consumer takes off the FIFO queue a prefix of what the runner put on it, in order |
| Consumer.TimingIrrelevant | website_builder_api/services/crew_runner.py:189-208 | with no timeout finding the runner dead, the consumer yields the same as when every item it took had been waiting from the start; otherwise it yields that for the items taken before the first dead timeout and then stops there, with the termination message unless it had already stopped |
| Consumer.Live | website_builder_api/services/crew_runner.py:201-206 | the polls before the first dead timeout: a prefix of the polls holding no dead timeout, followed in the polls by a dead timeout unless it is all of them, which happens exactly when no timeout finds the runner dead |
| Consumer.DeadAfter | website_builder_api/services/crew_runner.py:203-206 | how the generator ends at a dead timeout: the termination message added unless it had already stopped (definition; that a dead timeout ends the stream is `Consumer.TimingIrrelevant`) |
| Consumer.StreamTiming | website_builder_api/services/crew_runner.py:189-208 | for any schedule of a run, the consumer reads a prefix of the runner's items; until a timeout finds the runner dead it yields the same as when those items were waiting from the start, and at that timeout it stops |
| Consumer.RaceLosesResult | website_builder_api/services/crew_runner.py:192-206 | a timeout on an empty queue followed by a dead runner is a schedule the runner of a successful run can produce, and on it the client gets only the termination message, never the final result |
| Consumer.DeadRunnerReported | website_builder_api/services/crew_runner.py:201-206 | when the runner queued nothing, the generator finishes exactly when a timeout finds the thread dead, and then yields only the termination message |
| Consumer.OrdinaryPassThrough | website_builder_api/services/crew_runner.py:193-200 | items that are neither the end marker nor marked as errors are yielded unchanged and in order, ahead of what follows |
| Consumer.TextLinesOrdinary | website_builder_api/services/crew_runner.py:193-200 | queued lines of output that do not start with the error marker are never mistaken for either marker |
| Consumer.SuccessStream | website_builder_api/services/crew_runner.py:189-200 | after a successful run the client receives every formatted line, then the final result, and the generator finishes |
| Consumer.FailureStream | website_builder_api/services/crew_runner.py:193-198 | after a failed run the client receives the lines queued before the exception, then the error message without its marker, and the generator finishes |
| Consumer.ErrorTail | website_builder_api/services/crew_runner.py:195-198 | the error item makes the consumer yield its message without the marker and stop before the end marker |
| Consumer.MarkedItemStops | website_builder_api/services/crew_runner.py:195-198 | any item starting with the error marker stops the consumer, whatever follows it |
| Consumer.MarkedLinePlain | website_builder_api/services/crew_runner.py:29 | a line made of the error marker and `boom` is printable, has no whitespace or line feed, and starts with `_` |
| Consumer.MarkedLineExample | website_builder_api/services/crew_runner.py:29 | that line is its own sanitised form, starts with the marker and holds no heading phrase |
| Consumer.MarkedLineFormatted | website_builder_api/services/crew_runner.py:55-85 | a line whose sanitised form starts with the marker and holds no heading phrase formats to that sanitised form |
| Consumer.MarkedHeadingPassesThrough | website_builder_api/services/crew_runner.py:63-64 | a marked line holding a heading phrase is rewritten by the heading rule and queued as an ordinary item |
| Consumer.MarkedLineQueued | website_builder_api/services/crew_runner.py:98-108 | in a run whose only output is one printed line whose sanitised form starts with the marker and holds no heading phrase, that line is queued as that sanitised form before the final result |
| Consumer.MarkedLineEndsStream | website_builder_api/services/crew_runner.py:195-198 | a successful run whose only output is such a line ends its stream with a bogus error message, the text after the marker, and the final result never reaches the client |

Proof helpers without a row: they unfold a definition one step or carry a loop invariant forward (`Runner.ReplayStep`, `Runner.ReplayCons`, `Runner.ReplayWriteFirst`, `Runner.ReplayAdvance`, `Runner.LoopExit`, `Consumer.ConsumedStep`, `Consumer.DeliveredCons`, `Consumer.MarkedHeadingSanitized`, `Capture.JoinedCons`, `Capture.ChunksSingle`, `Capture.WriteStep`, `Capture.QueuedStep`), or they are sequence algebra (`Capture.AppendAssoc`, `Capture.SnocAssoc`, `Capture.CutAt`, `Capture.FlatMapCons`, `Capture.FlatMapSingle`, `Capture.FlatMapAppend`, `Formatter.CleanConcat`, `Formatter.PrintableConcat`, `Runner.TextLinesConcat`).

## Left out

- Threads: `threading.Thread`, the daemon flag, `start`, `join(timeout=5)` and its console warning are not modelled. So are the one-second `get` timeout and `is_alive`. Instead, the consumer is given the sequence of poll outcomes, and `Consumer.Observes` says which sequences a FIFO queue shared with the runner can produce: items in the order they were put, and timeouts anywhere. This is a superset of the real schedules: it also allows a timeout while items are waiting and a live timeout after the runner exited. So the lemmas that quantify over every observed schedule are sound, and the schedule in `Consumer.RaceLosesResult` is shown possible by the source's order of `get` and `is_alive()`, not by `Observes`.
- The process-wide replacement and restoration of `sys.stdout` are not modelled. The model routes the crew's stdout calls to the capture directly.
- Console output is not modelled: the copies written to the original standard output and its `flush` calls, and the thread error banner.
- Building the crew and running `kickoff` are out of view (`Crew`, `Process`, the agents and tasks, `load_dotenv`). A `Kickoff` value stands in: the stdout calls the crew makes and how it ended. A crew whose construction raises is `NotBuilt`: no items are queued, and the thread dies.
- `str()` on non-string inputs and the `isinstance` checks are left out. Every text is a string here.
- The generic `except Exception` in the consumer loop is left out. Only `queue.Empty` can arise from `get` on a live queue. The consumer's own failure modes are not part of the model.
- A `BaseException` that is not an `Exception` (such as `KeyboardInterrupt`) is not an outcome of `Kickoff`. In the code it would skip the error item but still queue the end marker.
- Python's `isspace` is written out for Unicode White_Space plus U+001C..U+001F, not taken from Unicode tables at run time.
- `website_builder_api/services/crew_agents.py`, `website_builder_api/services/crew_tasks.py`, `website_builder_api/views.py` and `website_builder_api/urls.py` are not part of this model. They are configuration and HTTP glue.
