/** `StreamCapture`: the object installed as the runner thread's standard output. It
    buffers what the crew prints, and each time a line is complete it formats the line
    and puts it on the output queue shared with the consumer. */
module Capture {
  import opened Formatter

  /** The producer side of the `queue.Queue` shared by the runner thread and the
      consumer: `items` is everything ever put on it, oldest first. */
  class OutputQueue {
    var items: seq<string>

    constructor ()
      ensures items == []
    {
      items := [];
    }

    /** `queue.put(item)`: the queue is unbounded, so the item is always appended. */
    method Put(item: string)
      modifies this
      ensures items == old(items) + [item]
    {
      items := items + [item];
    }
  }

  /** Index of the first line feed of `s`, or `|s|` when there is none. */
  function FirstNewline(s: string): (i: nat)
    ensures i <= |s|
  {
    if s == [] || s[0] == '\n' then 0 else 1 + FirstNewline(s[1..])
  }

  /** `FirstNewline` finds the first line feed: none before it, and one at it unless it is
      the end of `s`. */
  lemma {:induction false} FirstNewlineSpec(s: string)
    ensures forall k :: 0 <= k < FirstNewline(s) ==> s[k] != '\n'
    ensures FirstNewline(s) < |s| ==> s[FirstNewline(s)] == '\n'
    decreases |s|
  {
    if s != [] && s[0] != '\n' {
      FirstNewlineSpec(s[1..]);
      assert forall k :: 1 <= k < |s| ==> s[1..][k - 1] == s[k];
    }
  }

  /** The complete (line-feed-terminated) lines of `s`, without their line feeds. */
  function CompleteLines(s: string): seq<string>
    decreases |s|
  {
    var i := FirstNewline(s);
    if i == |s| then [] else [s[..i]] + CompleteLines(s[i + 1..])
  }

  /** The text after the last line feed of `s` (all of `s` when it has none). */
  function Residue(s: string): string
    decreases |s|
  {
    var i := FirstNewline(s);
    if i == |s| then s else Residue(s[i + 1..])
  }

  /** A text without line feed has no complete line and is its own residue. */
  lemma {:induction false} ResidueNoNewline(s: string)
    requires '\n' !in s
    ensures CompleteLines(s) == [] && Residue(s) == s
  {
    FirstNewlineAbsent(s);
  }

  lemma {:induction false} FirstNewlineAbsent(s: string)
    requires '\n' !in s
    ensures FirstNewline(s) == |s|
    decreases |s|
  {
    if s != [] {
      assert s[0] in s;
      assert forall c :: c in s[1..] ==> c in s;
      FirstNewlineAbsent(s[1..]);
    }
  }

  lemma {:induction false} FirstNewlineAfter(x: string, t: string)
    requires '\n' !in x
    ensures FirstNewline(x + t) == |x| + FirstNewline(t)
    decreases |x|
  {
    if x != [] {
      assert (x + t)[0] == x[0];
      assert (x + t)[1..] == x[1..] + t;
      FirstNewlineAfter(x[1..], t);
    } else {
      assert x + t == t;
    }
  }

  /** A text that is one line and its line feed splits into that line and nothing else. */
  lemma {:induction false} OneLine(x: string)
    requires '\n' !in x
    ensures CompleteLines(x + "\n") == [x] && Residue(x + "\n") == ""
  {
    FirstNewlineAfter(x, "\n");
    assert (x + "\n")[..|x|] == x;
    assert (x + "\n")[|x| + 1..] == "";
  }

  /** Each line followed by a line feed, concatenated: the inverse of splitting. */
  function Joined(lines: seq<string>): string {
    if lines == [] then "" else lines[0] + "\n" + Joined(lines[1..])
  }

  /** The queue items produced for `lines`: each formatted line with a line feed added,
      skipping the lines that format to nothing. */
  function Chunks(lines: seq<string>): seq<string> {
    FlatMap(Chunk, lines)
  }

  /** `f` applied to each element of `xs` in order, the results concatenated. */
  function FlatMap<T, U>(f: T -> seq<U>, xs: seq<T>): seq<U> {
    if xs == [] then [] else f(xs[0]) + FlatMap(f, xs[1..])
  }

  lemma {:induction false} FlatMapCons<T, U>(f: T -> seq<U>, xs: seq<T>)
    requires xs != []
    ensures FlatMap(f, xs) == f(xs[0]) + FlatMap(f, xs[1..])
  {
  }

  lemma {:induction false} FlatMapSingle<T, U>(f: T -> seq<U>, x: T)
    ensures FlatMap(f, [x]) == f(x)
  {
    assert [x][1..] == [];
    assert FlatMap(f, [x]) == f(x) + FlatMap(f, []);
  }

  lemma {:induction false} FlatMapAppend<T, U>(f: T -> seq<U>, x: seq<T>, y: seq<T>)
    ensures FlatMap(f, x + y) == FlatMap(f, x) + FlatMap(f, y)
    decreases |x|
  {
    if x != [] {
      assert (x + y)[0] == x[0];
      assert (x + y)[1..] == x[1..] + y;
      FlatMapAppend(f, x[1..], y);
    } else {
      assert x + y == y;
    }
  }

  /** The queue items produced for one line: none when it formats to nothing. */
  function Chunk(line: string): seq<string> {
    var f := FormatLine(line);
    if f == "" then [] else [f + "\n"]
  }

  /** A text holding a line feed has its first one inside it. */
  lemma {:induction false} FirstNewlineFound(s: string)
    requires '\n' in s
    ensures FirstNewline(s) < |s|
    decreases |s|
  {
    if s[0] != '\n' {
      assert s == [s[0]] + s[1..];
      FirstNewlineFound(s[1..]);
    }
  }

  /** One step of splitting: the first line is peeled off and the rest is split alone. */
  lemma {:induction false} SplitFirst(s: string)
    requires '\n' in s
    ensures FirstNewline(s) < |s|
    ensures var i := FirstNewline(s);
            && CompleteLines(s) == [s[..i]] + CompleteLines(s[i + 1..])
            && Residue(s) == Residue(s[i + 1..])
  {
    FirstNewlineFound(s);
    var i := FirstNewline(s);
    assert i < |s|;
    assert CompleteLines(s) == [s[..i]] + CompleteLines(s[i + 1..]);
    assert Residue(s) == Residue(s[i + 1..]);
  }

  /** The text is its first line, a line feed, and the text after it. */
  lemma {:induction false} SplitFirstText(s: string)
    requires '\n' in s
    ensures FirstNewline(s) < |s|
    ensures var i := FirstNewline(s); s == s[..i] + "\n" + s[i + 1..]
  {
    FirstNewlineFound(s);
    FirstNewlineSpec(s);
    var i := FirstNewline(s);
    CutAt(s, i);
  }

  lemma {:induction false} CutAt(s: string, i: nat)
    requires i < |s|
    ensures s == s[..i] + [s[i]] + s[i + 1..]
  {
    var t := s[..i] + [s[i]] + s[i + 1..];
    assert |t| == |s|;
    forall k | 0 <= k < |s| ensures t[k] == s[k] {
      if k < i {
        assert t[k] == s[..i][k];
      } else if k > i {
        assert t[k] == s[i + 1..][k - i - 1];
      }
    }
  }

  lemma {:induction false} JoinedCons(line: string, lines: seq<string>)
    ensures Joined([line] + lines) == line + "\n" + Joined(lines)
  {
    assert ([line] + lines)[1..] == lines;
  }

  /** Splitting round-trips: the complete lines, each with its line feed restored, followed
      by the residue, give back the text. */
  lemma {:induction false} SplitJoin(s: string)
    ensures Joined(CompleteLines(s)) + Residue(s) == s
    decreases |s|
  {
    if '\n' in s {
      SplitFirst(s);
      SplitFirstText(s);
      var i := FirstNewline(s);
      var rest := s[i + 1..];
      SplitJoin(rest);
      JoinedCons(s[..i], CompleteLines(rest));
      assert Joined(CompleteLines(s)) + Residue(s) == s[..i] + "\n" + (Joined(CompleteLines(rest)) + Residue(rest));
    } else {
      ResidueNoNewline(s);
    }
  }

  /** Neither the residue nor any complete line holds a line feed. */
  lemma {:induction false} SplitNoNewline(s: string)
    ensures '\n' !in Residue(s)
    ensures forall j :: 0 <= j < |CompleteLines(s)| ==> '\n' !in CompleteLines(s)[j]
    decreases |s|
  {
    var i := FirstNewline(s);
    FirstNewlineSpec(s);
    if i == |s| {
      assert s[..i] == s;
    } else {
      var rest := s[i + 1..];
      SplitNoNewline(rest);
      var lines := CompleteLines(s);
      assert lines == [s[..i]] + CompleteLines(rest);
      forall j | 0 <= j < |lines| ensures '\n' !in lines[j] {
        if j > 0 {
          assert lines[j] == CompleteLines(rest)[j - 1];
        }
      }
    }
  }

  /** There is one complete line per line feed. */
  lemma {:induction false} CompleteLinesCount(s: string)
    ensures |CompleteLines(s)| == multiset(s)['\n']
    decreases |s|
  {
    var i := FirstNewline(s);
    FirstLineCount(s);
    if i == |s| {
      assert s[..i] == s;
    } else {
      var rest := s[i + 1..];
      assert CompleteLines(s) == [s[..i]] + CompleteLines(rest);
      CompleteLinesCount(rest);
      FirstNewlineSpec(s);
      NewlineCountAt(s, i);
    }
  }

  /** The first line holds no line feed. */
  lemma {:induction false} FirstLineCount(s: string)
    ensures multiset(s[..FirstNewline(s)])['\n'] == 0
  {
    var i := FirstNewline(s);
    FirstNewlineSpec(s);
    assert forall k :: 0 <= k < i ==> s[..i][k] != '\n';
    assert '\n' !in s[..i];
  }

  /** Cutting `s` at a line feed splits its line-feed count around it. */
  lemma {:induction false} NewlineCountAt(s: string, i: nat)
    requires i < |s| && s[i] == '\n'
    ensures multiset(s)['\n'] == multiset(s[..i])['\n'] + 1 + multiset(s[i + 1..])['\n']
  {
    CutAt(s, i);
    assert multiset(s) == multiset(s[..i]) + multiset{'\n'} + multiset(s[i + 1..]);
  }

  lemma {:induction false} FirstNewlineAppend(a: string, t: string)
    requires '\n' in a
    ensures FirstNewline(a + t) == FirstNewline(a)
    decreases |a|
  {
    if a[0] != '\n' {
      assert a == [a[0]] + a[1..];
      assert (a + t)[1..] == a[1..] + t;
      FirstNewlineAppend(a[1..], t);
    }
  }

  /** Splitting `a + t` at its first line feed when that line feed lies in `a`. */
  lemma {:induction false} SplitFirstAppend(a: string, t: string)
    requires '\n' in a
    ensures var i := FirstNewline(a);
            && i < |a|
            && CompleteLines(a + t) == [a[..i]] + CompleteLines(a[i + 1..] + t)
            && Residue(a + t) == Residue(a[i + 1..] + t)
  {
    FirstNewlineAppend(a, t);
    FirstNewlineFound(a);
    var i := FirstNewline(a);
    assert (a + t)[i + 1..] == a[i + 1..] + t;
    assert (a + t)[..i] == a[..i];
    assert CompleteLines(a + t) == [(a + t)[..i]] + CompleteLines((a + t)[i + 1..]);
    assert Residue(a + t) == Residue((a + t)[i + 1..]);
  }

  /** The text after the last line feed of `a + t` is that of `a`'s residue followed by `t`. */
  lemma {:induction false} ResidueAppend(a: string, t: string)
    ensures Residue(a + t) == Residue(Residue(a) + t)
    decreases |a|
  {
    if '\n' in a {
      SplitFirst(a);
      SplitFirstAppend(a, t);
      ResidueAppend(a[FirstNewline(a) + 1..], t);
    } else {
      ResidueNoNewline(a);
    }
  }

  /** Appending text after `a` only adds lines after those `a` already completed: the
      lines of `a + t` are those of `a`, then those of `a`'s residue followed by `t`. */
  lemma {:induction false} SplitAppend(a: string, t: string)
    ensures CompleteLines(a + t) == CompleteLines(a) + CompleteLines(Residue(a) + t)
    decreases |a|
  {
    if '\n' in a {
      SplitFirst(a);
      SplitFirstAppend(a, t);
      var i := FirstNewline(a);
      var rest := a[i + 1..];
      SplitAppend(rest, t);
      AppendAssoc([a[..i]], CompleteLines(rest), CompleteLines(Residue(rest) + t));
    } else {
      ResidueNoNewline(a);
      assert [] + CompleteLines(a + t) == CompleteLines(a + t);
    }
  }

  lemma {:induction false} ChunksAppend(x: seq<string>, y: seq<string>)
    ensures Chunks(x + y) == Chunks(x) + Chunks(y)
    decreases |x|
  {
    FlatMapAppend(Chunk, x, y);
  }

  /** A non-empty line of text terminated by a line feed. */
  predicate IsTextLine(s: string) {
    |s| > 1 && s[|s| - 1] == '\n'
  }

  lemma {:induction false} ChunkShape(line: string)
    ensures |Chunk(line)| <= 1
    ensures forall j :: 0 <= j < |Chunk(line)| ==> IsTextLine(Chunk(line)[j])
  {
    var f := FormatLine(line);
    if f != "" {
      assert (f + "\n")[|f|] == '\n';
    }
  }

  /** At most one queue item per line, each a non-empty line ending in a line feed. */
  lemma {:induction false} ChunksShape(lines: seq<string>)
    ensures |Chunks(lines)| <= |lines|
    ensures forall j :: 0 <= j < |Chunks(lines)| ==> IsTextLine(Chunks(lines)[j])
  {
    if lines != [] {
      ChunksShape(lines[1..]);
      var h := Chunk(lines[0]);
      ChunkShape(lines[0]);
      var rest := Chunks(lines[1..]);
      FlatMapCons(Chunk, lines);
      forall j | 0 <= j < |h + rest| ensures IsTextLine((h + rest)[j]) {
        if j >= |h| {
          assert (h + rest)[j] == rest[j - |h|];
        }
      }
    }
  }

  /** What `write` leaves behind depends only on the concatenation of the written text:
      writing `s1` and then `s2` buffers and queues the same as writing `s1 + s2` once. */
  lemma {:induction false} WritesCompose(b: string, s1: string, s2: string)
    ensures Residue(Residue(b + s1) + s2) == Residue(b + s1 + s2)
    ensures Chunks(CompleteLines(b + s1)) + Chunks(CompleteLines(Residue(b + s1) + s2))
            == Chunks(CompleteLines(b + s1 + s2))
  {
    SplitAppend(b + s1, s2);
    ResidueAppend(b + s1, s2);
    ChunksAppend(CompleteLines(b + s1), CompleteLines(Residue(b + s1) + s2));
  }

  /** One turn of the loop in `write`: peeling the first line off the buffer moves it from
      the lines still to come to the lines already handled, and keeps the residue. */
  lemma {:induction false} WriteStep(total: string, done: seq<string>, buffer: string)
    requires FirstNewline(buffer) < |buffer|
    requires CompleteLines(total) == done + CompleteLines(buffer)
    requires Residue(total) == Residue(buffer)
    ensures CompleteLines(total)
            == (done + [buffer[..FirstNewline(buffer)]]) + CompleteLines(buffer[FirstNewline(buffer) + 1..])
    ensures Residue(total) == Residue(buffer[FirstNewline(buffer) + 1..])
  {
    var i := FirstNewline(buffer);
    assert CompleteLines(buffer) == [buffer[..i]] + CompleteLines(buffer[i + 1..]);
    var line, rest := buffer[..i], CompleteLines(buffer[i + 1..]);
    SnocAssoc(done, line, rest);
  }

  lemma {:induction false} SnocAssoc(done: seq<string>, line: string, rest: seq<string>)
    ensures done + ([line] + rest) == (done + [line]) + rest
  {
  }

  lemma {:induction false} AppendAssoc<T>(a: seq<T>, b: seq<T>, c: seq<T>)
    ensures (a + b) + c == a + (b + c)
  {
  }

  /** When the loop in `write` stops, the lines handled are all the complete lines and the
      buffer is the residue. */
  lemma {:induction false} WriteDone(total: string, done: seq<string>, buffer: string)
    requires FirstNewline(buffer) == |buffer|
    requires CompleteLines(total) == done + CompleteLines(buffer)
    requires Residue(total) == Residue(buffer)
    ensures CompleteLines(total) == done
    ensures Residue(total) == buffer && '\n' !in buffer
  {
    FirstNewlineSpec(buffer);
    assert done + [] == done;
  }

  lemma {:induction false} ChunksSingle(line: string)
    ensures Chunks([line]) == Chunk(line)
  {
    FlatMapSingle(Chunk, line);
  }

  /** Handling one more line adds that line's queue items after the earlier ones. */
  lemma {:induction false} ChunksSnoc(done: seq<string>, line: string)
    ensures Chunks(done + [line]) == Chunks(done) + Chunk(line)
  {
    ChunksAppend(done, [line]);
    ChunksSingle(line);
  }

  /** The queue after one more line was emitted holds the items of one more line. */
  lemma {:induction false} QueuedStep(q0: seq<string>, done: seq<string>, line: string, queued: seq<string>, items: seq<string>)
    requires queued == q0 + Chunks(done)
    requires items == queued + Chunk(line)
    ensures items == q0 + Chunks(done + [line])
  {
    ChunksSnoc(done, line);
    AppendAssoc(q0, Chunks(done), Chunk(line));
  }

  class StreamCapture {
    const queue: OutputQueue
    var buffer: string

    constructor (queue: OutputQueue)
      ensures this.queue == queue && buffer == ""
    {
      this.queue := queue;
      buffer := "";
    }

    /** `write(s)`: buffer `s`, then peel off and queue every line it completes. Afterwards
        the buffer is the text after the last line feed and holds no line feed. */
    method Write(s: string)
      modifies this, queue
      ensures buffer == Residue(old(buffer) + s) && '\n' !in buffer
      ensures queue.items == old(queue.items) + Chunks(CompleteLines(old(buffer) + s))
    {
      buffer := buffer + s;
      ghost var total := buffer;
      ghost var done: seq<string> := [];
      var i := FirstNewline(buffer);
      while i < |buffer|
        invariant i == FirstNewline(buffer)
        invariant queue.items == old(queue.items) + Chunks(done)
        invariant CompleteLines(total) == done + CompleteLines(buffer)
        invariant Residue(total) == Residue(buffer)
        decreases |buffer|
      {
        WriteStep(total, done, buffer);
        ghost var queued := queue.items;
        var line := TakeLine();
        QueuedStep(old(queue.items), done, line, queued, queue.items);
        done := done + [line];
        i := FirstNewline(buffer);
      }
      WriteDone(total, done, buffer);
    }

    /** One turn of the loop in `write`: split the buffer at its first line feed, keep
        the text after it, and emit the line before it. */
    method TakeLine() returns (line: string)
      requires FirstNewline(buffer) < |buffer|
      modifies this, queue
      ensures line == old(buffer)[..FirstNewline(old(buffer))]
      ensures buffer == old(buffer)[FirstNewline(old(buffer)) + 1..]
      ensures queue.items == old(queue.items) + Chunk(line)
    {
      var i := FirstNewline(buffer);
      line := buffer[..i];
      buffer := buffer[i + 1..];
      Emit(line);
    }

    /** Format one line taken from the buffer and queue it with a line feed, unless it
        formats to nothing. */
    method Emit(line: string)
      modifies queue
      ensures queue.items == old(queue.items) + Chunk(line)
    {
      var formatted := FormatLine(line);
      if formatted != "" {
        queue.Put(formatted + "\n");
      }
    }

    /** `flush()`: queue the formatted residue, if there is any and it formats to
        something, and empty the buffer. */
    method Flush()
      modifies this, queue
      ensures buffer == ""
      ensures queue.items == old(queue.items) + Chunks([old(buffer)])
      ensures old(buffer) == "" ==> queue.items == old(queue.items)
    {
      ChunksSingle(buffer);
      if buffer != "" {
        Emit(buffer);
        buffer := "";
      } else {
        FormatEmptyLine();
      }
    }
  }
}
