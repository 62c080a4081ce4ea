/** `format_crewai_output_to_markdown`: one raw line of the crew's verbose output becomes
    one line of Markdown (possibly empty, which callers drop). The line is sanitised and
    stripped, then an ordered list of rewrite rules is tried and the first that matches
    decides the result. */
module Formatter {
  import opened PyStr
  import opened Sanitize

  /** The labelled prefixes in the order the rules test them; `true` marks the two labels
      whose remaining text is set as inline code. */
  const Labels: seq<(string, bool)> := [
    ("Thought:", false),
    ("Tool Executing:", true),
    ("Final Answer:", false),
    ("Observation:", false),
    ("Action:", false),
    ("Action Input:", true),
    ("Agent:", false),
    ("Task:", false)
  ]

  /** The line with escape sequences and control characters deleted, then stripped. */
  function Sanitized(line: string): string {
    Strip(StripAnsiCodes(line))
  }

  /** Rule 1 matches: the line opens with `---` or `===`. */
  predicate IsSeparator(t: string) {
    "---" <= t || "===" <= t
  }

  /** Rule 2 matches: one of the two heading phrases occurs somewhere in the line. */
  predicate IsHeading(t: string) {
    Contains(t, " Crew Execution Started ") || Contains(t, " Task Output ")
  }

  /** What rule 1 keeps of the line: every `-` and then every `=` removed, wherever they
      stand, and the remainder stripped. */
  function SeparatorContent(t: string): string {
    Strip(RemoveAll(RemoveAll(t, '-'), '='))
  }

  /** The Markdown a label rule produces: the bold label, a space, and the stripped text
      after the label, in backticks for the inline-code labels. */
  function Labelled(name: string, code: bool, t: string): string
    requires name <= t
  {
    var rest := Strip(t[|name|..]);
    "**" + name + "** " + (if code then "`" + rest + "`" else rest)
  }

  /** The second chain of rules, tried when neither rule 1 nor rule 2 matched: the eight
      labelled prefixes in order, and the line itself when none matches. */
  function LabelLine(t: string): string {
    var k := FirstLabel(t, 0);
    if k < |Labels| then Labelled(Labels[k].0, Labels[k].1, t) else t
  }

  /** The rules applied to an already sanitised line: the empty line stays empty, then
      rule 1 (separator), rule 2 (heading), then the label rules. */
  function ApplyRules(t: string): string {
    if t == "" then ""
    else if IsSeparator(t) then "\n---\n**" + SeparatorContent(t) + "**"
    else if IsHeading(t) then "\n**" + t + "**"
    else LabelLine(t)
  }

  /** `format_crewai_output_to_markdown(line)`. */
  function FormatLine(line: string): string {
    ApplyRules(Sanitized(line))
  }

  /** Position in `Labels` of the first label `t` starts with, searching from `from`;
      `|Labels|` when there is none. */
  function FirstLabel(t: string, from: nat): (k: nat)
    requires from <= |Labels|
    ensures from <= k <= |Labels|
    ensures k < |Labels| ==> Labels[k].0 <= t
    decreases |Labels| - from
  {
    if from == |Labels| then from
    else if Labels[from].0 <= t then from
    else FirstLabel(t, from + 1)
  }

  /** Rule 1: a line opening with `---` or `===` becomes a rule followed by the bold line
      with all its `-` and `=` removed. */
  lemma {:induction false} SeparatorRule(line: string)
    requires IsSeparator(Sanitized(line))
    ensures FormatLine(line) == "\n---\n**" + SeparatorContent(Sanitized(line)) + "**"
    ensures '-' !in SeparatorContent(Sanitized(line)) && '=' !in SeparatorContent(Sanitized(line))
  {
    var t := Sanitized(line);
    RemoveAllChars(t, '-');
    RemoveAllChars(RemoveAll(t, '-'), '=');
    var u := RemoveAll(RemoveAll(t, '-'), '=');
    assert '-' !in u && '=' !in u;
  }

  /** Rule 2: a line that is no separator but holds a heading phrase becomes a bold heading. */
  lemma {:induction false} HeadingRule(line: string)
    requires !IsSeparator(Sanitized(line)) && IsHeading(Sanitized(line))
    ensures FormatLine(line) == "\n**" + Sanitized(line) + "**"
  {
  }

  /** Rules 3 to 10, first match wins: a line that is neither separator nor heading is
      rendered by the first label in `Labels` it starts with, and returned unchanged when
      it starts with none. */
  lemma {:induction false} LabelRules(t: string, k: nat)
    requires t != "" && !IsSeparator(t) && !IsHeading(t)
    requires k < |Labels| && Labels[k].0 <= t
    requires forall j :: 0 <= j < k ==> !(Labels[j].0 <= t)
    ensures ApplyRules(t) == Labelled(Labels[k].0, Labels[k].1, t)
  {
    FirstLabelSkips(t, 0);
  }

  /** The last rule: a line that matches no rule at all is returned as it is. */
  lemma {:induction false} UnlabelledLine(t: string)
    requires t != "" && !IsSeparator(t) && !IsHeading(t)
    requires forall j :: 0 <= j < |Labels| ==> !(Labels[j].0 <= t)
    ensures ApplyRules(t) == t
  {
    FirstLabelSkips(t, 0);
  }

  /** The search passes over exactly the labels `t` does not start with. */
  lemma {:induction false} FirstLabelSkips(t: string, from: nat)
    requires from <= |Labels|
    ensures forall j :: from <= j < FirstLabel(t, from) ==> !(Labels[j].0 <= t)
    decreases |Labels| - from
  {
    if from < |Labels| && !(Labels[from].0 <= t) {
      FirstLabelSkips(t, from + 1);
    }
  }

  /** No label can hide a later one: each of the eight label rules fires for some line. */
  lemma {:induction false} NoLabelShadowed()
    ensures forall i, j :: 0 <= j < i < |Labels| ==> !(Labels[j].0 <= Labels[i].0)
  {
    forall i, j | 0 <= j < i < |Labels| ensures !(Labels[j].0 <= Labels[i].0) {
      var p, q := Labels[j].0, Labels[i].0;
      if p[0] == q[0] {
        if p[1] == q[1] {
          assert p == "Action:" && q == "Action Input:";
          assert p[6] != q[6];
        } else {
          assert p[1] != q[1];
        }
      } else {
        assert p[0] != q[0];
      }
    }
  }

  /** A printable line without any whitespace whose first character opens no rule (no
      `-` or `=` of a separator, no first letter of a label) is returned unchanged: both
      heading phrases contain spaces and every label starts with `T`, `F`, `O` or `A`. */
  lemma {:induction false} PlainLineUnchanged(line: string)
    requires line != [] && Printable(line)
    requires forall k :: 0 <= k < |line| ==> !IsSpace(line[k])
    requires line[0] !in "-=TFOA"
    ensures FormatLine(line) == line
  {
    PlainSanitized(line);
    PlainNoHeading(line);
    PlainNoLabel(line);
  }

  lemma {:induction false} PlainSanitized(line: string)
    requires line != [] && Printable(line)
    requires !IsSpace(line[0]) && !IsSpace(line[|line| - 1])
    ensures Sanitized(line) == line
  {
    StripAnsiCodesFixed(line);
    assert LeadingSpaces(line) == 0;
    assert TrailingSpaces(line) == 0;
  }

  lemma {:induction false} PlainNoHeading(line: string)
    requires forall k :: 0 <= k < |line| ==> !IsSpace(line[k])
    ensures !IsHeading(line)
  {
    assert IsSpace(' ');
    if Contains(line, " Crew Execution Started ") {
      ContainsChars(line, " Crew Execution Started ", ' ');
    }
    if Contains(line, " Task Output ") {
      ContainsChars(line, " Task Output ", ' ');
    }
  }

  lemma {:induction false} PlainNoLabel(line: string)
    requires line != [] && line[0] !in "TFOA"
    ensures LabelLine(line) == line
  {
    LabelInitials();
  }

  lemma {:induction false} LabelInitials()
    ensures forall j :: 0 <= j < |Labels| ==> Labels[j].0 != [] && Labels[j].0[0] in "TFOA"
  {
  }

  /** Only control characters the rules themselves insert (line feeds) can appear. */
  predicate CleanText(s: string) {
    forall k :: 0 <= k < |s| ==> s[k] == '\n' || !IsControl(s[k])
  }

  /** The formatted line is empty exactly when the sanitised line is, that is, when the
      raw line holds nothing but escape sequences, control characters and whitespace. */
  lemma {:induction false} FormatEmptyIff(line: string)
    ensures FormatLine(line) == "" <==> Sanitized(line) == ""
    ensures Sanitized(line) == "" <==> forall k :: 0 <= k < |StripAnsiCodes(line)| ==> IsSpace(StripAnsiCodes(line)[k])
  {
    var t := Sanitized(line);
    if t != "" && !IsSeparator(t) && !IsHeading(t) {
      LabelLineNonEmpty(t);
    }
    StripEmptyIff(StripAnsiCodes(line));
  }

  lemma {:induction false} FormatEmptyLine()
    ensures FormatLine("") == ""
  {
    assert StripAnsiCodes("") == "";
  }

  lemma {:induction false} LabelLineNonEmpty(t: string)
    requires t != ""
    ensures LabelLine(t) != ""
  {
  }

  /** The sanitised line is printable, has no surrounding whitespace, and sanitising it
      again changes nothing. */
  lemma {:induction false} SanitizedClean(line: string)
    ensures Printable(Sanitized(line))
    ensures Sanitized(line) != "" ==> !IsSpace(Sanitized(line)[0]) && !IsSpace(Sanitized(line)[|Sanitized(line)| - 1])
    ensures Sanitized(Sanitized(line)) == Sanitized(line)
  {
    var s := StripAnsiCodes(line);
    var t := Sanitized(line);
    StripAnsiCodesPrintable(line);
    StripPrintable(s);
    StripAnsiCodesFixed(t);
    StripIdempotent(s);
  }

  lemma {:induction false} RemoveAllPrintable(s: string, c: char)
    requires Printable(s)
    ensures Printable(RemoveAll(s, c))
    decreases |s|
  {
    if s != [] {
      RemoveAllPrintable(s[1..], c);
    }
  }

  lemma {:induction false} StripPrintable(s: string)
    requires Printable(s)
    ensures Printable(Strip(s))
  {
    var i := LeadingSpaces(s);
    assert Printable(s[i..]);
  }

  lemma {:induction false} CleanConcat(a: string, b: string)
    requires CleanText(a) && CleanText(b)
    ensures CleanText(a + b)
  {
    forall k | 0 <= k < |a + b| ensures (a + b)[k] == '\n' || !IsControl((a + b)[k]) {
      if k >= |a| {
        assert (a + b)[k] == b[k - |a|];
      }
    }
  }

  lemma {:induction false} PrintableConcat(a: string, b: string)
    requires Printable(a) && Printable(b)
    ensures Printable(a + b)
  {
    forall k | 0 <= k < |a + b| ensures !IsControl((a + b)[k]) {
      if k >= |a| {
        assert (a + b)[k] == b[k - |a|];
      }
    }
  }

  lemma {:induction false} LabelledPrintable(name: string, code: bool, t: string)
    requires name <= t && Printable(name) && Printable(t)
    ensures Printable(Labelled(name, code, t))
  {
    var rest := t[|name|..];
    assert Printable(rest);
    StripPrintable(rest);
    var x := Strip(rest);
    PrintableConcat("**", name);
    PrintableConcat("**" + name, "** ");
    if code {
      PrintableConcat("`", x);
      PrintableConcat("`" + x, "`");
    }
    PrintableConcat("**" + name + "** ", if code then "`" + x + "`" else x);
  }

  /** The label rules add no control character, not even a line feed. */
  lemma {:induction false} LabelLinePrintable(t: string)
    requires t != "" && Printable(t) && !IsSeparator(t) && !IsHeading(t)
    ensures Printable(ApplyRules(t))
  {
    var k := FirstLabel(t, 0);
    if k < |Labels| {
      LabelsPrintable();
      LabelledPrintable(Labels[k].0, Labels[k].1, t);
    }
  }

  lemma {:induction false} SeparatorClean(t: string)
    requires Printable(t)
    ensures CleanText("\n---\n**" + SeparatorContent(t) + "**")
  {
    RemoveAllPrintable(t, '-');
    RemoveAllPrintable(RemoveAll(t, '-'), '=');
    StripPrintable(RemoveAll(RemoveAll(t, '-'), '='));
    CleanConcat("\n---\n**", SeparatorContent(t));
    CleanConcat("\n---\n**" + SeparatorContent(t), "**");
  }

  lemma {:induction false} HeadingClean(t: string)
    requires Printable(t)
    ensures CleanText("\n**" + t + "**")
  {
    CleanConcat("\n**", t);
    CleanConcat("\n**" + t, "**");
  }

  lemma {:induction false} LabelsPrintable()
    ensures forall i :: 0 <= i < |Labels| ==> Printable(Labels[i].0)
  {
  }

  /** The only control characters a formatted line can contain are line feeds, and only
      rules 1 and 2 put them there. */
  lemma {:induction false} FormatLineClean(line: string)
    ensures CleanText(FormatLine(line))
    ensures !IsSeparator(Sanitized(line)) && !IsHeading(Sanitized(line)) ==> '\n' !in FormatLine(line)
  {
    var t := Sanitized(line);
    SanitizedClean(line);
    if t == "" {
    } else if IsSeparator(t) {
      SeparatorClean(t);
    } else if IsHeading(t) {
      HeadingClean(t);
    } else {
      LabelLinePrintable(t);
      assert IsControl('\n');
    }
  }
}
