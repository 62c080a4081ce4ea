/** `strip_ansi_codes`: two regular-expression substitutions applied in turn, each
    modelled as a left-to-right scan of the text.
      1. every ANSI "select graphic rendition" sequence `ESC [ <digits and ';'>* m` is deleted;
      2. every character in U+0000..U+001F or U+007F..U+009F is deleted. */
module Sanitize {

  /** The escape character U+001B that opens an ANSI sequence. */
  const Esc: char := '\U{1B}'

  /** The characters the second substitution deletes: C0 controls, DEL and C1 controls. */
  predicate IsControl(c: char) {
    var n := c as int;
    n <= 0x1F || 0x7F <= n <= 0x9F
  }

  /** No character of `s` is a control character. */
  predicate Printable(s: string) {
    forall k :: 0 <= k < |s| ==> !IsControl(s[k])
  }

  /** The characters allowed between `ESC [` and the final `m`. */
  predicate IsParamChar(c: char) {
    '0' <= c <= '9' || c == ';'
  }

  /** Length of the longest prefix of `s` made of parameter characters. */
  function ParamRun(s: string): (n: nat)
    ensures n <= |s|
  {
    if |s| > 0 && IsParamChar(s[0]) then 1 + ParamRun(s[1..]) else 0
  }

  /** The run is made of parameter characters and is followed by the end of `s` or by a
      character that is not one. */
  lemma {:induction false} ParamRunMaximal(s: string)
    ensures forall k :: 0 <= k < ParamRun(s) ==> IsParamChar(s[k])
    ensures ParamRun(s) < |s| ==> !IsParamChar(s[ParamRun(s)])
    decreases |s|
  {
    if |s| > 0 && IsParamChar(s[0]) {
      ParamRunMaximal(s[1..]);
      assert forall k :: 1 <= k < |s| ==> s[1..][k - 1] == s[k];
    }
  }

  /** Length of the sequence `ESC [ <params> m` that starts `s`, or 0 when the pattern
      does not match at the start of `s`. The parameter run is greedy; since `m` is not a
      parameter character, backtracking could never find a shorter match. */
  function SgrLength(s: string): (n: nat)
    ensures n <= |s|
  {
    if |s| >= 2 && s[0] == Esc && s[1] == '[' then
      var e := 2 + ParamRun(s[2..]);
      if e < |s| && s[e] == 'm' then e + 1 else 0
    else 0
  }

  /** Every nonzero length `SgrLength` reports spans a genuine match of the pattern. */
  lemma {:induction false} SgrLengthSound(s: string)
    ensures var n := SgrLength(s); n > 0 ==> n >= 3 && s[0] == Esc && s[1] == '[' && s[n - 1] == 'm'
    ensures var n := SgrLength(s); n > 0 ==> forall k :: 2 <= k < n - 1 ==> IsParamChar(s[k])
  {
    if |s| >= 2 {
      ParamRunMaximal(s[2..]);
      assert forall k :: 2 <= k < |s| ==> s[2..][k - 2] == s[k];
    }
  }

  /** Conversely, whenever `s` starts with a match of the pattern, `SgrLength` finds it:
      the scan misses no escape sequence. */
  lemma {:induction false} SgrLengthComplete(s: string, m: nat)
    requires 3 <= m <= |s| && s[0] == Esc && s[1] == '[' && s[m - 1] == 'm'
    requires forall k :: 2 <= k < m - 1 ==> IsParamChar(s[k])
    ensures SgrLength(s) == m
  {
    var run := ParamRun(s[2..]);
    ParamRunMaximal(s[2..]);
    assert run == m - 3;
  }

  /** First substitution: scan left to right, deleting each escape sequence that starts at
      the current position and keeping every other character. */
  function StripSgr(s: string): (r: string)
    ensures |r| <= |s|
    decreases |s|
  {
    if s == [] then []
    else
      var n := SgrLength(s);
      if n > 0 then StripSgr(s[n..]) else [s[0]] + StripSgr(s[1..])
  }

  /** Second substitution: delete every control character, keep the others in order. */
  function StripControls(s: string): (r: string)
    ensures |r| <= |s|
  {
    if s == [] then []
    else (if IsControl(s[0]) then [] else [s[0]]) + StripControls(s[1..])
  }

  /** The second substitution deletes exactly the control characters: the characters of
      the result are the printable characters of `s`. */
  lemma {:induction false} StripControlsChars(s: string)
    ensures forall c :: c in StripControls(s) <==> c in s && !IsControl(c)
    decreases |s|
  {
    if s != [] {
      StripControlsChars(s[1..]);
      assert s == [s[0]] + s[1..];
    }
  }

  /** `strip_ansi_codes(s)`. */
  function StripAnsiCodes(s: string): (r: string)
  {
    StripControls(StripSgr(s))
  }

  /** No control character survives `strip_ansi_codes`. */
  lemma {:induction false} StripAnsiCodesPrintable(s: string)
    ensures Printable(StripAnsiCodes(s))
    ensures |StripAnsiCodes(s)| <= |s|
  {
    var r := StripAnsiCodes(s);
    StripControlsChars(StripSgr(s));
    assert forall k :: 0 <= k < |r| ==> r[k] in r;
  }

  /** A text without an escape character holds no escape sequence: the first substitution
      leaves it alone. */
  lemma {:induction false} StripSgrNoEsc(s: string)
    requires Esc !in s
    ensures StripSgr(s) == s
    decreases |s|
  {
    if s != [] {
      assert SgrLength(s) == 0;
      StripSgrNoEsc(s[1..]);
    }
  }

  /** A printable text passes the second substitution unchanged. */
  lemma {:induction false} StripControlsPrintable(s: string)
    requires Printable(s)
    ensures StripControls(s) == s
    decreases |s|
  {
    if s != [] {
      StripControlsPrintable(s[1..]);
    }
  }

  /** `strip_ansi_codes` leaves printable text unchanged. */
  lemma {:induction false} StripAnsiCodesFixed(s: string)
    requires Printable(s)
    ensures StripAnsiCodes(s) == s
  {
    assert IsControl(Esc);
    assert Esc !in s;
    StripSgrNoEsc(s);
    StripControlsPrintable(s);
  }

  /** Applying `strip_ansi_codes` twice gives the same text as applying it once. */
  lemma {:induction false} StripAnsiCodesIdempotent(s: string)
    ensures StripAnsiCodes(StripAnsiCodes(s)) == StripAnsiCodes(s)
  {
    StripAnsiCodesPrintable(s);
    StripAnsiCodesFixed(StripAnsiCodes(s));
  }
}
