/** The few Python `str` operations the runner relies on, over `string` (a `seq<char>`
    of Unicode scalar values): `isspace`, `strip`, `replace(c, '')` and the `in` test.
    Prefix tests (`startswith`) are Dafny's own prefix relation `p <= s`. */
module PyStr {

  /** Python's `str.isspace()` on one character: the Unicode White_Space characters
      together with U+001C..U+001F, which Python also counts as whitespace. */
  predicate IsSpace(c: char) {
    var n := c as int;
    || (0x09 <= n <= 0x0D) || (0x1C <= n <= 0x20) || n == 0x85 || n == 0xA0 || n == 0x1680
    || (0x2000 <= n <= 0x200A) || n == 0x2028 || n == 0x2029 || n == 0x202F || n == 0x205F
    || n == 0x3000
  }

  /** Number of whitespace characters at the start of `s`. */
  function LeadingSpaces(s: string): (n: nat)
    ensures n <= |s|
  {
    if |s| > 0 && IsSpace(s[0]) then 1 + LeadingSpaces(s[1..]) else 0
  }

  /** The leading run is all whitespace and is followed by the end of `s` or by a
      character that is not whitespace. */
  lemma {:induction false} LeadingSpacesRun(s: string)
    ensures forall k :: 0 <= k < LeadingSpaces(s) ==> IsSpace(s[k])
    ensures LeadingSpaces(s) < |s| ==> !IsSpace(s[LeadingSpaces(s)])
    decreases |s|
  {
    if |s| > 0 && IsSpace(s[0]) {
      LeadingSpacesRun(s[1..]);
      assert forall k :: 1 <= k < |s| ==> s[1..][k - 1] == s[k];
    }
  }

  /** Number of whitespace characters at the end of `s`. */
  function TrailingSpaces(s: string): (n: nat)
    ensures n <= |s|
  {
    if |s| > 0 && IsSpace(s[|s| - 1]) then 1 + TrailingSpaces(s[..|s| - 1]) else 0
  }

  /** The trailing run is all whitespace and is preceded by the start of `s` or by a
      character that is not whitespace. */
  lemma {:induction false} TrailingSpacesRun(s: string)
    ensures forall k :: |s| - TrailingSpaces(s) <= k < |s| ==> IsSpace(s[k])
    ensures TrailingSpaces(s) < |s| ==> !IsSpace(s[|s| - 1 - TrailingSpaces(s)])
    decreases |s|
  {
    if |s| > 0 && IsSpace(s[|s| - 1]) {
      TrailingSpacesRun(s[..|s| - 1]);
      assert forall k :: 0 <= k < |s| - 1 ==> s[..|s| - 1][k] == s[k];
    }
  }

  /** `s.strip()`: the slice of `s` between its leading and its trailing whitespace. */
  function Strip(s: string): (r: string)
  {
    var i := LeadingSpaces(s);
    s[i..|s| - TrailingSpaces(s[i..])]
  }

  /** A stripped string neither starts nor ends with whitespace. */
  lemma {:induction false} StripEnds(s: string)
    ensures var r := Strip(s); r != [] ==> !IsSpace(r[0]) && !IsSpace(r[|r| - 1])
  {
    var i := LeadingSpaces(s);
    LeadingSpacesRun(s);
    TrailingSpacesRun(s[i..]);
  }

  /** `s.strip()` is empty exactly when every character of `s` is whitespace. */
  lemma {:induction false} StripEmptyIff(s: string)
    ensures Strip(s) == [] <==> forall k :: 0 <= k < |s| ==> IsSpace(s[k])
  {
    LeadingSpacesRun(s);
    TrailingSpacesRun(s[LeadingSpaces(s)..]);
    if Strip(s) == [] {
      assert LeadingSpaces(s) == |s|;
    }
  }

  lemma {:induction false} StripIdempotent(s: string)
    ensures Strip(Strip(s)) == Strip(s)
  {
    var r := Strip(s);
    StripEnds(s);
    if r != [] {
      assert LeadingSpaces(r) == 0;
      assert TrailingSpaces(r) == 0;
    }
  }

  /** `s.replace(c, '')` for a one-character `c`: every occurrence of `c` deleted,
      every other character kept in order. */
  function RemoveAll(s: string, c: char): (r: string)
  {
    if s == [] then []
    else (if s[0] == c then [] else [s[0]]) + RemoveAll(s[1..], c)
  }

  /** `replace(c, '')` deletes exactly the occurrences of `c`: the characters of the result
      are those of `s` other than `c`. */
  lemma {:induction false} RemoveAllChars(s: string, c: char)
    ensures forall d :: d in RemoveAll(s, c) <==> d in s && d != c
    decreases |s|
  {
    if s != [] {
      RemoveAllChars(s[1..], c);
      assert s == [s[0]] + s[1..];
    }
  }

  /** A string without `c` is left unchanged by `replace(c, '')`. */
  lemma {:induction false} RemoveAllAbsent(s: string, c: char)
    requires c !in s
    ensures RemoveAll(s, c) == s
    decreases |s|
  {
    if s != [] {
      assert s[0] in s;
      assert forall d :: d in s[1..] ==> d in s;
      RemoveAllAbsent(s[1..], c);
    }
  }

  /** `p` occurs in `s` starting at index `i`. */
  predicate OccursAt(s: string, p: string, i: int) {
    0 <= i && i + |p| <= |s| && s[i..i + |p|] == p
  }

  /** Python's `p in s` for strings: `p` occurs as a contiguous slice of `s`. */
  predicate Contains(s: string, p: string) {
    exists i | 0 <= i <= |s| - |p| :: OccursAt(s, p, i)
  }

  /** A string that contains `p` contains every character of `p`. */
  lemma {:induction false} ContainsChars(s: string, p: string, c: char)
    requires Contains(s, p) && c in p
    ensures c in s
  {
    var i :| 0 <= i <= |s| - |p| && OccursAt(s, p, i);
    assert s[i..i + |p|] == p;
    var j :| 0 <= j < |p| && p[j] == c;
    assert s[i..i + |p|][j] == s[i + j];
  }
}
