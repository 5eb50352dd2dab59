/** String helpers with the semantics of the Python `str` methods the
    analyser relies on (`strip`, `lower`, `startswith`, `in`, `split`,
    `join`, `str(int)`, `int(...)`), restricted to ASCII: Python's Unicode
    whitespace, case mapping and digit classes are not modelled. */
module Text {
  import opened Wrappers

  // ---------------------------------------------------------------------
  // Character classes
  // ---------------------------------------------------------------------

  /** The ASCII characters Python's `str.isspace` accepts: space, tab,
      line feed, carriage return, vertical tab, form feed and the four
      information separators `\x1c`-`\x1f`. */
  const Whitespace: set<char> := {' ', '\t', '\n', '\r', '\U{000B}', '\U{000C}',
                                  '\U{001C}', '\U{001D}', '\U{001E}', '\U{001F}'}

  predicate IsUpper(c: char) { 'A' <= c <= 'Z' }

  predicate IsDigit(c: char) { '0' <= c <= '9' }

  function LowerChar(c: char): (r: char)
    ensures IsUpper(c) ==> r as int == c as int + 32
    ensures !IsUpper(c) ==> r == c
  {
    if IsUpper(c) then (c as int + 32) as char else c
  }

  /** Python's `str.lower` on ASCII text. */
  function Lower(s: string): (r: string)
    ensures |r| == |s|
    ensures forall i :: 0 <= i < |s| ==> r[i] == LowerChar(s[i])
  {
    if |s| == 0 then "" else [LowerChar(s[0])] + Lower(s[1..])
  }

  // ---------------------------------------------------------------------
  // Prefixes, suffixes and substrings
  // ---------------------------------------------------------------------

  predicate StartsWith(s: string, p: string) {
    |p| <= |s| && s[..|p|] == p
  }

  predicate EndsWith(s: string, p: string) {
    |p| <= |s| && s[|s| - |p|..] == p
  }

  /** `p` occurs in `s` starting at index `i`. */
  predicate IsAt(s: string, p: string, i: int) {
    0 <= i && i + |p| <= |s| && s[i..i + |p|] == p
  }

  /** Python's `p in s` for strings. */
  predicate Contains(s: string, p: string) {
    exists i | 0 <= i <= |s| :: IsAt(s, p, i)
  }

  /** An occurrence after the first character is one in the rest. */
  lemma IsAtShift(s: string, p: string, j: nat)
    requires |s| > 0
    ensures IsAt(s, p, j + 1) <==> IsAt(s[1..], p, j)
  {
    if j + 1 + |p| <= |s| {
      var a, b := s[j + 1..j + 1 + |p|], s[1..][j..j + |p|];
      assert |a| == |b|;
      forall k | 0 <= k < |a| ensures a[k] == b[k] {
        assert a[k] == s[j + 1 + k];
      }
    }
  }

  /** The index of the first occurrence of `p` in `s` (Python's `str.find`,
      with `None` for -1). */
  function FindFirst(s: string, p: string): (r: Option<nat>)
    ensures r.Some? ==> IsAt(s, p, r.value)
    ensures r.Some? ==> forall j :: 0 <= j < r.value ==> !IsAt(s, p, j)
    ensures r.None? <==> !Contains(s, p)
    decreases |s|
  {
    if |p| > |s| then
      assert forall j :: !IsAt(s, p, j);
      None
    else if s[..|p|] == p then
      Some(0)
    else
      var rest := FindFirst(s[1..], p);
      assert forall j :: 0 <= j ==> (IsAt(s, p, j + 1) <==> IsAt(s[1..], p, j)) by {
        forall j | 0 <= j ensures IsAt(s, p, j + 1) <==> IsAt(s[1..], p, j) {
          IsAtShift(s, p, j);
        }
      }
      assert !IsAt(s, p, 0);
      match rest
      case None =>
        assert forall j :: !IsAt(s, p, j) by {
          forall j ensures !IsAt(s, p, j) {
            if j > 0 { assert !IsAt(s[1..], p, j - 1); }
          }
        }
        None
      case Some(i) =>
        assert forall j :: 0 <= j < i + 1 ==> !IsAt(s, p, j) by {
          forall j | 0 <= j < i + 1 ensures !IsAt(s, p, j) {
            if j > 0 { assert !IsAt(s[1..], p, j - 1); }
          }
        }
        Some(i + 1)
  }

  // ---------------------------------------------------------------------
  // Stripping
  // ---------------------------------------------------------------------

  /** Number of leading characters of `s` that belong to `cs`. */
  function LeadCount(s: string, cs: set<char>): (k: nat)
    ensures k <= |s|
    ensures forall i :: 0 <= i < k ==> s[i] in cs
    ensures k == |s| || s[k] !in cs
  {
    if |s| > 0 && s[0] in cs then 1 + LeadCount(s[1..], cs) else 0
  }

  /** Number of trailing characters of `s` that belong to `cs`. */
  function TrailCount(s: string, cs: set<char>): (k: nat)
    ensures k <= |s|
    ensures forall i :: |s| - k <= i < |s| ==> s[i] in cs
    ensures k == |s| || s[|s| - 1 - k] !in cs
  {
    if |s| > 0 && s[|s| - 1] in cs then 1 + TrailCount(s[..|s| - 1], cs) else 0
  }

  /** Python's `s.strip(chars)`: the longest infix of `s` that neither
      starts nor ends with a character of `cs`, obtained by removing only
      characters of `cs` from both ends. */
  function StripChars(s: string, cs: set<char>): (r: string)
    ensures |r| <= |s|
    ensures |r| > 0 ==> r[0] !in cs && r[|r| - 1] !in cs
    ensures exists i :: StrippedAt(s, r, cs, i)
  {
    var i := LeadCount(s, cs);
    var t := s[i..];
    var j := TrailCount(t, cs);
    var r := t[..|t| - j];
    assert s[i..i + |r|] == r;
    assert StrippedAt(s, r, cs, i);
    r
  }

  /** `r` is the infix of `s` starting at `i`, and everything outside it
      belongs to `cs`. */
  predicate StrippedAt(s: string, r: string, cs: set<char>, i: int) {
    && 0 <= i <= |s| - |r|
    && s[i..i + |r|] == r
    && (forall k :: 0 <= k < i ==> s[k] in cs)
    && (forall k :: i + |r| <= k < |s| ==> s[k] in cs)
  }

  /** Python's `s.strip()` (ASCII whitespace). */
  function Strip(s: string): string {
    StripChars(s, Whitespace)
  }

  /** Python's `s.lstrip()` (ASCII whitespace). */
  function LStrip(s: string): (r: string)
    ensures |r| <= |s| && r == s[|s| - |r|..]
    ensures |r| > 0 ==> r[0] !in Whitespace
    ensures forall k :: 0 <= k < |s| - |r| ==> s[k] in Whitespace
  {
    s[LeadCount(s, Whitespace)..]
  }

  /** Stripping twice strips nothing more. */
  lemma StripIdempotent(s: string)
    ensures Strip(Strip(s)) == Strip(s)
  {
    var r := Strip(s);
    assert LeadCount(r, Whitespace) == 0;
    assert TrailCount(r, Whitespace) == 0;
    assert r[0..][..|r|] == r;
  }

  lemma StripBlank(s: string)
    requires forall k :: 0 <= k < |s| ==> s[k] in Whitespace
    ensures Strip(s) == ""
  {
  }

  // ---------------------------------------------------------------------
  // split / join
  // ---------------------------------------------------------------------

  /** Python's `sep.join(parts)`. */
  function Join(parts: seq<string>, sep: string): string
  {
    if |parts| == 0 then ""
    else if |parts| == 1 then parts[0]
    else parts[0] + sep + Join(parts[1..], sep)
  }

  /** Python's `s.split(sep)` for a non-empty separator: the pieces between
      the leftmost non-overlapping occurrences of `sep`. Joining them again
      gives back `s`, and no piece contains the separator. */
  function Split(s: string, sep: string): (r: seq<string>)
    requires |sep| > 0
    ensures |r| >= 1
    ensures Join(r, sep) == s
    ensures forall k :: 0 <= k < |r| ==> !Contains(r[k], sep)
    ensures Contains(s, sep) <==> |r| > 1
    decreases |s|
  {
    match FindFirst(s, sep)
    case None => [s]
    case Some(i) =>
      var head := s[..i];
      assert !Contains(head, sep) by {
        forall j ensures !IsAt(head, sep, j) {
          if IsAt(head, sep, j) { assert IsAt(s, sep, j); }
        }
      }
      var tail := Split(s[i + |sep|..], sep);
      assert s == head + sep + s[i + |sep|..];
      [head] + tail
  }

  /** `s.split(p)[0]`: the text before the first occurrence of `p`, or
      all of `s` when `p` does not occur. */
  function Before(s: string, p: string): (r: string)
    requires |p| > 0
    ensures StartsWith(s, r)
    ensures !Contains(r, p)
    ensures forall j :: 0 <= j < |r| ==> !IsAt(s, p, j)
    ensures |r| == |s| || IsAt(s, p, |r|)
  {
    match FindFirst(s, p)
    case None => s
    case Some(i) =>
      var r := s[..i];
      assert !Contains(r, p) by {
        forall j ensures !IsAt(r, p, j) {
          if IsAt(r, p, j) { assert IsAt(s, p, j); }
        }
      }
      r
  }

  /** The text after the first occurrence of `p`. */
  function After(s: string, p: string): (r: string)
    requires |p| > 0 && Contains(s, p)
    ensures s == Before(s, p) + p + r
  {
    var i := FindFirst(s, p).value;
    assert s == s[..i] + s[i..i + |p|] + s[i + |p|..];
    s[i + |p|..]
  }

  lemma BeforeAbsent(s: string, p: string)
    requires |p| > 0 && !Contains(s, p)
    ensures Before(s, p) == s
  {
  }

  /** The first piece of `s.split(p)` is `Before(s, p)`; when `p` occurs,
      the other pieces are the split of `After(s, p)`. */
  lemma SplitPieces(s: string, p: string)
    requires |p| > 0
    ensures Split(s, p)[0] == Before(s, p)
    ensures Contains(s, p) ==> Split(s, p)[1..] == Split(After(s, p), p)
  {
  }

  /** Joining all pieces but the first gives back the text after the first
      separator. */
  lemma JoinAfterFirst(s: string, p: string)
    requires |p| > 0 && Contains(s, p)
    ensures Join(Split(s, p)[1..], p) == After(s, p)
  {
    SplitPieces(s, p);
  }

  // ---------------------------------------------------------------------
  // Decimal numerals
  // ---------------------------------------------------------------------

  function DigitChar(d: nat): (c: char)
    requires d < 10
    ensures IsDigit(c)
  {
    "0123456789"[d]
  }

  function DigitValue(c: char): (d: nat)
    requires IsDigit(c)
    ensures d < 10
  {
    (c as int - '0' as int)
  }

  predicate AllDigits(s: string) {
    forall i :: 0 <= i < |s| ==> IsDigit(s[i])
  }

  /** Python's `str(n)` for a natural number. */
  function NatToString(n: nat): (r: string)
    ensures |r| >= 1 && AllDigits(r)
    ensures n >= 10 ==> |r| >= 2
  {
    if n < 10 then [DigitChar(n)] else NatToString(n / 10) + [DigitChar(n % 10)]
  }

  /** Python's `str(i)` for an integer. */
  function IntToString(i: int): (r: string)
    ensures |r| >= 1
    ensures i < 0 <==> r[0] == '-'
  {
    if i < 0 then "-" + NatToString(-i) else NatToString(i)
  }

  /** The value of a string of decimal digits (the empty string reads as 0). */
  function DigitsValue(s: string): nat
    requires AllDigits(s)
  {
    if |s| == 0 then 0 else 10 * DigitsValue(s[..|s| - 1]) + DigitValue(s[|s| - 1])
  }

  lemma {:induction false} DigitsValueOfNatToString(n: nat)
    ensures DigitsValue(NatToString(n)) == n
    decreases n
  {
    if n >= 10 {
      var r := NatToString(n);
      assert r[..|r| - 1] == NatToString(n / 10);
      DigitsValueOfNatToString(n / 10);
    }
  }

  /** Distinct numbers print differently. */
  lemma NatToStringInjective(a: nat, b: nat)
    ensures NatToString(a) == NatToString(b) ==> a == b
  {
    DigitsValueOfNatToString(a);
    DigitsValueOfNatToString(b);
  }

  /** The number of decimal digits `s` ends with. */
  function TrailDigits(s: string): (k: nat)
    ensures k <= |s|
    ensures AllDigits(s[|s| - k..])
    ensures k == |s| || !IsDigit(s[|s| - 1 - k])
  {
    if |s| > 0 && IsDigit(s[|s| - 1]) then
      var k := 1 + TrailDigits(s[..|s| - 1]);
      assert s[|s| - k..] == s[..|s| - 1][|s| - k..] + [s[|s| - 1]];
      k
    else 0
  }

  /** A run of digits after a non-digit is exactly what `TrailDigits`
      counts. */
  lemma {:induction false} TrailDigitsAfter(a: string, c: char, d: string)
    requires !IsDigit(c) && AllDigits(d)
    ensures TrailDigits(a + [c] + d) == |d|
    decreases |d|
  {
    var s := a + [c] + d;
    if |d| == 0 {
      assert s == a + [c];
    } else {
      assert s[|s| - 1] == d[|d| - 1];
      assert s[..|s| - 1] == a + [c] + d[..|d| - 1];
      TrailDigitsAfter(a, c, d[..|d| - 1]);
    }
  }

  /** Python's `int(s)` on an already stripped string, restricted to an
      optional sign followed by ASCII digits; anything else is a
      `ValueError`, here `None`. */
  function ParseInt(s: string): (r: Option<int>)
    ensures r.Some? ==> |s| >= 1
  {
    if |s| >= 1 && (s[0] == '-' || s[0] == '+') then
      var body := s[1..];
      if |body| >= 1 && AllDigits(body) then
        var v: int := DigitsValue(body);
        Some(if s[0] == '-' then -v else v)
      else None
    else if |s| >= 1 && AllDigits(s) then Some(DigitsValue(s))
    else None
  }

  /** `int(str(i)) == i`. */
  lemma ParseIntOfIntToString(i: int)
    ensures ParseInt(IntToString(i)) == Some(i)
  {
    if i < 0 {
      var n := NatToString(-i);
      assert IntToString(i) == "-" + n;
      DigitsValueOfNatToString(-i);
      ParseIntNegative(n);
    } else {
      var n := NatToString(i);
      assert IntToString(i) == n;
      DigitsValueOfNatToString(i);
      ParseIntDigits(n);
    }
  }

  lemma ParseIntNegative(n: string)
    requires |n| >= 1 && AllDigits(n)
    ensures ParseInt("-" + n) == Some(-(DigitsValue(n) as int))
  {
    assert ("-" + n)[1..] == n;
  }

  lemma ParseIntDigits(n: string)
    requires |n| >= 1 && AllDigits(n)
    ensures ParseInt(n) == Some(DigitsValue(n) as int)
  {
    assert IsDigit(n[0]);
  }
  // ---------------------------------------------------------------------
  // Lines of a file
  // ---------------------------------------------------------------------

  /** Python's `"".join(parts)`. */
  function Concat(parts: seq<string>): string
  {
    if |parts| == 0 then "" else parts[0] + Concat(parts[1..])
  }

  lemma {:induction false} ConcatAppend(a: seq<string>, b: seq<string>)
    ensures Concat(a + b) == Concat(a) + Concat(b)
  {
    if |a| == 0 {
      assert a + b == b;
    } else {
      assert (a + b)[1..] == a[1..] + b;
      ConcatAppend(a[1..], b);
    }
  }

  /** A piece of `readlines()`: non-empty, with no line break before its
      last character. */
  predicate IsLine(l: string) {
    |l| > 0 && forall j :: 0 <= j < |l| - 1 ==> l[j] != '\n'
  }

  predicate Terminated(l: string) {
    |l| > 0 && l[|l| - 1] == '\n'
  }

  /** The length of the first line of `s`, its line break included. */
  function LineEnd(s: string): (k: nat)
    requires |s| > 0
    ensures 1 <= k <= |s|
    ensures IsLine(s[..k])
    ensures k < |s| ==> s[k - 1] == '\n'
  {
    if s[0] == '\n' || |s| == 1 then 1
    else
      var k := 1 + LineEnd(s[1..]);
      assert s[..k] == [s[0]] + s[1..][..k - 1];
      k
  }

  /** `readlines()` on text whose only line break is `\n`: the pieces
      after each `\n`, breaks kept. (`str.splitlines(keepends=True)`
      agrees with it only on such text, since it also breaks at `\r`,
      `\v`, `\f`, `\x1c`-`\x1e` and the Unicode separators.) */
  function SplitLines(s: string): (r: seq<string>)
    ensures Concat(r) == s
    ensures forall i :: 0 <= i < |r| ==> IsLine(r[i])
    ensures forall i :: 0 <= i < |r| - 1 ==> Terminated(r[i])
    ensures s == "" <==> r == []
    decreases |s|
  {
    if |s| == 0 then []
    else
      var k := LineEnd(s);
      var rest := SplitLines(s[k..]);
      assert s == s[..k] + s[k..];
      assert ([s[..k]] + rest)[1..] == rest;
      assert |rest| > 0 ==> Terminated(s[..k]);
      [s[..k]] + rest
  }

  lemma {:induction false} LineEndOfLine(l: string, rest: string)
    requires IsLine(l) && (Terminated(l) || rest == "")
    ensures LineEnd(l + rest) == |l|
    decreases |l|
  {
    var s := l + rest;
    if s[0] == '\n' || |s| == 1 {
    } else {
      assert s[1..] == l[1..] + rest;
      LineEndOfLine(l[1..], rest);
    }
  }

  /** `SplitLines` and `Concat` are inverse: any sequence of lines, all but
      the last terminated, is the split of its concatenation. */
  lemma {:induction false} SplitLinesOfConcat(ls: seq<string>)
    requires forall i :: 0 <= i < |ls| ==> IsLine(ls[i])
    requires forall i :: 0 <= i < |ls| - 1 ==> Terminated(ls[i])
    ensures SplitLines(Concat(ls)) == ls
  {
    if |ls| > 0 {
      var rest := Concat(ls[1..]);
      assert |ls| == 1 ==> ls[1..] == [];
      LineEndOfLine(ls[0], rest);
      assert (ls[0] + rest)[|ls[0]|..] == rest;
      assert (ls[0] + rest)[..|ls[0]|] == ls[0];
      SplitLinesOfConcat(ls[1..]);
    }
  }
}
