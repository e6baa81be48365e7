/** Character classes and string helpers that the JavaScript and Python code relies on:
    ASCII classes used by the regular expressions, `String.prototype.trim` / `str.strip`,
    ASCII lower-casing, substring search, UTF-16 length and decimal printing. */
module Text {

  predicate IsAsciiUpper(c: char) { 'A' <= c <= 'Z' }
  predicate IsAsciiLower(c: char) { 'a' <= c <= 'z' }
  predicate IsAsciiLetter(c: char) { IsAsciiUpper(c) || IsAsciiLower(c) }
  /** `\d` and `[0-9]` in a JavaScript or Python regular expression without the Unicode flag. */
  predicate IsAsciiDigit(c: char) { '0' <= c <= '9' }

  /** True when some character of `s` satisfies `p`. */
  predicate Any(s: string, p: char -> bool) {
    exists i :: 0 <= i < |s| && p(s[i])
  }

  /** True when every character of `s` satisfies `p`. */
  predicate All(s: string, p: char -> bool) {
    forall i :: 0 <= i < |s| ==> p(s[i])
  }

  /** The code points a regular expression `.` does not match (section 22.2.2 of ECMA-262). */
  predicate IsLineTerminator(c: char) {
    c == '\n' || c == '\r' || c == '\U{2028}' || c == '\U{2029}'
  }

  /** The characters `String.prototype.trim` removes: the WhiteSpace and LineTerminator
      code points of sections 12.2 and 12.3 of ECMA-262. */
  predicate IsJsWhitespace(c: char) {
    || ('\U{9}' <= c <= '\U{D}')
    || c == ' ' || c == '\U{A0}' || c == '\U{1680}'
    || ('\U{2000}' <= c <= '\U{200A}')
    || c == '\U{2028}' || c == '\U{2029}' || c == '\U{202F}' || c == '\U{205F}'
    || c == '\U{3000}' || c == '\U{FEFF}'
  }

  /** The characters Python's `str.strip()` removes (those for which `str.isspace` holds). */
  predicate IsPyWhitespace(c: char) {
    || ('\U{9}' <= c <= '\U{D}')
    || ('\U{1C}' <= c <= '\U{1F}')
    || c == ' ' || c == '\U{85}' || c == '\U{A0}' || c == '\U{1680}'
    || ('\U{2000}' <= c <= '\U{200A}')
    || c == '\U{2028}' || c == '\U{2029}' || c == '\U{202F}' || c == '\U{205F}'
    || c == '\U{3000}'
  }

  /** Removes the leading characters that satisfy `ws`. */
  function DropLeading(s: string, ws: char -> bool): (r: string)
    ensures |r| <= |s| && r == s[|s| - |r|..]
    ensures All(s[..|s| - |r|], ws)
    ensures r == [] || !ws(r[0])
  {
    if |s| > 0 && ws(s[0]) then
      var r := DropLeading(s[1..], ws);
      assert s[1..][..|s| - 1 - |r|] == s[1..|s| - |r|];
      r
    else s
  }

  /** Removes the trailing characters that satisfy `ws`. */
  function DropTrailing(s: string, ws: char -> bool): (r: string)
    ensures |r| <= |s| && r == s[..|r|]
    ensures All(s[|r|..], ws)
    ensures r == [] || !ws(r[|r| - 1])
  {
    if |s| > 0 && ws(s[|s| - 1]) then
      var r := DropTrailing(s[..|s| - 1], ws);
      assert s[..|s| - 1][|r|..] == s[|r|..|s| - 1];
      r
    else s
  }

  /** Removes the characters satisfying `ws` at both ends. */
  function TrimBy(s: string, ws: char -> bool): string {
    DropTrailing(DropLeading(s, ws), ws)
  }

  /** `String.prototype.trim`. */
  function JsTrim(s: string): string { TrimBy(s, IsJsWhitespace) }

  /** Python `str.strip()` with no argument. */
  function PyStrip(s: string): string { TrimBy(s, IsPyWhitespace) }

  lemma {:induction false} DropLeadingPadded(w: string, s: string, ws: char -> bool)
    requires All(w, ws)
    ensures DropLeading(w + s, ws) == DropLeading(s, ws)
    decreases |w|
  {
    if |w| > 0 {
      assert (w + s)[1..] == w[1..] + s;
      DropLeadingPadded(w[1..], s, ws);
    } else {
      assert w + s == s;
    }
  }

  lemma {:induction false} DropTrailingPadded(s: string, w: string, ws: char -> bool)
    requires All(w, ws)
    ensures DropTrailing(s + w, ws) == DropTrailing(s, ws)
    decreases |w|
  {
    if |w| > 0 {
      assert (s + w)[..|s + w| - 1] == s + w[..|w| - 1];
      DropTrailingPadded(s, w[..|w| - 1], ws);
    } else {
      assert s + w == s;
    }
  }

  /** Dropping trailing characters never uncovers droppable leading ones. */
  lemma DropLeadingOfDropTrailing(s: string, ws: char -> bool)
    requires s == [] || !ws(s[0])
    ensures DropLeading(DropTrailing(s, ws), ws) == DropTrailing(s, ws)
  {
  }

  lemma AllConcat(a: string, b: string, ws: char -> bool)
    requires All(a, ws) && All(b, ws)
    ensures All(a + b, ws)
  {
    forall i | 0 <= i < |a + b| ensures ws((a + b)[i]) {
      if i < |a| { assert (a + b)[i] == a[i]; } else { assert (a + b)[i] == b[i - |a|]; }
    }
  }

  /** A character satisfying `p` is in a concatenation exactly when it is in one part. */
  lemma AnyOfConcat(a: string, b: string, p: char -> bool)
    ensures Any(a + b, p) <==> Any(a, p) || Any(b, p)
  {
    if Any(a, p) {
      var i :| 0 <= i < |a| && p(a[i]);
      assert (a + b)[i] == a[i];
    }
    if Any(b, p) {
      var i :| 0 <= i < |b| && p(b[i]);
      assert (a + b)[|a| + i] == b[i];
    }
    if Any(a + b, p) {
      var i :| 0 <= i < |a + b| && p((a + b)[i]);
      if i < |a| { assert a[i] == (a + b)[i]; } else { assert b[i - |a|] == (a + b)[i]; }
    }
  }

  /** An all-whitespace string followed by whitespace is dropped entirely. */
  lemma DropLeadingAllWhitespace(s: string, w: string, ws: char -> bool)
    requires All(s, ws) && All(w, ws)
    ensures DropLeading(s + w, ws) == []
  {
    AllConcat(s, w, ws);
    assert (s + w) + [] == s + w;
    DropLeadingPadded(s + w, [], ws);
  }

  lemma Reassociate(a: string, b: string, c: string)
    ensures (a + b) + c == a + (b + c)
  {
  }

  lemma DropLeadingStopped(s: string, ws: char -> bool)
    requires s == [] || !ws(s[0])
    ensures DropLeading(s, ws) == s
  {
  }

  /** Trailing whitespace survives the leading drop and is then removed by the trailing one. */
  lemma TrimTrailingPadded(s: string, w: string, ws: char -> bool)
    requires All(w, ws)
    ensures DropTrailing(DropLeading(s + w, ws), ws) == DropTrailing(DropLeading(s, ws), ws)
  {
    var d := DropLeading(s, ws);
    var k := |s| - |d|;
    assert s[..k] + d == s;
    if d == [] {
      DropLeadingAllWhitespace(s, w, ws);
    } else {
      calc {
        DropLeading(s + w, ws);
        { Reassociate(s[..k], d, w); }
        DropLeading(s[..k] + (d + w), ws);
        { DropLeadingPadded(s[..k], d + w, ws); }
        DropLeading(d + w, ws);
        { assert (d + w)[0] == d[0]; DropLeadingStopped(d + w, ws); }
        d + w;
      }
      DropTrailingPadded(d, w, ws);
    }
  }

  /** A string that neither starts nor ends with a character of `ws` is its own trim. */
  lemma TrimUnpadded(s: string, ws: char -> bool)
    requires s == [] || (!ws(s[0]) && !ws(s[|s| - 1]))
    ensures TrimBy(s, ws) == s
  {
    DropLeadingStopped(s, ws);
  }

  /** Surrounding whitespace does not change the result of trimming. */
  lemma TrimPadded(w1: string, s: string, w2: string, ws: char -> bool)
    requires All(w1, ws) && All(w2, ws)
    ensures TrimBy(w1 + s + w2, ws) == TrimBy(s, ws)
  {
    assert w1 + s + w2 == w1 + (s + w2);
    DropLeadingPadded(w1, s + w2, ws);
    TrimTrailingPadded(s, w2, ws);
  }

  /** Trimming twice is trimming once. */
  lemma TrimIdempotent(s: string, ws: char -> bool)
    ensures TrimBy(TrimBy(s, ws), ws) == TrimBy(s, ws)
  {
    var t := TrimBy(s, ws);
    var d := DropLeading(s, ws);
    DropLeadingOfDropTrailing(d, ws);
  }

  /** ASCII-only lower-casing. */
  function ToLowerAscii(c: char): (r: char)
    ensures IsAsciiUpper(c) ==> IsAsciiLower(r)
    ensures !IsAsciiUpper(c) ==> r == c
  {
    if IsAsciiUpper(c) then (c as int + 32) as char else c
  }

  function LowerAscii(s: string): (r: string)
    ensures |r| == |s|
    ensures forall i :: 0 <= i < |s| ==> r[i] == ToLowerAscii(s[i])
  {
    seq(|s|, i requires 0 <= i < |s| => ToLowerAscii(s[i]))
  }

  /** Lower-casing leaves no ASCII capital behind, so doing it twice is doing it once; every
      other character is kept. */
  lemma LowerAsciiNormalizes(s: string)
    ensures !Any(LowerAscii(s), IsAsciiUpper)
    ensures LowerAscii(LowerAscii(s)) == LowerAscii(s)
    ensures forall i :: 0 <= i < |s| && !IsAsciiUpper(s[i]) ==> LowerAscii(s)[i] == s[i]
  {
    var r := LowerAscii(s);
    forall i | 0 <= i < |r| ensures !IsAsciiUpper(r[i]) {
      assert r[i] == ToLowerAscii(s[i]);
    }
  }

  /** `s.includes(sub)`: `sub` occurs in `s` at some position. */
  predicate Contains(s: string, sub: string) {
    exists i :: 0 <= i <= |s| && sub <= s[i..]
  }

  /** The length JavaScript reports: astral characters take two UTF-16 code units. */
  function Utf16Length(s: string): (n: nat)
    ensures |s| <= n <= 2 * |s|
  {
    if |s| == 0 then 0
    else (if s[0] as int > 0xFFFF then 2 else 1) + Utf16Length(s[1..])
  }

  /** Code units add up over concatenation. */
  lemma {:induction false} Utf16LengthConcat(a: string, b: string)
    ensures Utf16Length(a + b) == Utf16Length(a) + Utf16Length(b)
    decreases |a|
  {
    if |a| > 0 {
      assert (a + b)[0] == a[0];
      assert (a + b)[1..] == a[1..] + b;
      Utf16LengthConcat(a[1..], b);
    } else {
      assert a + b == b;
    }
  }

  function DigitChar(d: nat): (c: char)
    requires d < 10
    ensures IsAsciiDigit(c)
  {
    ('0' as int + d) as char
  }

  /** The decimal text of a natural number, as `String(n)` prints it. */
  function NatToString(n: nat): (r: string)
    ensures |r| > 0 && All(r, IsAsciiDigit)
    decreases n
  {
    if n < 10 then [DigitChar(n)]
    else NatToString(n / 10) + [DigitChar(n % 10)]
  }

  function IntToString(i: int): string {
    if i < 0 then "-" + NatToString(-i) else NatToString(i)
  }
}
