/** The signup form's field validators (`validation.js`). Strings are JavaScript strings:
    `length` counts UTF-16 code units, `[A-Z]` and `\d` are ASCII classes, and `.` in a
    regular expression matches anything but a line terminator. */
module Validation {
  import opened Text

  /** `[A-Za-z0-9._]`. */
  predicate IsUsernameChar(c: char) {
    IsAsciiLetter(c) || IsAsciiDigit(c) || c == '.' || c == '_'
  }

  /** `[._]`. */
  predicate IsSeparator(c: char) {
    c == '.' || c == '_'
  }

  /** `usernameRegex`: an ASCII letter, then 2 to 19 characters of `[A-Za-z0-9._]`, and
      nothing else. */
  predicate MatchesUsernameRegex(s: string) {
    3 <= |s| <= 20 && IsAsciiLetter(s[0]) && forall i :: 1 <= i < |s| ==> IsUsernameChar(s[i])
  }

  /** `hasConsecutiveSpecialChars`: two adjacent characters from `[._]`. */
  predicate HasConsecutiveSpecialChars(s: string) {
    exists i :: 0 <= i && i + 1 < |s| && IsSeparator(s[i]) && IsSeparator(s[i + 1])
  }

  /** `normalizeUsername`: `trim()`; a missing value is the empty string. */
  function NormalizeUsername(v: string): string {
    JsTrim(v)
  }

  /** `validateUsername`: the trimmed value must be non-empty, match the pattern, and have no
      two separators in a row. */
  function ValidateUsername(v: string): bool {
    var n := NormalizeUsername(v);
    if n == "" then false
    else if !MatchesUsernameRegex(n) then false
    else if HasConsecutiveSpecialChars(n) then false
    else true
  }

  /** A single left-to-right scan of the trimmed value decides the same as the validator: the
      length and first-letter test, then each later character checked against the pattern and
      against its predecessor. */
  method CheckUsername(v: string) returns (ok: bool)
    ensures ok == ValidateUsername(v)
  {
    ok := ScanUsername(NormalizeUsername(v));
  }

  method ScanUsername(n: string) returns (ok: bool)
    ensures ok <==> MatchesUsernameRegex(n) && !HasConsecutiveSpecialChars(n)
  {
    if |n| < 3 || |n| > 20 || !IsAsciiLetter(n[0]) {
      return false;
    }
    var i := 1;
    while i < |n|
      invariant 1 <= i <= |n|
      invariant forall j :: 1 <= j < i ==> IsUsernameChar(n[j])
      invariant forall j :: 0 <= j && j + 1 < i ==> !(IsSeparator(n[j]) && IsSeparator(n[j + 1]))
    {
      if !IsUsernameChar(n[i]) {
        return false;
      }
      if IsSeparator(n[i - 1]) && IsSeparator(n[i]) {
        assert HasConsecutiveSpecialChars(n) by {
          assert 0 <= i - 1 && i - 1 + 1 < |n| && IsSeparator(n[i - 1]) && IsSeparator(n[i - 1 + 1]);
        }
        return false;
      }
      i := i + 1;
    }
    return true;
  }

  /** Surrounding whitespace does not change the verdict. */
  lemma UsernameIgnoresPadding(w1: string, s: string, w2: string)
    requires All(w1, IsJsWhitespace) && All(w2, IsJsWhitespace)
    ensures ValidateUsername(w1 + s + w2) == ValidateUsername(s)
  {
    TrimPadded(w1, s, w2, IsJsWhitespace);
  }

  /** Empty and whitespace-only input is rejected. */
  lemma BlankUsernameRejected(v: string)
    requires All(v, IsJsWhitespace)
    ensures !ValidateUsername(v)
  {
    TrimPadded(v, "", "", IsJsWhitespace);
    assert v + "" + "" == v;
    assert TrimBy("", IsJsWhitespace) == "";
  }

  /** What an accepted username looks like once trimmed: 3 to 20 characters, an ASCII letter
      first, only letters, digits, `.` and `_`, and a separator is never followed by another.
      Every trimmed value of that shape is accepted. */
  lemma AcceptedUsernameShape(v: string)
    ensures var n := NormalizeUsername(v);
      ValidateUsername(v) <==>
        && 3 <= |n| <= 20
        && IsAsciiLetter(n[0])
        && All(n, IsUsernameChar)
        && (forall i :: 0 <= i && i + 1 < |n| && IsSeparator(n[i]) ==> !IsSeparator(n[i + 1]))
  {
  }

  /** `evaluatePassword`'s three flags. */
  datatype PasswordChecks = PasswordChecks(length: bool, hasUppercase: bool, hasNumber: bool)

  function EvaluatePassword(v: string): (r: PasswordChecks)
    ensures r.length <==> Utf16Length(v) >= 8
    ensures r.hasUppercase <==> exists i :: 0 <= i < |v| && IsAsciiUpper(v[i])
    ensures r.hasNumber <==> exists i :: 0 <= i < |v| && IsAsciiDigit(v[i])
  {
    PasswordChecks(Utf16Length(v) >= 8, Any(v, IsAsciiUpper), Any(v, IsAsciiDigit))
  }

  /** Appending never clears a flag, and the flags do not depend on the order of the two
      parts: each is about the whole string's length or one of its characters. */
  lemma PasswordChecksSurviveAppending(v: string, w: string)
    ensures var e, f := EvaluatePassword(v), EvaluatePassword(v + w);
      (e.length ==> f.length) && (e.hasUppercase ==> f.hasUppercase) && (e.hasNumber ==> f.hasNumber)
    ensures EvaluatePassword(v + w) == EvaluatePassword(w + v)
    ensures ValidatePassword(v) ==> ValidatePassword(v + w)
  {
    Utf16LengthConcat(v, w);
    Utf16LengthConcat(w, v);
    AnyOfConcat(v, w, IsAsciiUpper);
    AnyOfConcat(v, w, IsAsciiDigit);
    AnyOfConcat(w, v, IsAsciiUpper);
    AnyOfConcat(w, v, IsAsciiDigit);
  }

  /** `validatePassword`: falsy or short input is rejected before the flags are looked at. */
  function ValidatePassword(v: string): (ok: bool)
    ensures var e := EvaluatePassword(v); ok <==> e.length && e.hasUppercase && e.hasNumber
    ensures v == "" ==> !ok
  {
    if v == "" || Utf16Length(v) < 8 then false
    else
      var checks := EvaluatePassword(v);
      checks.hasUppercase && checks.hasNumber
  }

  /** Some character satisfying `p` is reachable by `.*` from the start: no line terminator
      comes before it. */
  predicate LookaheadFinds(v: string, p: char -> bool) {
    exists i :: 0 <= i < |v| && p(v[i]) && !Any(v[..i], IsLineTerminator)
  }

  /** The exported `passwordRegex`: two lookaheads for `[A-Z]` and `\d`, then `.{8,}` over the
      whole string. `validatePassword` does not use it. */
  predicate MatchesPasswordRegex(v: string) {
    && LookaheadFinds(v, IsAsciiUpper)
    && LookaheadFinds(v, IsAsciiDigit)
    && !Any(v, IsLineTerminator)
    && Utf16Length(v) >= 8
  }

  /** The exported pattern and the validator agree on every password without a line break;
      the validator also accepts passwords that contain one. */
  lemma PasswordRegexAgreement(v: string)
    ensures MatchesPasswordRegex(v) ==> ValidatePassword(v)
    ensures ValidatePassword(v) && !Any(v, IsLineTerminator) ==> MatchesPasswordRegex(v)
  {
    if ValidatePassword(v) && !Any(v, IsLineTerminator) {
      var i :| 0 <= i < |v| && IsAsciiUpper(v[i]);
      var j :| 0 <= j < |v| && IsAsciiDigit(v[j]);
      assert !Any(v[..i], IsLineTerminator) by {
        forall k | 0 <= k < i ensures !IsLineTerminator(v[..i][k]) {
          assert v[..i][k] == v[k];
        }
      }
      assert !Any(v[..j], IsLineTerminator) by {
        forall k | 0 <= k < j ensures !IsLineTerminator(v[..j][k]) {
          assert v[..j][k] == v[k];
        }
      }
    }
  }

  /** A password ending in a newline passes the validator but not the exported pattern. */
  lemma LineBreakSeparatesThem()
    ensures ValidatePassword("Abcdefg1\n") && !MatchesPasswordRegex("Abcdefg1\n")
  {
    var v := "Abcdefg1\n";
    assert IsAsciiUpper(v[0]) && IsAsciiDigit(v[7]) && IsLineTerminator(v[8]);
  }
}
