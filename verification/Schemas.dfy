/** The backend's signup schema (`UserCreate` in `schemas.py`): the declared field
    constraints and the `password_complexity` validator. Python strings are sequences of code
    points, so `len` is the Dafny length. */
module Schemas {
  import opened Base
  import opened Text
  import Validation

  const LengthMessage: string := "Password must be at least 8 characters long"
  const DigitMessage: string := "Password must contain at least one digit"
  const UppercaseMessage: string := "Password must contain at least one uppercase letter"

  /** Python's `str.isdigit` and `str.isupper` on a single character. Beyond ASCII they
      follow the Unicode database, which is not part of this model; they are a parameter, and
      `AsciiFaithful` pins down their ASCII part. */
  datatype CharClasses = CharClasses(isDigit: char -> bool, isUpper: char -> bool)

  ghost predicate AsciiFaithful(cc: CharClasses) {
    && (forall c: char :: c < '\U{80}' ==> (cc.isDigit(c) <==> IsAsciiDigit(c)))
    && (forall c: char :: c < '\U{80}' ==> (cc.isUpper(c) <==> IsAsciiUpper(c)))
  }

  /** `password_complexity`: the first failing rule's message, or the password itself. */
  function PasswordComplexity(cc: CharClasses, v: string): (r: Result<string, string>)
    ensures r.Ok? ==> r.value == v
  {
    if |v| < 8 then Err(LengthMessage)
    else if !Any(v, cc.isDigit) then Err(DigitMessage)
    else if !Any(v, cc.isUpper) then Err(UppercaseMessage)
    else Ok(v)
  }

  /** The rules in order: a short password gets the length message whatever else is wrong;
      a long enough one without a digit gets the digit message; one with a digit but no
      uppercase letter gets the uppercase message; only a password passing all three is
      accepted. */
  lemma PasswordRulesInOrder(cc: CharClasses, v: string)
    ensures PasswordComplexity(cc, v) == Err(LengthMessage) <==> |v| < 8
    ensures PasswordComplexity(cc, v) == Err(DigitMessage) <==>
      |v| >= 8 && forall i :: 0 <= i < |v| ==> !cc.isDigit(v[i])
    ensures PasswordComplexity(cc, v) == Err(UppercaseMessage) <==>
      |v| >= 8 && (exists i :: 0 <= i < |v| && cc.isDigit(v[i])) && forall i :: 0 <= i < |v| ==> !cc.isUpper(v[i])
    ensures PasswordComplexity(cc, v).Ok? <==>
      |v| >= 8 && (exists i :: 0 <= i < |v| && cc.isDigit(v[i])) && (exists i :: 0 <= i < |v| && cc.isUpper(v[i]))
  {
  }

  /** A password the signup form accepts is accepted here too, unless it contains a
      character outside the Basic Multilingual Plane. */
  lemma BackendAcceptsFormPassword(cc: CharClasses, v: string)
    requires AsciiFaithful(cc)
    requires Validation.ValidatePassword(v) && Utf16Length(v) == |v|
    ensures PasswordComplexity(cc, v) == Ok(v)
  {
    var i, j := FormPasswordWitnesses(v);
    AsciiWitnessesSuffice(cc, v, i, j);
  }

  lemma AsciiWitnessesSuffice(cc: CharClasses, v: string, i: nat, j: nat)
    requires AsciiFaithful(cc)
    requires i < |v| && j < |v| && IsAsciiDigit(v[i]) && IsAsciiUpper(v[j]) && |v| >= 8
    ensures PasswordComplexity(cc, v) == Ok(v)
  {
    assert v[i] < '\U{80}' && v[j] < '\U{80}';
    AcceptedWhenRulesHold(cc, v, i, j);
  }

  /** An accepted form password has an ASCII digit and an ASCII uppercase letter. */
  lemma FormPasswordWitnesses(v: string) returns (i: nat, j: nat)
    requires Validation.ValidatePassword(v)
    ensures i < |v| && j < |v| && IsAsciiDigit(v[i]) && IsAsciiUpper(v[j])
    ensures Utf16Length(v) >= 8
  {
    var e := Validation.EvaluatePassword(v);
    assert e.hasNumber && e.hasUppercase;
    i :| 0 <= i < |v| && IsAsciiDigit(v[i]);
    j :| 0 <= j < |v| && IsAsciiUpper(v[j]);
  }

  lemma AcceptedWhenRulesHold(cc: CharClasses, v: string, i: nat, j: nat)
    requires |v| >= 8 && i < |v| && j < |v| && cc.isDigit(v[i]) && cc.isUpper(v[j])
    ensures PasswordComplexity(cc, v) == Ok(v)
  {
  }

  /** An ASCII password accepted here is accepted by the signup form. */
  lemma FormAcceptsAsciiPassword(cc: CharClasses, v: string)
    requires AsciiFaithful(cc)
    requires forall i :: 0 <= i < |v| ==> v[i] < '\U{80}'
    requires PasswordComplexity(cc, v).Ok?
    ensures Validation.ValidatePassword(v)
  {
    var i :| 0 <= i < |v| && cc.isDigit(v[i]);
    var j :| 0 <= j < |v| && cc.isUpper(v[j]);
    assert IsAsciiDigit(v[i]) && IsAsciiUpper(v[j]);
  }

  /** The form counts UTF-16 code units and the backend code points: a password of five code
      points, three of them emoji, passes the form and fails the backend's length rule. */
  lemma AstralPasswordSplitsThem(cc: CharClasses)
    ensures var v := "A1\U{1F600}\U{1F600}\U{1F600}";
      Validation.ValidatePassword(v) && PasswordComplexity(cc, v) == Err(LengthMessage)
  {
    var v := "A1\U{1F600}\U{1F600}\U{1F600}";
    assert IsAsciiUpper(v[0]) && IsAsciiDigit(v[1]);
    assert Utf16Length(v) == 8 by {
      assert v[1..] == "1\U{1F600}\U{1F600}\U{1F600}";
      assert v[1..][1..] == "\U{1F600}\U{1F600}\U{1F600}";
      assert v[1..][1..][1..] == "\U{1F600}\U{1F600}";
      assert v[1..][1..][1..][1..] == "\U{1F600}";
      assert v[1..][1..][1..][1..][1..] == "";
    }
  }

  /** `age`: greater than 12 and less than 121. */
  predicate AgeValid(age: int) {
    12 < age < 121
  }

  lemma AgeRange(age: int)
    ensures AgeValid(age) <==> 13 <= age <= 120
  {
  }

  /** `^\+?[0-9]{10,15}$`. */
  predicate MatchesPhonePattern(s: string) {
    || (10 <= |s| <= 15 && All(s, IsAsciiDigit))
    || (|s| >= 1 && s[0] == '+' && 10 <= |s| - 1 <= 15 && All(s[1..], IsAsciiDigit))
  }

  /** `s` is an optional `+` followed by 10 to 15 ASCII digits. */
  predicate SignedDigits(s: string, sign: string, digits: string) {
    && s == sign + digits
    && (sign == "" || sign == "+")
    && 10 <= |digits| <= 15 && All(digits, IsAsciiDigit)
  }

  /** The pattern accepts exactly an optional `+` and then 10 to 15 digits. */
  lemma MatchesPhonePatternExactly(s: string)
    ensures MatchesPhonePattern(s) <==> exists sign, digits :: SignedDigits(s, sign, digits)
  {
    if MatchesPhonePattern(s) {
      if 10 <= |s| <= 15 && All(s, IsAsciiDigit) {
        assert s == "" + s;
        assert SignedDigits(s, "", s);
      } else {
        assert s == "+" + s[1..];
        assert SignedDigits(s, "+", s[1..]);
      }
    }
    forall sign, digits | SignedDigits(s, sign, digits) ensures MatchesPhonePattern(s) {
      if sign == "+" {
        assert s[1..] == digits;
      } else {
        assert s == digits;
      }
    }
  }

  /** `phone`: stripped of surrounding whitespace, then matched against the pattern; the
      stripped value is what is kept. */
  function ValidatePhone(v: string): (r: Result<string, string>)
    ensures r.Ok? <==> exists sign, digits :: SignedDigits(PyStrip(v), sign, digits)
    ensures r.Ok? ==> r.value == PyStrip(v) && 10 <= |r.value| <= 16
    ensures r.Ok? ==> forall i :: 0 <= i < |r.value| ==> IsAsciiDigit(r.value[i]) || (i == 0 && r.value[i] == '+')
  {
    var s := PyStrip(v);
    MatchesPhonePatternExactly(s);
    if MatchesPhonePattern(s) then
      assert forall i :: 1 <= i < |s| && s[0] == '+' ==> s[i] == s[1..][i - 1];
      Ok(s)
    else Err("phone")
  }

  /** Surrounding whitespace does not change the verdict or the kept value. */
  lemma PhoneIgnoresPadding(w1: string, s: string, w2: string)
    requires All(w1, IsPyWhitespace) && All(w2, IsPyWhitespace)
    ensures ValidatePhone(w1 + s + w2) == ValidatePhone(s)
  {
    TrimPadded(w1, s, w2, IsPyWhitespace);
  }

  /** A `+` and 10 to 15 digits, padded by whitespace, is accepted and kept without the
      padding. */
  lemma PhoneAcceptsPaddedNumber(w1: string, digits: string, w2: string)
    requires All(w1, IsPyWhitespace) && All(w2, IsPyWhitespace)
    requires 10 <= |digits| <= 15 && All(digits, IsAsciiDigit)
    ensures ValidatePhone(w1 + ("+" + digits) + w2) == Ok("+" + digits)
  {
    var s := "+" + digits;
    assert MatchesPhonePattern(s) by {
      assert s[1..] == digits;
    }
    TrimUnpadded(s, IsPyWhitespace);
    assert ValidatePhone(s) == Ok(s);
    PhoneIgnoresPadding(w1, s, w2);
  }

  /** `username` and `name`: 2 to 50 characters. */
  predicate LengthValid(s: string) {
    2 <= |s| <= 50
  }

  /** Every username the signup form accepts, once trimmed, meets the backend's length
      constraint. */
  lemma FormUsernameFitsBackend(v: string)
    requires Validation.ValidateUsername(v)
    ensures LengthValid(Validation.NormalizeUsername(v))
  {
  }

  /** `GenderEnum`. */
  datatype Gender = Female | Male | Other | Na

  function ParseGender(s: string): (r: Option<Gender>)
    ensures r.Some? ==> GenderName(r.value) == s
  {
    if s == "female" then Some(Female)
    else if s == "male" then Some(Male)
    else if s == "other" then Some(Other)
    else if s == "na" then Some(Na)
    else None
  }

  function GenderName(g: Gender): string {
    match g
    case Female => "female"
    case Male => "male"
    case Other => "other"
    case Na => "na"
  }

  /** Every enum value is accepted under its own name. */
  lemma GenderRoundTrip(g: Gender)
    ensures ParseGender(GenderName(g)) == Some(g)
  {
  }

  /** The signup body as received, and as validated. */
  datatype SignupInput = SignupInput(username: string, name: string, age: int, gender: string,
                                     phone: string, password: string)
  datatype UserCreate = UserCreate(username: string, name: string, age: int, gender: Gender,
                                   phone: string, password: string)

  /** A field that failed, with the validator's message where the schema supplies one. */
  datatype FieldError = FieldError(field: string, message: Option<string>)

  /** The errors of the fields, in declaration order (pydantic reports every failing field). */
  function FieldErrors(cc: CharClasses, u: SignupInput): seq<FieldError> {
    (if LengthValid(u.username) then [] else [FieldError("username", None)])
    + (if LengthValid(u.name) then [] else [FieldError("name", None)])
    + (if AgeValid(u.age) then [] else [FieldError("age", None)])
    + (if ParseGender(u.gender).Some? then [] else [FieldError("gender", None)])
    + (if ValidatePhone(u.phone).Ok? then [] else [FieldError("phone", None)])
    + (if PasswordComplexity(cc, u.password).Ok? then []
       else [FieldError("password", Some(PasswordComplexity(cc, u.password).error))])
  }

  function ValidateUserCreate(cc: CharClasses, u: SignupInput): (r: Result<UserCreate, seq<FieldError>>)
    ensures r.Err? ==> |r.error| > 0
  {
    var errors := FieldErrors(cc, u);
    if |errors| > 0 then Err(errors)
    else Ok(UserCreate(u.username, u.name, u.age, ParseGender(u.gender).value,
                       ValidatePhone(u.phone).value, u.password))
  }

  /** A signup body is accepted exactly when every field is; the accepted record keeps every
      field as sent except the phone, which is stripped. */
  lemma UserCreateAccepts(cc: CharClasses, u: SignupInput)
    ensures ValidateUserCreate(cc, u).Ok? <==>
      && LengthValid(u.username) && LengthValid(u.name) && 13 <= u.age <= 120
      && ParseGender(u.gender).Some? && ValidatePhone(u.phone).Ok? && PasswordComplexity(cc, u.password).Ok?
    ensures ValidateUserCreate(cc, u).Ok? ==>
      var r := ValidateUserCreate(cc, u).value;
      && r.username == u.username && r.name == u.name && r.age == u.age
      && GenderName(r.gender) == u.gender && r.phone == PyStrip(u.phone) && r.password == u.password
  {
  }

  /** A body whose only fault is the password reports only the password, with the
      validator's message. */
  lemma OnlyPasswordReported(cc: CharClasses, u: SignupInput)
    requires LengthValid(u.username) && LengthValid(u.name) && AgeValid(u.age)
    requires ParseGender(u.gender).Some? && ValidatePhone(u.phone).Ok?
    requires PasswordComplexity(cc, u.password).Err?
    ensures ValidateUserCreate(cc, u) == Err([FieldError("password", Some(PasswordComplexity(cc, u.password).error))])
  {
    var e: seq<FieldError> := [];
    var p := [FieldError("password", Some(PasswordComplexity(cc, u.password).error))];
    assert FieldErrors(cc, u) == e + e + e + e + e + p;
    assert e + e + e + e + e + p == p;
  }
}
