/** The request-body rules of `server/middleware/validators.js`, as the
    express-validator chains evaluate them: each field is converted to a string
    (`undefined`, `null` and `NaN` become `''`), trimmed, and then every validator
    of its chain runs (no chain stops at its first failure), each failing one
    contributing its message in chain order. `isEmail` is the validator.js
    predicate and is a parameter here. */
module Validators {
  import opened Js

  /** One entry of `validationResult(req).array()`. */
  datatype ValidationError = ValidationError(path: string, msg: string, value: string)

  /** One entry of the response's `errors` list. */
  datatype FieldError = FieldError(field: string, message: string)

  /** What `formatValidationErrors` does: pass on, or answer 400. */
  datatype Response =
    | Next
    | Reject(status: int, success: bool, message: string, errors: seq<FieldError>)

  const UsernameRequired := "Username is required"
  const UsernameTooShort := "Username must be at least 3 characters"
  const UsernameTooLong := "Username cannot exceed 30 characters"
  const UsernameCharset := "Username can only contain letters, numbers, underscores and hyphens"
  const EmailRequired := "Email is required"
  const EmailInvalid := "Please enter a valid email address"
  const PasswordRequired := "Password is required"
  const PasswordTooShort := "Password must be at least 6 characters"
  const PasswordTooLong := "Password cannot exceed 100 characters"
  const PasswordComplexity := "Password must contain at least one uppercase letter, one lowercase letter, and one number"
  const LoginUsernameRequired := "Username or email is required"

  /** The string a chain works on: `undefined`, `null` and `NaN` give `''`. */
  function FieldString(v: Value): (s: string)
    ensures v.Str? ==> s == v.s
  {
    match v
    case Undefined => ""
    case Null => ""
    case NaN => ""
    case _ => ToString(v)
  }

  /** `[a-zA-Z0-9_-]`. */
  predicate UsernameChar(c: char)
  {
    IsUpper(c) || IsLower(c) || IsDigit(c) || c == '_' || c == '-'
  }

  /** `/^[a-zA-Z0-9_-]+$/`. */
  predicate UsernamePattern(s: string)
  {
    |s| > 0 && forall i :: 0 <= i < |s| ==> UsernameChar(s[i])
  }

  /** The characters `.` does not match in a JavaScript regular expression. */
  predicate LineTerminator(c: char)
  {
    c == '\n' || c == '\r' || c == '\U{2028}' || c == '\U{2029}'
  }

  /** The text before the first line terminator. */
  function FirstLine(s: string): (r: string)
    ensures |r| <= |s| && r == s[..|r|]
    ensures forall i :: 0 <= i < |r| ==> !LineTerminator(r[i])
    ensures |r| < |s| ==> LineTerminator(s[|r|])
  {
    if s == [] || LineTerminator(s[0]) then [] else [s[0]] + FirstLine(s[1..])
  }

  predicate HasLower(s: string) { exists i :: 0 <= i < |s| && IsLower(s[i]) }
  predicate HasUpper(s: string) { exists i :: 0 <= i < |s| && IsUpper(s[i]) }
  predicate HasDigit(s: string) { exists i :: 0 <= i < |s| && IsDigit(s[i]) }

  /** `/^(?=.*[a-z])(?=.*[A-Z])(?=.*\d)/`: each lookahead scans with `.*` from
      the start, so it only sees the first line. */
  predicate PasswordPattern(s: string)
  {
    var line := FirstLine(s);
    HasLower(line) && HasUpper(line) && HasDigit(line)
  }

  /** The variation selectors U+FE0E and U+FE0F, which `isLength` does not count. */
  predicate VariationSelector(c: char) { c == '\U{FE0E}' || c == '\U{FE0F}' }

  /** The length `isLength` measures: one per code point (a surrogate pair counts
      once), variation selectors not counted. */
  function MeasuredLength(s: string): (n: nat)
    ensures n <= |s|
    ensures (forall i :: 0 <= i < |s| ==> !VariationSelector(s[i])) ==> n == |s|
    ensures (forall i :: 0 <= i < |s| ==> VariationSelector(s[i])) ==> n == 0
  {
    if s == [] then 0
    else (if VariationSelector(s[0]) then 0 else 1) + MeasuredLength(s[1..])
  }

  /** The messages of the failing username validators, in chain order. */
  function UsernameMessages(v: Value): seq<string>
  {
    var t := Trim(FieldString(v));
    (if t == "" then [UsernameRequired] else [])
    + (if MeasuredLength(t) < 3 then [UsernameTooShort] else [])
    + (if MeasuredLength(t) > 30 then [UsernameTooLong] else [])
    + (if !UsernamePattern(t) then [UsernameCharset] else [])
  }

  function EmailMessages(v: Value, isEmail: string -> bool): seq<string>
  {
    var t := Trim(FieldString(v));
    (if t == "" then [EmailRequired] else [])
    + (if !isEmail(t) then [EmailInvalid] else [])
  }

  function PasswordMessages(v: Value): seq<string>
  {
    var t := Trim(FieldString(v));
    (if t == "" then [PasswordRequired] else [])
    + (if MeasuredLength(t) < 6 then [PasswordTooShort] else [])
    + (if MeasuredLength(t) > 100 then [PasswordTooLong] else [])
    + (if !PasswordPattern(t) then [PasswordComplexity] else [])
  }

  /** Tags each message with its field and the trimmed value it was checked on. */
  function Tag(field: string, value: string, msgs: seq<string>): (r: seq<ValidationError>)
    ensures |r| == |msgs|
    ensures forall i :: 0 <= i < |r| ==> r[i] == ValidationError(field, msgs[i], value)
  {
    seq(|msgs|, i requires 0 <= i < |msgs| => ValidationError(field, msgs[i], value))
  }

  /** The errors `validateRegistration` collects: username, then email, then password. */
  function RegistrationErrors(username: Value, email: Value, password: Value, isEmail: string -> bool)
    : seq<ValidationError>
  {
    Tag("username", Trim(FieldString(username)), UsernameMessages(username))
    + Tag("email", Trim(FieldString(email)), EmailMessages(email, isEmail))
    + Tag("password", Trim(FieldString(password)), PasswordMessages(password))
  }

  /** The errors `validateLogin` collects. */
  function LoginErrors(username: Value, password: Value): seq<ValidationError>
  {
    var u := Trim(FieldString(username));
    var p := Trim(FieldString(password));
    Tag("username", u, if u == "" then [LoginUsernameRequired] else [])
    + Tag("password", p, if p == "" then [PasswordRequired] else [])
  }

  /** `formatValidationErrors`. */
  function Format(errors: seq<ValidationError>): (r: Response)
    ensures errors == [] <==> r == Next
    ensures r.Reject? ==> r.status == 400 && !r.success && r.message == "Validation error"
    ensures r.Reject? ==> |r.errors| == |errors|
    ensures r.Reject? ==> forall i :: 0 <= i < |errors| ==> r.errors[i] == FieldError(errors[i].path, errors[i].msg)
  {
    if errors == [] then Next
    else
      Reject(400, false, "Validation error",
        seq(|errors|, i requires 0 <= i < |errors| => FieldError(errors[i].path, errors[i].msg)))
  }

  // ---------------------------------------------------------------------------
  // Lemmas

  /** A username is accepted exactly when its trimmed form has 3 to 30 characters,
      all letters, digits, `_` or `-`. */
  lemma UsernameRule(v: Value)
    ensures UsernameMessages(v) == [] <==>
      var t := Trim(FieldString(v));
      3 <= |t| <= 30 && forall i :: 0 <= i < |t| ==> UsernameChar(t[i])
  {
  }

  /** A password is accepted exactly when its trimmed form measures 6 to 100
      characters and its first line holds a lower-case letter, an upper-case
      letter and a digit. */
  lemma PasswordRule(v: Value)
    ensures PasswordMessages(v) == [] <==>
      var t := Trim(FieldString(v));
      6 <= MeasuredLength(t) <= 100 && PasswordPattern(t)
  {
  }

  /** Any white space `trim()` removes is ignored, the ideographic space included:
      `"\u3000bob"` is the accepted username `bob`. */
  lemma IdeographicSpaceTrimmed()
    ensures UsernameMessages(Str("\U{3000}bob")) == []
  {
    var s := "\U{3000}bob";
    TrimLeadingSpace(s);
    UsernameRule(Str(s));
    assert 3 <= |"bob"| <= 30 && forall i :: 0 <= i < 3 ==> UsernameChar("bob"[i]);
  }

  lemma TrimLeadingSpace(s: string)
    requires s == "\U{3000}bob"
    ensures Trim(s) == "bob"
  {
    var t := s[1..];
    assert s == [s[0]] + t;
    assert t[0] == t[2] == 'b';
    TrimOneSpace(s[0], t);
  }

  /** One white-space character in front of unpadded text is trimmed away. */
  lemma TrimOneSpace(c: char, t: string)
    requires IsSpace(c) && t != [] && !IsSpace(t[0]) && !IsSpace(t[|t| - 1])
    ensures Trim([c] + t) == t
  {
    assert ([c] + t)[1..] == t;
    assert TrimStart([c] + t) == TrimStart(t) == t;
  }

  /** A variation selector does not count towards a password's length:
      `"aB1\uFE0Fcd"` is five characters long for `isLength` and is refused. */
  lemma VariationSelectorNotCounted()
    ensures PasswordTooShort in PasswordMessages(Str("aB1\U{FE0F}cd"))
  {
    var s := "aB1\U{FE0F}cd";
    MeasuredWithSelector(s);
    var m := PasswordMessages(Str(s));
    assert (if MeasuredLength(s) < 6 then [PasswordTooShort] else []) == [PasswordTooShort];
  }

  lemma MeasuredWithSelector(s: string)
    requires s == "aB1\U{FE0F}cd"
    ensures Trim(FieldString(Str(s))) == s && MeasuredLength(s) == 5
  {
    TrimUnpadded(s);
    SelectorMeasured(s[..3], s[3], s[4..]);
    assert s == s[..3] + [s[3]] + s[4..];
  }

  lemma SelectorMeasured(a: string, c: char, b: string)
    requires a == "aB1" && c == '\U{FE0F}' && b == "cd"
    ensures MeasuredLength(a + [c] + b) == 5
  {
    MeasuredLengthAppend(a + [c], b);
    MeasuredLengthAppend(a, [c]);
    assert forall i :: 0 <= i < |a| ==> !VariationSelector(a[i]);
    assert forall i :: 0 <= i < |b| ==> !VariationSelector(b[i]);
    assert VariationSelector([c][0]);
  }

  /** A string without white space at either end is its own trim. */
  lemma TrimUnpadded(s: string)
    requires s != [] && !IsSpace(s[0]) && !IsSpace(s[|s| - 1])
    ensures Trim(s) == s
  {
    assert TrimStart(s) == s;
  }

  lemma {:induction false} MeasuredLengthAppend(a: string, b: string)
    ensures MeasuredLength(a + b) == MeasuredLength(a) + MeasuredLength(b)
  {
    if a == [] {
      assert a + b == b;
    } else {
      assert (a + b)[0] == a[0] && (a + b)[1..] == a[1..] + b;
      MeasuredLengthAppend(a[1..], b);
    }
  }

  /** A missing username is reported three times: as missing, as too short and
      as breaking the character rule. */
  lemma MissingUsernameMessages()
    ensures UsernameMessages(Undefined) == [UsernameRequired, UsernameTooShort, UsernameCharset]
  {
    assert Trim(FieldString(Undefined)) == "";
  }

  /** Text after the first line terminator is not part of the first line. */
  lemma {:induction false} FirstLineStopsAtTerminator(a: string, b: string)
    requires forall i :: 0 <= i < |a| ==> !LineTerminator(a[i])
    requires b != [] && LineTerminator(b[0])
    ensures FirstLine(a + b) == a
  {
    if a == [] {
      assert a + b == b;
    } else {
      assert (a + b)[0] == a[0] && (a + b)[1..] == a[1..] + b;
      FirstLineStopsAtTerminator(a[1..], b);
    }
  }

  /** A second line does not help the password rule: `"abcdef\nA1"` is refused
      although it holds all three kinds of character. */
  lemma PasswordSecondLineIgnored()
    ensures !PasswordPattern("abcdef\nA1")
  {
    var s := "abcdef\nA1";
    assert s == "abcdef" + "\nA1";
    FirstLineStopsAtTerminator("abcdef", "\nA1");
    var line := FirstLine(s);
    assert !HasUpper(line);
  }

  /** Registration passes exactly when every field passes its chain. */
  lemma RegistrationRule(username: Value, email: Value, password: Value, isEmail: string -> bool)
    ensures Format(RegistrationErrors(username, email, password, isEmail)) == Next <==>
      UsernameMessages(username) == [] && EmailMessages(email, isEmail) == [] && PasswordMessages(password) == []
  {
  }

  /** Login passes exactly when both trimmed fields are non-empty; otherwise each
      empty field is reported once. */
  lemma LoginRule(username: Value, password: Value)
    ensures var u := Trim(FieldString(username));
      var p := Trim(FieldString(password));
      && (Format(LoginErrors(username, password)) == Next <==> u != "" && p != "")
      && |LoginErrors(username, password)| == (if u == "" then 1 else 0) + (if p == "" then 1 else 0)
  {
  }
}
