/**
 * The profile form (components/WelcomeScreen.tsx): field validation, the e-mail pattern
 * `\S+@\S+\.\S+`, submission and the clearing of a field's error while typing.
 */
module WelcomeScreen {
  import opened Types
  import opened Optional

  datatype Field =
    | UserName | UserRole | UserPhone | UserEmail | CompanyName | Industry
    | CompanySize | PrimaryGoal | CurrentClimateInitiatives | Timeframe | GeographicScope

  function FieldValue(p: CompanyProfile, f: Field): string {
    match f
    case UserName => p.userName
    case UserRole => p.userRole
    case UserPhone => p.userPhone
    case UserEmail => p.userEmail
    case CompanyName => p.companyName
    case Industry => p.industry
    case CompanySize => p.companySize
    case PrimaryGoal => p.primaryGoal
    case CurrentClimateInitiatives => p.currentClimateInitiatives
    case Timeframe => p.timeframe
    case GeographicScope => p.geographicScope
  }

  /** `{ ...prev, [name]: value }`. */
  function SetField(p: CompanyProfile, f: Field, v: string): (r: CompanyProfile)
    ensures FieldValue(r, f) == v
    ensures forall g :: g != f ==> FieldValue(r, g) == FieldValue(p, g)
  {
    match f
    case UserName => p.(userName := v)
    case UserRole => p.(userRole := v)
    case UserPhone => p.(userPhone := v)
    case UserEmail => p.(userEmail := v)
    case CompanyName => p.(companyName := v)
    case Industry => p.(industry := v)
    case CompanySize => p.(companySize := v)
    case PrimaryGoal => p.(primaryGoal := v)
    case CurrentClimateInitiatives => p.(currentClimateInitiatives := v)
    case Timeframe => p.(timeframe := v)
    case GeographicScope => p.(geographicScope := v)
  }

  /** The fields that must be non-empty, besides the e-mail which has its own rule. */
  predicate PlainRequired(f: Field) {
    f in {UserName, CompanyName, Industry, CompanySize, PrimaryGoal, Timeframe, GeographicScope}
  }

  /**
   * JavaScript's `\s`: the ECMAScript WhiteSpace and LineTerminator characters
   * (tab, vertical tab, form feed, space, no-break space, the byte order mark, the
   * other space separators, line feed, carriage return, line and paragraph separators).
   */
  predicate IsWhitespace(c: char) {
    var n := c as int;
    n == 0x09 || n == 0x0A || n == 0x0B || n == 0x0C || n == 0x0D || n == 0x20 ||
    n == 0xA0 || n == 0x1680 || (0x2000 <= n <= 0x200A) || n == 0x2028 || n == 0x2029 ||
    n == 0x202F || n == 0x205F || n == 0x3000 || n == 0xFEFF
  }

  /** `\S+`: a non-empty run of non-whitespace. */
  predicate NonWhiteRun(t: string) {
    |t| > 0 && forall k :: 0 <= k < |t| ==> !IsWhitespace(t[k])
  }

  /** The anchored pattern `^\S+@\S+\.\S+$`: some '@' and some later '.' split `t` into three runs. */
  ghost predicate WholeMatch(t: string) {
    exists p, q :: 0 < p < q < |t| - 1 && t[p] == '@' && t[q] == '.' &&
      NonWhiteRun(t[..p]) && NonWhiteRun(t[p + 1..q]) && NonWhiteRun(t[q + 1..])
  }

  /** `RegExp.prototype.test` with the unanchored pattern: some substring matches in full. */
  ghost predicate RegexTest(s: string) {
    exists i, j :: 0 <= i <= j <= |s| && WholeMatch(s[i..j])
  }

  /**
   * The shortest witness of the pattern: an '@' at `b` and a '.' at `d` with one
   * non-whitespace character before the '@', one after the '.', and non-whitespace
   * (at least one character) in between.
   */
  predicate EmailMatchAt(s: string, b: int, d: int) {
    && 0 < b && b + 1 < d && d + 1 < |s|
    && s[b] == '@' && s[d] == '.'
    && !IsWhitespace(s[b - 1]) && !IsWhitespace(s[d + 1])
    && forall k :: b < k < d ==> !IsWhitespace(s[k])
  }

  /** The e-mail test of `validate`. */
  predicate EmailPattern(s: string) {
    exists b, d | 0 <= b < |s| && 0 <= d < |s| :: EmailMatchAt(s, b, d)
  }

  /** The pattern test is exactly "some substring has the form \S+@\S+\.\S+". */
  lemma EmailPatternIsRegexTest(s: string)
    ensures EmailPattern(s) <==> RegexTest(s)
  {
    if EmailPattern(s) {
      var b, d :| 0 <= b < |s| && 0 <= d < |s| && EmailMatchAt(s, b, d);
      var t := s[b - 1..d + 2];
      assert t[1] == '@' && t[d - b + 1] == '.';
      assert t[..1] == [s[b - 1]];
      assert t[d - b + 2..] == [s[d + 1]];
      var middle := t[2..d - b + 1];
      forall k | 0 <= k < |middle|
        ensures !IsWhitespace(middle[k])
      {
        assert middle[k] == s[b + 1 + k];
      }
      assert WholeMatch(t);
    }
    if RegexTest(s) {
      var i, j :| 0 <= i <= j <= |s| && WholeMatch(s[i..j]);
      var t := s[i..j];
      var p, q :| 0 < p < q < |t| - 1 && t[p] == '@' && t[q] == '.' &&
        NonWhiteRun(t[..p]) && NonWhiteRun(t[p + 1..q]) && NonWhiteRun(t[q + 1..]);
      assert t[..p][p - 1] == s[i + p - 1];
      assert t[q + 1..][0] == s[i + q + 1];
      forall k | i + p < k < i + q
        ensures !IsWhitespace(s[k])
      {
        assert t[k - i] == s[k];
        assert t[p + 1..q][k - i - p - 1] == t[k - i];
      }
      assert EmailMatchAt(s, i + p, i + q);
    }
  }

  /** The message `validate` records for one field, if the field fails its rule. */
  function FieldError(p: CompanyProfile, f: Field): Option<string> {
    match f
    case UserName => if p.userName == "" then Some("Your name is required.") else None
    case UserEmail =>
      if p.userEmail == "" then Some("A valid work email is required.")
      else if !EmailPattern(p.userEmail) then Some("Email is invalid.")
      else None
    case CompanyName => if p.companyName == "" then Some("Company name is required.") else None
    case Industry => if p.industry == "" then Some("Industry is required.") else None
    case CompanySize => if p.companySize == "" then Some("Company size is required.") else None
    case PrimaryGoal => if p.primaryGoal == "" then Some("Primary goal is required.") else None
    case Timeframe => if p.timeframe == "" then Some("Timeframe is required.") else None
    case GeographicScope => if p.geographicScope == "" then Some("Scope is required.") else None
    case UserRole => None
    case UserPhone => None
    case CurrentClimateInitiatives => None
  }

  const AllFields: set<Field> := {
    UserName, UserRole, UserPhone, UserEmail, CompanyName, Industry,
    CompanySize, PrimaryGoal, CurrentClimateInitiatives, Timeframe, GeographicScope }

  /** The errors map `validate` builds: one message per failing field. */
  function ValidationErrors(p: CompanyProfile): (errors: map<Field, string>)
    ensures forall f :: PlainRequired(f) ==> (f in errors <==> FieldValue(p, f) == "")
    ensures UserEmail in errors <==> p.userEmail == "" || !EmailPattern(p.userEmail)
    ensures p.userEmail == "" ==> errors[UserEmail] == "A valid work email is required."
    ensures p.userEmail != "" && !EmailPattern(p.userEmail) ==> errors[UserEmail] == "Email is invalid."
    ensures UserRole !in errors && UserPhone !in errors && CurrentClimateInitiatives !in errors
  {
    map f | f in AllFields && FieldError(p, f).Some? :: FieldError(p, f).value
  }

  /** `validate()`: true when no field has an error. */
  predicate Validate(p: CompanyProfile) {
    |ValidationErrors(p)| == 0
  }

  /** A profile passes exactly when every required field is filled and the e-mail matches. */
  lemma ValidateIffComplete(p: CompanyProfile)
    ensures Validate(p) <==>
      (forall f :: PlainRequired(f) ==> FieldValue(p, f) != "") && EmailPattern(p.userEmail)
  {
    var errors := ValidationErrors(p);
    if Validate(p) {
      assert errors == map[];
      forall f | PlainRequired(f)
        ensures FieldValue(p, f) != ""
      {
        assert f !in errors;
      }
      assert UserEmail !in errors;
    } else {
      assert errors.Keys != {};
      var f :| f in errors;
      assert f in AllFields;
    }
  }

  /** `handleSubmit`: the new errors, and the profile handed on only when it is valid. */
  function HandleSubmit(p: CompanyProfile): (r: (map<Field, string>, Option<CompanyProfile>))
    ensures r.0 == ValidationErrors(p)
    ensures r.1.Some? <==> Validate(p)
    ensures r.1.Some? ==> r.1.value == p
  {
    (ValidationErrors(p), if Validate(p) then Some(p) else None)
  }

  /** `handleChange`: the edited field takes the new value and loses its error; nothing else moves. */
  function HandleChange(p: CompanyProfile, errors: map<Field, string>, f: Field, v: string): (r: (CompanyProfile, map<Field, string>))
    ensures FieldValue(r.0, f) == v
    ensures forall g :: g != f ==> FieldValue(r.0, g) == FieldValue(p, g)
    ensures f !in r.1
    ensures forall g :: g != f ==> (g in r.1 <==> g in errors) && (g in errors ==> r.1[g] == errors[g])
  {
    (SetField(p, f, v), if f in errors then errors - {f} else errors)
  }
}
