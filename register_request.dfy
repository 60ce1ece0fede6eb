/** The server-side constraints on a sign-up body (`RegisterRequest`): which
    fields are required, the phone pattern and the password pattern, and the
    message each violated constraint reports. The `@Email` check is a
    parameter. */
module Registration {
  import opened Text

  import opened Wrappers

  /** A sign-up body; `None` is a JSON field that is missing or `null`. */
  datatype RegisterRequest = RegisterRequest(
    firstName: Option<string>,
    lastName: Option<string>,
    email: Option<string>,
    phone: Option<string>,
    password: Option<string>)

  datatype Violation = Violation(field: string, message: string)

  const FirstNameRequired := "First Name is required"
  const EmailRequired := "Email is required"
  const InvalidEmailFormat := "Invalid email format"
  const PhoneRequired := "Phone Number is required"
  const PhoneTenDigits := "Phone must be exactly 10 digits"
  const PasswordRequired := "Password is required"
  const PasswordRules := "Password must have upper, lower, number, special char and be 8+ chars"

  /** `@NotBlank`: present, and not empty once Java's `trim` has removed the chars up to U+0020. */
  predicate NotBlank(s: Option<string>)
  {
    s.Some? && Trim(s.value, IsJavaSpace) != []
  }

  /** `^[0-9]{10}$`. */
  predicate PhonePattern(s: string)
  {
    |s| == 10 && forall i :: 0 <= i < |s| ==> IsAsciiDigit(s[i])
  }

  predicate IsBackendSpecial(c: char)
  {
    c == '@' || c == '$' || c == '!' || c == '%' || c == '*' || c == '?' || c == '&' || c == '#'
  }

  predicate HasLower(s: string) { exists i :: 0 <= i < |s| && IsAsciiLower(s[i]) }
  predicate HasUpper(s: string) { exists i :: 0 <= i < |s| && IsAsciiUpper(s[i]) }
  predicate HasDigit(s: string) { exists i :: 0 <= i < |s| && IsAsciiDigit(s[i]) }

  /** `^(?=.*[a-z])(?=.*[A-Z])(?=.*\d)(?=.*[@$!%*?&#])[A-Za-z\d@$!%*?&#]{8,}$`: eight or more chars, each
      a letter, a digit or one of `@$!%*?&#`, with at least one lower-case letter, one upper-case letter,
      one digit and one of the specials. */
  predicate PasswordPattern(s: string)
  {
    && |s| >= 8
    && (forall i :: 0 <= i < |s| ==> IsAsciiLetter(s[i]) || IsAsciiDigit(s[i]) || IsBackendSpecial(s[i]))
    && HasLower(s) && HasUpper(s) && HasDigit(s)
    && (exists i :: 0 <= i < |s| && IsBackendSpecial(s[i]))
  }

  /** A required field with a pattern: blank reports `required`; a present value that does not match
      reports `mismatch` as well (a missing value passes `@Pattern`). */
  function PatternViolations(field: string, value: Option<string>, matches: string -> bool,
                             required: string, mismatch: string): (v: set<Violation>)
    requires required != mismatch
    ensures v == {} <==> NotBlank(value) && matches(value.value)
    ensures Violation(field, required) in v <==> !NotBlank(value)
    ensures Violation(field, mismatch) in v <==> value.Some? && !matches(value.value)
  {
    (if NotBlank(value) then {} else {Violation(field, required)})
    + (if value.Some? && !matches(value.value) then {Violation(field, mismatch)} else {})
  }

  /** Every constraint the body breaks. `isEmail` is the `@Email` check, which lets the empty string
      through; `lastName` has no constraint. */
  function Violations(r: RegisterRequest, isEmail: string -> bool): (v: set<Violation>)
  {
    (if NotBlank(r.firstName) then {} else {Violation("firstName", FirstNameRequired)})
    + PatternViolations("email", r.email, s => s == [] || isEmail(s), EmailRequired, InvalidEmailFormat)
    + PatternViolations("phone", r.phone, PhonePattern, PhoneRequired, PhoneTenDigits)
    + PatternViolations("password", r.password, PasswordPattern, PasswordRequired, PasswordRules)
  }

  /** The body the server accepts. */
  predicate Accepted(r: RegisterRequest, isEmail: string -> bool)
  {
    && NotBlank(r.firstName)
    && NotBlank(r.email) && isEmail(r.email.value)
    && NotBlank(r.phone) && PhonePattern(r.phone.value)
    && NotBlank(r.password) && PasswordPattern(r.password.value)
  }

  /** A body is accepted exactly when it breaks no constraint, whatever its last name. */
  lemma NoViolationsIffAccepted(r: RegisterRequest, isEmail: string -> bool, lastName: Option<string>)
    ensures Violations(r, isEmail) == {} <==> Accepted(r, isEmail)
    ensures Violations(r.(lastName := lastName), isEmail) == Violations(r, isEmail)
  {
    var e := PatternViolations("email", r.email, s => s == [] || isEmail(s), EmailRequired, InvalidEmailFormat);
    var p := PatternViolations("phone", r.phone, PhonePattern, PhoneRequired, PhoneTenDigits);
    var w := PatternViolations("password", r.password, PasswordPattern, PasswordRequired, PasswordRules);
    if Violations(r, isEmail) == {} {
      assert e == {} && p == {} && w == {};
      assert r.email.value != [];
    }
  }

  /** An empty phone number is both blank and too short, so it reports both messages. */
  lemma EmptyPhoneReportsBoth(r: RegisterRequest, isEmail: string -> bool)
    requires r.phone == Some("")
    ensures Violation("phone", PhoneRequired) in Violations(r, isEmail)
    ensures Violation("phone", PhoneTenDigits) in Violations(r, isEmail)
  {
    var p := PatternViolations("phone", r.phone, PhonePattern, PhoneRequired, PhoneTenDigits);
    assert Violation("phone", PhoneRequired) in p && Violation("phone", PhoneTenDigits) in p;
  }

  /** Eight chars with one of each kind pass. */
  lemma PasswordPatternAccepts()
    ensures PasswordPattern("Abcdefg1#")
  {
    var ok := "Abcdefg1#";
    assert IsAsciiLower(ok[1]) && IsAsciiUpper(ok[0]) && IsAsciiDigit(ok[7]) && IsBackendSpecial(ok[8]);
  }

  /** Lacking an upper-case letter, a digit, length or an allowed char fails. */
  lemma PasswordPatternRejects()
    ensures !PasswordPattern("abcdefg1@")
    ensures !PasswordPattern("Abcdefgh@")
    ensures !PasswordPattern("Abcde1@")
    ensures !PasswordPattern("Abcdefg1 @")
  {
    var noUpper := "abcdefg1@";
    assert forall i :: 0 <= i < |noUpper| ==> !IsAsciiUpper(noUpper[i]);
    var noDigit := "Abcdefgh@";
    assert forall i :: 0 <= i < |noDigit| ==> !IsAsciiDigit(noDigit[i]);
    var blank := "Abcdefg1 @";
    assert !IsAsciiLetter(blank[8]) && !IsAsciiDigit(blank[8]) && !IsBackendSpecial(blank[8]);
  }
}
