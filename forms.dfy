/** The two sign-up forms of the web client (`DesktopForm` for travellers,
    `DesktopOperatorForm` for bus operators): the field checks `validateForm`
    runs before anything is sent, and how an error response from the server is
    turned into a message under one field. The last section sets the client's
    checks against the server's (`Registration`). */
module SignupForms {
  import opened Wrappers
  import opened Text
  import Registration

  // ---------------------------------------------------------------------------
  // Field checks

  /** `!value.trim()`: every char is JavaScript white space. */
  predicate JsBlank(s: string)
  {
    forall i :: 0 <= i < |s| ==> IsJsSpace(s[i])
  }

  /** A blank value is one that JavaScript's `trim` empties. */
  lemma JsBlankIffTrimEmpty(s: string)
    ensures JsBlank(s) <==> Trim(s, IsJsSpace) == []
  {
  }

  /** A char of `[^\s@]`. */
  predicate IsAddressChar(c: char)
  {
    !IsJsSpace(c) && c != '@'
  }

  predicate AllAddressChars(s: string)
  {
    forall i :: 0 <= i < |s| ==> IsAddressChar(s[i])
  }

  /** `/^[^\s@]+@[^\s@]+\.[^\s@]+$/.test(s)`: a non-empty local part, '@', then a non-empty domain, a dot
      and a non-empty tail, none of the three holding white space or '@'. */
  predicate EmailPattern(s: string)
  {
    exists a, d :: 0 < a && a + 1 < d && d + 1 < |s| && s[a] == '@' && s[d] == '.' &&
      AllAddressChars(s[..a]) && AllAddressChars(s[a + 1..d]) && AllAddressChars(s[d + 1..])
  }

  /** Where a matching address has its '@'. */
  ghost function EmailAt(s: string): (a: nat)
    requires EmailPattern(s)
    ensures 0 < a < |s| - 3 && s[a] == '@' && AllAddressChars(s[..a])
  {
    var a, d :| 0 < a && a + 1 < d && d + 1 < |s| && s[a] == '@' && s[d] == '.' &&
      AllAddressChars(s[..a]) && AllAddressChars(s[a + 1..d]) && AllAddressChars(s[d + 1..]);
    a
  }

  /** `s.replace(/\D/g, '')`: the ASCII digits of `s`, in order. */
  function DigitsOnly(s: string): (r: string)
    ensures |r| <= |s| && forall i :: 0 <= i < |r| ==> IsAsciiDigit(r[i])
  {
    if s == [] then [] else (if IsAsciiDigit(s[0]) then [s[0]] else []) + DigitsOnly(s[1..])
  }

  /** `/^\d{10}$/.test(s.replace(/\D/g, ''))`: exactly ten digits once everything else is deleted. */
  predicate PhoneDigits(s: string)
  {
    |DigitsOnly(s)| == 10
  }

  predicate IsClientSpecial(c: char)
  {
    c == '@' || c == '$' || c == '!' || c == '%' || c == '*' || c == '?' || c == '&'
  }

  /** `/^(?=.*[a-zA-Z])(?=.*\d)(?=.*[@$!%*?&])[A-Za-z\d@$!%*?&]{8,}$/`: eight or more chars, each a letter,
      a digit or one of `@$!%*?&`, with at least one letter, one digit and one of the specials. */
  predicate ClientPassword(s: string)
  {
    && |s| >= 8
    && (forall i :: 0 <= i < |s| ==> IsAsciiLetter(s[i]) || IsAsciiDigit(s[i]) || IsClientSpecial(s[i]))
    && (exists i :: 0 <= i < |s| && IsAsciiLetter(s[i]))
    && (exists i :: 0 <= i < |s| && IsAsciiDigit(s[i]))
    && (exists i :: 0 <= i < |s| && IsClientSpecial(s[i]))
  }

  /** A field that must not be blank and must pass a check: blank gives `required`, failing gives `invalid`. */
  function CheckedField(value: string, passes: bool, required: Message, invalid: Message): (e: Option<Message>)
    ensures e.None? <==> !JsBlank(value) && passes
    ensures JsBlank(value) ==> e == Some(required)
  {
    if JsBlank(value) then Some(required) else if !passes then Some(invalid) else None
  }

  function RequiredField(value: string, required: Message): (e: Option<Message>)
    ensures e.None? <==> !JsBlank(value)
    ensures e.Some? ==> e.value == required
  {
    if JsBlank(value) then Some(required) else None
  }

  // ---------------------------------------------------------------------------
  // The traveller form

  /** The keys of the error object; `Key` gives the property name the page uses. */
  datatype Field =
    | FirstName | LastName | Email | Phone | Password | ConfirmPassword | AgreeToTerms
    | OperatorName | ShortName | ContactPhone | ContactEmail | Address

  function Key(k: Field): string
  {
    match k
    case FirstName => "firstName"
    case LastName => "lastName"
    case Email => "email"
    case Phone => "phone"
    case Password => "password"
    case ConfirmPassword => "confirmPassword"
    case AgreeToTerms => "agreeToTerms"
    case OperatorName => "operatorName"
    case ShortName => "shortName"
    case ContactPhone => "contactPhone"
    case ContactEmail => "contactEmail"
    case Address => "address"
  }

  datatype SignupForm = SignupForm(
    firstName: string,
    lastName: string,
    email: string,
    phone: string,
    password: string,
    confirmPassword: string,
    agreeToTerms: bool)

  /** The messages `validateForm` records; `Words` gives the words the page shows. */
  datatype Message =
    | FirstNameRequired | LastNameRequired | EmailRequired | EmailInvalid | PhoneRequired | PhoneTenDigits
    | PasswordRequired | PasswordHint | ConfirmRequired | PasswordsDiffer | TermsRequired
    | CompanyNameRequired | ShortNameRequired | ContactPhoneRequired | ContactPhoneTenDigits
    | ContactEmailRequired | ContactEmailInvalid | AddressRequired

  function Words(m: Message): string
  {
    match m
    case FirstNameRequired => "First name is required"
    case LastNameRequired => "Last name is required"
    case EmailRequired => "Email is required"
    case EmailInvalid => "Please enter a valid email address"
    case PhoneRequired => "Phone number is required"
    case PhoneTenDigits => "Phone must be exactly 10 digits"
    case PasswordRequired => "Password is required"
    case PasswordHint => "Password must be at least 8 characters with letters, numbers, and symbols"
    case ConfirmRequired => "Please confirm your password"
    case PasswordsDiffer => "Passwords do not match"
    case TermsRequired => "You must agree to the terms and conditions"
    case CompanyNameRequired => "Company name is required"
    case ShortNameRequired => "Short name is required"
    case ContactPhoneRequired => "Contact phone is required"
    case ContactPhoneTenDigits => "Contact phone must be exactly 10 digits"
    case ContactEmailRequired => "Contact email is required"
    case ContactEmailInvalid => "Please enter a valid contact email"
    case AddressRequired => "Address is required"
  }

  /** The message `validateForm` records under `field`, if any. */
  function SignupFieldError(f: SignupForm, field: Field): Option<Message>
  {
    match field
    case FirstName => RequiredField(f.firstName, FirstNameRequired)
    case LastName => RequiredField(f.lastName, LastNameRequired)
    case Email => CheckedField(f.email, EmailPattern(f.email), EmailRequired, EmailInvalid)
    case Phone => CheckedField(f.phone, PhoneDigits(f.phone), PhoneRequired, PhoneTenDigits)
    case Password => CheckedField(f.password, ClientPassword(f.password), PasswordRequired, PasswordHint)
    case ConfirmPassword =>
      CheckedField(f.confirmPassword, f.password == f.confirmPassword, ConfirmRequired, PasswordsDiffer)
    case AgreeToTerms => if f.agreeToTerms then None else Some(TermsRequired)
    case OperatorName => None
    case ShortName => None
    case ContactPhone => None
    case ContactEmail => None
    case Address => None
  }

  /** Recording a field's error, if it has one, in the error object. */
  function Record(errors: map<Field, Message>, k: Field, e: Option<Message>): map<Field, Message>
  {
    if e.Some? then errors[k := e.value] else errors
  }

  /** The error object built by checking the fields `order` one after the other. */
  function Collect(err: Field -> Option<Message>, order: seq<Field>): map<Field, Message>
  {
    if order == [] then map[]
    else
      var k := order[|order| - 1];
      Record(Collect(err, order[..|order| - 1]), k, err(k))
  }

  /** The error object holds exactly the checked fields that have an error, each under its message. */
  lemma {:induction false} CollectAt(err: Field -> Option<Message>, order: seq<Field>, k: Field)
    ensures k in Collect(err, order) <==> k in order && err(k).Some?
    ensures k in Collect(err, order) ==> Collect(err, order)[k] == err(k).value
  {
    if order != [] {
      var init := order[..|order| - 1];
      CollectAt(err, init, k);
      assert order == init + [order[|order| - 1]];
    }
  }

  /** Checking one more field records its error on top of the earlier ones. */
  lemma CollectSnoc(err: Field -> Option<Message>, order: seq<Field>, k: Field)
    ensures Collect(err, order + [k]) == Record(Collect(err, order), k, err(k))
  {
    assert (order + [k])[..|order|] == order;
  }

  /** No error at all exactly when every checked field passes. */
  lemma CollectEmpty(err: Field -> Option<Message>, order: seq<Field>)
    ensures Collect(err, order) == map[] <==> forall k :: k in order ==> err(k).None?
  {
    if Collect(err, order) == map[] {
      forall k | k in order ensures err(k).None? {
        CollectAt(err, order, k);
      }
    } else {
      var k :| k in Collect(err, order);
      CollectAt(err, order, k);
    }
  }

  lemma EmptyMapHasNoSize<K, V>(m: map<K, V>)
    ensures |m| == 0 <==> m == map[]
  {
    if m != map[] {
      var k :| k in m;
      assert k in m.Keys;
    }
  }

  /** One `if (!value.trim()) … else if (!check) …` step of `validateForm`. */
  method CheckField(errors: map<Field, Message>, k: Field, value: string, passes: bool, required: Message, invalid: Message)
    returns (r: map<Field, Message>)
    ensures r == Record(errors, k, CheckedField(value, passes, required, invalid))
  {
    r := errors;
    if JsBlank(value) {
      r := r[k := required];
    } else if !passes {
      r := r[k := invalid];
    }
  }

  /** One `if (!value.trim())` step of `validateForm`. */
  method CheckRequired(errors: map<Field, Message>, k: Field, value: string, required: Message) returns (r: map<Field, Message>)
    ensures r == Record(errors, k, RequiredField(value, required))
  {
    r := errors;
    if JsBlank(value) {
      r := r[k := required];
    }
  }

  /** The personal fields, in the order both forms check them first, one after the other. */
  const PersonalOrder: seq<Field> :=
    [FirstName] + [LastName] + [Email] + [Phone] + [Password] + [ConfirmPassword]

  /** The order in which the traveller form checks its fields. */
  const SignupOrder: seq<Field> := PersonalOrder + [AgreeToTerms]

  function SignupCheck(f: SignupForm): Field -> Option<Message>
  {
    k => SignupFieldError(f, k)
  }

  /** The error object `validateForm` builds: one entry per failing field. */
  function SignupErrors(f: SignupForm): map<Field, Message>
  {
    Collect(SignupCheck(f), SignupOrder)
  }

  /** The form the client sends. */
  predicate SignupValid(f: SignupForm)
  {
    && !JsBlank(f.firstName) && !JsBlank(f.lastName)
    && !JsBlank(f.email) && EmailPattern(f.email)
    && !JsBlank(f.phone) && PhoneDigits(f.phone)
    && !JsBlank(f.password) && ClientPassword(f.password)
    && !JsBlank(f.confirmPassword) && f.password == f.confirmPassword
    && f.agreeToTerms
  }

  /** The traveller form's error object names each failing field of the form with its message, and
      nothing else. */
  lemma SignupErrorsAt(f: SignupForm, k: Field)
    ensures k in SignupErrors(f) <==> !IsCompanyField(k) && SignupFieldError(f, k).Some?
    ensures k in SignupErrors(f) ==> SignupErrors(f)[k] == SignupFieldError(f, k).value
  {
    CollectAt(SignupCheck(f), SignupOrder, k);
  }

  /** No field error exactly when the form is valid. */
  lemma SignupErrorsEmptyIffValid(f: SignupForm)
    ensures SignupErrors(f) == map[] <==> SignupValid(f)
  {
    CollectEmpty(SignupCheck(f), SignupOrder);
    if SignupValid(f) {
      forall k | k in SignupOrder ensures SignupFieldError(f, k).None? {
        SignupFieldPasses(f, k);
      }
    } else {
      var k := SignupFailingField(f);
      assert k in SignupOrder;
    }
  }

  lemma SignupFieldPasses(f: SignupForm, k: Field)
    requires SignupValid(f)
    ensures SignupFieldError(f, k).None?
  {
  }

  /** A field that reports an error on a form that is not valid. */
  function SignupFailingField(f: SignupForm): (k: Field)
    requires !SignupValid(f)
    ensures !IsCompanyField(k) && SignupFieldError(f, k).Some?
  {
    SignupFieldErrors(f);
    if JsBlank(f.firstName) then FirstName
    else if JsBlank(f.lastName) then LastName
    else if JsBlank(f.email) || !EmailPattern(f.email) then Email
    else if JsBlank(f.phone) || !PhoneDigits(f.phone) then Phone
    else if JsBlank(f.password) || !ClientPassword(f.password) then Password
    else if JsBlank(f.confirmPassword) || f.password != f.confirmPassword then ConfirmPassword
    else AgreeToTerms
  }

  /** The personal checks written out one by one. */
  lemma PersonalErrorsSteps(f: SignupForm)
    ensures Collect(SignupCheck(f), PersonalOrder) == Record(Record(Record(Record(Record(Record(map[], FirstName, SignupFieldError(f, FirstName)), LastName, SignupFieldError(f, LastName)), Email, SignupFieldError(f, Email)), Phone, SignupFieldError(f, Phone)), Password, SignupFieldError(f, Password)), ConfirmPassword, SignupFieldError(f, ConfirmPassword))
  {
    var err := SignupCheck(f);
    assert [] + [FirstName] == [FirstName];
    CollectSnoc(err, [], FirstName);
    CollectSnoc(err, [FirstName], LastName);
    CollectSnoc(err, [FirstName] + [LastName], Email);
    CollectSnoc(err, [FirstName] + [LastName] + [Email], Phone);
    CollectSnoc(err, [FirstName] + [LastName] + [Email] + [Phone], Password);
    CollectSnoc(err, [FirstName] + [LastName] + [Email] + [Phone] + [Password], ConfirmPassword);
  }

  lemma SignupFieldErrors(f: SignupForm)
    ensures SignupFieldError(f, FirstName) == RequiredField(f.firstName, FirstNameRequired)
    ensures SignupFieldError(f, LastName) == RequiredField(f.lastName, LastNameRequired)
    ensures SignupFieldError(f, Email) == CheckedField(f.email, EmailPattern(f.email), EmailRequired, EmailInvalid)
    ensures SignupFieldError(f, Phone) == CheckedField(f.phone, PhoneDigits(f.phone), PhoneRequired, PhoneTenDigits)
    ensures SignupFieldError(f, Password) == CheckedField(f.password, ClientPassword(f.password), PasswordRequired, PasswordHint)
    ensures SignupFieldError(f, ConfirmPassword) == CheckedField(f.confirmPassword, f.password == f.confirmPassword, ConfirmRequired, PasswordsDiffer)
    ensures SignupFieldError(f, AgreeToTerms) == if f.agreeToTerms then None else Some(TermsRequired)
  {
  }

  /** The first six checks of `validateForm`, on the personal fields; both forms run them alike. */
  method CheckPersonal(f: SignupForm) returns (errors: map<Field, Message>)
    ensures errors == Collect(SignupCheck(f), PersonalOrder)
  {
    errors := map[];
    errors := CheckRequired(errors, FirstName, f.firstName, FirstNameRequired);
    errors := CheckRequired(errors, LastName, f.lastName, LastNameRequired);
    errors := CheckField(errors, Email, f.email, EmailPattern(f.email), EmailRequired, EmailInvalid);
    errors := CheckField(errors, Phone, f.phone, PhoneDigits(f.phone), PhoneRequired, PhoneTenDigits);
    errors := CheckField(errors, Password, f.password, ClientPassword(f.password), PasswordRequired, PasswordHint);
    errors := CheckField(errors, ConfirmPassword, f.confirmPassword, f.password == f.confirmPassword, ConfirmRequired, PasswordsDiffer);
    PersonalErrorsSteps(f);
    SignupFieldErrors(f);
  }

  /** The last check of `validateForm`. */
  method CheckTerms(errors: map<Field, Message>, agreeToTerms: bool) returns (r: map<Field, Message>)
    ensures r == Record(errors, AgreeToTerms, if agreeToTerms then None else Some(TermsRequired))
  {
    r := errors;
    if !agreeToTerms {
      r := r[AgreeToTerms := TermsRequired];
    }
  }

  /** `validateForm` of the traveller form: fills the error object check by check and answers whether it
      stayed empty. */
  method ValidateSignup(f: SignupForm) returns (errors: map<Field, Message>, valid: bool)
    ensures errors == SignupErrors(f)
    ensures valid <==> SignupValid(f)
  {
    errors := CheckPersonal(f);
    errors := CheckTerms(errors, f.agreeToTerms);
    CollectSnoc(SignupCheck(f), PersonalOrder, AgreeToTerms);
    SignupErrorsEmptyIffValid(f);
    EmptyMapHasNoSize(errors);
    valid := |errors| == 0;
  }

  // ---------------------------------------------------------------------------
  // The operator form

  datatype OperatorForm = OperatorForm(
    personal: SignupForm,
    operatorName: string,
    shortName: string,
    contactPhone: string,
    contactEmail: string,
    address: string)

  /** The fields only the operator form has. */
  predicate IsCompanyField(k: Field)
  {
    k.OperatorName? || k.ShortName? || k.ContactPhone? || k.ContactEmail? || k.Address?
  }

  /** The order in which the operator form checks its fields: the personal ones, the company ones, then
      the terms. */
  const OperatorOrder: seq<Field> :=
    PersonalOrder + [OperatorName] + [ShortName] + [ContactPhone] + [ContactEmail] + [Address] + [AgreeToTerms]

  /** The message the operator form's `validateForm` records under a company field, if any. */
  function CompanyFieldError(f: OperatorForm, field: Field): Option<Message>
  {
    match field
    case OperatorName => RequiredField(f.operatorName, CompanyNameRequired)
    case ShortName => RequiredField(f.shortName, ShortNameRequired)
    case ContactPhone =>
      CheckedField(f.contactPhone, PhoneDigits(f.contactPhone), ContactPhoneRequired, ContactPhoneTenDigits)
    case ContactEmail =>
      CheckedField(f.contactEmail, EmailPattern(f.contactEmail), ContactEmailRequired, ContactEmailInvalid)
    case Address => RequiredField(f.address, AddressRequired)
    case _ => None
  }

  /** The message the operator form's `validateForm` records under `field`, if any: its checks of the
      personal fields and of the terms are word for word those of the traveller form. */
  function OperatorFieldError(f: OperatorForm, field: Field): Option<Message>
  {
    if IsCompanyField(field) then CompanyFieldError(f, field) else SignupFieldError(f.personal, field)
  }

  function OperatorCheck(f: OperatorForm): Field -> Option<Message>
  {
    k => OperatorFieldError(f, k)
  }

  function OperatorErrors(f: OperatorForm): map<Field, Message>
  {
    Collect(OperatorCheck(f), OperatorOrder)
  }

  /** The operator form the client sends: the traveller rules plus the company fields. */
  predicate OperatorValid(f: OperatorForm)
  {
    && SignupValid(f.personal)
    && !JsBlank(f.operatorName) && !JsBlank(f.shortName)
    && !JsBlank(f.contactPhone) && PhoneDigits(f.contactPhone)
    && !JsBlank(f.contactEmail) && EmailPattern(f.contactEmail)
    && !JsBlank(f.address)
  }

  /** On its personal fields the operator form reports what the traveller form reports, with the same
      messages; the company fields come on top. */
  lemma OperatorFormRepeatsPersonalRules(f: OperatorForm, k: Field)
    ensures !IsCompanyField(k) ==> OperatorFieldError(f, k) == SignupFieldError(f.personal, k)
    ensures k in OperatorErrors(f) <==>
      k in SignupErrors(f.personal) || (IsCompanyField(k) && OperatorFieldError(f, k).Some?)
  {
    CollectAt(OperatorCheck(f), OperatorOrder, k);
    SignupErrorsAt(f.personal, k);
  }

  lemma CompanyFieldPasses(f: OperatorForm, k: Field)
    requires OperatorValid(f)
    ensures OperatorFieldError(f, k).None?
  {
    if !IsCompanyField(k) {
      OperatorFormRepeatsPersonalRules(f, k);
      SignupFieldPasses(f.personal, k);
    }
  }

  function CompanyFailingField(f: OperatorForm): (k: Field)
    requires SignupValid(f.personal) && !OperatorValid(f)
    ensures IsCompanyField(k) && OperatorFieldError(f, k).Some?
  {
    if JsBlank(f.operatorName) then OperatorName
    else if JsBlank(f.shortName) then ShortName
    else if JsBlank(f.contactPhone) || !PhoneDigits(f.contactPhone) then ContactPhone
    else if JsBlank(f.contactEmail) || !EmailPattern(f.contactEmail) then ContactEmail
    else Address
  }

  /** No field error on the operator form exactly when it is valid. */
  lemma OperatorErrorsEmptyIffValid(f: OperatorForm)
    ensures OperatorErrors(f) == map[] <==> OperatorValid(f)
  {
    CollectEmpty(OperatorCheck(f), OperatorOrder);
    if OperatorValid(f) {
      forall k | k in OperatorOrder ensures OperatorFieldError(f, k).None? {
        CompanyFieldPasses(f, k);
      }
    } else if SignupValid(f.personal) {
      var k := CompanyFailingField(f);
      assert k in OperatorOrder;
    } else {
      var k := SignupFailingField(f.personal);
      OperatorFormRepeatsPersonalRules(f, k);
      assert k in OperatorOrder;
    }
  }

  /** Two checks that agree on every field of `order` build the same error object. */
  lemma {:induction false} CollectAgree(err: Field -> Option<Message>, other: Field -> Option<Message>, order: seq<Field>)
    requires forall k :: k in order ==> err(k) == other(k)
    ensures Collect(err, order) == Collect(other, order)
  {
    if order != [] {
      var init := order[..|order| - 1];
      assert forall k :: k in init ==> k in order;
      CollectAgree(err, other, init);
    }
  }

  /** `OperatorErrors` written out check by check after the personal ones. */
  lemma OperatorErrorsSteps(f: OperatorForm)
    ensures OperatorErrors(f) == Record(Record(Record(Record(Record(Record(Collect(SignupCheck(f.personal), PersonalOrder), OperatorName, OperatorFieldError(f, OperatorName)), ShortName, OperatorFieldError(f, ShortName)), ContactPhone, OperatorFieldError(f, ContactPhone)), ContactEmail, OperatorFieldError(f, ContactEmail)), Address, OperatorFieldError(f, Address)), AgreeToTerms, OperatorFieldError(f, AgreeToTerms))
  {
    var err := OperatorCheck(f);
    forall k | k in PersonalOrder ensures SignupCheck(f.personal)(k) == err(k) {
      assert !IsCompanyField(k);
    }
    CollectAgree(SignupCheck(f.personal), err, PersonalOrder);
    var o := PersonalOrder;
    CollectSnoc(err, o, OperatorName);
    CollectSnoc(err, o + [OperatorName], ShortName);
    CollectSnoc(err, o + [OperatorName] + [ShortName], ContactPhone);
    CollectSnoc(err, o + [OperatorName] + [ShortName] + [ContactPhone], ContactEmail);
    CollectSnoc(err, o + [OperatorName] + [ShortName] + [ContactPhone] + [ContactEmail], Address);
    CollectSnoc(err, o + [OperatorName] + [ShortName] + [ContactPhone] + [ContactEmail] + [Address], AgreeToTerms);
  }

  /** The company checks of `validateForm` that only ask for a value, */
  lemma RequiredCompanyFields(f: OperatorForm)
    ensures OperatorFieldError(f, OperatorName) == RequiredField(f.operatorName, CompanyNameRequired)
    ensures OperatorFieldError(f, ShortName) == RequiredField(f.shortName, ShortNameRequired)
    ensures OperatorFieldError(f, Address) == RequiredField(f.address, AddressRequired)
  {
  }

  /** and those that check it too, with the terms that close the form. */
  lemma CheckedCompanyFields(f: OperatorForm)
    ensures OperatorFieldError(f, ContactPhone) == CheckedField(f.contactPhone, PhoneDigits(f.contactPhone), ContactPhoneRequired, ContactPhoneTenDigits)
    ensures OperatorFieldError(f, ContactEmail) == CheckedField(f.contactEmail, EmailPattern(f.contactEmail), ContactEmailRequired, ContactEmailInvalid)
    ensures OperatorFieldError(f, AgreeToTerms) == if f.personal.agreeToTerms then None else Some(TermsRequired)
  {
  }

  /** `validateForm` of the operator form. */
  method ValidateOperator(f: OperatorForm) returns (errors: map<Field, Message>, valid: bool)
    ensures errors == OperatorErrors(f)
    ensures valid <==> OperatorValid(f)
  {
    errors := CheckPersonal(f.personal);
    errors := CheckRequired(errors, OperatorName, f.operatorName, CompanyNameRequired);
    errors := CheckRequired(errors, ShortName, f.shortName, ShortNameRequired);
    errors := CheckField(errors, ContactPhone, f.contactPhone, PhoneDigits(f.contactPhone), ContactPhoneRequired, ContactPhoneTenDigits);
    errors := CheckField(errors, ContactEmail, f.contactEmail, EmailPattern(f.contactEmail), ContactEmailRequired, ContactEmailInvalid);
    errors := CheckRequired(errors, Address, f.address, AddressRequired);
    errors := CheckTerms(errors, f.personal.agreeToTerms);
    OperatorErrorsSteps(f);
    RequiredCompanyFields(f);
    CheckedCompanyFields(f);
    OperatorErrorsEmptyIffValid(f);
    EmptyMapHasNoSize(errors);
    valid := |errors| == 0;
  }

  // ---------------------------------------------------------------------------
  // Server errors shown under a field

  /** The body of a refused registration as `JSON.parse` sees it: not JSON (or `null`), or an object whose
      `message` is a string or absent. */
  datatype ErrorBody = NotJson | Json(message: Option<string>)

  /** What the page shows: a message under one field (`None` is `undefined`), or a general message. */
  datatype Feedback = FieldMessage(field: Field, message: Option<string>) | General(text: string)

  const EmailInUse := "Email already in use"
  const PhoneInUse := "Phone already in use"
  const RegistrationFailed := "Registration failed"
  const TryAgain := "Registration failed. Please try again."

  /** `errorObj.message && …`: present and not the empty string. */
  predicate Truthy(m: Option<string>)
  {
    m.Some? && m.value != []
  }

  /** `s.indexOf(part)`: the first place where `part` occurs. */
  function IndexOf(s: string, part: string): (r: Option<nat>)
    ensures r.Some? ==> OccursAt(s, part, r.value) && forall j :: 0 <= j < r.value ==> !OccursAt(s, part, j)
    ensures r.None? <==> !Contains(s, part)
    decreases |s|
  {
    if OccursAt(s, part, 0) then Some(0)
    else if |s| <= |part| then
      assert forall j :: 0 < j ==> !OccursAt(s, part, j);
      None
    else
      OccursAtTail(s, part);
      match IndexOf(s[1..], part)
      case None => None
      case Some(i) => Some(i + 1)
  }

  lemma OccursAtTail(s: string, part: string)
    requires s != []
    ensures forall j :: 1 <= j ==> (OccursAt(s, part, j) <==> OccursAt(s[1..], part, j - 1))
  {
    forall j | 1 <= j
      ensures OccursAt(s, part, j) <==> OccursAt(s[1..], part, j - 1)
    {
      if j + |part| <= |s| {
        assert s[1..][j - 1..j - 1 + |part|] == s[j..j + |part|];
      }
    }
  }

  /** `s.split(sep)[1]`: the text between the first and the second `sep`, or up to the end; `undefined`
      when `sep` does not occur. */
  function SplitSecond(s: string, sep: string): (r: Option<string>)
    requires sep != []
    ensures r.None? <==> !Contains(s, sep)
    ensures r.Some? ==> !Contains(r.value, sep)
  {
    match IndexOf(s, sep)
    case None => None
    case Some(i) =>
      var rest := s[i + |sep|..];
      match IndexOf(rest, sep)
      case None => Some(rest)
      case Some(j) =>
        assert !Contains(rest[..j], sep) by {
          forall k | 0 <= k <= |rest[..j]| - |sep| ensures !OccursAt(rest[..j], sep, k) {
            if OccursAt(rest[..j], sep, k) {
              assert rest[..j][k..k + |sep|] == rest[k..k + |sep|];
              assert OccursAt(rest, sep, k);
            }
          }
        }
        Some(rest[..j])
  }

  /** The traveller form's reading of a refused registration: `text` is the body, `body` what
      `JSON.parse(text)` gives. */
  function SignupServerError(text: string, body: ErrorBody): (r: Feedback)
    ensures r.FieldMessage? ==> r.field == Email || r.field == Phone
    ensures body.Json? && Truthy(body.message) && Contains(body.message.value, "phone:") ==>
      r == FieldMessage(Phone, Some("Phone must be exactly 10 digits"))
    ensures body.NotJson? && Contains(text, EmailInUse) ==> r == FieldMessage(Email, Some(EmailInUse))
    ensures r.General? ==> !Contains(text, EmailInUse) && !Contains(text, PhoneInUse)
  {
    match body
    case Json(m) =>
      if Truthy(m) && Contains(m.value, "phone:") then FieldMessage(Phone, Some("Phone must be exactly 10 digits"))
      else if Truthy(m) && Contains(m.value, "email:") then FieldMessage(Email, SplitSecond(m.value, "email: "))
      else if Contains(text, EmailInUse) then FieldMessage(Email, Some(EmailInUse))
      else if Contains(text, PhoneInUse) then FieldMessage(Phone, Some(PhoneInUse))
      else General(if Truthy(m) then m.value else RegistrationFailed)
    case NotJson =>
      if Contains(text, EmailInUse) then FieldMessage(Email, Some(EmailInUse))
      else if Contains(text, PhoneInUse) then FieldMessage(Phone, Some(PhoneInUse))
      else General(TryAgain)
  }

  /** The operator form's reading: `email:` is looked for before `phone:`, and a body that is not JSON
      always gives the general message. */
  function OperatorServerError(text: string, body: ErrorBody): (r: Feedback)
    ensures r.FieldMessage? ==> r.field == Email || r.field == Phone
    ensures body.NotJson? ==> r == General(TryAgain)
    ensures body.Json? && Truthy(body.message) && Contains(body.message.value, "email:") ==>
      r == FieldMessage(Email, SplitSecond(body.message.value, "email: "))
  {
    match body
    case Json(m) =>
      if Truthy(m) && Contains(m.value, "email:") then FieldMessage(Email, SplitSecond(m.value, "email: "))
      else if Truthy(m) && Contains(m.value, "phone:") then FieldMessage(Phone, Some("Phone must be exactly 10 digits"))
      else if Contains(text, EmailInUse) then FieldMessage(Email, Some(EmailInUse))
      else if Contains(text, PhoneInUse) then FieldMessage(Phone, Some(PhoneInUse))
      else General(if Truthy(m) then m.value else RegistrationFailed)
    case NotJson => General(TryAgain)
  }

  /** A message that names both fields lands under the phone on the traveller form and under the
      e-mail on the operator form. */
  lemma BothPrefixesOrderMatters(text: string, m: string)
    requires Contains(m, "phone:") && Contains(m, "email:")
    ensures SignupServerError(text, Json(Some(m))) == FieldMessage(Phone, Some("Phone must be exactly 10 digits"))
    ensures OperatorServerError(text, Json(Some(m))) == FieldMessage(Email, SplitSecond(m, "email: "))
  {
  }

  /** The two forms agree on every JSON body whose message names at most one of the two fields. */
  lemma FormsAgreeOnOnePrefix(text: string, m: Option<string>)
    requires !(Truthy(m) && Contains(m.value, "phone:") && Contains(m.value, "email:"))
    ensures SignupServerError(text, Json(m)) == OperatorServerError(text, Json(m))
  {
  }

  /** A body that is not JSON but mentions the taken e-mail is shown under the e-mail on the traveller
      form and only as the general message on the operator form. */
  lemma NotJsonDiffers(text: string)
    requires Contains(text, EmailInUse)
    ensures SignupServerError(text, NotJson) == FieldMessage(Email, Some(EmailInUse))
    ensures OperatorServerError(text, NotJson) == General(TryAgain)
  {
  }

  /** `"email: " + detail` shows `detail` under the e-mail, as long as `detail` holds neither prefix. */
  lemma EmailDetailShown(text: string, detail: string)
    requires !Contains(detail, "email: ") && !Contains("email: " + detail, "phone:")
    ensures SignupServerError(text, Json(Some("email: " + detail))) == FieldMessage(Email, Some(detail))
    ensures OperatorServerError(text, Json(Some("email: " + detail))) == FieldMessage(Email, Some(detail))
  {
    var m := "email: " + detail;
    assert OccursAt(m, "email: ", 0);
    assert OccursAt(m, "email:", 0);
    assert IndexOf(m, "email: ") == Some(0);
    assert m[|"email: "|..] == detail;
  }

  // ---------------------------------------------------------------------------
  // The client's checks against the server's

  /** The body `registerUser` sends: the five fields as typed. */
  function SignupRequest(f: SignupForm): Registration.RegisterRequest
  {
    Registration.RegisterRequest(Some(f.firstName), Some(f.lastName), Some(f.email), Some(f.phone), Some(f.password))
  }

  /** A client password with an upper- and a lower-case letter passes the server's pattern. */
  lemma ClientPasswordWithBothCasesPassesServer(s: string)
    requires ClientPassword(s) && Registration.HasUpper(s) && Registration.HasLower(s)
    ensures Registration.PasswordPattern(s)
  {
    var i :| 0 <= i < |s| && IsClientSpecial(s[i]);
    assert Registration.IsBackendSpecial(s[i]);
  }

  /** A server password without '#' passes the client's pattern. */
  lemma ServerPasswordWithoutHashPassesClient(s: string)
    requires Registration.PasswordPattern(s) && '#' !in s
    ensures ClientPassword(s)
  {
    var i :| 0 <= i < |s| && Registration.IsBackendSpecial(s[i]);
    assert IsClientSpecial(s[i]);
    var l :| 0 <= l < |s| && IsAsciiLower(s[l]);
    assert IsAsciiLetter(s[l]);
  }

  /** Neither password check implies the other. An all-lower-case password passes the client and fails
      the server; */
  lemma LowerCasePasswordPassesOnlyClient()
    ensures ClientPassword("abcdefg1@") && !Registration.PasswordPattern("abcdefg1@")
  {
    var lower := "abcdefg1@";
    assert IsAsciiLetter(lower[0]) && IsAsciiDigit(lower[7]) && IsClientSpecial(lower[8]);
    Registration.PasswordPatternRejects();
  }

  /** a password whose only special char is '#' passes the server and fails the client. */
  lemma HashPasswordPassesOnlyServer()
    ensures Registration.PasswordPattern("Abcdefg1#") && !ClientPassword("Abcdefg1#")
  {
    Registration.PasswordPatternAccepts();
    var hash := "Abcdefg1#";
    assert forall i :: 0 <= i < |hash| ==> !IsClientSpecial(hash[i]);
  }

  /** Deleting the non-digits leaves a string of digits unchanged. */
  lemma {:induction false} DigitsOnlyOfDigits(s: string)
    requires forall i :: 0 <= i < |s| ==> IsAsciiDigit(s[i])
    ensures DigitsOnly(s) == s
  {
    if s != [] {
      DigitsOnlyOfDigits(s[1..]);
    }
  }

  lemma {:induction false} DigitsOnlyAppend(a: string, b: string)
    ensures DigitsOnly(a + b) == DigitsOnly(a) + DigitsOnly(b)
  {
    if a != [] {
      assert (a + b)[1..] == a[1..] + b;
      DigitsOnlyAppend(a[1..], b);
    } else {
      assert a + b == b;
    }
  }

  /** Every phone number the server accepts passes the client. */
  lemma ServerPhonePassesClient(s: string)
    requires Registration.PhonePattern(s)
    ensures PhoneDigits(s)
  {
    DigitsOnlyOfDigits(s);
  }

  /** The converse fails: the client ignores everything but the digits, the server does not, so ten
      digits with a dash among them pass only the client. */
  lemma DashedPhonePassesOnlyClient(a: string, b: string)
    requires forall i :: 0 <= i < |a| ==> IsAsciiDigit(a[i])
    requires forall i :: 0 <= i < |b| ==> IsAsciiDigit(b[i])
    requires |a| + |b| == 10
    ensures PhoneDigits(a + "-" + b) && !Registration.PhonePattern(a + "-" + b)
  {
    assert DigitsOnly("-") == [];
    DigitsOnlyOfDigits(a);
    DigitsOnlyOfDigits(b);
    DigitsOnlyAppend(a, "-");
    DigitsOnlyAppend(a + "-", b);
  }

  /** The two notions of blank differ: JavaScript's `trim` removes U+00A0 and keeps U+0001, Java's the
      other way round. */
  lemma BlankChecksDiffer()
    ensures JsBlank("\U{00A0}") && Registration.NotBlank(Some("\U{00A0}"))
    ensures !JsBlank("\U{0001}") && !Registration.NotBlank(Some("\U{0001}"))
  {
    assert !IsJavaSpace("\U{00A0}"[0]);
    assert !IsJsSpace("\U{0001}"[0]);
  }

  /** A form the client lets through is accepted by the server when its password has both cases, its phone
      is ten digits as typed, its first name has a char above U+0020 and the server's e-mail check agrees. */
  lemma ClientValidReachesServer(f: SignupForm, isEmail: string -> bool)
    requires SignupValid(f)
    requires Registration.HasUpper(f.password) && Registration.HasLower(f.password)
    requires Registration.PhonePattern(f.phone)
    requires exists i :: 0 <= i < |f.firstName| && !IsJavaSpace(f.firstName[i])
    requires isEmail(f.email)
    ensures Registration.Accepted(SignupRequest(f), isEmail)
  {
    ClientPasswordWithBothCasesPassesServer(f.password);
    var a := EmailAt(f.email);
    assert !IsJavaSpace(f.email[a]);
    assert !IsJavaSpace(f.phone[0]);
    assert !IsJavaSpace(f.password[0]);
  }
}
