/** The field rules declared in the "Add New User" form's `register` calls:
    every field is required, the email and the mobile number must match a
    pattern, and the payment limit has a minimum of 0. A field reports the
    message of its first failing rule (required before pattern or minimum);
    the form is submitted only when no field reports a message. */
module Validation {
  import opened Wrappers
  import opened Numerals

  /** The nine registered form fields. */
  datatype Field =
    | FirstName | LastName | Email | UserRole | Status
    | ExpiryBy | MobileNumber | PaymentLimit | Supervisor

  const AllFields: set<Field> :=
    {FirstName, LastName, Email, UserRole, Status, ExpiryBy, MobileNumber, PaymentLimit, Supervisor}

  /** The values the form hands to its submit handler, each as the text its
      input holds. */
  datatype FormValues = FormValues(
    firstName: string,
    lastName: string,
    email: string,
    userRole: string,
    status: string,
    expiryBy: string,
    mobileNumber: string,
    paymentLimit: string,
    supervisor: string)

  function Value(form: FormValues, f: Field): string {
    match f
    case FirstName => form.firstName
    case LastName => form.lastName
    case Email => form.email
    case UserRole => form.userRole
    case Status => form.status
    case ExpiryBy => form.expiryBy
    case MobileNumber => form.mobileNumber
    case PaymentLimit => form.paymentLimit
    case Supervisor => form.supervisor
  }

  function RequiredMessage(f: Field): string {
    match f
    case FirstName => "First Name is required"
    case LastName => "Last Name is required"
    case Email => "Email is required"
    case UserRole => "User Role is required"
    case Status => "Status is required"
    case ExpiryBy => "Expiry date is required"
    case MobileNumber => "Mobile Number is required"
    case PaymentLimit => "Payment Limit is required"
    case Supervisor => "Supervisor is required"
  }

  const InvalidEmailMessage: string := "Invalid email address"
  const InvalidMobileMessage: string := "Invalid mobile number"
  const PaymentLimitMinMessage: string := "Payment limit must be a positive number"

  // ---------------------------------------------------------------------
  // Email: ^[a-zA-Z0-9._%+-]+@[a-zA-Z0-9.-]+\.[a-zA-Z]{2,4}$

  predicate IsLetter(c: char) {
    'a' <= c <= 'z' || 'A' <= c <= 'Z'
  }

  /** The class [a-zA-Z0-9._%+-] of the part before the '@'. */
  predicate IsLocalChar(c: char) {
    IsLetter(c) || IsDigit(c) || c == '.' || c == '_' || c == '%' || c == '+' || c == '-'
  }

  /** The class [a-zA-Z0-9.-] of the part between the '@' and the last dot. */
  predicate IsDomainChar(c: char) {
    IsLetter(c) || IsDigit(c) || c == '.' || c == '-'
  }

  predicate AllLocal(s: string) {
    forall i | 0 <= i < |s| :: IsLocalChar(s[i])
  }

  predicate AllDomain(s: string) {
    forall i | 0 <= i < |s| :: IsDomainChar(s[i])
  }

  predicate AllLetters(s: string) {
    forall i | 0 <= i < |s| :: IsLetter(s[i])
  }

  /** The email pattern read as a regular language: s is a non-empty local
      part, '@', a non-empty domain part, '.', and two to four letters, for
      some position `at` of the '@' and `dot` of that final '.'. */
  ghost predicate MatchesEmailPattern(s: string) {
    exists at, dot | 0 < at && at + 1 < dot < |s| ::
      && s[at] == '@' && s[dot] == '.'
      && AllLocal(s[..at]) && AllDomain(s[at + 1..dot])
      && AllLetters(s[dot + 1..]) && 2 <= |s| - dot - 1 <= 4
  }

  /** Position of the first `c` in `s`, or |s| when there is none. */
  function IndexOf(s: string, c: char): (k: nat)
    ensures k <= |s|
    ensures k < |s| ==> s[k] == c
    ensures forall i | 0 <= i < k :: s[i] != c
  {
    if s == [] then 0
    else if s[0] == c then 0
    else 1 + IndexOf(s[1..], c)
  }

  /** The pattern with the final label taken to be `k` characters long. The
      '@' can only be the first one: the local part has none. */
  predicate EmailWithTld(s: string, k: nat) {
    && |s| >= k + 4
    && var dot := |s| - k - 1;
    && s[dot] == '.' && AllLetters(s[dot + 1..])
    && var at := IndexOf(s[..dot], '@');
    && 0 < at && at + 1 < dot
    && AllLocal(s[..at]) && AllDomain(s[at + 1..dot])
  }

  /** The decision procedure for the email pattern. */
  predicate IsValidEmail(s: string) {
    EmailWithTld(s, 2) || EmailWithTld(s, 3) || EmailWithTld(s, 4)
  }

  /** Every string the decision procedure accepts is in the pattern. */
  lemma EmailWithTldSound(s: string, k: nat)
    requires EmailWithTld(s, k) && 2 <= k <= 4
    ensures MatchesEmailPattern(s)
  {
    var dot := |s| - k - 1;
    var p := s[..dot];
    var at := IndexOf(p, '@');
    assert 0 < at && at + 1 < dot;
    assert p[..at] == s[..at];
    assert p[at + 1..dot] == s[at + 1..dot];
    assert s[at] == '@' && s[dot] == '.';
  }

  /** Every string in the pattern is accepted by the decision procedure. */
  lemma IsValidEmailComplete(s: string, at: nat, dot: nat)
    requires 0 < at && at + 1 < dot < |s|
    requires s[at] == '@' && s[dot] == '.'
    requires AllLocal(s[..at]) && AllDomain(s[at + 1..dot])
    requires AllLetters(s[dot + 1..]) && 2 <= |s| - dot - 1 <= 4
    ensures IsValidEmail(s)
  {
    var k := |s| - dot - 1;
    var p := s[..dot];
    assert forall i | 0 <= i < at :: p[i] == s[..at][i];
    assert forall i | 0 <= i < at :: p[i] != '@';
    assert IndexOf(p, '@') == at;
    assert p[..at] == s[..at];
    assert p[at + 1..dot] == s[at + 1..dot];
    assert EmailWithTld(s, k);
  }

  /** The decision procedure accepts exactly the strings of the pattern. */
  lemma IsValidEmailCorrect(s: string)
    ensures IsValidEmail(s) <==> MatchesEmailPattern(s)
  {
    if EmailWithTld(s, 2) {
      EmailWithTldSound(s, 2);
    } else if EmailWithTld(s, 3) {
      EmailWithTldSound(s, 3);
    } else if EmailWithTld(s, 4) {
      EmailWithTldSound(s, 4);
    }
    if MatchesEmailPattern(s) {
      var at, dot :| 0 < at && at + 1 < dot < |s|
        && s[at] == '@' && s[dot] == '.'
        && AllLocal(s[..at]) && AllDomain(s[at + 1..dot])
        && AllLetters(s[dot + 1..]) && 2 <= |s| - dot - 1 <= 4;
      IsValidEmailComplete(s, at, dot);
    }
  }

  // ---------------------------------------------------------------------
  // Mobile number: ^[0-9]{7,15}$

  predicate IsValidMobile(s: string) {
    7 <= |s| <= 15 && AllDigits(s)
  }

  // ---------------------------------------------------------------------
  // Payment limit: min 0

  /** Integer text as the number input may hold it: an optional '-' sign
      followed by decimal digits. */
  predicate IsIntegerText(s: string) {
    if |s| > 0 && s[0] == '-' then |s| > 1 && AllDigits(s[1..]) else |s| > 0 && AllDigits(s)
  }

  function IntegerValue(s: string): int
    requires IsIntegerText(s)
  {
    if s[0] == '-' then -(DigitsValue(s[1..]) as int) else DigitsValue(s)
  }

  /** The minimum rule fails when the input holds a number below 0. */
  predicate BelowMinimum(s: string) {
    IsIntegerText(s) && IntegerValue(s) < 0
  }

  /** Integer text is below 0 exactly when it carries a '-' sign and a
      non-zero digit; "-0" and "0" both pass. */
  lemma BelowMinimumBySign(s: string)
    requires IsIntegerText(s)
    ensures BelowMinimum(s) <==> s[0] == '-' && exists i | 1 <= i < |s| :: s[i] != '0'
  {
    if s[0] == '-' {
      var m := s[1..];
      DigitsValueZero(m);
      if exists i | 1 <= i < |s| :: s[i] != '0' {
        var i :| 1 <= i < |s| && s[i] != '0';
        assert m[i - 1] != '0';
      } else {
        assert forall i | 0 <= i < |m| :: m[i] == s[i + 1];
      }
    }
  }

  // ---------------------------------------------------------------------
  // The rules together

  /** The message a field shows for the given input text, if any: the
      required rule first, then the field's pattern or minimum. */
  function FieldError(f: Field, v: string): (r: Option<string>)
    ensures v == "" ==> r == Some(RequiredMessage(f))
    ensures v != "" && f == Email ==>
      r == if MatchesEmailPattern(v) then None else Some(InvalidEmailMessage)
    ensures v != "" && f == MobileNumber ==>
      r == if 7 <= |v| <= 15 && forall i | 0 <= i < |v| :: '0' <= v[i] <= '9'
           then None else Some(InvalidMobileMessage)
    ensures v != "" && f == PaymentLimit ==>
      r == if BelowMinimum(v) then Some(PaymentLimitMinMessage) else None
    ensures v != "" && f !in {Email, MobileNumber, PaymentLimit} ==> r == None
  {
    IsValidEmailCorrect(v);
    if v == "" then Some(RequiredMessage(f))
    else match f
      case Email => if IsValidEmail(v) then None else Some(InvalidEmailMessage)
      case MobileNumber => if IsValidMobile(v) then None else Some(InvalidMobileMessage)
      case PaymentLimit => if BelowMinimum(v) then Some(PaymentLimitMinMessage) else None
      case _ => None
  }

  /** The per-field messages of a submission attempt: one entry for each
      field whose rules fail, and none for the others. */
  function FormErrors(form: FormValues): (errors: map<Field, string>)
    ensures forall f :: f in errors <==> FieldError(f, Value(form, f)).Some?
    ensures forall f | f in errors :: errors[f] == FieldError(f, Value(form, f)).value
  {
    map f | f in AllFields && FieldError(f, Value(form, f)).Some? :: FieldError(f, Value(form, f)).value
  }

  /** The submit gate: the handler runs only when no field reports. */
  predicate IsValidForm(form: FormValues)
    ensures IsValidForm(form) <==> forall f :: FieldError(f, Value(form, f)) == None
  {
    var errors := FormErrors(form);
    assert errors != map[] <==> exists f :: f in errors;
    errors == map[]
  }

  /** The form passes exactly when every field is non-empty, the email and
      the mobile number match their patterns and the payment limit is not
      below 0. */
  lemma ValidFormRules(form: FormValues)
    ensures IsValidForm(form) <==>
      && (forall f :: Value(form, f) != "")
      && MatchesEmailPattern(form.email)
      && 7 <= |form.mobileNumber| <= 15 && AllDigits(form.mobileNumber)
      && !BelowMinimum(form.paymentLimit)
  {
    IsValidEmailCorrect(form.email);
    var errors := FormErrors(form);
    if IsValidForm(form) {
      forall f ensures Value(form, f) != "" {
        assert f !in errors;
      }
      assert Email !in errors && MobileNumber !in errors && PaymentLimit !in errors;
    } else {
      var f :| f in errors;
    }
  }

  /** An empty field reports its "is required" message, whatever the other
      fields hold, and the form is rejected. */
  lemma EmptyFieldIsRequired(form: FormValues, f: Field)
    requires Value(form, f) == ""
    ensures f in FormErrors(form) && FormErrors(form)[f] == RequiredMessage(f)
    ensures !IsValidForm(form)
  {
  }

  /** A non-empty email reports "Invalid email address" exactly when it does
      not match the pattern. */
  lemma EmailRule(form: FormValues)
    requires form.email != ""
    ensures Email in FormErrors(form) <==> !MatchesEmailPattern(form.email)
    ensures Email in FormErrors(form) ==> FormErrors(form)[Email] == InvalidEmailMessage
  {
    IsValidEmailCorrect(form.email);
  }

  /** A non-empty mobile number reports "Invalid mobile number" exactly when
      it is not 7 to 15 ASCII digits. */
  lemma MobileRule(form: FormValues)
    requires form.mobileNumber != ""
    ensures MobileNumber in FormErrors(form) <==>
      !(7 <= |form.mobileNumber| <= 15 && forall i | 0 <= i < |form.mobileNumber| :: '0' <= form.mobileNumber[i] <= '9')
    ensures MobileNumber in FormErrors(form) ==> FormErrors(form)[MobileNumber] == InvalidMobileMessage
  {
  }

  /** Non-empty integer text in the payment limit reports the minimum
      message exactly when its value is below 0; zero passes. */
  lemma PaymentLimitRule(form: FormValues)
    requires IsIntegerText(form.paymentLimit)
    ensures PaymentLimit in FormErrors(form) <==> IntegerValue(form.paymentLimit) < 0
    ensures PaymentLimit in FormErrors(form) ==> FormErrors(form)[PaymentLimit] == PaymentLimitMinMessage
  {
  }

  /** Each field's message depends on that field's text alone: no rule looks
      across fields. */
  lemma RulesArePerField(a: FormValues, b: FormValues, f: Field)
    requires Value(a, f) == Value(b, f)
    ensures f in FormErrors(a) <==> f in FormErrors(b)
    ensures f in FormErrors(a) ==> FormErrors(a)[f] == FormErrors(b)[f]
  {
  }

  /** Fields other than the email, the mobile number and the payment limit
      have only the required rule: any non-empty text passes, including
      whitespace and values outside the select options. */
  lemma OtherFieldsOnlyRequired(form: FormValues, f: Field)
    requires f !in {Email, MobileNumber, PaymentLimit}
    ensures f in FormErrors(form) <==> Value(form, f) == ""
  {
  }
}
