/**
 * The registration form (app/auth/register/page.tsx): `validateForm` checks the five
 * text fields one after another and records at most one message per field, the form is
 * valid exactly when no message was recorded, and editing a field clears that field's
 * message only. The sign-up and profile calls that follow a valid form are not modelled.
 */
module Register {
  import opened Common
  import opened Text

  datatype FormData = FormData(
    email: string,
    password: string,
    confirmPassword: string,
    fullName: string,
    phone: string,
    userType: string)

  /** One optional message per field; `general` holds the sign-up failure. */
  datatype FormErrors = FormErrors(
    email: Option<string>,
    password: Option<string>,
    confirmPassword: Option<string>,
    fullName: Option<string>,
    phone: Option<string>,
    general: Option<string>)

  const NoErrors: FormErrors := FormErrors(None, None, None, None, None, None)

  const EmailRequired: string := "El email es requerido"
  const EmailInvalid: string := "Ingresa un email válido"
  const PasswordRequired: string := "La contraseña es requerida"
  const PasswordTooShort: string := "La contraseña debe tener al menos 6 caracteres"
  const PasswordTooWeak: string := "La contraseña debe contener al menos una mayúscula, una minúscula y un número"
  const ConfirmRequired: string := "Confirma tu contraseña"
  const ConfirmMismatch: string := "Las contraseñas no coinciden"
  const NameRequired: string := "El nombre completo es requerido"
  const NameTooShort: string := "El nombre debe tener al menos 2 caracteres"
  const PhoneInvalid: string := "Ingresa un número de teléfono válido"

  // ---------------------------------------------------------------- email

  /** A character `[^\s@]` matches. */
  predicate EmailChar(c: char)
  {
    !IsSpace(c) && c != '@'
  }

  predicate AllEmailChars(s: string)
  {
    forall k :: 0 <= k < |s| ==> EmailChar(s[k])
  }

  /**
   * The pattern `^[^\s@]+@[^\s@]+\.[^\s@]+$` read directly: an `@` at `i` and a `.` at `j`
   * cut the text into three non-empty runs of characters that are neither white space nor `@`.
   */
  ghost predicate EmailPattern(s: string)
  {
    exists i, j :: 0 < i && i + 1 < j && j + 1 < |s| && s[i] == '@' && s[j] == '.' &&
      AllEmailChars(s[..i]) && AllEmailChars(s[i + 1..j]) && AllEmailChars(s[j + 1..])
  }

  /** A `.` with at least one character on each side of it. */
  predicate HasInnerDot(d: string)
  {
    exists m :: 0 < m < |d| - 1 && d[m] == '.'
  }

  /** The check the validator runs: the text before the first `@`, and the domain after it. */
  function EmailAccepted(s: string): bool
  {
    var local := BeforeFirst(s, '@');
    |local| > 0 && |local| < |s| && AllEmailChars(local) &&
    AllEmailChars(s[|local| + 1..]) && HasInnerDot(s[|local| + 1..])
  }

  /** The text before a position where `c` first occurs is what `BeforeFirst` returns. */
  lemma BeforeFirstAt(s: string, c: char, i: nat)
    requires i < |s| && s[i] == c && c !in s[..i]
    ensures BeforeFirst(s, c) == s[..i]
  {
    var r := BeforeFirst(s, c);
    assert forall k :: 0 <= k < i ==> s[k] == s[..i][k] != c;
  }

  lemma AllEmailCharsSlice(s: string, a: nat, b: nat)
    requires AllEmailChars(s) && a <= b <= |s|
    ensures AllEmailChars(s[a..b])
  {
    assert forall k :: 0 <= k < b - a ==> s[a..b][k] == s[a + k];
  }

  lemma AllEmailCharsJoin(x: string, c: char, y: string)
    requires AllEmailChars(x) && EmailChar(c) && AllEmailChars(y)
    ensures AllEmailChars(x + [c] + y)
  {
    var t := x + [c] + y;
    forall k | 0 <= k < |t| ensures EmailChar(t[k]) {
      if k < |x| {
        assert t[k] == x[k];
      } else if k > |x| {
        assert t[k] == y[k - |x| - 1];
      }
    }
  }

  /** Every text the validator's check accepts matches the pattern. */
  lemma AcceptedMatchesPattern(s: string)
    requires EmailAccepted(s)
    ensures EmailPattern(s)
  {
    var i := |BeforeFirst(s, '@')|;
    var d := s[i + 1..];
    var m :| 0 < m < |d| - 1 && d[m] == '.';
    var j := i + 1 + m;
    assert s[..i] == BeforeFirst(s, '@');
    assert s[i + 1..j] == d[0..m];
    assert s[j + 1..] == d[m + 1..|d|];
    AllEmailCharsSlice(d, 0, m);
    AllEmailCharsSlice(d, m + 1, |d|);
    assert s[i] == '@' && s[j] == '.';
  }

  /** Every text the pattern matches is accepted by the validator's check. */
  lemma PatternIsAccepted(s: string)
    requires EmailPattern(s)
    ensures EmailAccepted(s)
  {
    var i, j :| 0 < i && i + 1 < j && j + 1 < |s| && s[i] == '@' && s[j] == '.' &&
      AllEmailChars(s[..i]) && AllEmailChars(s[i + 1..j]) && AllEmailChars(s[j + 1..]);
    PatternAtIsAccepted(s, i, j);
  }

  /** The check accepts a text cut by an `@` at `i` and a `.` at `j` into three runs. */
  lemma PatternAtIsAccepted(s: string, i: nat, j: nat)
    requires 0 < i && i + 1 < j && j + 1 < |s| && s[i] == '@' && s[j] == '.'
    requires AllEmailChars(s[..i]) && AllEmailChars(s[i + 1..j]) && AllEmailChars(s[j + 1..])
    ensures EmailAccepted(s)
  {
    assert '@' !in s[..i] by {
      assert forall k :: 0 <= k < i ==> EmailChar(s[..i][k]);
    }
    BeforeFirstAt(s, '@', i);
    var d := s[i + 1..];
    assert d == s[i + 1..j] + ['.'] + s[j + 1..];
    AllEmailCharsJoin(s[i + 1..j], '.', s[j + 1..]);
    assert HasInnerDot(d) by {
      var m := j - i - 1;
      assert 0 < m < |d| - 1 && d[m] == '.';
    }
  }

  /** The validator's check accepts exactly the texts the pattern matches. */
  lemma EmailAcceptedIff(s: string)
    ensures EmailAccepted(s) <==> EmailPattern(s)
  {
    if EmailAccepted(s) {
      AcceptedMatchesPattern(s);
    }
    if EmailPattern(s) {
      PatternIsAccepted(s);
    }
  }

  /** `validateForm`'s message for the email field. */
  function EmailError(email: string): (e: Option<string>)
    ensures e == None <==> email != "" && EmailPattern(email)
    ensures e == Some(EmailRequired) <==> email == ""
    ensures e == Some(EmailInvalid) <==> email != "" && !EmailPattern(email)
  {
    EmailAcceptedIff(email);
    if email == "" then Some(EmailRequired)
    else if !EmailAccepted(email) then Some(EmailInvalid)
    else None
  }

  // ---------------------------------------------------------------- password

  predicate IsLineTerminator(c: char)
  {
    c == '\n' || c == '\r' || c == '\U{2028}' || c == '\U{2029}'
  }

  /**
   * The lookahead `(?=.*[x])` tried at position `p`: a character of the class at `p` or
   * later, with no line terminator before it (`.` does not match one).
   */
  function AheadFrom(s: string, p: nat, cls: char -> bool): bool
    decreases |s| - p
  {
    if p >= |s| then false
    else if cls(s[p]) then true
    else if IsLineTerminator(s[p]) then false
    else AheadFrom(s, p + 1, cls)
  }

  /** `/(?=.*[a-z])(?=.*[A-Z])(?=.*\d)/.test(s)`: some position starts all three lookaheads. */
  function Strong(s: string): bool
  {
    exists p :: 0 <= p <= |s| &&
      AheadFrom(s, p, IsAsciiLower) && AheadFrom(s, p, IsAsciiUpper) && AheadFrom(s, p, IsDigit)
  }

  predicate HasChar(s: string, cls: char -> bool)
  {
    exists k :: 0 <= k < |s| && cls(s[k])
  }

  predicate HasLineTerminator(s: string)
  {
    exists k :: 0 <= k < |s| && IsLineTerminator(s[k])
  }

  /** A lookahead succeeds exactly when the class occurs at `p` or later before any line terminator. */
  lemma {:induction false} AheadFromIff(s: string, p: nat, cls: char -> bool)
    requires p <= |s|
    ensures AheadFrom(s, p, cls) <==>
      exists k :: p <= k < |s| && cls(s[k]) && forall m :: p <= m < k ==> !IsLineTerminator(s[m])
    decreases |s| - p
  {
    if p < |s| && !cls(s[p]) && !IsLineTerminator(s[p]) {
      AheadFromIff(s, p + 1, cls);
      if exists k :: p <= k < |s| && cls(s[k]) && forall m :: p <= m < k ==> !IsLineTerminator(s[m]) {
        var k :| p <= k < |s| && cls(s[k]) && forall m :: p <= m < k ==> !IsLineTerminator(s[m]);
        assert k != p;
      }
    }
  }

  /**
   * On a single line, the password check asks for one lower-case letter, one upper-case
   * letter and one digit, anywhere in the text.
   */
  lemma StrongOnOneLineIff(s: string)
    requires !HasLineTerminator(s)
    ensures Strong(s) <==> HasChar(s, IsAsciiLower) && HasChar(s, IsAsciiUpper) && HasChar(s, IsDigit)
  {
    AheadFromIff(s, 0, IsAsciiLower);
    AheadFromIff(s, 0, IsAsciiUpper);
    AheadFromIff(s, 0, IsDigit);
    if Strong(s) {
      var p :| 0 <= p <= |s| &&
        AheadFrom(s, p, IsAsciiLower) && AheadFrom(s, p, IsAsciiUpper) && AheadFrom(s, p, IsDigit);
      AheadFromIff(s, p, IsAsciiLower);
      AheadFromIff(s, p, IsAsciiUpper);
      AheadFromIff(s, p, IsDigit);
    }
  }

  /** The three kinds of character must share one line: "a", a line break, then "A1" is refused. */
  lemma LinesAreCheckedApart()
    ensures !Strong("a\nA1")
  {
    var s := "a\nA1";
    forall p | 0 <= p <= |s|
      ensures !(AheadFrom(s, p, IsAsciiLower) && AheadFrom(s, p, IsAsciiUpper) && AheadFrom(s, p, IsDigit))
    {
      AheadFromIff(s, p, IsAsciiLower);
      AheadFromIff(s, p, IsAsciiUpper);
    }
  }

  /** `validateForm`'s message for the password field: the first of the three checks that fails. */
  function PasswordError(password: string): (e: Option<string>)
    ensures e == None <==> password != "" && |password| >= 6 && Strong(password)
    ensures e == Some(PasswordRequired) <==> password == ""
    ensures e == Some(PasswordTooShort) <==> password != "" && |password| < 6
    ensures e == Some(PasswordTooWeak) <==> |password| >= 6 && !Strong(password)
  {
    if password == "" then Some(PasswordRequired)
    else if |password| < 6 then Some(PasswordTooShort)
    else if !Strong(password) then Some(PasswordTooWeak)
    else None
  }

  /** The confirmation must be given and be exactly the password. */
  function ConfirmError(password: string, confirm: string): (e: Option<string>)
    ensures e == None <==> confirm != "" && confirm == password
    ensures e == Some(ConfirmMismatch) <==> confirm != "" && confirm != password
    ensures e == Some(ConfirmRequired) <==> confirm == ""
  {
    if confirm == "" then Some(ConfirmRequired)
    else if password != confirm then Some(ConfirmMismatch)
    else None
  }

  /** The full name is judged after trimming. */
  function NameError(fullName: string): (e: Option<string>)
    ensures e == None <==> |Trim(fullName)| >= 2
    ensures e == Some(NameRequired) <==> AllSpace(fullName)
    ensures e == Some(NameTooShort) <==> !AllSpace(fullName) && |Trim(fullName)| < 2
  {
    TrimEmptyIff(fullName);
    if Trim(fullName) == "" then Some(NameRequired)
    else if |Trim(fullName)| < 2 then Some(NameTooShort)
    else None
  }

  // ---------------------------------------------------------------- phone

  /** A character of `[\d\s\-$]`. */
  predicate PhoneChar(c: char)
  {
    IsDigit(c) || IsSpace(c) || c == '-' || c == '$'
  }

  /** `/^\+?[\d\s\-$]{10,}$/.test(phone)`. */
  function PhoneMatches(phone: string): bool
  {
    var rest := if phone != [] && phone[0] == '+' then phone[1..] else phone;
    |rest| >= 10 && forall k :: 0 <= k < |rest| ==> PhoneChar(rest[k])
  }

  /** The phone is optional: only a non-empty value is checked. */
  function PhoneError(phone: string): (e: Option<string>)
    ensures e == None <==> phone == "" || PhoneMatches(phone)
    ensures e.Some? ==> e.value == PhoneInvalid
  {
    if phone != "" && !PhoneMatches(phone) then Some(PhoneInvalid) else None
  }

  /** Ten digits after an optional `+` always pass, and nine characters never do. */
  lemma PhoneLength(phone: string)
    ensures |phone| < 10 ==> !PhoneMatches(phone)
    ensures |phone| >= 10 && (forall k :: 0 <= k < |phone| ==> IsDigit(phone[k])) ==> PhoneMatches(phone)
  {
    if |phone| >= 10 && forall k :: 0 <= k < |phone| ==> IsDigit(phone[k]) {
      assert IsDigit(phone[0]) && phone[0] != '+';
      assert forall k :: 0 <= k < |phone| ==> PhoneChar(phone[k]);
    }
  }

  // ---------------------------------------------------------------- form

  /** The record `validateForm` builds. */
  function Validate(f: FormData): (r: FormErrors)
    ensures r.general.None?
    ensures r.email.None? <==> f.email != "" && EmailPattern(f.email)
    ensures r.password.None? <==> f.password != "" && |f.password| >= 6 && Strong(f.password)
    ensures r.confirmPassword.None? <==> f.confirmPassword != "" && f.confirmPassword == f.password
    ensures r.fullName.None? <==> |Trim(f.fullName)| >= 2
    ensures r.phone.None? <==> f.phone == "" || PhoneMatches(f.phone)
  {
    FormErrors(EmailError(f.email), PasswordError(f.password), ConfirmError(f.password, f.confirmPassword),
               NameError(f.fullName), PhoneError(f.phone), None)
  }

  predicate NoFieldError(e: FormErrors)
  {
    e.email.None? && e.password.None? && e.confirmPassword.None? && e.fullName.None? &&
    e.phone.None? && e.general.None?
  }

  /** A form passes exactly when every field meets its rule. */
  lemma ValidIff(f: FormData)
    ensures NoFieldError(Validate(f)) <==>
      f.email != "" && EmailPattern(f.email) &&
      |f.password| >= 6 && Strong(f.password) &&
      f.confirmPassword == f.password &&
      |Trim(f.fullName)| >= 2 &&
      (f.phone == "" || PhoneMatches(f.phone))
  {
  }

  /** Every message is non-empty, so a recorded message is a truthy `errors[field]`. */
  lemma MessagesAreNonEmpty(f: FormData)
    ensures var e := Validate(f);
      (e.email.Some? ==> e.email.value != "") && (e.password.Some? ==> e.password.value != "") &&
      (e.confirmPassword.Some? ==> e.confirmPassword.value != "") &&
      (e.fullName.Some? ==> e.fullName.value != "") && (e.phone.Some? ==> e.phone.value != "")
  {
  }

  /** The fields `handleInputChange` is called with. */
  datatype Field = Email | Password | ConfirmPassword | FullName | Phone | UserType

  /** `{ ...prev, [field]: value }`. */
  function SetField(f: FormData, field: Field, value: string): FormData
  {
    match field
    case Email => f.(email := value)
    case Password => f.(password := value)
    case ConfirmPassword => f.(confirmPassword := value)
    case FullName => f.(fullName := value)
    case Phone => f.(phone := value)
    case UserType => f.(userType := value)
  }

  /** `errors[field]`; the error record has no `userType` entry. */
  function ErrorOf(e: FormErrors, field: Field): Option<string>
  {
    match field
    case Email => e.email
    case Password => e.password
    case ConfirmPassword => e.confirmPassword
    case FullName => e.fullName
    case Phone => e.phone
    case UserType => None
  }

  /** `{ ...prev, [field]: undefined }`. */
  function ClearError(e: FormErrors, field: Field): FormErrors
  {
    match field
    case Email => e.(email := None)
    case Password => e.(password := None)
    case ConfirmPassword => e.(confirmPassword := None)
    case FullName => e.(fullName := None)
    case Phone => e.(phone := None)
    case UserType => e
  }

  /** Every field of a form, read by name. */
  function ValueOf(f: FormData, field: Field): string
  {
    match field
    case Email => f.email
    case Password => f.password
    case ConfirmPassword => f.confirmPassword
    case FullName => f.fullName
    case Phone => f.phone
    case UserType => f.userType
  }

  /** Setting a field changes that field to the value and no other field. */
  lemma SetFieldOnlyThat(f: FormData, field: Field, value: string, other: Field)
    ensures ValueOf(SetField(f, field, value), field) == value
    ensures other != field ==> ValueOf(SetField(f, field, value), other) == ValueOf(f, other)
  {
  }

  /** Clearing a field's message removes it and keeps every other message, `general` included. */
  lemma ClearErrorOnlyThat(e: FormErrors, field: Field, other: Field)
    ensures ErrorOf(ClearError(e, field), field) == None
    ensures other != field ==> ErrorOf(ClearError(e, field), other) == ErrorOf(e, other)
    ensures ClearError(e, field).general == e.general
  {
  }

  /** The registration page's state. */
  class RegisterPage {
    var form: FormData
    var errors: FormErrors

    constructor ()
      ensures form == FormData("", "", "", "", "", "visitor") && errors == NoErrors
    {
      form := FormData("", "", "", "", "", "visitor");
      errors := NoErrors;
    }

    /** `validateForm`: fills a fresh error record field by field and stores it. */
    method ValidateForm() returns (valid: bool)
      modifies this
      ensures errors == Validate(form) && form == old(form)
      ensures valid <==> NoFieldError(errors)
    {
      var e := NoErrors;
      if form.email == "" {
        e := e.(email := Some(EmailRequired));
      } else if !EmailAccepted(form.email) {
        e := e.(email := Some(EmailInvalid));
      }
      if form.password == "" {
        e := e.(password := Some(PasswordRequired));
      } else if |form.password| < 6 {
        e := e.(password := Some(PasswordTooShort));
      } else if !Strong(form.password) {
        e := e.(password := Some(PasswordTooWeak));
      }
      if form.confirmPassword == "" {
        e := e.(confirmPassword := Some(ConfirmRequired));
      } else if form.password != form.confirmPassword {
        e := e.(confirmPassword := Some(ConfirmMismatch));
      }
      var name := Trim(form.fullName);
      if name == "" {
        e := e.(fullName := Some(NameRequired));
      } else if |name| < 2 {
        e := e.(fullName := Some(NameTooShort));
      }
      if form.phone != "" && !PhoneMatches(form.phone) {
        e := e.(phone := Some(PhoneInvalid));
      }
      errors := e;
      valid := NoFieldError(e);
    }

    /** `handleInputChange`: sets the field, and clears its message when one is shown. */
    method HandleInputChange(field: Field, value: string)
      modifies this
      ensures form == SetField(old(form), field, value)
      ensures errors == if ErrorOf(old(errors), field).Some? && ErrorOf(old(errors), field).value != ""
                        then ClearError(old(errors), field) else old(errors)
    {
      form := SetField(form, field, value);
      var shown := ErrorOf(errors, field);
      if shown.Some? && shown.value != "" {
        errors := ClearError(errors, field);
      }
    }

    /**
     * The gate at the start of `handleRegister`: an invalid form stops before sign-up; a valid
     * one clears every message and goes on to sign-up, which is not modelled.
     */
    method HandleRegister() returns (signUpAttempted: bool)
      modifies this
      ensures signUpAttempted <==> NoFieldError(Validate(old(form)))
      ensures !signUpAttempted ==> errors == Validate(old(form))
      ensures signUpAttempted ==> errors == NoErrors
      ensures form == old(form)
    {
      var valid := ValidateForm();
      if !valid {
        return false;
      }
      errors := NoErrors;
      signUpAttempted := true;
    }
  }
}
