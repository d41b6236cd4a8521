/**
 * The field validators of src/utils/validator.js. Each returns the empty
 * string when the value is acceptable and one fixed message otherwise; none
 * of them fails in any other way. Here a validator returns the message it
 * would show, `None` standing for the empty string; `Wording` gives the exact
 * text of each message.
 */
module Validator {
  import opened Wrappers
  import opened Text
  import opened Accounts

  /** The fixed messages of the validators. */
  datatype Message =
    | FirstNameRequired
    | MobileRequired
    | MobileNotTenDigits
    | EmailBadSuffix
    | EmailMissingAt
    | PasswordTooWeak
    | PasswordMismatch

  /** The wording of each message, as the source returns it. */
  function Wording(m: Message): string {
    match m
    case FirstNameRequired => "firstname is mandatory"
    case MobileRequired => "Mobile no is mandatory"
    case MobileNotTenDigits => "Mobile No must be 10 digits"
    case EmailBadSuffix => "Email must end with .com or .in"
    case EmailMissingAt => "Email must contain \"@\""
    case PasswordTooWeak =>
      "Password must be between 8 and 12 characters and contain"
      + " at least one uppercase letter, one lowercase letter,"
      + " one numeric digit, and one special character."
    case PasswordMismatch => "Password and confirm password do not match"
  }

  /**
   * No message is worded as the empty string, so a reported message reads as
   * a failure wherever the source tests the returned string's truthiness.
   */
  lemma WordingNonEmpty(m: Message)
    ensures Wording(m) != ""
  {
    match m
    case FirstNameRequired => assert |Wording(m)| > 0;
    case MobileRequired => assert |Wording(m)| > 0;
    case MobileNotTenDigits => assert |Wording(m)| > 0;
    case EmailBadSuffix => assert |Wording(m)| > 0;
    case EmailMissingAt => assert |Wording(m)| > 0;
    case PasswordTooWeak => assert |Wording(m)| > 0;
    case PasswordMismatch => assert |Wording(m)| > 0;
  }

  /** The domain test both email checks share: the address ends in ".com" or ".in". */
  predicate HasAllowedSuffix(email: string) {
    EndsWith(email, ".com") || EndsWith(email, ".in")
  }

  /** A password the strength rule accepts, stated with the character classes as quantifiers. */
  predicate IsStrongPassword(password: string) {
    8 <= |password| <= 12
    && Occurs(password, Upper) && Occurs(password, Lower)
    && Occurs(password, Digit) && Occurs(password, Special)
  }

  function ValidateRequiredFields(newAccount: Account): (r: Option<Message>)
    ensures r.None? <==> newAccount.firstname != ""
    ensures r.None? || r == Some(FirstNameRequired)
  {
    if newAccount.firstname == "" then Some(FirstNameRequired) else None
  }

  function ValidateMobile(mobileno: string): (r: Option<Message>)
    ensures mobileno == "" ==> r == Some(MobileRequired)
    ensures r.None? <==> IsTenDigits(mobileno)
    ensures mobileno != "" && r.Some? ==> r == Some(MobileNotTenDigits)
  {
    if mobileno == "" then Some(MobileRequired)
    else if !IsTenDigits(mobileno) then Some(MobileNotTenDigits)
    else None
  }

  function ValidateEmail(email: string): (r: Option<Message>)
    ensures !HasAllowedSuffix(email) ==> r == Some(EmailBadSuffix)
    ensures HasAllowedSuffix(email) && '@' !in email ==> r == Some(EmailMissingAt)
    ensures r.None? <==> HasAllowedSuffix(email) && '@' in email
  {
    if !EndsWith(email, ".com") && !EndsWith(email, ".in") then Some(EmailBadSuffix)
    else if '@' !in email then Some(EmailMissingAt)
    else None
  }

  function ValidatePassword(password: string): (r: Option<Message>)
    ensures r.None? <==> IsStrongPassword(password)
    ensures r.None? || r == Some(PasswordTooWeak)
  {
    SearchFindsIffOccurs(password, Upper);
    SearchFindsIffOccurs(password, Lower);
    SearchFindsIffOccurs(password, Digit);
    SearchFindsIffOccurs(password, Special);
    if |password| < 8
       || |password| > 12
       || Search(password, Upper).None?
       || Search(password, Lower).None?
       || Search(password, Digit).None?
       || Search(password, Special).None?
    then Some(PasswordTooWeak)
    else None
  }

  function ValidateConfirmPassword(password: string, confirmPassword: string): (r: Option<Message>)
    ensures r.None? <==> password == confirmPassword
    ensures r.None? || r == Some(PasswordMismatch)
  {
    if password != confirmPassword then Some(PasswordMismatch) else None
  }

  /** Examples: a good address, a wrong top-level domain, and a good domain without "@". */
  lemma EmailAcceptedExample()
    ensures ValidateEmail("user@x.com") == None
  {
    var good := "user@x.com";
    assert good[4] == '@' && good[6..] == ".com";
  }

  lemma EmailSuffixExample()
    ensures ValidateEmail("user@x.org") == Some(EmailBadSuffix)
  {
    var bad := "user@x.org";
    assert bad[6..] != ".com" && bad[7..] != ".in";
  }

  lemma EmailMissingAtExample()
    ensures ValidateEmail("userx.com") == Some(EmailMissingAt)
  {
    var noAt := "userx.com";
    assert noAt[5..] == ".com";
  }

  /** Examples: a nine-character password with all four classes passes and confirms itself; without an upper-case letter it fails. */
  lemma PasswordExamples()
    ensures ValidatePassword("Ab1!23456") == None
    ensures ValidateConfirmPassword("Ab1!23456", "Ab1!23456") == None
    ensures ValidatePassword("ab1!23456") == Some(PasswordTooWeak)
  {
    var p := "Ab1!23456";
    assert InClass(p[0], Upper) && InClass(p[1], Lower) && InClass(p[2], Digit) && InClass(p[3], Special);
    var q := "ab1!23456";
    assert forall i :: 0 <= i < |q| ==> !IsUpper(q[i]);
    assert !Occurs(q, Upper);
  }
}
