/**
 * The submit handlers of the "add account" form run a fixed list of checks on
 * the draft and stop at the first one that fails. This module names the
 * checks, the error field each one writes, the two orders the two form
 * variants use, and the first failing check of an order.
 */
module Submission {
  import opened Wrappers
  import opened Accounts
  import opened Validator

  /**
   * One validation step. `EmailSuffixCheck` is the inline email test of
   * src/App.js, which looks only at the domain suffix.
   */
  datatype Check = RequiredCheck | EmailCheck | EmailSuffixCheck | StrengthCheck | ConfirmCheck | MobileCheck

  /** The error fields a form shows next to its inputs. */
  datatype Slot = RequiredSlot | EmailSlot | PasswordSlot | MobileSlot

  /** The four error fields at one moment; `None` is a field showing "". */
  datatype FormErrors = FormErrors(required: Option<Message>, email: Option<Message>, password: Option<Message>, mobile: Option<Message>)
  {
    function Get(s: Slot): Option<Message> {
      match s
      case RequiredSlot => required
      case EmailSlot => email
      case PasswordSlot => password
      case MobileSlot => mobile
    }
  }

  const NoErrors := FormErrors(None, None, None, None)

  /** The message a check reports on the draft, `None` when it passes. */
  function Run(c: Check, d: Account): (r: Option<Message>)
    ensures r.None? || r.value in Messages(c)
  {
    match c
    case RequiredCheck => ValidateRequiredFields(d)
    case EmailCheck => ValidateEmail(d.email)
    case EmailSuffixCheck => if HasAllowedSuffix(d.email) then None else Some(EmailBadSuffix)
    case StrengthCheck => ValidatePassword(d.password)
    case ConfirmCheck => ValidateConfirmPassword(d.password, d.confirmPassword)
    case MobileCheck => ValidateMobile(d.mobileno)
  }

  /** The messages a check can report. */
  function Messages(c: Check): set<Message> {
    match c
    case RequiredCheck => {FirstNameRequired}
    case EmailCheck => {EmailBadSuffix, EmailMissingAt}
    case EmailSuffixCheck => {EmailBadSuffix}
    case StrengthCheck => {PasswordTooWeak}
    case ConfirmCheck => {PasswordMismatch}
    case MobileCheck => {MobileRequired, MobileNotTenDigits}
  }

  /** The error field a failing check writes: strength and confirmation share one. */
  function SlotOf(c: Check): Slot {
    match c
    case RequiredCheck => RequiredSlot
    case EmailCheck | EmailSuffixCheck => EmailSlot
    case StrengthCheck | ConfirmCheck => PasswordSlot
    case MobileCheck => MobileSlot
  }

  /** The order of src/components/popup/AddAccountPopup.js. */
  const PopupOrder: seq<Check> := [RequiredCheck, EmailCheck, StrengthCheck, ConfirmCheck, MobileCheck]

  /** The order of the inline handler in src/App.js. */
  const AppOrder: seq<Check> := [EmailSuffixCheck, ConfirmCheck, StrengthCheck]

  /** The position of the first check of `order` that fails on `d`, if any. */
  function FirstFailing(order: seq<Check>, d: Account): (r: Option<nat>)
    ensures r.Some? ==> r.value < |order| && Run(order[r.value], d).Some?
    ensures r.Some? ==> forall j :: 0 <= j < r.value ==> Run(order[j], d).None?
    ensures r.None? ==> forall j :: 0 <= j < |order| ==> Run(order[j], d).None?
  {
    if order == [] then None
    else if Run(order[0], d).Some? then Some(0)
    else match FirstFailing(order[1..], d)
      case None => None
      case Some(i) => Some(i + 1)
  }

  /** Some check before position `i` writes error field `s` (so a run that got past them reset it to None). */
  predicate WrittenBefore(order: seq<Check>, i: nat, s: Slot)
    requires i <= |order|
  {
    exists j :: 0 <= j < i && SlotOf(order[j]) == s
  }

  /** In PopupOrder, the position of the first check that writes each error field. */
  function PopupFirstWriter(s: Slot): nat {
    match s
    case RequiredSlot => 0
    case EmailSlot => 1
    case PasswordSlot => 2
    case MobileSlot => 4
  }

  /** Getting past the first `i` checks of PopupOrder resets exactly the fields whose first writer comes before `i`. */
  lemma PopupWrittenBefore(i: nat, s: Slot)
    requires i <= |PopupOrder|
    ensures WrittenBefore(PopupOrder, i, s) <==> PopupFirstWriter(s) < i
  {
    if PopupFirstWriter(s) < i {
      assert SlotOf(PopupOrder[PopupFirstWriter(s)]) == s;
    }
  }

  /** What each position of PopupOrder checks and which field it writes. */
  lemma PopupOrderAt(d: Account)
    ensures Run(PopupOrder[0], d) == ValidateRequiredFields(d) && SlotOf(PopupOrder[0]) == RequiredSlot
    ensures Run(PopupOrder[1], d) == ValidateEmail(d.email) && SlotOf(PopupOrder[1]) == EmailSlot
    ensures Run(PopupOrder[2], d) == ValidatePassword(d.password) && SlotOf(PopupOrder[2]) == PasswordSlot
    ensures Run(PopupOrder[3], d) == ValidateConfirmPassword(d.password, d.confirmPassword)
    ensures SlotOf(PopupOrder[3]) == PasswordSlot
    ensures Run(PopupOrder[4], d) == ValidateMobile(d.mobileno) && SlotOf(PopupOrder[4]) == MobileSlot
  {
  }

  /** What each position of AppOrder checks and which field it writes. */
  lemma AppOrderAt(d: Account)
    ensures Run(AppOrder[0], d) == (if HasAllowedSuffix(d.email) then None else Some(EmailBadSuffix))
    ensures SlotOf(AppOrder[0]) == EmailSlot
    ensures Run(AppOrder[1], d) == ValidateConfirmPassword(d.password, d.confirmPassword)
    ensures SlotOf(AppOrder[1]) == PasswordSlot
    ensures Run(AppOrder[2], d) == ValidatePassword(d.password) && SlotOf(AppOrder[2]) == PasswordSlot
  {
  }

  /**
   * The popup's order spelled out: required, then email, then strength, then
   * confirmation, then mobile, the first failure winning.
   */
  lemma {:induction false} PopupFirstFailure(d: Account)
    ensures FirstFailing(PopupOrder, d) ==
      if ValidateRequiredFields(d).Some? then Some(0)
      else if ValidateEmail(d.email).Some? then Some(1)
      else if ValidatePassword(d.password).Some? then Some(2)
      else if ValidateConfirmPassword(d.password, d.confirmPassword).Some? then Some(3)
      else if ValidateMobile(d.mobileno).Some? then Some(4)
      else None
  {
    PopupOrderAt(d);
  }

  /** The inline handler's order spelled out: email suffix, then equality, then strength. */
  lemma {:induction false} AppFirstFailure(d: Account)
    ensures FirstFailing(AppOrder, d) ==
      if !HasAllowedSuffix(d.email) then Some(0)
      else if d.password != d.confirmPassword then Some(1)
      else if ValidatePassword(d.password).Some? then Some(2)
      else None
  {
    AppOrderAt(d);
  }

  /** The popup posts the draft: all five validators pass. */
  predicate PopupAccepts(d: Account) {
    && ValidateRequiredFields(d).None?
    && ValidateEmail(d.email).None?
    && ValidatePassword(d.password).None?
    && ValidateConfirmPassword(d.password, d.confirmPassword).None?
    && ValidateMobile(d.mobileno).None?
  }

  /** The inline handler of src/App.js posts the draft: suffix, equality and strength all pass. */
  predicate AppAccepts(d: Account) {
    HasAllowedSuffix(d.email) && d.password == d.confirmPassword && ValidatePassword(d.password).None?
  }

  /** The popup's error fields after Save on draft `d`, starting from `e`, as its handler writes them. */
  function PopupReported(e: FormErrors, d: Account): FormErrors {
    if ValidateRequiredFields(d).Some? then
      e.(required := ValidateRequiredFields(d))
    else if ValidateEmail(d.email).Some? then
      e.(required := None, email := ValidateEmail(d.email))
    else if ValidatePassword(d.password).Some? then
      e.(required := None, email := None, password := ValidatePassword(d.password))
    else if ValidateConfirmPassword(d.password, d.confirmPassword).Some? then
      e.(required := None, email := None, password := ValidateConfirmPassword(d.password, d.confirmPassword))
    else if ValidateMobile(d.mobileno).Some? then
      NoErrors.(mobile := ValidateMobile(d.mobileno))
    else
      NoErrors
  }

  /** The error fields of src/App.js after Save on draft `d`, starting from `e`, as its handler writes them. */
  function AppReported(e: FormErrors, d: Account): FormErrors {
    if !HasAllowedSuffix(d.email) then e.(email := Some(EmailBadSuffix))
    else if d.password != d.confirmPassword then e.(password := Some(PasswordMismatch))
    else if ValidatePassword(d.password).Some? then e.(password := Some(PasswordTooWeak))
    else e
  }

  /**
   * The popup's Save follows PopupOrder: it posts exactly when no check
   * fails, and then every field is cleared; otherwise the failing check's field
   * shows its message, every field a check before it writes is cleared, and
   * every other field keeps its text.
   */
  lemma PopupReportedFollowsOrder(e: FormErrors, d: Account)
    ensures PopupAccepts(d) <==> FirstFailing(PopupOrder, d).None?
    ensures FirstFailing(PopupOrder, d).None? ==> PopupReported(e, d) == NoErrors
    ensures var f := FirstFailing(PopupOrder, d);
      f.Some? ==>
        && PopupReported(e, d).Get(SlotOf(PopupOrder[f.value])) == Run(PopupOrder[f.value], d)
        && forall s :: s != SlotOf(PopupOrder[f.value]) ==>
             PopupReported(e, d).Get(s) == if WrittenBefore(PopupOrder, f.value, s) then None else e.Get(s)
  {
    PopupFirstFailure(d);
    PopupOrderAt(d);
    var f := FirstFailing(PopupOrder, d);
    if f.Some? {
      forall s | s != SlotOf(PopupOrder[f.value])
        ensures PopupReported(e, d).Get(s) == if WrittenBefore(PopupOrder, f.value, s) then None else e.Get(s)
      {
        PopupWrittenBefore(f.value, s);
      }
    }
  }

  /**
   * The inline Save of src/App.js follows AppOrder: it posts exactly when no
   * check fails, and then both fields keep their text (nothing resets them);
   * otherwise the failing check's field shows its message and the other
   * field keeps its text.
   */
  lemma AppReportedFollowsOrder(e: FormErrors, d: Account)
    ensures AppAccepts(d) <==> FirstFailing(AppOrder, d).None?
    ensures FirstFailing(AppOrder, d).None? ==> AppReported(e, d) == e
    ensures var f := FirstFailing(AppOrder, d);
      f.Some? ==>
        && AppReported(e, d).Get(SlotOf(AppOrder[f.value])) == Run(AppOrder[f.value], d)
        && forall s :: s != SlotOf(AppOrder[f.value]) ==> AppReported(e, d).Get(s) == e.Get(s)
  {
    AppFirstFailure(d);
    AppOrderAt(d);
  }

  /**
   * Strength and confirmation failures share the password field; the
   * mismatch message can only newly appear there when the strength check
   * passed.
   */
  lemma PopupMismatchOnlyAfterStrength(e: FormErrors, d: Account)
    requires e.password != Some(PasswordMismatch)
    requires PopupReported(e, d).password == Some(PasswordMismatch)
    ensures ValidatePassword(d.password).None?
  {
  }

  /**
   * In src/App.js a mismatched confirmation is reported before the strength
   * test, so a weak, mismatched password shows the mismatch message.
   */
  lemma AppMismatchBeforeStrength(e: FormErrors, d: Account)
    requires HasAllowedSuffix(d.email) && d.password != d.confirmPassword
    ensures FirstFailing(AppOrder, d) == Some(1)
    ensures AppReported(e, d).password == Some(PasswordMismatch)
  {
    AppFirstFailure(d);
  }

  /** The inline email test is weaker: every address the validator accepts passes it, and "userx.com" passes it too. */
  lemma AppEmailWeaker(email: string)
    ensures ValidateEmail(email).None? ==> HasAllowedSuffix(email)
    ensures HasAllowedSuffix("userx.com") && ValidateEmail("userx.com").Some?
  {
    EmailMissingAtExample();
  }

  /**
   * In src/App.js nothing clears an error field: after an attempt rejected
   * for its email suffix, a later attempt that passes and posts still shows
   * the suffix message.
   */
  lemma AppStaleEmailError(e: FormErrors, rejected: Account, accepted: Account)
    requires !HasAllowedSuffix(rejected.email)
    requires AppAccepts(accepted)
    ensures AppReported(AppReported(e, rejected), accepted).email == Some(EmailBadSuffix)
  {
  }

  /** Whatever the popup posts, the inline handler of src/App.js posts too. */
  lemma PopupStricterThanApp(d: Account)
    ensures PopupAccepts(d) ==> AppAccepts(d)
  {
  }

  /**
   * The inline handler has neither a first-name nor a mobile check: a draft
   * with both empty passes it, while the popup stops it at the first check.
   */
  lemma AppOmitsRequiredAndMobile()
    ensures var d := Account("", "", "", "user@x.com", "Ab1!23456", "Ab1!23456", "");
      AppAccepts(d) && FirstFailing(PopupOrder, d) == Some(0)
  {
    var d := Account("", "", "", "user@x.com", "Ab1!23456", "Ab1!23456", "");
    EmailAcceptedExample();
    PasswordExamples();
    PopupFirstFailure(d);
  }
}
