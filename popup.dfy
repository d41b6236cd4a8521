/**
 * The "add account" form of src/components/popup/AddAccountPopup.js: its own
 * four error fields, and the submit handler that validates the draft owned by
 * the table and, when every check passes, posts it.
 */
module Popup {
  import opened Wrappers
  import opened Accounts
  import opened Validator
  import opened Submission
  import opened Table

  class AddAccountPopup {
    var requiredFieldsError: Option<Message>
    var emailError: Option<Message>
    var passwordError: Option<Message>
    var mobileError: Option<Message>
    /** The parent whose draft, popup flag and list the form's setters change. */
    const table: AccountTable

    constructor (table: AccountTable)
      ensures this.table == table
      ensures Errors() == NoErrors
    {
      this.table := table;
      requiredFieldsError, emailError, passwordError, mobileError := None, None, None, None;
    }

    /** The messages shown under the inputs. */
    function Errors(): FormErrors
      reads this
    {
      FormErrors(requiredFieldsError, emailError, passwordError, mobileError)
    }

    /**
     * The validation half of Save: runs the five checks in PopupOrder and
     * stops at the first failure. `ok` says that every check passed; the
     * fields end as PopupReported says, which PopupReportedFollowsOrder
     * relates to the order.
     */
    method RunChecks(d: Account) returns (ok: bool)
      modifies this
      ensures ok <==> PopupAccepts(d)
      ensures Errors() == PopupReported(old(Errors()), d)
    {
      var requiredFieldsValidatorError := ValidateRequiredFields(d);
      var emailValidationError := ValidateEmail(d.email);
      var passwordValidationError := ValidatePassword(d.password);
      var confirmPasswordValidationError := ValidateConfirmPassword(d.password, d.confirmPassword);
      var mobileValidationError := ValidateMobile(d.mobileno);

      if requiredFieldsValidatorError.Some? {
        requiredFieldsError := requiredFieldsValidatorError;
        return false;
      }
      requiredFieldsError := None;

      if emailValidationError.Some? {
        emailError := emailValidationError;
        return false;
      }
      emailError := None;

      if passwordValidationError.Some? {
        passwordError := passwordValidationError;
        return false;
      }
      passwordError := None;

      if confirmPasswordValidationError.Some? {
        passwordError := confirmPasswordValidationError;
        return false;
      }
      passwordError := None;

      if mobileValidationError.Some? {
        mobileError := mobileValidationError;
        return false;
      }
      mobileError := None;
      return true;
    }

    /**
     * Save: RunChecks on the draft; a failure changes nothing outside the
     * error fields. When all pass, the draft is posted (`request`), the popup
     * is hidden, the draft is cleared and the list is re-fetched. The service
     * reports a failed POST by returning false rather than throwing, so all of
     * this happens whatever `postOk` is.
     */
    method HandleAdd(postOk: bool, refetch: GetResponse) returns (request: Option<Account>)
      modifies this, table
      ensures Errors() == PopupReported(old(Errors()), old(table.newAccount))
      ensures !PopupAccepts(old(table.newAccount)) ==>
          && request == None
          && table.accounts == old(table.accounts) && table.showPopup == old(table.showPopup)
          && table.newAccount == old(table.newAccount)
      ensures PopupAccepts(old(table.newAccount)) ==>
          && request == Some(old(table.newAccount))
          && !table.showPopup && table.newAccount == EmptyDraft
          && table.accounts == (if refetch.GetOk? then refetch.body else [])
      ensures table.editStatus == old(table.editStatus)
      ensures table.visiblePasswordIndex == old(table.visiblePasswordIndex)
    {
      var d := table.newAccount;
      var ok := RunChecks(d);
      if !ok {
        return None;
      }
      request := Some(d);
      table.showPopup := false;
      table.newAccount := EmptyDraft;
      table.FetchAccounts(refetch);
    }
  }
}
