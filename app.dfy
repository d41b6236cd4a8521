/**
 * The older all-in-one view of src/App.js: the same table state plus the
 * form's two error fields, inline email and password tests that write those
 * fields, and its own submit order (email suffix, then equality, then
 * strength). Unlike the service used by the table component, its handlers
 * look at each response's status themselves.
 */
module App {
  import opened Wrappers
  import opened Text
  import opened Accounts
  import opened Validator
  import opened Submission
  import Table

  /**
   * The inline password test: the same length bounds and the same four
   * character-class searches as the shared validator, written again.
   */
  function InlinePasswordTest(password: string): (ok: bool)
    ensures ok <==> ValidatePassword(password).None?
  {
    SearchFindsIffOccurs(password, Upper);
    SearchFindsIffOccurs(password, Lower);
    SearchFindsIffOccurs(password, Digit);
    SearchFindsIffOccurs(password, Special);
    !(|password| < 8
      || |password| > 12
      || Search(password, Upper).None?
      || Search(password, Lower).None?
      || Search(password, Digit).None?
      || Search(password, Special).None?)
  }

  class AccountTable {
    var accounts: seq<Account>
    var newAccount: Account
    var showPopup: bool
    var editStatus: map<nat, bool>
    var emailError: Option<Message>
    var passwordError: Option<Message>
    var visiblePasswordIndex: Option<nat>

    constructor ()
      ensures accounts == [] && newAccount == EmptyDraft && !showPopup && editStatus == map[]
      ensures emailError == None && passwordError == None && visiblePasswordIndex == None
    {
      accounts := [];
      newAccount := EmptyDraft;
      showPopup := false;
      editStatus := map[];
      emailError, passwordError := None, None;
      visiblePasswordIndex := None;
    }

    /** The messages shown under the inputs; this form has no first-name or mobile error field, so those are always None. */
    function Errors(): FormErrors
      reads this
    {
      FormErrors(None, emailError, passwordError, None)
    }

    /** Replaces the list with the body of a successful GET; a failed GET leaves it as it was. */
    method FetchAccounts(response: GetResponse)
      modifies this`accounts
      ensures accounts == (if response.GetOk? then response.body else old(accounts))
    {
      if response.GetOk? {
        accounts := response.body;
      }
    }

    /** Same as the table component's handler. */
    method HandleInputChange(name: Field, value: string, index: Option<nat>)
      requires index.Some? ==> index.value < |accounts|
      modifies this`accounts, this`newAccount
      ensures index.Some? ==> |accounts| == |old(accounts)|
      ensures index.Some? ==> forall j :: 0 <= j < |accounts| && j != index.value ==> accounts[j] == old(accounts)[j]
      ensures index.Some? ==> accounts[index.value] == SetField(old(accounts)[index.value], name, value)
      ensures index.Some? ==> newAccount == old(newAccount)
      ensures index.None? ==> accounts == old(accounts) && newAccount == SetField(old(newAccount), name, value)
    {
      if index.Some? {
        accounts := accounts[index.value := SetField(accounts[index.value], name, value)];
      } else {
        newAccount := SetField(newAccount, name, value);
      }
    }

    /** The inline email test: the suffix only. A failure sets the message; a pass leaves the old one. */
    method ValidateEmail(email: string) returns (ok: bool)
      modifies this`emailError
      ensures ok <==> HasAllowedSuffix(email)
      ensures ok ==> emailError == old(emailError)
      ensures !ok ==> emailError == Some(EmailBadSuffix)
    {
      if !EndsWith(email, ".com") && !EndsWith(email, ".in") {
        emailError := Some(EmailBadSuffix);
        return false;
      }
      return true;
    }

    /** The inline password test. A failure sets the message; a pass leaves the old one. */
    method ValidatePassword(password: string) returns (ok: bool)
      modifies this`passwordError
      ensures ok <==> Validator.ValidatePassword(password).None?
      ensures ok ==> passwordError == old(passwordError)
      ensures !ok ==> passwordError == Some(PasswordTooWeak)
    {
      if !InlinePasswordTest(password) {
        passwordError := Some(PasswordTooWeak);
        return false;
      }
      return true;
    }

    /**
     * The validation half of Save in the popup: runs AppOrder and stops at
     * the first failure, whose field then shows its message while the other
     * keeps its text. No check ever clears a field, so when all pass
     * both fields keep whatever earlier attempts left in them.
     */
    method RunChecks(d: Account) returns (ok: bool)
      modifies this`emailError, this`passwordError
      ensures ok <==> AppAccepts(d)
      ensures Errors() == AppReported(old(Errors()), d)
    {
      var emailOk := ValidateEmail(d.email);
      if !emailOk {
        return false;
      }

      if d.password != d.confirmPassword {
        passwordError := Some(PasswordMismatch);
        return false;
      }

      var passwordOk := ValidatePassword(d.password);
      if !passwordOk {
        return false;
      }
      return true;
    }

    /**
     * Save in the popup: RunChecks on the draft; a failure changes nothing
     * outside the error fields. When all pass the draft is posted
     * (`request`); only a successful POST hides the popup, clears the draft
     * and re-fetches, and a failed one changes nothing.
     */
    method HandleAdd(postOk: bool, refetch: GetResponse) returns (request: Option<Account>)
      modifies this
      ensures Errors() == AppReported(old(Errors()), old(newAccount))
      ensures !AppAccepts(old(newAccount)) ==>
          && request == None
          && accounts == old(accounts) && showPopup == old(showPopup) && newAccount == old(newAccount)
      ensures AppAccepts(old(newAccount)) ==>
          && request == Some(old(newAccount))
          && (postOk ==> !showPopup && newAccount == EmptyDraft
                         && accounts == (if refetch.GetOk? then refetch.body else old(accounts)))
          && (!postOk ==> showPopup == old(showPopup) && newAccount == old(newAccount) && accounts == old(accounts))
      ensures editStatus == old(editStatus) && visiblePasswordIndex == old(visiblePasswordIndex)
    {
      var d := newAccount;
      var ok := RunChecks(d);
      if !ok {
        return None;
      }
      request := Some(d);
      if postOk {
        showPopup := false;
        newAccount := EmptyDraft;
        FetchAccounts(refetch);
      }
    }

    /**
     * Sends a DELETE naming the account (`request` is the id it carries,
     * whatever the response); re-fetches only after a successful DELETE, and
     * a failed one changes nothing.
     */
    method HandleDelete(accountId: string, deleteOk: bool, refetch: GetResponse) returns (request: string)
      modifies this
      ensures request == accountId
      ensures accounts == (if deleteOk && refetch.GetOk? then refetch.body else old(accounts))
      ensures newAccount == old(newAccount) && showPopup == old(showPopup) && editStatus == old(editStatus)
      ensures emailError == old(emailError) && passwordError == old(passwordError)
      ensures visiblePasswordIndex == old(visiblePasswordIndex)
    {
      request := accountId;
      if deleteOk {
        FetchAccounts(refetch);
      }
    }

    method HandleEdit(index: nat)
      modifies this`editStatus
      ensures editStatus == old(editStatus)[index := true]
    {
      editStatus := editStatus[index := true];
    }

    /** Leaves edit mode and sends the row in a PUT; the list is not touched, whatever the response. */
    method HandleSave(index: nat, putOk: bool) returns (request: Option<Account>)
      modifies this`editStatus
      ensures editStatus == old(editStatus)[index := false]
      ensures request == (if index < |accounts| then Some(accounts[index]) else None)
    {
      editStatus := editStatus[index := false];
      request := if index < |accounts| then Some(accounts[index]) else None;
    }

    method HandleCancel(index: nat)
      modifies this`editStatus
      ensures editStatus == old(editStatus)[index := false]
    {
      editStatus := editStatus[index := false];
    }

    method TogglePasswordVisibility(index: nat)
      modifies this`visiblePasswordIndex
      ensures visiblePasswordIndex == Table.Toggled(old(visiblePasswordIndex), index)
    {
      if visiblePasswordIndex == Some(index) {
        visiblePasswordIndex := None;
      } else {
        visiblePasswordIndex := Some(index);
      }
    }
  }
}
