/**
 * The state of the account table of src/components/table/AccountTable.js and
 * its event handlers. Each handler runs as one atomic step; the outcome of
 * every request to the account service is a parameter.
 */
module Table {
  import opened Wrappers
  import opened Accounts

  /**
   * The row whose password is shown after the eye/lock icon of row `index` is
   * clicked: the row is hidden again if it was the one shown, and otherwise it
   * replaces whichever row was shown.
   */
  function Toggled(visible: Option<nat>, index: nat): (r: Option<nat>)
    ensures r == Some(index) <==> visible != Some(index)
    ensures r != Some(index) ==> r == None
  {
    if visible == Some(index) then None else Some(index)
  }

  /** Clicking the same row twice, starting with it hidden, hides every password again. */
  lemma ToggleTwiceHidesAll(visible: Option<nat>, index: nat)
    requires visible != Some(index)
    ensures Toggled(Toggled(visible, index), index) == None
  {
  }

  /** The component state of the table view. */
  class AccountTable {
    var accounts: seq<Account>
    var showPopup: bool
    /** Row index to "row is being edited"; a missing key reads as false. */
    var editStatus: map<nat, bool>
    /** The one row whose password is shown in clear, if any. */
    var visiblePasswordIndex: Option<nat>
    /** The "add account" draft, owned here and edited by the popup's inputs. */
    var newAccount: Account

    constructor ()
      ensures accounts == [] && !showPopup && editStatus == map[]
      ensures visiblePasswordIndex == None && newAccount == EmptyDraft
    {
      accounts := [];
      showPopup := false;
      editStatus := map[];
      visiblePasswordIndex := None;
      newAccount := EmptyDraft;
    }

    /**
     * Replaces the list wholesale with what the service returns, which is the
     * empty list when the GET fails.
     */
    method FetchAccounts(response: GetResponse)
      modifies this`accounts
      ensures accounts == (if response.GetOk? then response.body else [])
    {
      var data := if response.GetOk? then response.body else [];
      accounts := data;
    }

    /**
     * An input changed: with a row index, field `name` of that row takes the
     * value; without one, field `name` of the draft does. Rows are only
     * rendered for indices of the list, so an index is always in range.
     */
    method HandleInputChange(name: Field, value: string, index: Option<nat>)
      requires index.Some? ==> index.value < |accounts|
      modifies this`accounts, this`newAccount
      ensures index.Some? ==> |accounts| == |old(accounts)|
      ensures index.Some? ==> forall j :: 0 <= j < |accounts| && j != index.value ==> accounts[j] == old(accounts)[j]
      ensures index.Some? ==> accounts[index.value] == SetField(old(accounts)[index.value], name, value)
      ensures index.Some? ==> newAccount == old(newAccount)
      ensures index.None? ==> accounts == old(accounts) && newAccount == SetField(old(newAccount), name, value)
    {
      if index.Some? {
        accounts := accounts[index.value := SetField(accounts[index.value], name, value)];
      } else {
        newAccount := SetField(newAccount, name, value);
      }
    }

    /**
     * Sends a DELETE naming the account (`request` is the id it carries), then
     * re-fetches. The service reports a failed DELETE by returning false
     * rather than throwing, so the re-fetch happens whatever `deleteOk` is.
     */
    method HandleDelete(accountId: string, deleteOk: bool, refetch: GetResponse) returns (request: string)
      modifies this`accounts
      ensures request == accountId
      ensures accounts == (if refetch.GetOk? then refetch.body else [])
    {
      request := accountId;
      FetchAccounts(refetch);
    }

    method HandleEdit(index: nat)
      modifies this`editStatus
      ensures editStatus == old(editStatus)[index := true]
    {
      editStatus := editStatus[index := true];
    }

    /**
     * Leaves edit mode for the row and sends the row as it now stands in a PUT
     * (`request`; nothing is sent for an index past the list). The list is not
     * touched, whether or not the PUT succeeds.
     */
    method HandleSave(index: nat, putOk: bool) returns (request: Option<Account>)
      modifies this`editStatus
      ensures editStatus == old(editStatus)[index := false]
      ensures request == (if index < |accounts| then Some(accounts[index]) else None)
    {
      editStatus := editStatus[index := false];
      request := if index < |accounts| then Some(accounts[index]) else None;
    }

    /** Leaves edit mode for the row; edits already written into the list stay. */
    method HandleCancel(index: nat)
      modifies this`editStatus
      ensures editStatus == old(editStatus)[index := false]
    {
      editStatus := editStatus[index := false];
    }

    method TogglePasswordVisibility(index: nat)
      modifies this`visiblePasswordIndex
      ensures visiblePasswordIndex == Toggled(old(visiblePasswordIndex), index)
    {
      if visiblePasswordIndex == Some(index) {
        visiblePasswordIndex := None;
      } else {
        visiblePasswordIndex := Some(index);
      }
    }
  }
}
