# Account management: validators, add-account form and table state

This project models the client-side logic of a small React account-management
front end:

- the five field validators of `src/utils/validator.js` (required first name,
  ten-digit mobile number, email suffix and `@`, password strength, password
  confirmation);
- the submit handler of the "add account" popup
  (`src/components/popup/AddAccountPopup.js`), which runs the validators in a
  fixed order, stops at the first failure, writes the form's error fields and,
  when everything passes, posts the draft, closes the popup, clears the draft
  and re-fetches the list;
- the state and event handlers of the account table
  (`src/components/table/AccountTable.js`): fetching, inline editing of a
  row or the draft, delete, edit/save/cancel flags and the single visible
  password;
- the older all-in-one view `src/App.js`, which has its own inline email and
  password tests, a different submit order (email suffix, equality,
  strength) and its own response handling.

Modules:

- `Wrappers`: `Option`.
- `Text`: the JavaScript string tests the validators use. These are
  `endsWith` and the one-class regular expressions `/[A-Z]/`, `/[a-z]/`,
  `/\d/` and `/[^A-Za-z0-9]/` (written as a leftmost-match `Search`), plus
  `/^\d{10}$/`.
- `Accounts`: the account record, the input field names, the `{...a, [name]:
  value}` update and the outcome of a GET.
- `Validator`: the validators.
- `Submission`: the checks, the two check orders, the first failing check and
  the error fields each handler leaves behind.
- `Table`: the table component as a class.
- `Popup`: the popup as a class that owns its four error fields and updates its
  parent table's state.
- `App`: the all-in-one view as a class.

A validator in the source returns `''` on success and a fixed message
otherwise. Here it returns `Option<Message>`: `None` for `''`, and
`Some(m)` for the message `m`, whose exact text is `Validator.Wording(m)`.
Error fields hold the same `Option<Message>` values.

Every handler is one atomic step. Each network outcome is a parameter:
- a `GetResponse` for the list GET;
- a `bool` for the POST that adds an account;
- a `bool` for the DELETE in `src/App.js`, which decides whether the list is
  re-fetched;
- a `bool` for the DELETE in the table component and for the PUT in both
  views. These three flags are accepted but change nothing, because the
  source only logs those failures.

Where the source sends a request, the method returns what it would send
(`request`): the draft for a POST, the row for a PUT and the account id for a
DELETE.

The code behaves as follows:

- The service's `addAccount` reports a failed POST by returning `false`, not
  by throwing. So the popup closes, clears the draft and re-fetches even when
  the POST fails. It does not stay open with the old draft.
- The table component re-fetches after a delete whatever the DELETE's
  outcome. No variant removes the row from the local list.
- Cancel only clears the row's edit flag. Neither variant keeps a snapshot of
  the list to restore, so edits typed before Cancel stay in the list.
- A failed GET empties the list in the table component, because the service
  returns `[]`. In `src/App.js` a failed GET leaves the list as it was.

## Model

| member | source | states |
|---|---|---|
| Text.Search | src/utils/validator.js:38-41 | a one-class regular-expression search: a found position holds a character of the class and no earlier one does; no result means no character of the class occurs |
| Text.SearchFindsIffOccurs | src/utils/validator.js:38-41 | the search succeeds exactly when some character of the class occurs in the string |
| Accounts.SetField | src/components/table/AccountTable.js:40 | `{...a, [name]: value}` gives field `name` the value and keeps every other field, `id` included |
| Validator.ValidateRequiredFields | src/utils/validator.js:1-6 | passes exactly when the first name is non-empty; the only failure is "firstname is mandatory" |
| Validator.ValidateMobile | src/utils/validator.js:8-16 | an empty number gives "Mobile no is mandatory"; passes exactly when the number is ten ASCII digits; any other non-empty input gives "Mobile No must be 10 digits" |
| Validator.ValidateEmail | src/utils/validator.js:18-30 | a missing ".com"/".in" suffix gives the suffix message whether or not "@" occurs; a good suffix without "@" gives the "@" message; passes exactly when both hold |
| Validator.ValidatePassword | src/utils/validator.js:33-46 | passes exactly when the length is 8 to 12 and an upper-case letter, a lower-case letter, a digit and a character outside `[A-Za-z0-9]` all occur; the only failure is the strength message |
| Validator.ValidateConfirmPassword | src/utils/validator.js:48-53 | passes exactly when the two strings are equal; the only failure is the mismatch message |
| Validator.WordingNonEmpty | src/utils/validator.js:1-53 | every message text is non-empty, so a reported message is truthy where the handlers test the returned string |
| Validator.EmailAcceptedExample | src/utils/validator.js:18-30 | "user@x.com" passes |
| Validator.EmailSuffixExample | src/utils/validator.js:20-22 | "user@x.org" fails on the suffix |
| Validator.EmailMissingAtExample | src/utils/validator.js:25-27 | "userx.com" passes the suffix test and fails for the missing "@" |
| Validator.PasswordExamples | src/utils/validator.js:33-53 | "Ab1!23456" is strong and confirms itself; "ab1!23456" (no upper-case letter) is too weak |
| Submission.Run | src/components/popup/AddAccountPopup.js:14-18 | each check reports nothing or one of the messages its validator can return |
| Submission.FirstFailing | src/components/popup/AddAccountPopup.js:20-53 | the first check of an order that fails: every check before it passes; no result means every check passes |
| Submission.PopupFirstFailure | src/components/popup/AddAccountPopup.js:20-53 | the popup's order is required, email, strength, confirmation, mobile, and the first failure wins |
| Submission.AppFirstFailure | src/App.js:80-92 | the inline order is email suffix, equality, strength, and the first failure wins |
| Submission.PopupReportedFollowsOrder | src/components/popup/AddAccountPopup.js:20-53 | the popup posts exactly when no check fails, and then all four error fields are cleared; otherwise the failing check's field shows its message, fields of earlier checks are cleared and fields of later checks keep their value |
| Submission.AppReportedFollowsOrder | src/App.js:55-92 | the inline handler posts exactly when no check fails, and then both error fields keep their value; otherwise the failing check's field shows its message and the other field keeps its value |
| Submission.PopupMismatchOnlyAfterStrength | src/components/popup/AddAccountPopup.js:34-46 | the mismatch message can newly appear in the shared password field only when the strength check passed |
| Submission.AppMismatchBeforeStrength | src/App.js:85-92 | with a good suffix, a mismatched confirmation is the first failure and its message is shown, whatever the strength |
| Submission.AppEmailWeaker | src/App.js:55-62 | every address the shared validator accepts passes the inline test, and "userx.com" passes it while failing the validator |
| Submission.AppStaleEmailError | src/App.js:55-92 | after a suffix failure, a later attempt that passes still shows the suffix message |
| Submission.PopupStricterThanApp | src/App.js:80-92 | every draft the popup posts, the inline handler posts too |
| Submission.AppOmitsRequiredAndMobile | src/App.js:80-102 | a draft with empty first name and mobile number passes the inline handler but fails the popup's first check |
| Table.Toggled | src/components/table/AccountTable.js:71-77 | clicking a row shows its password unless it was the one shown, in which case no password is shown |
| Table.ToggleTwiceHidesAll | src/components/table/AccountTable.js:71-77 | clicking a hidden row twice leaves no password shown |
| Table.AccountTable.constructor | src/components/table/AccountTable.js:7-18 | empty list, popup hidden, no row in edit mode, no password shown, empty draft |
| Table.AccountTable.FetchAccounts | src/components/table/AccountTable.js:24-31 | the list becomes the GET body, or the empty list when the GET fails |
| Table.AccountTable.HandleInputChange | src/components/table/AccountTable.js:33-42 | with a row index, only that field of that row changes (length and other rows kept, draft kept); without one, only that field of the draft changes and the list is untouched |
| Table.AccountTable.HandleDelete | src/components/table/AccountTable.js:44-51 | a DELETE naming the given account id is sent, and the list is re-fetched whatever its outcome |
| Table.AccountTable.HandleEdit | src/components/table/AccountTable.js:53-55 | only the row's edit flag changes, to true |
| Table.AccountTable.HandleSave | src/components/table/AccountTable.js:57-65 | only the row's edit flag changes, to false; the row as it stands is sent; the list is untouched |
| Table.AccountTable.HandleCancel | src/components/table/AccountTable.js:67-69 | only the row's edit flag changes, to false; the list, with its edits, is untouched |
| Table.AccountTable.TogglePasswordVisibility | src/components/table/AccountTable.js:71-77 | the visible row becomes `Toggled` of the old one |
| Popup.AddAccountPopup.constructor | src/components/popup/AddAccountPopup.js:6-10 | all four error fields start cleared |
| Popup.AddAccountPopup.RunChecks | src/components/popup/AddAccountPopup.js:12-53 | succeeds exactly when all five validators pass; the error fields end as PopupReported gives, starting from their old values |
| Popup.AddAccountPopup.HandleAdd | src/components/popup/AddAccountPopup.js:12-70 | a rejected draft leaves the list, popup flag and draft unchanged and posts nothing; an accepted draft is posted, the popup is hidden, the draft is cleared and the list re-fetched, whether or not the POST succeeds; edit flags and the visible password are untouched |
| App.InlinePasswordTest | src/App.js:64-78 | the inline strength test accepts exactly the passwords the shared validator accepts |
| App.AccountTable.constructor | src/App.js:5-19 | empty list, empty draft, popup hidden, no edit flags, both error fields cleared, no password shown |
| App.AccountTable.FetchAccounts | src/App.js:25-42 | the list becomes the GET body; a failed GET leaves it as it was |
| App.AccountTable.HandleInputChange | src/App.js:44-53 | as in the table component: one field of one row, or one field of the draft |
| App.AccountTable.ValidateEmail | src/App.js:55-62 | passes exactly when the address ends in ".com" or ".in"; a failure sets the suffix message; a pass leaves the field as it was |
| App.AccountTable.ValidatePassword | src/App.js:64-78 | passes exactly when the shared validator passes; a failure sets the strength message; a pass leaves the field as it was |
| App.AccountTable.RunChecks | src/App.js:80-92 | succeeds exactly when suffix, equality and strength all pass; the error fields end as AppReported gives |
| App.AccountTable.HandleAdd | src/App.js:80-120 | a rejected draft changes nothing outside the error fields and posts nothing; an accepted draft is posted, and only a successful POST hides the popup, clears the draft and re-fetches; edit flags and the visible password are untouched |
| App.AccountTable.HandleDelete | src/App.js:122-139 | a DELETE naming the given account id is sent; the list is re-fetched only after it succeeds; nothing else changes |
| App.AccountTable.HandleEdit | src/App.js:141-143 | only the row's edit flag changes, to true |
| App.AccountTable.HandleSave | src/App.js:145-162 | only the row's edit flag changes, to false; the row is sent; the list is untouched |
| App.AccountTable.HandleCancel | src/App.js:164-166 | only the row's edit flag changes, to false |
| App.AccountTable.TogglePasswordVisibility | src/App.js:168-174 | the visible row becomes `Toggled` of the old one |

## Left out

- HTTP, JSON and console logging: src/services/accountService.js is not part of this model. Only its observable outcome appears, as a parameter: a GET body or failure, and the POST and DELETE success flags in `src/App.js`.
- The PUT outcome in both views, the DELETE outcome in the table component and the POST outcome in the popup change no state: `putOk` (in both `HandleSave` methods), `deleteOk` (in `Table.AccountTable.HandleDelete`) and `postOk` (in `Popup.AddAccountPopup.HandleAdd`) are accepted but unused, because the source only logs those failures.
- Rendering, CSS and icons: presentation only.
- The "Add Account" and popup "Cancel" buttons: they set `showPopup`, and hiding the popup unmounts the form, which discards its four error fields. Neither that state change nor the reset of the error fields on unmount is modelled.
- The initial `useEffect` fetch. It is one `FetchAccounts` call.
- Async interleaving and stale responses: every handler is one atomic step.
- React's batched, closure-captured state setters: each setter is applied in program order.
- The JavaScript regular-expression engine. The five expressions are written as character predicates over `seq<char>`.
- String lengths: Dafny characters are Unicode scalar values, while JavaScript `length` counts UTF-16 code units. The two differ for characters outside the Basic Multilingual Plane.
- Truthiness of `undefined`/`null` fields: every account field is a string, and "falsy" means empty.
- The draft object in the source has no `id` key; here its `id` is "". No input is named `id`, so `Field` has no case for it and no input change can set it.
- Aliasing in the shallow array copy of `handleInputChange`: the row update is a sequence update with the same observable result.
- HandleInputChange: an out-of-range row index is excluded by its precondition. The view renders inputs only for existing rows, and the source would throw on a missing row.
- HandleSave: for an index past the list the source still sends a PUT with an undefined body. The model reports no request.
- Wording: the model does not prove that the seven message texts are pairwise distinct; every contract is stated on `Message` values, so which message applies is read from the constructor, not from its text.
