/**
 * The account record shared by the table rows and the "add account" draft,
 * the fields an input element can name, and the outcome of a GET request.
 */
module Accounts {

  /**
   * An account row or draft. All fields are strings; an empty string stands
   * for a missing (falsy) value. `id` is "" for a draft the server has not
   * assigned one to, and `confirmPassword` is only meaningful in the draft.
   */
  datatype Account = Account(
    id: string,
    firstname: string,
    lastname: string,
    email: string,
    password: string,
    confirmPassword: string,
    mobileno: string)

  /**
   * The `name` attribute of an input element, i.e. the key written by an
   * input change. No input is named `id`, so an input change never touches it.
   */
  datatype Field = FirstName | LastName | Email | Password | ConfirmPassword | MobileNo

  function GetField(a: Account, f: Field): string {
    match f
    case FirstName => a.firstname
    case LastName => a.lastname
    case Email => a.email
    case Password => a.password
    case ConfirmPassword => a.confirmPassword
    case MobileNo => a.mobileno
  }

  /** `{ ...a, [f]: value }`: the record with one field replaced and every other field kept. */
  function SetField(a: Account, f: Field, value: string): (b: Account)
    ensures GetField(b, f) == value
    ensures forall g :: g != f ==> GetField(b, g) == GetField(a, g)
    ensures b.id == a.id
  {
    match f
    case FirstName => a.(firstname := value)
    case LastName => a.(lastname := value)
    case Email => a.(email := value)
    case Password => a.(password := value)
    case ConfirmPassword => a.(confirmPassword := value)
    case MobileNo => a.(mobileno := value)
  }

  /** The draft with every field empty: the form's initial state and what it is reset to. */
  const EmptyDraft := Account("", "", "", "", "", "", "")

  /** The outcome of a GET of the account list: a parsed body, or a failure (non-2xx or transport error). */
  datatype GetResponse = GetOk(body: seq<Account>) | GetFailed
}
