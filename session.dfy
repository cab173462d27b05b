/**
  The dashboard's session and fetch policy: the stored token gates the list
  fetch, while the `POST` of a new entry goes out with whatever token the page
  holds; a 401 answer ends the session, any other failure shows a message, and
  an entry is only sent when an amount was typed.

  The network, `localStorage` and the router are not modelled as such: the
  answer a call gets is a parameter of the method that makes it, the stored
  token is the field `token`, the current page is `route`, and every call the
  dashboard issues is appended to `requests`.
 */
module Session {
  import opened Transactions

  datatype Option<T> = None | Some(value: T)

  datatype Route = DashboardPage | LoginPage

  /** How a call to the API ended: with a body, with status 401, or with
      any other failure (another status, or no answer at all). */
  datatype Response<T> = Ok(body: T) | Unauthorized | Failed

  /** A call the dashboard sent: the `GET` that reads the list, with the
      token as a query parameter, and the `POST` that appends a record,
      carrying whatever token the page held, possibly none. */
  datatype Request =
    | GetTransactions(token: string)
    | PostTransaction(sentToken: Option<string>, payload: Transaction)

  const LoadError: string := "Could not load transactions."
  const AddError: string := "Could not add transaction."

  /** The test `if (!token)` fails both for a missing token and for an
      empty one. */
  predicate HasToken(token: Option<string>)
  {
    token.Some? && token.value != ""
  }

  class Dashboard {
    /** The token under `localStorage["token"]`. */
    var token: Option<string>
    var route: Route
    /** The list last received from the server, in the server's order. */
    var transactions: seq<Transaction>
    /** The entry form's fields. */
    var amount: string
    var kind: string
    var category: string
    var note: string
    /** The message shown above the cards; empty when there is none. */
    var error: string
    /** Every call issued to the API, in order. */
    var requests: seq<Request>

    /** The page as first rendered, before its mount-time fetch. */
    constructor (stored: Option<string>)
      ensures token == stored && route == DashboardPage
      ensures transactions == [] && error == "" && requests == []
      ensures amount == "" && kind == Expense && category == "Food" && note == ""
    {
      token := stored;
      route := DashboardPage;
      transactions := [];
      amount := "";
      kind := Expense;
      category := "Food";
      note := "";
      error := "";
      requests := [];
    }

    /** `fetchTransactions`: without a token, go to the login page and send
        nothing; otherwise read the list, replacing the shown list wholesale
        on success. */
    method FetchTransactions(response: Response<seq<Transaction>>)
      modifies this
      ensures amount == old(amount) && kind == old(kind) && category == old(category) && note == old(note)
      ensures !HasToken(old(token)) ==>
                && route == LoginPage && requests == old(requests) && token == old(token)
                && transactions == old(transactions) && error == old(error)
      ensures HasToken(old(token)) ==> requests == old(requests) + [GetTransactions(old(token).value)]
      ensures HasToken(old(token)) && response.Ok? ==>
                && transactions == response.body
                && token == old(token) && route == old(route) && error == old(error)
      ensures HasToken(old(token)) && response.Unauthorized? ==>
                && token == None && route == LoginPage
                && transactions == old(transactions) && error == old(error)
      ensures HasToken(old(token)) && response.Failed? ==>
                && error == LoadError
                && token == old(token) && route == old(route) && transactions == old(transactions)
    {
      if !HasToken(token) {
        route := LoginPage;
        return;
      }
      requests := requests + [GetTransactions(token.value)];
      match response
      case Ok(body) =>
        transactions := body;
      case Unauthorized =>
        token := None;
        route := LoginPage;
      case Failed =>
        error := LoadError;
    }

    /** `handleAdd`: with an empty amount field nothing happens. Otherwise the
        message is cleared and the new record is posted, with `id` standing
        for `Date.now()`, `parsed` for `parseFloat(amount)` and `today` for
        the current ISO date. The token is not checked here: the `POST` goes
        out with whatever token the page holds. On success the form is reset
        and the list is fetched again (answered by `refetch`); the page never
        adds the record to its list itself. */
    method HandleAdd(id: int, parsed: int, today: string,
                     post: Response<()>, refetch: Response<seq<Transaction>>)
      modifies this
      ensures kind == old(kind) && category == old(category)
      ensures old(amount) == "" ==>
                && token == old(token) && route == old(route) && transactions == old(transactions)
                && amount == old(amount) && note == old(note) && error == old(error)
                && requests == old(requests)
      ensures old(amount) != "" ==>
                var sent := old(requests) + [PostTransaction(old(token),
                              Transaction(id, parsed, old(kind), old(category), today, old(note)))];
                match post
                case Unauthorized =>
                  && token == None && route == LoginPage && requests == sent
                  && transactions == old(transactions) && amount == old(amount) && note == old(note)
                  && error == ""
                case Failed =>
                  && error == AddError && requests == sent
                  && token == old(token) && route == old(route) && transactions == old(transactions)
                  && amount == old(amount) && note == old(note)
                case Ok(_) =>
                  && amount == "" && note == ""
                  && (!HasToken(old(token)) ==>
                        && route == LoginPage && requests == sent && token == old(token)
                        && transactions == old(transactions) && error == "")
                  && (HasToken(old(token)) ==>
                        && requests == sent + [GetTransactions(old(token).value)]
                        && (refetch.Ok? ==>
                              && transactions == refetch.body
                              && token == old(token) && route == old(route) && error == "")
                        && (refetch.Unauthorized? ==>
                              && token == None && route == LoginPage
                              && transactions == old(transactions) && error == "")
                        && (refetch.Failed? ==>
                              && error == LoadError
                              && token == old(token) && route == old(route)
                              && transactions == old(transactions)))
    {
      if amount == "" {
        return;
      }
      error := "";
      var payload := Transaction(id, parsed, kind, category, today, note);
      requests := requests + [PostTransaction(token, payload)];
      match post
      case Ok(_) =>
        amount := "";
        note := "";
        FetchTransactions(refetch);
      case Unauthorized =>
        token := None;
        route := LoginPage;
      case Failed =>
        error := AddError;
    }

    /** `handleLogout`: forget the token and go to the login page. */
    method HandleLogout()
      modifies this
      ensures token == None && route == LoginPage
      ensures transactions == old(transactions) && error == old(error) && requests == old(requests)
      ensures amount == old(amount) && kind == old(kind) && category == old(category) && note == old(note)
    {
      token := None;
      route := LoginPage;
    }
  }
}
