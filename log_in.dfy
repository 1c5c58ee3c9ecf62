/** The login form component: the same login call as the login page, but it keeps
    its message in its own `error` and `snackbarOpen` state, reads the token from
    the `jwt` field and goes to "/". */
module LogIn {
  import opened Js
  import opened Session
  import opened Messages
  import opened ApiStore

  /** The component's own message state. */
  datatype FormState = FormState(error: Option<string>, snackbarOpen: bool)

  predicate CanSubmit(email: string, password: string)
  {
    Truthy(email) && Truthy(password)
  }

  /** The outcome of `login`: on 200 it stores the `jwt` field (an absent field is
      stored as the text "undefined") and both names and goes to "/", leaving its
      message state as it was; every failure sets the message and opens the
      snackbar and leaves storage untouched. */
  method HandleLogin(outcome: Outcome<LoginData>, state: FormState, storage: LocalStorage)
    returns (route: Option<string>, next: FormState)
    modifies storage
    ensures ResolvedWith(outcome, 200) ==>
      storage.items == SignedIn(old(storage.items), Stored(outcome.data.jwt),
                                Stored(outcome.data.firstName), Stored(outcome.data.lastName)) &&
      route == Some("/") && next == state
    ensures !ResolvedWith(outcome, 200) ==> storage.items == old(storage.items) && route == None && next.snackbarOpen
    ensures outcome.Resolved? && outcome.status != 200 ==> next.error == Some(LoginFailed)
    ensures outcome.RejectedNoResponse? ==> next.error == Some(NetworkTryLater)
    ensures RejectedWith(outcome, 401) ==> next.error == Some(InvalidCredentials)
    ensures outcome.RejectedWithResponse? && outcome.status != 401 ==> next.error == Some(LoginFailed)
  {
    route := None;
    next := state;
    match outcome {
      case Resolved(status, data, _) =>
        if status == 200 {
          storage.SetItem(JwtTokenKey, Stored(data.jwt));
          storage.SetItem(FirstNameKey, Stored(data.firstName));
          storage.SetItem(LastNameKey, Stored(data.lastName));
          route := Some("/");
        } else {
          next := FormState(Some(LoginFailed), true);
        }
      case RejectedNoResponse =>
        next := FormState(Some(NetworkTryLater), true);
      case RejectedWithResponse(status) =>
        if status == 401 {
          next := next.(error := Some(InvalidCredentials));
        } else {
          next := next.(error := Some(LoginFailed));
        }
        next := next.(snackbarOpen := true);
    }
  }

  /** The form's submit: with a missing field nothing at all happens. */
  method OnSubmit(email: string, password: string, outcome: Outcome<LoginData>, state: FormState, storage: LocalStorage)
    returns (sent: Option<Req>, route: Option<string>, next: FormState)
    modifies storage
    ensures !CanSubmit(email, password) ==>
      sent == None && route == None && next == state && storage.items == old(storage.items)
    ensures CanSubmit(email, password) ==> sent == Some(Login(email, password))
  {
    if CanSubmit(email, password) {
      sent := Some(Login(email, password));
      route, next := HandleLogin(outcome, state, storage);
    } else {
      sent := None;
      route := None;
      next := state;
    }
  }

  /** When the login response has no `jwt` field, the stored token is the text
      "undefined" and every later request carries "Bearer undefined". */
  lemma MissingJwtSendsBearerUndefined(items: map<string, string>, headers: map<string, string>, data: LoginData)
    requires data.jwt.None?
    ensures WithAuthorization(headers, Lookup(SignedIn(items, Stored(data.jwt), Stored(data.firstName),
                                                        Stored(data.lastName)), JwtTokenKey))
         == headers[AuthorizationHeader := "Bearer undefined"]
  {
    assert Stored(data.jwt) == "undefined";
    BearerAfterLogin(items, headers, "undefined", Stored(data.firstName), Stored(data.lastName));
    assert "Bearer " + "undefined" == "Bearer undefined";
  }
}
