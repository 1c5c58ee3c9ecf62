/** The login page: the submit guard, the handling of the login outcome and the
    session it stores. */
module LogInPage {
  import opened Js
  import opened Session
  import opened Alerts
  import opened Messages
  import opened ApiStore

  const MainPage := "/pets"
  const LoginSuccessful := "Login successful."

  /** The form submits only with both fields non-empty. */
  predicate CanSubmit(email: string, password: string)
  {
    Truthy(email) && Truthy(password)
  }

  /** The outcome of `login`: on 200 the token (the `token` field), first and last
      name are stored, the page goes to "/pets" and a success alert is raised; every
      other outcome raises an error alert and leaves storage untouched: no response
      is a network error, 401 is bad credentials, anything else is a failed login. */
  method HandleLogin(outcome: Outcome<LoginData>, storage: LocalStorage) returns (route: Option<string>, alert: Alert)
    modifies storage
    ensures ResolvedWith(outcome, 200) ==>
      storage.items == SignedIn(old(storage.items), Stored(outcome.data.token),
                                Stored(outcome.data.firstName), Stored(outcome.data.lastName)) &&
      route == Some(MainPage) && alert == SuccessAlert(LoginSuccessful)
    ensures !ResolvedWith(outcome, 200) ==> storage.items == old(storage.items) && route == None
    ensures outcome.Resolved? && outcome.status != 200 ==> alert == ErrorAlert(LoginFailed)
    ensures outcome.RejectedNoResponse? ==> alert == ErrorAlert(NetworkTryLater)
    ensures RejectedWith(outcome, 401) ==> alert == ErrorAlert(InvalidCredentials)
    ensures outcome.RejectedWithResponse? && outcome.status != 401 ==> alert == ErrorAlert(LoginFailed)
  {
    route := None;
    match outcome {
      case Resolved(status, data, _) =>
        if status == 200 {
          storage.SetItem(JwtTokenKey, Stored(data.token));
          storage.SetItem(FirstNameKey, Stored(data.firstName));
          storage.SetItem(LastNameKey, Stored(data.lastName));
          route := Some(MainPage);
          alert := SuccessAlert(LoginSuccessful);
        } else {
          alert := ErrorAlert(LoginFailed);
        }
      case RejectedNoResponse =>
        alert := ErrorAlert(NetworkTryLater);
      case RejectedWithResponse(status) =>
        if status == 401 {
          alert := ErrorAlert(InvalidCredentials);
        } else {
          alert := ErrorAlert(LoginFailed);
        }
    }
  }

  /** The form's submit: with a missing field it raises the fill-in message and
      sends nothing; otherwise it sends `login(email, password)` and handles the
      outcome. */
  method OnSubmit(email: string, password: string, outcome: Outcome<LoginData>, storage: LocalStorage)
    returns (sent: Option<Req>, route: Option<string>, alert: Alert)
    modifies storage
    ensures !CanSubmit(email, password) ==>
      sent == None && route == None && alert == ErrorAlert(FillInAllFields) && storage.items == old(storage.items)
    ensures CanSubmit(email, password) ==> sent == Some(Login(email, password))
    ensures !ResolvedWith(outcome, 200) ==> storage.items == old(storage.items)
  {
    if CanSubmit(email, password) {
      sent := Some(Login(email, password));
      route, alert := HandleLogin(outcome, storage);
    } else {
      sent := None;
      route := None;
      alert := ErrorAlert(FillInAllFields);
    }
  }

  /** A successful login with a non-empty token makes every later request carry
      that token as a bearer token. */
  method LoginThenRequest(data: LoginData, isArray: bool, storage: LocalStorage, config: RequestConfig)
    returns (sent: RequestConfig)
    requires data.token.Some? && data.token.value != ""
    modifies storage, config`headers
    ensures sent == config
    ensures sent.headers == old(config.headers)[AuthorizationHeader := "Bearer " + data.token.value]
  {
    var route, alert := HandleLogin(Resolved(200, data, isArray), storage);
    sent := Intercept(config, storage);
    BearerAfterLogin(old(storage.items), old(config.headers), data.token.value,
                     Stored(data.firstName), Stored(data.lastName));
  }
}
