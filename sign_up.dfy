/** The sign-up form component: the register call of the sign-up page, with its
    message in its own `error` and `snackbarOpen` state. */
module SignUp {
  import opened Js
  import opened Messages
  import opened ApiStore

  datatype FormState = FormState(error: Option<string>, snackbarOpen: bool)

  predicate CanSubmit(firstName: string, lastName: string, email: string)
  {
    Truthy(firstName) && Truthy(lastName) && Truthy(email)
  }

  /** The outcome of `register`: 200 goes to "/login" leaving the message state; every
      failure sets the message and opens the snackbar. */
  method HandleRegister(outcome: Outcome<()>, state: FormState) returns (route: Option<string>, next: FormState)
    ensures ResolvedWith(outcome, 200) ==> route == Some("/login") && next == state
    ensures !ResolvedWith(outcome, 200) ==> route == None && next.snackbarOpen
    ensures outcome.Resolved? && outcome.status != 200 ==> next.error == Some(RegistrationFailed)
    ensures outcome.RejectedNoResponse? ==> next.error == Some(NetworkTryLater)
    ensures RejectedWith(outcome, 409) ==> next.error == Some(UserAlreadyExists)
    ensures outcome.RejectedWithResponse? && outcome.status != 409 ==> next.error == Some(RegistrationFailed)
  {
    route := None;
    next := state;
    match outcome {
      case Resolved(status, _, _) =>
        if status == 200 {
          route := Some("/login");
        } else {
          next := FormState(Some(RegistrationFailed), true);
        }
      case RejectedNoResponse =>
        next := FormState(Some(NetworkTryLater), true);
      case RejectedWithResponse(status) =>
        if status == 409 {
          next := next.(error := Some(UserAlreadyExists));
        } else {
          next := next.(error := Some(RegistrationFailed));
        }
        next := next.(snackbarOpen := true);
    }
  }

  /** The form's submit: with a missing field nothing at all happens. */
  method OnSubmit(firstName: string, lastName: string, email: string, outcome: Outcome<()>, state: FormState)
    returns (sent: Option<Req>, route: Option<string>, next: FormState)
    ensures !CanSubmit(firstName, lastName, email) ==> sent == None && route == None && next == state
    ensures CanSubmit(firstName, lastName, email) ==> sent == Some(Register(firstName, lastName, email))
  {
    if CanSubmit(firstName, lastName, email) {
      sent := Some(Register(firstName, lastName, email));
      route, next := HandleRegister(outcome, state);
    } else {
      sent := None;
      route := None;
      next := state;
    }
  }
}
