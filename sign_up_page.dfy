/** The sign-up page: the submit guard and the register outcome. It has no access
    to the session storage, so registering never changes the session. */
module SignUpPage {
  import opened Js
  import opened Alerts
  import opened Messages
  import opened ApiStore

  const LogInRoute := "/login"

  predicate CanSubmit(firstName: string, lastName: string, email: string)
  {
    Truthy(firstName) && Truthy(lastName) && Truthy(email)
  }

  /** The outcome of `register`: 200 goes to the login page with no alert; any other
      resolved status and any rejection other than 409 is a failed registration, 409
      is an existing user, and no response is a network error. */
  method HandleRegister(outcome: Outcome<()>) returns (route: Option<string>, alert: Option<Alert>)
    ensures ResolvedWith(outcome, 200) <==> route == Some(LogInRoute)
    ensures ResolvedWith(outcome, 200) <==> alert == None
    ensures !ResolvedWith(outcome, 200) ==> route == None
    ensures outcome.Resolved? && outcome.status != 200 ==> alert == Some(ErrorAlert(RegistrationFailed))
    ensures outcome.RejectedNoResponse? ==> alert == Some(ErrorAlert(NetworkTryLater))
    ensures RejectedWith(outcome, 409) ==> alert == Some(ErrorAlert(UserAlreadyExists))
    ensures outcome.RejectedWithResponse? && outcome.status != 409 ==> alert == Some(ErrorAlert(RegistrationFailed))
  {
    route := None;
    match outcome {
      case Resolved(status, _, _) =>
        if status == 200 {
          route := Some(LogInRoute);
          alert := None;
        } else {
          alert := Some(ErrorAlert(RegistrationFailed));
        }
      case RejectedNoResponse =>
        alert := Some(ErrorAlert(NetworkTryLater));
      case RejectedWithResponse(status) =>
        if status == 409 {
          alert := Some(ErrorAlert(UserAlreadyExists));
        } else {
          alert := Some(ErrorAlert(RegistrationFailed));
        }
    }
  }

  /** The form's submit: a missing field raises the fill-in message and sends
      nothing; otherwise it sends `register` with the three fields. */
  method OnSubmit(firstName: string, lastName: string, email: string, outcome: Outcome<()>)
    returns (sent: Option<Req>, route: Option<string>, alert: Option<Alert>)
    ensures !CanSubmit(firstName, lastName, email) ==>
      sent == None && route == None && alert == Some(ErrorAlert(FillInAllFields))
    ensures CanSubmit(firstName, lastName, email) ==> sent == Some(Register(firstName, lastName, email))
  {
    if CanSubmit(firstName, lastName, email) {
      sent := Some(Register(firstName, lastName, email));
      route, alert := HandleRegister(outcome);
    } else {
      sent := None;
      route := None;
      alert := Some(ErrorAlert(FillInAllFields));
    }
  }
}
