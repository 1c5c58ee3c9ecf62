/** The user profile page: the password rule and reset, loading the profile, and
    replacing the photo. */
module ProfilePage {
  import opened Js
  import opened Alerts
  import opened Messages
  import opened ApiStore
  import opened ImageUtils

  /** The profile fields the page shows. */
  datatype UserProfile = UserProfile(photo: string, firstName: string, lastName: string, email: string)

  predicate IsLower(c: char) { 'a' <= c <= 'z' }
  predicate IsUpper(c: char) { 'A' <= c <= 'Z' }
  predicate IsDigit(c: char) { '0' <= c <= '9' }
  predicate IsSpecial(c: char) { c in "@$!%*?&" }

  /** A character the rule allows anywhere in the password. */
  predicate IsAllowed(c: char)
  {
    IsLower(c) || IsUpper(c) || IsDigit(c) || IsSpecial(c)
  }

  /** The password rule: at least eight characters, all letters, digits or one of
      @$!%*?&, with at least one lowercase letter, one uppercase letter, one digit
      and one of the special characters. */
  predicate PasswordOk(pw: string)
  {
    |pw| >= 8 &&
    (forall i :: 0 <= i < |pw| ==> IsAllowed(pw[i])) &&
    (exists i :: 0 <= i < |pw| && IsLower(pw[i])) &&
    (exists i :: 0 <= i < |pw| && IsUpper(pw[i])) &&
    (exists i :: 0 <= i < |pw| && IsDigit(pw[i])) &&
    (exists i :: 0 <= i < |pw| && IsSpecial(pw[i]))
  }

  /** Examples of the rule: one that meets it, and ones that miss one condition each. */
  lemma PasswordExamples()
    ensures PasswordOk("Secret1!")
    ensures !PasswordOk("Secr1!")
    ensures !PasswordOk("secret1!")
    ensures !PasswordOk("Secret12")
    ensures !PasswordOk("Secret 1!")
  {
    var ok := "Secret1!";
    assert IsUpper(ok[0]) && IsLower(ok[1]) && IsDigit(ok[6]) && IsSpecial(ok[7]);
    assert forall i :: 0 <= i < |ok| ==> IsAllowed(ok[i]);
    var noUpper := "secret1!";
    assert forall i :: 0 <= i < |noUpper| ==> !IsUpper(noUpper[i]);
    var noSpecial := "Secret12";
    assert forall i :: 0 <= i < |noSpecial| ==> !IsSpecial(noSpecial[i]);
    var space := "Secret 1!";
    assert !IsAllowed(space[6]);
  }

  /** Adding an allowed character to an accepted password keeps it accepted. */
  lemma PasswordOkExtends(pw: string, c: char)
    requires PasswordOk(pw) && IsAllowed(c)
    ensures PasswordOk(pw + [c])
  {
    var q := pw + [c];
    assert forall i :: 0 <= i < |pw| ==> q[i] == pw[i];
    var l :| 0 <= l < |pw| && IsLower(pw[l]);
    assert IsLower(q[l]);
    var u :| 0 <= u < |pw| && IsUpper(pw[u]);
    assert IsUpper(q[u]);
    var d :| 0 <= d < |pw| && IsDigit(pw[d]);
    assert IsDigit(q[d]);
    var s :| 0 <= s < |pw| && IsSpecial(pw[s]);
    assert IsSpecial(q[s]);
  }

  const PasswordRule := "Password must contain at least 8 characters, one uppercase letter, one lowercase letter, one number, and one special character."
  const PasswordChanged := "Password changed successfully."

  /** `handleChangePassword`: a password that breaks the rule raises the rule as an
      error and sends nothing; otherwise the password is sent and 200 is a success,
      400 an invalid request, 500 a server error, anything else unexpected, and a
      rejection a network error. */
  method ChangePassword(newPassword: string, outcome: Outcome<()>) returns (sent: Option<string>, alert: Alert)
    ensures !PasswordOk(newPassword) ==> sent == None && alert == ErrorAlert(PasswordRule)
    ensures PasswordOk(newPassword) ==> sent == Some(newPassword)
    ensures alert == SuccessAlert(PasswordChanged) <==> PasswordOk(newPassword) && ResolvedWith(outcome, 200)
    ensures PasswordOk(newPassword) && ResolvedWith(outcome, 400) ==> alert == ErrorAlert(InvalidRequest)
    ensures PasswordOk(newPassword) && ResolvedWith(outcome, 500) ==> alert == ErrorAlert(ServerError)
    ensures PasswordOk(newPassword) && outcome.Resolved? && outcome.status !in {200, 400, 500} ==>
      alert == ErrorAlert(UnexpectedError)
    ensures PasswordOk(newPassword) && !outcome.Resolved? ==> alert == ErrorAlert(NetworkUnreachable)
  {
    if !PasswordOk(newPassword) {
      return None, ErrorAlert(PasswordRule);
    }
    sent := Some(newPassword);
    match outcome {
      case Resolved(status, _, _) =>
        if status == 200 {
          alert := SuccessAlert(PasswordChanged);
        } else if status == 400 {
          alert := ErrorAlert(InvalidRequest);
        } else if status == 500 {
          alert := ErrorAlert(ServerError);
        } else {
          alert := ErrorAlert(UnexpectedError);
        }
      case RejectedWithResponse(_) =>
        alert := ErrorAlert(NetworkUnreachable);
      case RejectedNoResponse =>
        alert := ErrorAlert(NetworkUnreachable);
    }
  }

  const UserNotFound := "User not found."

  /** `fetchUserDetails`: 200 stores the user with no alert; 400, 404 and 500 have
      their own messages and anything else is unexpected, keeping the user; a
      rejection is a network error; `loading` ends false on every path. */
  method FetchUserDetails(outcome: Outcome<UserProfile>, user: Option<UserProfile>)
    returns (newUser: Option<UserProfile>, alert: Option<Alert>, loading: bool)
    ensures !loading
    ensures ResolvedWith(outcome, 200) ==> newUser == Some(outcome.data) && alert == None
    ensures !ResolvedWith(outcome, 200) ==> newUser == user && alert.Some? && alert.value.severity == Some(Error)
    ensures ResolvedWith(outcome, 400) ==> alert == Some(ErrorAlert(InvalidRequest))
    ensures ResolvedWith(outcome, 404) ==> alert == Some(ErrorAlert(UserNotFound))
    ensures ResolvedWith(outcome, 500) ==> alert == Some(ErrorAlert(ServerError))
    ensures outcome.Resolved? && outcome.status !in {200, 400, 404, 500} ==> alert == Some(ErrorAlert(UnexpectedError))
    ensures !outcome.Resolved? ==> alert == Some(ErrorAlert(NetworkUnreachable))
  {
    newUser := user;
    match outcome {
      case Resolved(status, data, _) =>
        if status == 200 {
          newUser := Some(data);
          alert := None;
        } else if status == 400 {
          alert := Some(ErrorAlert(InvalidRequest));
        } else if status == 404 {
          alert := Some(ErrorAlert(UserNotFound));
        } else if status == 500 {
          alert := Some(ErrorAlert(ServerError));
        } else {
          alert := Some(ErrorAlert(UnexpectedError));
        }
      case RejectedWithResponse(_) =>
        alert := Some(ErrorAlert(NetworkUnreachable));
      case RejectedNoResponse =>
        alert := Some(ErrorAlert(NetworkUnreachable));
    }
    loading := false;
  }

  const ImageUpdated := "Image updated successfully."
  const ImageUpdateFailed := "Failed to update image. Please try again."

  /** The photo update once the file is read: the image is sent as "png"; only a 200
      replaces the photo, with every other field kept and no user staying none; any
      other outcome raises the same failure message and keeps the user. */
  method UpdateImage(base64String: string, outcome: Outcome<()>, user: Option<UserProfile>)
    returns (sentType: ImageType, newUser: Option<UserProfile>, alert: Alert)
    ensures sentType == Png
    ensures ResolvedWith(outcome, 200) ==>
      alert == SuccessAlert(ImageUpdated) &&
      newUser == (if user.Some? then Some(user.value.(photo := base64String)) else None)
    ensures !ResolvedWith(outcome, 200) ==> alert == ErrorAlert(ImageUpdateFailed) && newUser == user
    ensures newUser.Some? <==> user.Some?
    ensures newUser.Some? ==>
      newUser.value.firstName == user.value.firstName &&
      newUser.value.lastName == user.value.lastName && newUser.value.email == user.value.email
  {
    sentType := Png;
    newUser := user;
    if ResolvedWith(outcome, 200) {
      alert := SuccessAlert(ImageUpdated);
      if user.Some? {
        newUser := Some(user.value.(photo := base64String));
      }
    } else {
      alert := ErrorAlert(ImageUpdateFailed);
    }
  }
}
