/** The process-wide alert channel (`useSnackBarStore`): one slot holding the latest
    message, its severity and whether it is shown. */
module Alerts {
  import opened Js

  datatype Severity = Error | Warning | Info | Success

  /** What a handler passes to `openAlert`: the text and, if it gives one, the severity. */
  datatype Alert = Alert(text: string, severity: Option<Severity>)

  /** An alert published with an explicit "error" severity. */
  function ErrorAlert(text: string): Alert
  {
    Alert(text, Some(Error))
  }

  function SuccessAlert(text: string): Alert
  {
    Alert(text, Some(Success))
  }

  /** The severity a caller gave, or "info" when it gave none; both `openAlert` and
      the `AlertSnackBar` props use this default. */
  function SeverityOrDefault(severity: Option<Severity>): (s: Severity)
    ensures severity.None? ==> s == Info
    ensures severity.Some? ==> s == severity.value
  {
    match severity
    case Some(v) => v
    case None => Info
  }

  class SnackBarStore {
    var isOpenAlert: bool
    var alertText: string
    var severity: Severity

    /** The initial state: closed, empty text, severity "info". */
    constructor ()
      ensures !isOpenAlert && alertText == "" && severity == Info
    {
      isOpenAlert := false;
      alertText := "";
      severity := Info;
    }

    /** `setIsOpenAlert(b)`: only the open flag changes. */
    method SetIsOpenAlert(b: bool)
      modifies this`isOpenAlert
      ensures isOpenAlert == b
    {
      isOpenAlert := b;
    }

    /** `openAlert(text, severity)`: the slot is open and holds exactly this message;
        whatever it held before is overwritten, and a missing severity is "info". */
    method OpenAlert(text: string, sev: Option<Severity>)
      modifies this
      ensures isOpenAlert && alertText == text && severity == SeverityOrDefault(sev)
    {
      isOpenAlert := true;
      alertText := text;
      severity := SeverityOrDefault(sev);
    }

    /** Publishes a handler's alert, if it raised one. */
    method Publish(a: Option<Alert>)
      modifies this
      ensures a.None? ==> isOpenAlert == old(isOpenAlert) && alertText == old(alertText) && severity == old(severity)
      ensures a.Some? ==> isOpenAlert && alertText == a.value.text && severity == SeverityOrDefault(a.value.severity)
    {
      if a.Some? {
        OpenAlert(a.value.text, a.value.severity);
      }
    }
  }

  /** Two alerts in a row: only the second is held, there is no queue; closing the
      slot in between does not keep a later alert from reopening it. */
  method OpenTwice(store: SnackBarStore, t1: string, s1: Option<Severity>, t2: string, s2: Option<Severity>)
    modifies store
    ensures store.isOpenAlert && store.alertText == t2 && store.severity == SeverityOrDefault(s2)
  {
    store.OpenAlert(t1, s1);
    store.SetIsOpenAlert(false);
    store.OpenAlert(t2, s2);
  }
}
