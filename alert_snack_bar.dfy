/** The snackbar that shows the alert slot and closes it. */
module AlertSnackBar {
  import opened Js
  import opened Alerts

  /** The component's props; `onClose` is only recorded as given or not. */
  datatype Props = Props(open: bool, text: string, severity: Option<Severity>, onCloseGiven: bool)

  /** The severity the snackbar shows: the prop, or "info" by default. */
  function ShownSeverity(p: Props): (s: Severity)
    ensures p.severity.None? ==> s == Info
    ensures p.severity.Some? ==> s == p.severity.value
  {
    SeverityOrDefault(p.severity)
  }

  /** How many times the caller's own `onClose` callback runs when the effective
      `onClose` (the caller's, or the default no-op) is invoked `calls` times. */
  function CallerCallbacks(p: Props, calls: nat): (n: nat)
    ensures !p.onCloseGiven ==> n == 0
    ensures p.onCloseGiven ==> n == calls
  {
    if p.onCloseGiven then calls else 0
  }

  /** `handleClose(event, reason)` with `setIsOpenAlert` bound to the store: a
      "clickaway" does nothing; any other reason, or none, clears the open flag and
      then invokes `onClose` once. Returns the number of `onClose` invocations. */
  method HandleClose(p: Props, store: SnackBarStore, reason: Option<string>) returns (onCloseCalls: nat)
    modifies store`isOpenAlert
    ensures reason == Some("clickaway") ==> store.isOpenAlert == old(store.isOpenAlert) && onCloseCalls == 0
    ensures reason != Some("clickaway") ==> !store.isOpenAlert && onCloseCalls == 1
    ensures CallerCallbacks(p, onCloseCalls) == (if p.onCloseGiven && reason != Some("clickaway") then 1 else 0)
  {
    if reason == Some("clickaway") {
      return 0;
    }
    store.SetIsOpenAlert(false);
    onCloseCalls := 1;
  }
}
