/** The side drawer: its navigation items, which one is highlighted, and logout. */
module SideDrawer {
  import opened Js
  import opened Session
  import opened Alerts
  import opened ApiStore

  datatype DrawerItem = DrawerItem(text: string, path: string)

  /** The items in display order. */
  const DrawerItems: seq<DrawerItem> := [
    DrawerItem("Pets", "/pets"),
    DrawerItem("Appointments", "/appointments"),
    DrawerItem("Profile", "/profile"),
    DrawerItem("Notifications", "/notifications")
  ]

  /** An item is highlighted when the current location is exactly its path. */
  predicate IsHighlighted(item: DrawerItem, pathname: string)
  {
    pathname == item.path
  }

  /** The item paths are pairwise distinct. */
  lemma DrawerPathsDistinct()
    ensures forall i, j :: 0 <= i < j < |DrawerItems| ==> DrawerItems[i].path != DrawerItems[j].path
  {
  }

  /** Whatever the location, at most one item is highlighted, and one is exactly
      when the location is one of the four paths. */
  lemma AtMostOneHighlighted(pathname: string)
    ensures forall i, j ::
      (0 <= i < |DrawerItems| && 0 <= j < |DrawerItems| &&
       IsHighlighted(DrawerItems[i], pathname) && IsHighlighted(DrawerItems[j], pathname)) ==> i == j
    ensures (exists i :: 0 <= i < |DrawerItems| && IsHighlighted(DrawerItems[i], pathname)) <==>
      pathname in {"/pets", "/appointments", "/profile", "/notifications"}
  {
    DrawerPathsDistinct();
    if pathname in {"/pets", "/appointments", "/profile", "/notifications"} {
      var i := if pathname == "/pets" then 0 else if pathname == "/appointments" then 1
               else if pathname == "/profile" then 2 else 3;
      assert IsHighlighted(DrawerItems[i], pathname);
    }
  }

  const LoggedOut := "You have been logged out."

  /** The logout button: removes the three session keys, navigates to "/login" and
      raises the logout message with no severity, so the store shows it as "info". */
  method Logout(storage: LocalStorage) returns (route: string, alert: Alert)
    modifies storage
    ensures storage.items == SignedOut(old(storage.items))
    ensures route == "/login"
    ensures alert == Alert(LoggedOut, None) && SeverityOrDefault(alert.severity) == Info
  {
    storage.RemoveItem(JwtTokenKey);
    storage.RemoveItem(FirstNameKey);
    storage.RemoveItem(LastNameKey);
    assert storage.items == old(storage.items) - {JwtTokenKey} - {FirstNameKey} - {LastNameKey};
    route := "/login";
    alert := Alert(LoggedOut, None);
  }

  /** After logout the interceptor sends the next request without an
      `Authorization` header. */
  method LogoutThenRequest(storage: LocalStorage, config: RequestConfig) returns (sent: RequestConfig)
    modifies storage, config`headers
    ensures AuthorizationHeader !in sent.headers
    ensures sent == config
  {
    var route, alert := Logout(storage);
    sent := Intercept(config, storage);
    NoAuthorizationAfterLogout(old(storage.items), old(config.headers));
  }
}
