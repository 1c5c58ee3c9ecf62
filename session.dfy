/** The browser's `localStorage` as the client uses it: a key to string map holding
    the session under the keys `jwtToken`, `userFirstName` and `userLastName`. */
module Session {
  import opened Js

  const JwtTokenKey := "jwtToken"
  const FirstNameKey := "userFirstName"
  const LastNameKey := "userLastName"

  /** The three keys a login writes and a logout removes. */
  const SessionKeys: set<string> := {JwtTokenKey, FirstNameKey, LastNameKey}

  /** The body of a login response, field by field; a field the backend did not
      send reads as `undefined`. */
  datatype LoginData = LoginData(
    token: Option<string>,
    jwt: Option<string>,
    firstName: Option<string>,
    lastName: Option<string>)

  /** `localStorage.getItem(key)`: the stored string, or `null`. */
  function Lookup(items: map<string, string>, key: string): Option<string>
  {
    if key in items then Some(items[key]) else None
  }

  /** What `localStorage.setItem(key, v)` stores: the value converted to a string,
      so an `undefined` field is stored as the text "undefined". */
  function Stored(v: Option<string>): (s: string)
    ensures v.Some? ==> s == v.value
    ensures v.None? ==> s == "undefined"
  {
    match v
    case Some(x) => x
    case None => "undefined"
  }

  /** The storage after a successful login wrote the three session keys. */
  function SignedIn(items: map<string, string>, token: string, firstName: string, lastName: string): map<string, string>
  {
    items[JwtTokenKey := token][FirstNameKey := firstName][LastNameKey := lastName]
  }

  /** The storage after a logout removed the three session keys. */
  function SignedOut(items: map<string, string>): map<string, string>
  {
    items - SessionKeys
  }

  /** A login leaves the three session keys holding exactly the new values, and
      every other key as it was. */
  lemma SignedInHoldsSession(items: map<string, string>, token: string, firstName: string, lastName: string)
    ensures Lookup(SignedIn(items, token, firstName, lastName), JwtTokenKey) == Some(token)
    ensures Lookup(SignedIn(items, token, firstName, lastName), FirstNameKey) == Some(firstName)
    ensures Lookup(SignedIn(items, token, firstName, lastName), LastNameKey) == Some(lastName)
    ensures forall k :: k !in SessionKeys ==>
      Lookup(SignedIn(items, token, firstName, lastName), k) == Lookup(items, k)
  {
  }

  /** A second login overwrites the first one's values. */
  lemma SignedInOverwrites(items: map<string, string>, t1: string, f1: string, l1: string,
                           t2: string, f2: string, l2: string)
    ensures SignedIn(SignedIn(items, t1, f1, l1), t2, f2, l2) == SignedIn(items, t2, f2, l2)
  {
  }

  /** A logout removes exactly the three session keys and keeps every other entry. */
  lemma SignedOutRemovesExactlySession(items: map<string, string>)
    ensures forall k :: k in SessionKeys ==> Lookup(SignedOut(items), k) == None
    ensures forall k :: k !in SessionKeys ==> Lookup(SignedOut(items), k) == Lookup(items, k)
  {
  }

  /** Logging out after a login leaves the storage as a logout alone would. */
  lemma SignedOutAfterSignedIn(items: map<string, string>, token: string, firstName: string, lastName: string)
    ensures SignedOut(SignedIn(items, token, firstName, lastName)) == SignedOut(items)
  {
  }

  class LocalStorage {
    var items: map<string, string>

    constructor (initial: map<string, string>)
      ensures items == initial
    {
      items := initial;
    }

    method GetItem(key: string) returns (v: Option<string>)
      ensures v.Some? <==> key in items
      ensures v.Some? ==> v.value == items[key]
    {
      if key in items {
        v := Some(items[key]);
      } else {
        v := None;
      }
    }

    method SetItem(key: string, value: string)
      modifies this
      ensures items == old(items)[key := value]
    {
      items := items[key := value];
    }

    method RemoveItem(key: string)
      modifies this
      ensures items == old(items) - {key}
    {
      items := items - {key};
    }
  }
}
