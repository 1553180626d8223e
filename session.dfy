/**
 * The browser's localStorage as the pages use it: a mutable map from keys
 * to strings, holding the session under the keys "Authorization" and
 * "UserType", the logout handler that removes both, and the routes the
 * handlers navigate to.
 */
module Session {
  import opened Wrappers

  const AUTHORIZATION := "Authorization"
  const USER_TYPE := "UserType"

  /** The client-side routes the handlers navigate to. */
  const LANDING_PATH := "/"
  const LOGIN_PATH := "/login"
  const HOME_PATH := "/user/home"

  /** `getItem` on a snapshot of the storage: null when the key is absent. */
  function Lookup(items: map<string, string>, key: string): Option<string>
  {
    if key in items then Some(items[key]) else None
  }

  class LocalStorage {
    var items: map<string, string>

    constructor (initial: map<string, string>)
      ensures items == initial
    {
      items := initial;
    }

    function GetItem(key: string): Option<string>
      reads this
    {
      Lookup(items, key)
    }

    /** `setItem`: the key now maps to the value; no other key changes. */
    method SetItem(key: string, value: string)
      modifies this
      ensures items == old(items)[key := value]
    {
      items := items[key := value];
    }

    /** `removeItem`: the key is gone; no other key changes. Removing an absent key does nothing. */
    method RemoveItem(key: string)
      modifies this
      ensures items == old(items) - {key}
    {
      items := items - {key};
    }
  }

  /** The storage once the session is cleared: both session keys gone, every other entry as it was. */
  function ClearSession(items: map<string, string>): (r: map<string, string>)
    ensures AUTHORIZATION !in r && USER_TYPE !in r
    ensures forall k :: k in items && k != AUTHORIZATION && k != USER_TYPE ==> k in r && r[k] == items[k]
    ensures forall k :: k in r ==> k in items
  {
    items - {AUTHORIZATION, USER_TYPE}
  }

  /** The logout handler of the feed and of the mock-question page: clear the session, go to the landing page. */
  method Logout(store: LocalStorage) returns (route: string)
    modifies store
    ensures store.items == ClearSession(old(store.items))
    ensures route == LANDING_PATH
  {
    store.RemoveItem(AUTHORIZATION);
    store.RemoveItem(USER_TYPE);
    route := LANDING_PATH;
  }
}
