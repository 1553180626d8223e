/**
 * The login page's submit handler: on a successful `POST /users/login`
 * it stores the bearer credential and the user type, then goes to the
 * home feed; on a failed request it changes nothing.
 */
module Login {
  import opened Wrappers
  import opened Session

  const BEARER_PREFIX := "Bearer "

  /** The two fields of a successful login response the page reads: `data` (the token) and `type`. */
  datatype LoginResponse = LoginResponse(data: string, userType: string)

  /** The storage after a successful login. */
  function StoreSession(items: map<string, string>, response: LoginResponse): (r: map<string, string>)
    ensures r.Keys == items.Keys + {AUTHORIZATION, USER_TYPE}
    ensures r[AUTHORIZATION] == BEARER_PREFIX + response.data
    ensures r[USER_TYPE] == response.userType
    ensures forall k :: k in items && k != AUTHORIZATION && k != USER_TYPE ==> r[k] == items[k]
  {
    items[AUTHORIZATION := BEARER_PREFIX + response.data][USER_TYPE := response.userType]
  }

  class LoginPage {
    var email: string
    var password: string
    var loading: bool

    constructor ()
      ensures email == "" && password == "" && !loading
    {
      email, password, loading := "", "", false;
    }

    /** The `onChange` handlers of the two inputs. */
    method EditCredentials(newEmail: string, newPassword: string)
      modifies this
      ensures email == newEmail && password == newPassword && loading == old(loading)
    {
      email, password := newEmail, newPassword;
    }

    /**
     * `handleSubmit`. `response` is what the backend answered for
     * {email, password}: None when the request failed (the catch branch).
     * The returned route is where the page navigates, if anywhere.
     */
    method Submit(store: LocalStorage, response: Option<LoginResponse>) returns (route: Option<string>)
      modifies this, store
      ensures !loading
      ensures email == old(email) && password == old(password)
      ensures response.Some? ==> store.items == StoreSession(old(store.items), response.value)
      ensures response.Some? ==> route == Some(HOME_PATH)
      ensures response.None? ==> store.items == old(store.items) && route == None
    {
      loading := true;
      match response {
        case Some(r) =>
          var token := r.data;
          var userType := r.userType;
          store.SetItem(AUTHORIZATION, BEARER_PREFIX + token);
          store.SetItem(USER_TYPE, userType);
          route := Some(HOME_PATH);
        case None =>
          route := None;
      }
      loading := false;
    }
  }
}
