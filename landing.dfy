/**
 * The landing page's call-to-action: read the "Authorization" entry, take
 * the second space-separated piece as the token, and go to the home feed
 * when that token is truthy, to the login page otherwise.
 */
module Landing {
  import opened Wrappers
  import opened Text
  import opened Session
  import opened Login

  /** `localStorage.getItem("Authorization")?.split(" ")[1]`: None stands for `undefined`. */
  function ExtractToken(auth: Option<string>): Option<string>
  {
    match auth
    case None => None
    case Some(v) =>
      var pieces := Split(v, ' ');
      if |pieces| >= 2 then Some(pieces[1]) else None
  }

  /** JavaScript truthiness of the extracted token: defined and not the empty string. */
  predicate IsTruthy(token: Option<string>) {
    token.Some? && token.value != ""
  }

  /**
   * `moveToLogin`, given the stored Authorization value: no value leads to the
   * login page, and a value leads home exactly when its first space is followed
   * by a non-space character.
   */
  function MoveToLogin(auth: Option<string>): (route: string)
    ensures route == HOME_PATH || route == LOGIN_PATH
    ensures auth.None? ==> route == LOGIN_PATH
    ensures auth.Some? ==> (route == HOME_PATH <==> exists i :: TokenStartsAt(auth.value, i))
  {
    TruthyTokenIff(auth);
    if IsTruthy(ExtractToken(auth)) then HOME_PATH else LOGIN_PATH
  }

  /** `moveToLogin` reading the storage itself. */
  function LandingRoute(store: LocalStorage): string
    reads store
  {
    MoveToLogin(store.GetItem(AUTHORIZATION))
  }

  /** No stored credential: the visitor is sent to log in. */
  lemma MissingCredentialRoutesToLogin()
    ensures ExtractToken(None) == None
    ensures MoveToLogin(None) == LOGIN_PATH
  {
  }

  /** A value without a space (such as "Bearer") has no second piece. */
  lemma NoSpaceRoutesToLogin(v: string)
    requires ' ' !in v
    ensures ExtractToken(Some(v)) == None
    ensures MoveToLogin(Some(v)) == LOGIN_PATH
  {
    SplitWithoutSeparator(v, ' ');
  }

  /** "Bearer " has an empty second piece, which is falsy. */
  lemma EmptyTokenRoutesToLogin(scheme: string)
    requires ' ' !in scheme
    ensures ExtractToken(Some(scheme + " ")) == Some("")
    ensures MoveToLogin(Some(scheme + " ")) == LOGIN_PATH
  {
    SplitConcat(scheme, "", ' ');
    SplitWithoutSeparator(scheme, ' ');
    assert scheme + " " == scheme + [' '] + "";
  }

  /** Only the second piece matters: whatever follows a second space is ignored. */
  lemma SecondPieceDecides(scheme: string, token: string, rest: string)
    requires ' ' !in scheme && ' ' !in token
    ensures ExtractToken(Some(scheme + " " + token + " " + rest)) == Some(token)
    ensures token != "" ==> MoveToLogin(Some(scheme + " " + token + " " + rest)) == HOME_PATH
  {
    var tail := token + " " + rest;
    SplitConcat(token, rest, ' ');
    SplitWithoutSeparator(token, ' ');
    SplitConcat(scheme, tail, ' ');
    SplitWithoutSeparator(scheme, ' ');
    assert token + [' '] + rest == tail;
    assert scheme + [' '] + tail == scheme + " " + token + " " + rest;
  }

  /** The value written at login, "Bearer " followed by a space-free token, yields that token back. */
  lemma BearerRoundTrip(token: string)
    requires ' ' !in token
    ensures ExtractToken(Some(BEARER_PREFIX + token)) == Some(token)
    ensures token != "" ==> MoveToLogin(Some(BEARER_PREFIX + token)) == HOME_PATH
  {
    SplitConcat("Bearer", token, ' ');
    SplitWithoutSeparator("Bearer", ' ');
    SplitWithoutSeparator(token, ' ');
    assert BEARER_PREFIX + token == "Bearer" + [' '] + token;
  }

  /** The token is taken starting at position i: i holds the first space, and a non-space follows it. */
  ghost predicate TokenStartsAt(v: string, i: int) {
    0 <= i < |v| - 1 && v[i] == ' ' && ' ' !in v[..i] && v[i + 1] != ' '
  }

  lemma {:induction false} FirstOccurrence(v: string, c: char) returns (i: nat)
    requires c in v
    ensures i < |v| && v[i] == c && c !in v[..i]
  {
    if v[0] == c {
      i := 0;
    } else {
      assert c in v[1..];
      var j := FirstOccurrence(v[1..], c);
      i := j + 1;
      assert v[..i] == [v[0]] + v[1..][..j];
    }
  }

  /** The first piece of a split is empty exactly when the string is empty or starts with the separator. */
  lemma SplitHeadEmpty(s: string, sep: char)
    ensures Split(s, sep)[0] == "" <==> s == [] || s[0] == sep
  {
  }

  /** The extracted token is truthy exactly when a value is stored and its first space is followed by a non-space. */
  lemma TruthyTokenIff(auth: Option<string>)
    ensures IsTruthy(ExtractToken(auth)) <==> auth.Some? && exists i :: TokenStartsAt(auth.value, i)
  {
    if auth.None? {
    } else if ' ' !in auth.value {
      var v := auth.value;
      SplitWithoutSeparator(v, ' ');
      assert forall i :: 0 <= i < |v| ==> v[i] != ' ';
    } else {
      var v := auth.value;
      var i := FirstOccurrence(v, ' ');
      var after := v[i + 1..];
      assert v == v[..i] + [' '] + after;
      SplitConcat(v[..i], after, ' ');
      SplitWithoutSeparator(v[..i], ' ');
      assert ExtractToken(Some(v)) == Some(Split(after, ' ')[0]);
      SplitHeadEmpty(after, ' ');
      if after != [] && after[0] != ' ' {
        assert TokenStartsAt(v, i);
      }
    }
  }

  /** Logging in with a non-empty, space-free token and then opening the landing page leads home. */
  lemma LoginThenLanding(items: map<string, string>, response: LoginResponse)
    requires response.data != "" && ' ' !in response.data
    ensures ExtractToken(Lookup(StoreSession(items, response), AUTHORIZATION)) == Some(response.data)
    ensures MoveToLogin(Lookup(StoreSession(items, response), AUTHORIZATION)) == HOME_PATH
  {
    BearerRoundTrip(response.data);
  }

  /** After logout the landing page leads to the login page, whatever was stored. */
  lemma LogoutThenLanding(items: map<string, string>)
    ensures MoveToLogin(Lookup(ClearSession(items), AUTHORIZATION)) == LOGIN_PATH
  {
  }

  /** The whole flow on a real storage object: log in, then press the landing page's button. */
  method LoginAndReturn(initial: map<string, string>, response: LoginResponse) returns (route: string)
    requires response.data != "" && ' ' !in response.data
    ensures route == HOME_PATH
  {
    var store := new LocalStorage(initial);
    var page := new LoginPage();
    var _ := page.Submit(store, Some(response));
    LoginThenLanding(initial, response);
    route := LandingRoute(store);
  }

  /** Logging out on a real storage object, then pressing the landing page's button. */
  method LogoutAndReturn(initial: map<string, string>) returns (route: string)
    ensures route == LOGIN_PATH
  {
    var store := new LocalStorage(initial);
    var _ := Logout(store);
    LogoutThenLanding(initial);
    route := LandingRoute(store);
  }
}
