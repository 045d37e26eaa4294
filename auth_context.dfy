/**
 * frontend/src/Authentication/AuthContext.jsx: the session flag shared by the pages,
 * backed by the `authToken` entry of the browser's local storage. Navigation is
 * recorded as the path last navigated to.
 */
module AuthContext {
  import opened Common

  const TokenKey := "authToken"
  const DashboardPath := "/admin-dashboard"
  const AuthenticationPath := "/authentication"

  /** `localStorage.getItem(key)`: the stored string, or `None` (JavaScript's `null`). */
  function GetItem(storage: map<string, string>, key: string): (r: Option<string>)
    ensures r.Some? <==> key in storage
    ensures r.Some? ==> r.value == storage[key]
  {
    if key in storage then Some(storage[key]) else None
  }

  /** What a freshly mounted provider concludes from `storage`. */
  predicate StoredSession(storage: map<string, string>)
  {
    Truthy(GetItem(storage, TokenKey))
  }

  class AuthProvider {
    var isAuthenticated: bool
    /** The browser's local storage. */
    var storage: map<string, string>
    /** The path of the last `navigate`. */
    var path: string

    /** The provider's first render, before its effect has run. */
    constructor (stored: map<string, string>, at: string)
      ensures !isAuthenticated && storage == stored && path == at
    {
      isAuthenticated, storage, path := false, stored, at;
    }

    /** The mount effect: a non-empty stored token signs the user in; nothing signs them out. */
    method Mount()
      modifies this`isAuthenticated
      ensures isAuthenticated <==> old(isAuthenticated) || StoredSession(storage)
    {
      var token := GetItem(storage, TokenKey);
      if Truthy(token) {
        isAuthenticated := true;
      }
    }

    /** login(token) */
    method Login(token: string)
      modifies this
      ensures storage == old(storage)[TokenKey := token]
      ensures isAuthenticated && path == DashboardPath
    {
      storage := storage[TokenKey := token];
      isAuthenticated := true;
      path := DashboardPath;
    }

    /** logout() */
    method Logout()
      modifies this
      ensures storage == old(storage) - {TokenKey}
      ensures !isAuthenticated && path == AuthenticationPath
    {
      storage := storage - {TokenKey};
      isAuthenticated := false;
      path := AuthenticationPath;
    }
  }

  /** A login with a non-empty token survives a reload; a logout does not, and leaves other entries alone. */
  lemma ReloadKeepsSession(storage: map<string, string>, token: string)
    ensures StoredSession(storage[TokenKey := token]) <==> token != ""
    ensures !StoredSession(storage - {TokenKey})
    ensures forall k :: k in storage && k != TokenKey ==> k in storage - {TokenKey} && (storage - {TokenKey})[k] == storage[k]
  {
  }

  /** Log in, log out, reload: the flag is false and no token is stored. */
  method LoginLogoutScenario(stored: map<string, string>, token: string)
  {
    var auth := new AuthProvider(stored, "/authentication");
    auth.Mount();
    auth.Login(token);
    assert auth.isAuthenticated && auth.storage[TokenKey] == token;
    auth.Logout();
    assert !auth.isAuthenticated && TokenKey !in auth.storage;
    var reloaded := new AuthProvider(auth.storage, auth.path);
    reloaded.Mount();
    assert !reloaded.isAuthenticated;
  }
}
