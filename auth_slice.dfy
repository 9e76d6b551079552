/**
 * The auth slice of the session store, together with the two pieces of
 * global state its reducers write: the browser's local storage and the
 * HTTP client's default Authorization header.
 */
module AuthSlice {
  import opened Wrappers
  import opened JsStrings

  const TokenKey := "ml_staff_token"
  const RefreshKey := "ml_staff_refresh"
  const LoginFailed := "Login failed"
  const BearerPrefix := "Bearer "

  /** `localStorage.getItem(key)`: `null` (here `None`) for a missing key. */
  function GetItem(storage: map<string, string>, key: string): Option<string> {
    if key in storage then Some(storage[key]) else None
  }

  /**
   * The default Authorization header `setAuthHeader(token)` leaves: a bearer
   * header for a truthy token, no header otherwise.
   */
  function AuthHeaderFor(token: Option<string>): Option<string> {
    if Truthy(token) then Some(BearerPrefix + token.value) else None
  }

  /**
   * There is a header exactly for a non-empty token, and stripping the
   * "Bearer " prefix gives that token back.
   */
  lemma AuthHeaderCarriesToken(token: Option<string>)
    ensures AuthHeaderFor(token).Some? <==> Truthy(token)
    ensures AuthHeaderFor(token).Some? ==>
      var h := AuthHeaderFor(token).value;
      h[..|BearerPrefix|] == BearerPrefix && h[|BearerPrefix|..] == token.value
  {
  }

  /** The error `loginThunk.rejected` records: the message, or "Login failed" when it is absent or empty. */
  function LoginError(message: Option<string>): (r: string)
    ensures r != ""
    ensures Truthy(message) ==> r == message.value
  {
    if Truthy(message) then message.value else LoginFailed
  }

  class AuthStore {
    var token: Option<string>
    var refresh: Option<string>
    var loading: bool
    var error: Option<string>
    /** The browser's local storage. */
    var storage: map<string, string>
    /** `api.defaults.headers.common["Authorization"]`. */
    var authHeader: Option<string>

    /**
     * The header is the one both the token in the state and the token in
     * storage call for, and the refresh token in the state is the stored one.
     */
    ghost predicate Synced()
      reads this
    {
      && authHeader == AuthHeaderFor(token)
      && authHeader == AuthHeaderFor(GetItem(storage, TokenKey))
      && refresh == GetItem(storage, RefreshKey)
    }

    /**
     * The state at start-up: `initialState` reads both tokens from storage,
     * and the boot code attaches the header when a token is stored.
     */
    constructor (stored: map<string, string>)
      ensures token == GetItem(stored, TokenKey) && refresh == GetItem(stored, RefreshKey)
      ensures !loading && error == None
      ensures storage == stored && authHeader == AuthHeaderFor(token)
      ensures Synced()
    {
      var t := GetItem(stored, TokenKey);
      token := t;
      refresh := GetItem(stored, RefreshKey);
      loading := false;
      error := None;
      storage := stored;
      authHeader := if t.Some? && t.value != "" then Some(BearerPrefix + t.value) else None;
    }

    /**
     * `setToken`: a truthy token is stored and sent as the header; a falsy
     * one removes the stored token and the header. The refresh token is
     * left alone.
     */
    method SetToken(payload: Option<string>)
      requires Synced()
      modifies this
      ensures Synced()
      ensures token == payload
      ensures storage == if Truthy(payload) then old(storage)[TokenKey := payload.value]
                         else old(storage) - {TokenKey}
      ensures authHeader == AuthHeaderFor(payload)
      ensures refresh == old(refresh) && loading == old(loading) && error == old(error)
    {
      token := payload;
      if token.Some? && token.value != "" {
        storage := storage[TokenKey := token.value];
        authHeader := Some(BearerPrefix + token.value);
      } else {
        storage := storage - {TokenKey};
        authHeader := None;
      }
    }

    /** `loginThunk.pending`. */
    method LoginPending()
      requires Synced()
      modifies this
      ensures Synced()
      ensures loading && error == None
      ensures token == old(token) && refresh == old(refresh)
      ensures storage == old(storage) && authHeader == old(authHeader)
    {
      loading := true;
      error := None;
    }

    /** `loginThunk.fulfilled` with the issued token pair. */
    method LoginFulfilled(access: string, refreshToken: string)
      requires Synced()
      modifies this
      ensures Synced()
      ensures !loading && error == old(error)
      ensures token == Some(access) && refresh == Some(refreshToken)
      ensures storage == old(storage)[TokenKey := access][RefreshKey := refreshToken]
      ensures authHeader == AuthHeaderFor(Some(access))
    {
      loading := false;
      token := Some(access);
      refresh := Some(refreshToken);
      storage := storage[TokenKey := access];
      storage := storage[RefreshKey := refreshToken];
      authHeader := if access != "" then Some(BearerPrefix + access) else None;
    }

    /** `loginThunk.rejected` with the error's message, if it has one. */
    method LoginRejected(message: Option<string>)
      requires Synced()
      modifies this
      ensures Synced()
      ensures !loading && error == Some(LoginError(message))
      ensures token == old(token) && refresh == old(refresh)
      ensures storage == old(storage) && authHeader == old(authHeader)
    {
      loading := false;
      error := Some(if message.Some? && message.value != "" then message.value else LoginFailed);
    }

    /** `logoutThunk.fulfilled`: both tokens, both stored keys and the header go. */
    method LogoutFulfilled()
      requires Synced()
      modifies this
      ensures Synced()
      ensures token == None && refresh == None
      ensures storage == old(storage) - {TokenKey, RefreshKey}
      ensures authHeader == None
      ensures loading == old(loading) && error == old(error)
    {
      token := None;
      refresh := None;
      storage := storage - {TokenKey};
      storage := storage - {RefreshKey};
      authHeader := None;
    }
  }
}
