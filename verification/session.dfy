/** The session store: the two browser-storage slots `accessToken` and
    `refreshToken`, and the token pair the login and refresh endpoints
    answer with. */
module Session {
  import opened Common

  /** What precedes an access token in an `Authorization` header
      (section 2.1 of RFC 6750). */
  const BearerPrefix := "Bearer "

  /** Both slots of the persisted session; `None` is a removed item. */
  datatype Store = Store(accessToken: Option<string>, refreshToken: Option<string>)

  /** The store after both items have been removed. */
  const Empty := Store(None, None)

  /** `{ accessToken, refreshToken }` inside a response's `data` field;
      either may be missing. */
  datatype TokenData = TokenData(accessToken: Option<string>, refreshToken: Option<string>)

  /** A JSON response body as the token endpoints are read: either it
      cannot be decoded (`response.json()` rejects) or it decodes, with a
      `data` field that may be missing or null. */
  datatype TokenBody = Unparsable | Parsed(data: Option<TokenData>)

  /** A session both of whose tokens would be sent: the shape login writes. */
  predicate Complete(s: Store) {
    Truthy(s.accessToken) && Truthy(s.refreshToken)
  }

  /** `Boolean(localStorage.getItem('accessToken'))`. */
  predicate IsAuthenticated(s: Store) {
    Truthy(s.accessToken)
  }

  /** Removing both items, as logout and a failed refresh do. */
  function Clear(s: Store): (r: Store)
    ensures !IsAuthenticated(r) && !Truthy(r.refreshToken)
    ensures r.accessToken.None? && r.refreshToken.None?
  {
    Empty
  }
}
