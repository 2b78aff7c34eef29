/** The application header: the logout handler and the avatar's letter. */
module Header {
  import opened Common
  import opened Session
  import Routes

  const DefaultInitial := "U"

  /** What `handleLogout` leaves behind: the `Authorization` value of the
      POST to `/auth/logout` (a path relative to the page's own origin) if
      one was sent, the store, and the page. */
  datatype Logout = Logout(request: Option<string>, store: Store, location: string)

  /** `handleLogout()` from `store`; the server's answer, `reply`, is
      caught and ignored whatever it is. */
  function HandleLogout(store: Store, reply: Reply<()>): (r: Logout)
    ensures r.store == Empty && !IsAuthenticated(r.store)
    ensures r.location == Routes.LoginPath
    ensures r.request.Some? <==> Truthy(store.accessToken)
    ensures r.request.Some? ==> r.request.value == BearerPrefix + store.accessToken.value
  {
    var request := if Truthy(store.accessToken) then Some(BearerPrefix + store.accessToken.value) else None;
    Logout(request, Clear(store), Routes.LoginPath)
  }

  /** The outcome of the server call changes nothing: the tokens are
      removed even when the request rejects. */
  lemma LogoutIgnoresServer(store: Store, a: Reply<()>, b: Reply<()>)
    ensures HandleLogout(store, a) == HandleLogout(store, b)
  {
  }

  /** Logging out twice is logging out once, and the second time sends
      no server request. */
  lemma LogoutIdempotent(store: Store, a: Reply<()>, b: Reply<()>)
    ensures var first := HandleLogout(store, a);
            var second := HandleLogout(first.store, b);
            second.store == first.store && second.request == None && second.location == first.location
  {
  }

  /** `user.name?.[0] || 'U'`: the first character of the name, or `U`. */
  function AvatarInitial(name: Option<string>): (r: string)
    ensures |r| == 1
    ensures Truthy(name) ==> r == name.value[..1]
    ensures !Truthy(name) ==> r == DefaultInitial
  {
    if Truthy(name) then [name.value[0]] else DefaultInitial
  }
}
