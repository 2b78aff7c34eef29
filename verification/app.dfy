/** The application shell's start-up fetch of the signed-in user's
    profile, which fills the user context the pages read. */
module App {
  import opened Common
  import opened Session
  import Text
  import Header

  /** The `data` object of the profile response, each text field possibly
      missing. */
  datatype Profile = Profile(
    firstName: Option<string>,
    lastName: Option<string>,
    role: Option<string>,
    avatarUrl: Option<string>,
    employeeId: int,
    email: string)

  /** What `fetchUser` leaves behind: the `Authorization` value of the
      request to `/employee/info` on the API host if one was sent, and the
      user context. */
  datatype Startup = Startup(request: Option<string>, user: Option<UserInfo>)

  /** `` `${first || ''} ${last || ''}`.trim() ``. */
  function FullName(first: Option<string>, last: Option<string>): (r: string)
    ensures r == [] || (!Text.IsSpace(r[0]) && !Text.IsSpace(r[|r| - 1]))
    ensures var joined := OrElse(first, "") + " " + OrElse(last, "");
            exists i, j :: 0 <= i <= j <= |joined| && r == joined[i..j] && Text.CutSpaces(joined, i, j)
  {
    Text.Trim(OrElse(first, "") + " " + OrElse(last, ""))
  }

  /** `data.role || 'Employee'`. */
  function RoleOf(role: Option<string>): (r: string)
    ensures r != ""
    ensures Truthy(role) ==> r == role.value
    ensures !Truthy(role) ==> r == DefaultRole
  {
    OrElse(role, DefaultRole)
  }

  /** `fetchUser()` with the store `store` and the profile answer `reply`.
      A rejected request, a non-OK answer, or an OK answer without a `data`
      object (whose field access throws and is caught) leave the user unset. */
  function FetchUser(store: Store, reply: Reply<Option<Profile>>): (r: Startup)
    ensures r.request.Some? <==> Truthy(store.accessToken)
    ensures r.request.Some? ==> r.request.value == BearerPrefix + store.accessToken.value
    ensures r.user.Some? <==> Truthy(store.accessToken) && reply.Ok? && reply.body.Some?
    ensures r.user.Some? ==>
      var data := reply.body.value;
      && r.user.value.name == FullName(data.firstName, data.lastName)
      && r.user.value.role == RoleOf(data.role)
      && r.user.value.avatarUrl == data.avatarUrl
      && r.user.value.employeeId == data.employeeId
      && r.user.value.email == data.email
  {
    if !Truthy(store.accessToken) then Startup(None, None)
    else
      var request := Some(BearerPrefix + store.accessToken.value);
      match reply
      case Ok(Some(data)) =>
        var user := UserInfo(FullName(data.firstName, data.lastName), RoleOf(data.role), data.avatarUrl, data.employeeId, data.email);
        Startup(request, Some(user))
      case _ => Startup(request, None)
  }

  /** The name stored in the user context is already trimmed: trimming it
      again changes nothing. */
  lemma StoredNameIsTrimmed(store: Store, reply: Reply<Option<Profile>>)
    ensures var r := FetchUser(store, reply);
            r.user.Some? ==> Text.Trim(r.user.value.name) == r.user.value.name
  {
    var r := FetchUser(store, reply);
    if r.user.Some? {
      var data := reply.body.value;
      Text.TrimIdempotent(OrElse(data.firstName, "") + " " + OrElse(data.lastName, ""));
    }
  }

  /** The avatar letter of a fetched user is never white space: the
      header shows the first letter of the trimmed name, or `U` when the
      profile has no name at all. */
  lemma AvatarInitialOfFetchedUser(store: Store, reply: Reply<Option<Profile>>)
    ensures var r := FetchUser(store, reply);
            r.user.Some? ==>
              var initial := Header.AvatarInitial(Some(r.user.value.name));
              && (r.user.value.name == "" ==> initial == Header.DefaultInitial)
              && (r.user.value.name != "" ==> initial == [r.user.value.name[0]] && !Text.IsSpace(initial[0]))
  {
  }

  /** Without a stored token nothing is requested and no user is set,
      whatever the server would have said. */
  lemma NoTokenNoUser(store: Store, reply: Reply<Option<Profile>>)
    requires !IsAuthenticated(store)
    ensures FetchUser(store, reply) == Startup(None, None)
  {
  }

  /** A profile with neither name part has the empty name. */
  lemma NamelessProfile()
    ensures FullName(None, None) == ""
    ensures FullName(Some(""), None) == "" && FullName(None, Some("")) == ""
  {
    assert OrElse(None, "") == "" && OrElse(Some(""), "") == "";
    assert "" + " " + "" == " ";
    Text.SpaceTrimsToEmpty();
  }

  /** A first name alone, already free of surrounding spaces, is the
      whole name: the joining space after it is trimmed away. */
  lemma FirstNameOnly(w: string)
    requires w != [] && !Text.IsSpace(w[0]) && !Text.IsSpace(w[|w| - 1])
    ensures FullName(Some(w), None) == w
  {
    assert OrElse(Some(w), "") + " " + OrElse(None, "") == w + " ";
    assert Text.IsSpace(" "[0]);
    Text.TrimDropsTrailingSpace(w, " ");
  }

  /** A last name alone is the whole name likewise: the joining space
      before it is trimmed away. */
  lemma LastNameOnly(w: string)
    requires w != [] && !Text.IsSpace(w[0]) && !Text.IsSpace(w[|w| - 1])
    ensures FullName(None, Some(w)) == w
  {
    assert OrElse(None, "") + " " + OrElse(Some(w), "") == " " + w;
    assert Text.IsSpace(" "[0]);
    Text.TrimDropsLeadingSpace(" ", w);
  }

  /** Two name parts without surrounding spaces are joined by one space. */
  lemma TwoPartName(first: string, last: string)
    requires first != "" && !Text.IsSpace(first[0]) && !Text.IsSpace(first[|first| - 1])
    requires last != "" && !Text.IsSpace(last[0]) && !Text.IsSpace(last[|last| - 1])
    ensures FullName(Some(first), Some(last)) == first + " " + last
  {
    var joined := first + " " + last;
    assert joined[0] == first[0] && joined[|joined| - 1] == last[|last| - 1];
    Text.TrimOfTrimmed(joined);
  }

  /** The role read from the profile is the default exactly when the
      profile gives none, gives an empty one, or gives the default itself. */
  lemma RoleDefaults(role: Option<string>)
    ensures RoleOf(role) == DefaultRole <==> !Truthy(role) || role.value == DefaultRole
  {
  }
}
