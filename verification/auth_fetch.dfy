/** The authenticated request wrapper `authFetch`: it sends the caller's
    request with a bearer credential (section 2.1 of RFC 6750), and on a
    401 answer (section 15.5.2 of RFC 9110) while a refresh token is
    stored it exchanges that token once and retries once.

    The wrapper is given twice: `AuthFetch` follows the code's nested
    branches, and `Run` drives the explicit four-phase machine
    (initial, refreshing, retrying, finished) one network call per step.
    `RunMatchesAuthFetch` shows the two agree, and `Step` is shown to
    lower a rank on every move, so the machine cannot loop. */
module AuthFetch {
  import opened Common
  import opened Session
  import Routes

  const AuthorizationName := "Authorization"
  const ContentTypeName := "Content-Type"
  const JsonContentType := "application/json"
  const SessionExpiredNotice := "Your session has expired. Please login again."
  const Unauthorized := 401

  /** Header names to values, as a plain object literal holds them. */
  type Headers = map<string, string>

  /** The caller's `RequestInit`: every field may be omitted. */
  datatype Init = Init(httpMethod: Option<string>, headers: Option<Headers>, body: Option<string>)

  /** A request as handed to `fetch`. */
  datatype Request = Request(url: string, httpMethod: Option<string>, headers: Headers, body: Option<string>)

  /** A response of the target resource; its body is passed through untouched. */
  datatype Response = Response(status: int, body: string)

  /** What one `fetch` of the target resource settles to. */
  datatype Exchange = NetworkError | Responded(response: Response)

  /** One network call the wrapper makes, in the order made. The refresh
      call is always a POST to `/auth/refresh` on the API host, with a JSON
      content type and the body `{ refreshToken }`; only the token varies. */
  datatype Call = Target(request: Request) | Refresh(refreshToken: string)

  /** The network as an oracle: the answer to the target request on the
      first (`0`) or the retried (`1`) attempt, and the answer of the
      refresh endpoint to a given refresh token. */
  datatype Network = Network(target: (nat, Request) -> Exchange, refresh: string -> Reply<TokenBody>)

  /** Why a call threw instead of returning a response. */
  datatype Failure =
    | TargetUnreachable     // the target fetch rejected
    | RefreshUnreachable    // the refresh fetch rejected
    | RefreshUnreadable     // the refresh answer was OK but not JSON
    | SessionExpired        // refresh refused or gave no access token

  datatype Outcome = Returned(response: Response) | Threw(failure: Failure)

  /** Where a call is: about to send the target request, about to refresh
      with the token read at entry, about to retry with the new token,
      or done. */
  datatype Phase =
    | Initial
    | Refreshing(refreshToken: string)
    | Retrying(accessToken: string)
    | Finished(outcome: Outcome)

  /** Everything a call observes and changes: its phase, the session
      store, the calls made so far, the alerts shown and the page it
      navigated to. */
  datatype State = State(
    phase: Phase,
    store: Store,
    calls: seq<Call>,
    alerts: seq<string>,
    location: Option<string>)

  /** The caller's headers, `init?.headers || {}`. */
  function CallerHeaders(init: Option<Init>): Headers {
    if init.Some? && init.value.headers.Some? then init.value.headers.value else map[]
  }

  /** The value of the `Authorization` header for a stored token. */
  function AuthorizationValue(token: Option<string>): (r: string)
    ensures r == "" <==> !Truthy(token)
    ensures Truthy(token) ==> |r| > |BearerPrefix| && r[..|BearerPrefix|] == BearerPrefix && r[|BearerPrefix|..] == token.value
  {
    if Truthy(token) then BearerPrefix + token.value else ""
  }

  /** `doFetch(token)`: the caller's request with the caller's headers
      first and the credential and JSON content type written over them. */
  function TargetRequest(input: string, init: Option<Init>, token: Option<string>): (r: Request)
    ensures r.url == input
    ensures r.httpMethod == (if init.Some? then init.value.httpMethod else None)
    ensures r.body == (if init.Some? then init.value.body else None)
    ensures r.headers.Keys == CallerHeaders(init).Keys + {AuthorizationName, ContentTypeName}
    ensures r.headers[AuthorizationName] == AuthorizationValue(token)
    ensures r.headers[ContentTypeName] == JsonContentType
    ensures forall k :: k in CallerHeaders(init) && k != AuthorizationName && k != ContentTypeName ==>
      r.headers[k] == CallerHeaders(init)[k]
  {
    var httpMethod := if init.Some? then init.value.httpMethod else None;
    var body := if init.Some? then init.value.body else None;
    var headers := CallerHeaders(init)[AuthorizationName := AuthorizationValue(token)][ContentTypeName := JsonContentType];
    Request(input, httpMethod, headers, body)
  }

  /** The store after a refresh refused or without an access token: both
      items removed, the notice shown, the login page opened, and the
      call thrown. */
  function Expire(s: State): (t: State)
    ensures t.phase == Finished(Threw(SessionExpired))
    ensures t.store == Empty && t.location == Some(Routes.LoginPath)
    ensures t.calls == s.calls && t.alerts == s.alerts + [SessionExpiredNotice]
  {
    State(Finished(Threw(SessionExpired)), Clear(s.store), s.calls, s.alerts + [SessionExpiredNotice], Some(Routes.LoginPath))
  }

  /** After an expiry the call is over and the user is signed out: the
      page it opens renders the login form, no path renders the protected
      page for the emptied store, and the machine makes no further move. */
  lemma ExpiredSessionIsSignedOut(s: State, path: string, input: string, init: Option<Init>, net: Network)
    ensures var t := Expire(s);
            && Routes.Resolve(t.location.value, t.store) == Routes.Render(Routes.LoginPage)
            && Routes.Resolve(path, t.store) != Routes.Render(Routes.HomePage)
            && Step(t, input, init, net) == t
  {
  }

  /** The store after an OK refresh answer that carries an access token:
      the new access token, and the new refresh token only if one came. */
  function Renewed(store: Store, data: TokenData): (r: Store)
    requires Truthy(data.accessToken)
    ensures r.accessToken == data.accessToken && IsAuthenticated(r)
    ensures Truthy(data.refreshToken) ==> r.refreshToken == data.refreshToken
    ensures !Truthy(data.refreshToken) ==> r.refreshToken == store.refreshToken
    ensures Truthy(store.refreshToken) ==> Complete(r)
  {
    Store(data.accessToken, if Truthy(data.refreshToken) then data.refreshToken else store.refreshToken)
  }

  /** The order of a phase: every step of the machine lowers it. */
  function Rank(p: Phase): nat {
    match p
    case Initial => 3
    case Refreshing(_) => 2
    case Retrying(_) => 1
    case Finished(_) => 0
  }

  /** One move of the machine: exactly one network call, then the next phase. */
  function Step(s: State, input: string, init: Option<Init>, net: Network): (t: State)
    ensures s.phase.Finished? ==> t == s
    ensures !s.phase.Finished? ==> Rank(t.phase) < Rank(s.phase) && |t.calls| == |s.calls| + 1 && t.calls[..|s.calls|] == s.calls
    ensures t.phase.Refreshing? ==> s.phase == Initial && Truthy(s.store.refreshToken) && t.phase.refreshToken == s.store.refreshToken.value
    ensures t.phase.Retrying? ==> s.phase.Refreshing? && t.store.accessToken == Some(t.phase.accessToken) && IsAuthenticated(t.store)
    ensures t.store != s.store ==> s.phase.Refreshing? && (t.store == Empty || IsAuthenticated(t.store))
    ensures t.store != s.store && Truthy(s.store.refreshToken) ==> t.store == Empty || Complete(t.store)
  {
    match s.phase
    case Finished(_) => s
    case Initial =>
      var request := TargetRequest(input, init, s.store.accessToken);
      var calls := s.calls + [Target(request)];
      (match net.target(0, request)
       case NetworkError => s.(phase := Finished(Threw(TargetUnreachable)), calls := calls)
       case Responded(response) =>
         if response.status == Unauthorized && Truthy(s.store.refreshToken) then
           s.(phase := Refreshing(s.store.refreshToken.value), calls := calls)
         else
           s.(phase := Finished(Returned(response)), calls := calls))
    case Refreshing(refreshToken) =>
      var calls := s.calls + [Refresh(refreshToken)];
      (match net.refresh(refreshToken)
       case Rejected => s.(phase := Finished(Threw(RefreshUnreachable)), calls := calls)
       case NotOk(_) => Expire(s.(calls := calls))
       case Ok(Unparsable) => s.(phase := Finished(Threw(RefreshUnreadable)), calls := calls)
       case Ok(Parsed(data)) =>
         if data.Some? && Truthy(data.value.accessToken) then
           s.(phase := Retrying(data.value.accessToken.value), store := Renewed(s.store, data.value), calls := calls)
         else
           Expire(s.(calls := calls)))
    case Retrying(accessToken) =>
      var request := TargetRequest(input, init, Some(accessToken));
      var calls := s.calls + [Target(request)];
      match net.target(1, request)
      case NetworkError => s.(phase := Finished(Threw(TargetUnreachable)), calls := calls)
      case Responded(response) => s.(phase := Finished(Returned(response)), calls := calls)
  }

  /** At most `fuel` moves of the machine, stopping once finished. */
  function Run(s: State, fuel: nat, input: string, init: Option<Init>, net: Network): (t: State)
    ensures fuel >= Rank(s.phase) ==> t.phase.Finished?
    ensures |s.calls| <= |t.calls| <= |s.calls| + Rank(s.phase)
    ensures t.calls[..|s.calls|] == s.calls
    decreases fuel
  {
    if fuel == 0 || s.phase.Finished? then s
    else
      var next := Step(s, input, init, net);
      var t := Run(next, fuel - 1, input, init, net);
      assert t.calls[..|s.calls|] == t.calls[..|next.calls|][..|s.calls|];
      t
  }

  /** The state in which a call starts: nothing sent, nothing shown. */
  function Start(store: Store): State {
    State(Initial, store, [], [], None)
  }

  /** The number of refresh calls among `calls`. */
  function Refreshes(calls: seq<Call>): nat {
    if calls == [] then 0
    else (if calls[0].Refresh? then 1 else 0) + Refreshes(calls[1..])
  }

  /** The number of target requests among `calls`. */
  function Targets(calls: seq<Call>): nat {
    if calls == [] then 0
    else (if calls[0].Target? then 1 else 0) + Targets(calls[1..])
  }

  /** The first answer is a 401 and a refresh token is stored. */
  predicate NeedsRefresh(first: Exchange, store: Store) {
    first.Responded? && first.response.status == Unauthorized && Truthy(store.refreshToken)
  }

  /** Counting calls distributes over concatenation. */
  lemma {:induction false} CountsAppend(a: seq<Call>, b: seq<Call>)
    ensures Refreshes(a + b) == Refreshes(a) + Refreshes(b)
    ensures Targets(a + b) == Targets(a) + Targets(b)
  {
    if a == [] {
      assert a + b == b;
    } else {
      assert (a + b)[1..] == a[1..] + b;
      CountsAppend(a[1..], b);
    }
  }

  /** Lines 19-47: the refresh exchange after a 401, from the state the
      first request left. */
  function AfterRefresh(s: State, refreshToken: string, input: string, init: Option<Init>, net: Network): (t: State)
    ensures t.phase.Finished?
    ensures t.calls == s.calls + [Refresh(refreshToken)]
      || (|t.calls| == |s.calls| + 2 && t.calls == s.calls + [Refresh(refreshToken), t.calls[|s.calls| + 1]] && t.calls[|s.calls| + 1].Target?)
    ensures net.refresh(refreshToken).Rejected? ==>
      t.phase == Finished(Threw(RefreshUnreachable)) && t.store == s.store && t.location == s.location && t.alerts == s.alerts
    ensures net.refresh(refreshToken) == Ok(Unparsable) ==>
      t.phase == Finished(Threw(RefreshUnreadable)) && t.store == s.store && t.location == s.location && t.alerts == s.alerts
    ensures net.refresh(refreshToken).NotOk? ==> t.phase == Finished(Threw(SessionExpired)) && t.store == Empty && t.location == Some(Routes.LoginPath)
    ensures (forall data :: net.refresh(refreshToken) == Ok(Parsed(data)) ==> !(data.Some? && Truthy(data.value.accessToken))) && net.refresh(refreshToken).Ok? && net.refresh(refreshToken).body.Parsed?
      ==> t.phase == Finished(Threw(SessionExpired)) && t.store == Empty && t.location == Some(Routes.LoginPath)
    ensures forall data: TokenData :: net.refresh(refreshToken) == Ok(Parsed(Some(data))) && Truthy(data.accessToken) ==>
      && t.store == Renewed(s.store, data)
      && |t.calls| == |s.calls| + 2
      && t.calls[|s.calls| + 1] == Target(TargetRequest(input, init, data.accessToken))
      && t.location == s.location && t.alerts == s.alerts
      && (net.target(1, TargetRequest(input, init, data.accessToken)).Responded? ==>
            t.phase == Finished(Returned(net.target(1, TargetRequest(input, init, data.accessToken)).response)))
  {
    var calls := s.calls + [Refresh(refreshToken)];
    match net.refresh(refreshToken)
    case Rejected => s.(phase := Finished(Threw(RefreshUnreachable)), calls := calls)
    case NotOk(_) => Expire(s.(calls := calls))
    case Ok(Unparsable) => s.(phase := Finished(Threw(RefreshUnreadable)), calls := calls)
    case Ok(Parsed(data)) =>
      if data.Some? && Truthy(data.value.accessToken) then
        var retry := TargetRequest(input, init, data.value.accessToken);
        var renewed := s.(store := Renewed(s.store, data.value), calls := calls + [Target(retry)]);
        match net.target(1, retry)
        case NetworkError => renewed.(phase := Finished(Threw(TargetUnreachable)))
        case Responded(response) => renewed.(phase := Finished(Returned(response)))
      else
        Expire(s.(calls := calls))
  }

  /** The refresh exchange adds exactly one refresh call and at most one
      target request. */
  lemma RefreshCallCounts(s: State, refreshToken: string, input: string, init: Option<Init>, net: Network)
    ensures var t := AfterRefresh(s, refreshToken, input, init, net);
            Refreshes(t.calls) == Refreshes(s.calls) + 1 && Targets(t.calls) <= Targets(s.calls) + 1
  {
    var t := AfterRefresh(s, refreshToken, input, init, net);
    var rest := t.calls[|s.calls|..];
    assert t.calls == s.calls + rest;
    assert rest[1..] == [] || rest[1..] == [rest[1]];
    assert Refreshes(rest[1..]) == 0 && Targets(rest[1..]) <= 1;
    assert Targets(rest) <= 1;
    CountsAppend(s.calls, rest);
  }

  /** `authFetch(input, init)` from the store it finds, following the
      code's branches. */
  function AuthFetch(store: Store, input: string, init: Option<Init>, net: Network): (t: State)
    ensures t.phase.Finished?
    ensures 1 <= |t.calls| <= 3
    ensures t.calls[0] == Target(TargetRequest(input, init, store.accessToken))
    ensures Refreshes(t.calls) <= 1 && Targets(t.calls) <= 2
    ensures Refreshes(t.calls) == 1 <==> NeedsRefresh(net.target(0, TargetRequest(input, init, store.accessToken)), store)
    ensures Refreshes(t.calls) == 0 ==> |t.calls| == 1 && t.store == store && t.alerts == [] && t.location == None
    ensures Refreshes(t.calls) == 0 && net.target(0, TargetRequest(input, init, store.accessToken)).Responded? ==>
      t.phase == Finished(Returned(net.target(0, TargetRequest(input, init, store.accessToken)).response))
    ensures Refreshes(t.calls) == 1 ==> t.calls[1] == Refresh(store.refreshToken.value)
    ensures t.store == store || t.store == Empty || (Complete(t.store) && |t.calls| == 3)
    ensures Complete(store) ==> Complete(t.store) || t.store == Empty
    ensures t.phase.outcome.Threw? && t.phase.outcome.failure == SessionExpired <==> t.location == Some(Routes.LoginPath)
    ensures t.location == Some(Routes.LoginPath) ==> t.store == Empty && t.alerts == [SessionExpiredNotice]
    ensures t.location == None ==> t.alerts == []
  {
    var first := TargetRequest(input, init, store.accessToken);
    var s := Start(store).(calls := [Target(first)]);
    assert s.calls[1..] == [];
    assert Refreshes(s.calls) == 0 && Targets(s.calls) == 1;
    match net.target(0, first)
    case NetworkError => s.(phase := Finished(Threw(TargetUnreachable)))
    case Responded(response) =>
      if response.status == Unauthorized && Truthy(store.refreshToken) then
        RefreshCallCounts(s, store.refreshToken.value, input, init, net);
        AfterRefresh(s, store.refreshToken.value, input, init, net)
      else
        s.(phase := Finished(Returned(response)))
  }

  /** From the refreshing phase, the machine's last two moves do what
      lines 19-47 do. */
  lemma RefreshingMatchesAfterRefresh(s: State, refreshToken: string, input: string, init: Option<Init>, net: Network)
    requires s.phase == Refreshing(refreshToken)
    ensures Run(s, 2, input, init, net) == AfterRefresh(s.(phase := Initial), refreshToken, input, init, net)
  {
    var s2 := Step(s, input, init, net);
    match net.refresh(refreshToken)
    case Rejected =>
    case NotOk(_) =>
    case Ok(Unparsable) =>
    case Ok(Parsed(data)) =>
      if data.Some? && Truthy(data.value.accessToken) {
        assert s2.phase == Retrying(data.value.accessToken.value);
        assert Run(s, 2, input, init, net) == Step(s2, input, init, net);
      }
  }

  /** Driving the machine from the start reaches the same final state as
      the code's nested branches. */
  lemma RunMatchesAuthFetch(store: Store, input: string, init: Option<Init>, net: Network)
    ensures Run(Start(store), 3, input, init, net) == AuthFetch(store, input, init, net)
  {
    var s0 := Start(store);
    var s1 := Step(s0, input, init, net);
    var first := TargetRequest(input, init, store.accessToken);
    assert Run(s0, 3, input, init, net) == Run(s1, 2, input, init, net);
    if s1.phase.Refreshing? {
      assert s1.(phase := Initial) == Start(store).(calls := [Target(first)]);
      RefreshingMatchesAfterRefresh(s1, s1.phase.refreshToken, input, init, net);
    }
  }

  /** Once a state has had as many moves as its rank, further fuel changes
      nothing: the machine has no cycle. */
  lemma {:induction false} RunSettles(s: State, fuel: nat, input: string, init: Option<Init>, net: Network)
    requires fuel >= Rank(s.phase)
    ensures Run(s, fuel, input, init, net) == Run(s, Rank(s.phase), input, init, net)
    decreases fuel
  {
    if !s.phase.Finished? {
      var next := Step(s, input, init, net);
      RunSettles(next, fuel - 1, input, init, net);
      RunSettles(next, Rank(s.phase) - 1, input, init, net);
    }
  }

  /** However much fuel a call is given, it ends after at most three
      network calls in the state the code reaches. */
  lemma NoRefreshLoop(store: Store, fuel: nat, input: string, init: Option<Init>, net: Network)
    requires fuel >= 3
    ensures Run(Start(store), fuel, input, init, net) == AuthFetch(store, input, init, net)
  {
    RunSettles(Start(store), fuel, input, init, net);
    RunMatchesAuthFetch(store, input, init, net);
  }

  /** Two calls in a row against a server that never answers 401 are two
      independent single round trips that leave the store as found. */
  lemma BackToBackCallsAreIndependent(store: Store, input: string, init: Option<Init>, net: Network)
    requires forall n, r :: net.target(n, r).Responded? && net.target(n, r).response.status != Unauthorized
    ensures var first := AuthFetch(store, input, init, net);
            var second := AuthFetch(first.store, input, init, net);
            && first.store == store && second.store == store
            && |first.calls| == 1 && |second.calls| == 1
            && first.calls == second.calls
            && first.phase == Finished(Returned(net.target(0, TargetRequest(input, init, store.accessToken)).response))
            && second.phase == first.phase
  {
  }

  /** Access token A1 and refresh token R1 are stored, the target answers
      401, and the refresh answers with A2 and R2: the store then holds
      A2 and R2, and the retried request carries `Bearer A2`. */
  lemma RefreshScenario(input: string, net: Network)
    requires forall r :: net.target(0, r) == Responded(Response(Unauthorized, ""))
    requires net.refresh("R1") == Ok(Parsed(Some(TokenData(Some("A2"), Some("R2")))))
    ensures var t := AuthFetch(Store(Some("A1"), Some("R1")), input, None, net);
            && t.store == Store(Some("A2"), Some("R2"))
            && |t.calls| == 3 && t.calls[1] == Refresh("R1")
            && t.calls[2].Target? && t.calls[2].request.headers[AuthorizationName] == "Bearer A2"
  {
  }
}
