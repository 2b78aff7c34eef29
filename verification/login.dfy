/** The login form's submit handler `onFinish`. The two login pages of the
    application carry the same handler line for line, so one model serves
    both: it posts the credentials, and writes the session only when the
    answer is OK and carries both tokens. */
module Login {
  import opened Common
  import opened Session
  import Routes

  const LoginError := "Incorrect email or password!"
  const LoginSuccess := "Login successful!"

  /** The form's values, posted as the JSON request body. */
  datatype Credentials = Credentials(email: string, password: string)

  /** What the login page holds and what a submission changed; `posted`
      lists the credentials sent to `/auth/login` on the API host. */
  datatype Page = Page(
    store: Store,
    errorMessage: Option<string>,
    loading: bool,
    location: Option<string>,
    toasts: seq<Toast>,
    posted: seq<Credentials>)

  /** The answer carries both tokens: the one condition under which the
      handler writes the session. */
  predicate Accepted(reply: Reply<TokenBody>) {
    && reply.Ok?
    && reply.body.Parsed?
    && reply.body.data.Some?
    && Truthy(reply.body.data.value.accessToken)
    && Truthy(reply.body.data.value.refreshToken)
  }

  /** `onFinish(values)` on a page in state `p`, the login endpoint
      answering `reply`. Every failure, whether a rejected request, a non-OK
      status, an unreadable body or a missing token, lands in the same
      catch block. */
  function OnFinish(p: Page, values: Credentials, reply: Reply<TokenBody>): (r: Page)
    ensures r.posted == p.posted + [values]
    ensures !r.loading
    ensures Accepted(reply) ==>
      && r.store == Store(reply.body.data.value.accessToken, reply.body.data.value.refreshToken)
      && Complete(r.store)
      && r.errorMessage == None
      && r.location == Some(Routes.HomePath)
      && r.toasts == p.toasts + [SuccessToast(LoginSuccess)]
    ensures !Accepted(reply) ==>
      && r.store == p.store
      && r.errorMessage == Some(LoginError)
      && r.location == p.location
      && r.toasts == p.toasts + [ErrorToast(LoginError)]
  {
    var attempt := p.(loading := true, errorMessage := None, posted := p.posted + [values]);
    var settled :=
      if Accepted(reply) then
        var data := reply.body.data.value;
        attempt.(store := Store(data.accessToken, data.refreshToken),
                 toasts := attempt.toasts + [SuccessToast(LoginSuccess)],
                 location := Some(Routes.HomePath))
      else
        attempt.(errorMessage := Some(LoginError), toasts := attempt.toasts + [ErrorToast(LoginError)]);
    settled.(loading := false)
  }

  /** A submission either leaves the session as it was or writes a
      complete one; it never writes only one of the two tokens. */
  lemma NoPartialSession(p: Page, values: Credentials, reply: Reply<TokenBody>)
    ensures var r := OnFinish(p, values, reply);
            r.store == p.store || Complete(r.store)
  {
  }

  /** A non-OK status writes nothing and leaves the error shown, whatever
      the body. */
  lemma NotOkWritesNothing(p: Page, values: Credentials, status: int)
    ensures var r := OnFinish(p, values, NotOk(status));
            r.store == p.store && r.errorMessage == Some(LoginError) && r.location == p.location
  {
  }

  /** An OK answer that lacks either token writes nothing. */
  lemma MissingTokenWritesNothing(p: Page, values: Credentials, data: TokenData)
    requires !Truthy(data.accessToken) || !Truthy(data.refreshToken)
    ensures var r := OnFinish(p, values, Ok(Parsed(Some(data))));
            r.store == p.store && r.errorMessage == Some(LoginError)
  {
  }

  /** The error of an earlier attempt does not survive a successful one,
      and every attempt ends with loading off. */
  lemma ErrorClearedBySuccess(p: Page, values: Credentials, reply: Reply<TokenBody>)
    requires p.errorMessage.Some?
    requires Accepted(reply)
    ensures var r := OnFinish(p, values, reply);
            r.errorMessage == None && !r.loading && r.location == Some(Routes.HomePath)
  {
  }

  /** The page navigates home exactly when the session was written. */
  lemma HomeIffWritten(p: Page, values: Credentials, reply: Reply<TokenBody>)
    requires p.location == None
    ensures var r := OnFinish(p, values, reply);
            r.location == Some(Routes.HomePath) <==> Accepted(reply)
  {
  }
}
