/** The endpoint `POST /login`: sign in with the identity provider and cache
    the session under `"user"`/access token, which every authenticated
    endpoint and the evaluator read. */
module Login {
  import opened Json
  import opened Model

  datatype LogInInput = LogInInput(email: string, password: string)

  /** `logInSchema.safeParse(body)`. */
  function ParseInput(fmt: Formats, body: Json): (r: Option<LogInInput>)
    ensures r.Some? <==>
      && StringField(body, "email").Some? && fmt.isEmail(StringField(body, "email").value)
      && StringField(body, "password").Some? && |StringField(body, "password").value| >= 6
    ensures r.Some? ==> r.value == LogInInput(StringField(body, "email").value, StringField(body, "password").value)
  {
    match (StringField(body, "email"), StringField(body, "password"))
    case (Some(email), Some(password)) =>
      if fmt.isEmail(email) && |password| >= 6 then Some(LogInInput(email, password)) else None
    case _ => None
  }

  /** What one request does: its reply and the session it caches, with its
      token. */
  datatype LoginOutcome = LoginOutcome(response: Response, session: Option<(string, Session)>)

  /** The session record cached for an identity-provider user. */
  function SessionOf(u: AuthUser): Session
  {
    Session(u.id, u.email, u.user_metadata)
  }

  /** The handler as a function of the identity provider. */
  function Login(fmt: Formats, idp: IdentityProvider, body: Json): (o: LoginOutcome)
    ensures o.response.Reply? && o.response.status in {200, 400, 401}
    ensures o.session.Some? <==> o.response.status == 200
    ensures ParseInput(fmt, body).None? ==> o == LoginOutcome(Reply(400, Error("Invalid input")), None)
    ensures
      (&& ParseInput(fmt, body).Some?
       && SignInWithPassword(idp, ParseInput(fmt, body).value.email, ParseInput(fmt, body).value.password).None?)
      ==> o == LoginOutcome(Reply(401, Error("Invalid credentials")), None)
    ensures
      (&& ParseInput(fmt, body).Some?
       && SignInWithPassword(idp, ParseInput(fmt, body).value.email, ParseInput(fmt, body).value.password).Some?
       && GetUser(idp, SignInWithPassword(
            idp, ParseInput(fmt, body).value.email, ParseInput(fmt, body).value.password).value).None?)
      ==> o == LoginOutcome(Reply(401, Error("User not found")), None)
    ensures
      (&& ParseInput(fmt, body).Some?
       && SignInWithPassword(idp, ParseInput(fmt, body).value.email, ParseInput(fmt, body).value.password).Some?
       && GetUser(idp, SignInWithPassword(
            idp, ParseInput(fmt, body).value.email, ParseInput(fmt, body).value.password).value).Some?)
      ==> o.session.Some?
    ensures o.session.Some? ==>
      var input := ParseInput(fmt, body).value;
      var token := SignInWithPassword(idp, input.email, input.password).value;
      && o.session.value.0 == token
      && o.response == Reply(200, TokenMessage("Login successful", token))
      && GetUser(idp, token).Some?
      && o.session.value.1 == SessionOf(GetUser(idp, token).value)
  {
    match ParseInput(fmt, body)
    case None => LoginOutcome(Reply(400, Error("Invalid input")), None)
    case Some(input) =>
      match SignInWithPassword(idp, input.email, input.password)
      case None => LoginOutcome(Reply(401, Error("Invalid credentials")), None)
      case Some(token) =>
        match GetUser(idp, token)
        case None => LoginOutcome(Reply(401, Error("User not found")), None)
        case Some(user) => LoginOutcome(Reply(200, TokenMessage("Login successful", token)), Some((token, SessionOf(user))))
  }

  /** The handler: the session is cached only on success, under the access
      token the reply carries; the `"thresholds"` namespace is untouched. */
  method Handler(fmt: Formats, idp: IdentityProvider, req: Request, state: StateStore) returns (res: Response)
    modifies state
    ensures var o := Login(fmt, idp, req.body);
      && res == o.response
      && state.user == (if o.session.Some? then old(state.user)[o.session.value.0 := o.session.value.1]
                        else old(state.user))
    ensures state.thresholds == old(state.thresholds)
  {
    var result := ParseInput(fmt, req.body);
    if result.None? {
      return Reply(400, Error("Invalid input"));
    }
    var input := result.value;
    var session := SignInWithPassword(idp, input.email, input.password);
    if session.None? {
      return Reply(401, Error("Invalid credentials"));
    }
    var userData := GetUser(idp, session.value);
    if userData.None? {
      return Reply(401, Error("User not found"));
    }
    state.SetUser(session.value, SessionOf(userData.value));
    return Reply(200, TokenMessage("Login successful", session.value));
  }
}
