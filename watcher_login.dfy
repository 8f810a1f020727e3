/** The endpoint `POST /watcher-login`: a watcher agent signs in with the
    owner's credentials and names its host; a `watcher.login.attempt` event
    asks the registrar to record the host. */
module WatcherLogin {
  import opened Json
  import opened Model

  datatype WatcherLogInInput = WatcherLogInInput(email: string, hostname: string, password: string)

  /** `watcherLogInSchema.safeParse(body)`. */
  function ParseInput(fmt: Formats, body: Json): (r: Option<WatcherLogInInput>)
    ensures r.Some? <==>
      && StringField(body, "email").Some? && fmt.isEmail(StringField(body, "email").value)
      && StringField(body, "hostname").Some? && |StringField(body, "hostname").value| >= 3
      && StringField(body, "password").Some? && |StringField(body, "password").value| >= 6
    ensures r.Some? ==> r.value == WatcherLogInInput(
      StringField(body, "email").value, StringField(body, "hostname").value, StringField(body, "password").value)
  {
    match (StringField(body, "email"), StringField(body, "hostname"), StringField(body, "password"))
    case (Some(email), Some(hostname), Some(password)) =>
      if fmt.isEmail(email) && |hostname| >= 3 && |password| >= 6
      then Some(WatcherLogInInput(email, hostname, password)) else None
    case _ => None
  }

  /** What one request does: its reply and the event it emits. */
  datatype WatcherLoginOutcome = WatcherLoginOutcome(response: Response, event: Option<WatcherLoginData>)

  /** The handler as a function of the identity provider; `now` is the ISO
      timestamp of the request. */
  function WatcherLogin(fmt: Formats, idp: IdentityProvider, body: Json, now: string): (o: WatcherLoginOutcome)
    ensures o.event.Some? <==> o.response.Reply? && o.response.status == 200
    ensures o.response.Thrown? || o.response.status in {200, 400, 401}
    ensures ParseInput(fmt, body).None? ==> o == WatcherLoginOutcome(Reply(400, Error("Invalid input")), None)
    ensures
      (&& ParseInput(fmt, body).Some?
       && SignInWithPassword(idp, ParseInput(fmt, body).value.email, ParseInput(fmt, body).value.password).None?)
      ==> o == WatcherLoginOutcome(Reply(401, Error("Invalid credentials")), None)
    ensures o.response == Thrown <==>
      && ParseInput(fmt, body).Some?
      && SignInWithPassword(idp, ParseInput(fmt, body).value.email, ParseInput(fmt, body).value.password).Some?
      && GetUser(idp, SignInWithPassword(
           idp, ParseInput(fmt, body).value.email, ParseInput(fmt, body).value.password).value).None?
    ensures
      (&& ParseInput(fmt, body).Some?
       && SignInWithPassword(idp, ParseInput(fmt, body).value.email, ParseInput(fmt, body).value.password).Some?
       && GetUser(idp, SignInWithPassword(
            idp, ParseInput(fmt, body).value.email, ParseInput(fmt, body).value.password).value).Some?)
      ==> o.event.Some?
    ensures o.event.Some? ==>
      var input := ParseInput(fmt, body).value;
      var token := SignInWithPassword(idp, input.email, input.password).value;
      && o.response == Reply(200, TokenMessage("Login successful", token))
      && GetUser(idp, token).Some?
      && o.event.value == WatcherLoginData(GetUser(idp, token).value.id, input.hostname, true, Some(now))
  {
    match ParseInput(fmt, body)
    case None => WatcherLoginOutcome(Reply(400, Error("Invalid input")), None)
    case Some(input) =>
      match SignInWithPassword(idp, input.email, input.password)
      case None => WatcherLoginOutcome(Reply(401, Error("Invalid credentials")), None)
      case Some(token) =>
        match GetUser(idp, token)
        case None => WatcherLoginOutcome(Thrown, None)  // only logged; reading `decoded.user.id` then throws
        case Some(user) =>
          WatcherLoginOutcome(Reply(200, TokenMessage("Login successful", token)),
            Some(WatcherLoginData(user.id, input.hostname, true, Some(now))))
  }

  /** The handler. It emits the event and replies; it does not write the
      state store, so the token it returns is not a session for the other
      endpoints. */
  method Handler(fmt: Formats, idp: IdentityProvider, req: Request, state: StateStore, bus: EventBus, now: string)
    returns (res: Response)
    modifies bus
    ensures var o := WatcherLogin(fmt, idp, req.body, now);
      && res == o.response
      && bus.events == old(bus.events) + (if o.event.Some? then [WatcherLoginAttempt(o.event.value)] else [])
  {
    var result := ParseInput(fmt, req.body);
    if result.None? {
      return Reply(400, Error("Invalid input"));
    }
    var input := result.value;
    var session := SignInWithPassword(idp, input.email, input.password);
    if session.None? {
      return Reply(401, Error("Invalid credentials"));
    }
    var decoded := GetUser(idp, session.value);
    if decoded.None? {
      return Thrown;  // the failure is logged, then `decoded.user.id` throws
    }
    bus.Emit(WatcherLoginAttempt(WatcherLoginData(decoded.value.id, input.hostname, true, Some(now))));
    return Reply(200, TokenMessage("Login successful", session.value));
  }
}
