/** The ingestion endpoint `POST /push_metrics`: validate the body, resolve
    the session from the bearer token, find the caller's server by name,
    store the sample, then emit `metric.pushed`. */
module PushMetrics {
  import opened Json
  import opened Model
  import opened Headers

  datatype PushMetricInput = PushMetricInput(hostname: string, cpu: real, memory: real, disk: real, uptime: real)

  /** `pushMetricInputSchema.safeParse(body)`: a hostname of at least three
      characters and four numbers, none of them range-checked. */
  function ParseInput(body: Json): (r: Option<PushMetricInput>)
    ensures r.Some? <==>
      && StringField(body, "hostname").Some? && |StringField(body, "hostname").value| >= 3
      && NumberField(body, "cpu").Some? && NumberField(body, "memory").Some?
      && NumberField(body, "disk").Some? && NumberField(body, "uptime").Some?
    ensures r.Some? ==> r.value == PushMetricInput(
      StringField(body, "hostname").value, NumberField(body, "cpu").value,
      NumberField(body, "memory").value, NumberField(body, "disk").value, NumberField(body, "uptime").value)
  {
    match (StringField(body, "hostname"), NumberField(body, "cpu"), NumberField(body, "memory"),
           NumberField(body, "disk"), NumberField(body, "uptime"))
    case (Some(hostname), Some(cpu), Some(memory), Some(disk), Some(uptime)) =>
      if |hostname| >= 3 then Some(PushMetricInput(hostname, cpu, memory, disk, uptime)) else None
    case _ => None
  }

  /** What one request does: its reply, the `server_metrics` row it appends
      and the `metric.pushed` data it emits. */
  datatype PushOutcome = PushOutcome(response: Response, row: Option<MetricRow>, event: Option<MetricPushedData>)

  const Received := Reply(200, Message("Metrics received"))

  /** The handler as a function of the sessions and the `servers` table;
      `lookupFails` and `insertFails` are the outcomes of the two database calls. */
  function Push(
    user: map<string, Session>, servers: seq<ServerRow>, req: Request, lookupFails: bool, insertFails: bool)
    : (o: PushOutcome)
    requires AuthHeader(req.headers).Some?
    ensures o.response.Reply? && o.response.status in {200, 400, 401, 500}
    ensures o.row.Some? <==> o.response == Received
    ensures o.event.Some? <==> o.row.Some?
    ensures ParseInput(req.body).None? ==>
      o == PushOutcome(Reply(400, Error("Invalid input")), None, None)
    ensures ParseInput(req.body).Some? && CurrentUser(user, req.headers).None? ==>
      o == PushOutcome(Reply(401, Error("Unauthorized")), None, None)
    ensures ParseInput(req.body).Some? && CurrentUser(user, req.headers).Some? ==>
      var rows := Where(servers, Named(CurrentUser(user, req.headers).value.userId, ParseInput(req.body).value.hostname));
      && (o.response == Reply(400, Error("Server not found")) <==> lookupFails || |rows| != 1 || rows[0].id == "")
      && (!lookupFails && |rows| == 1 && rows[0].id != "" ==>
            o.response == if insertFails then Reply(500, Error("Failed to store metrics")) else Received)
    ensures insertFails ==> o.row.None? && o.event.None?
    ensures o.row.Some? ==>
      var r := o.row.value;
      var e := o.event.value;
      && ParseInput(req.body) == Some(PushMetricInput(e.hostname, r.cpu, r.memory, r.disk, r.uptime))
      && SessionKey(req.headers) == Some(e.authToken)
      && e.authToken in user && user[e.authToken].userId == e.userId
      && r.cpu == e.currentCpu && r.memory == e.currentMemory && r.disk == e.currentDisk
      && exists s :: s in servers && s.id == r.serverId && s.id != "" &&
           s.userId == e.userId && s.server_name == e.hostname
  {
    match ParseInput(req.body)
    case None => PushOutcome(Reply(400, Error("Invalid input")), None, None)
    case Some(input) =>
      match CurrentUser(user, req.headers)
      case None => PushOutcome(Reply(401, Error("Unauthorized")), None, None)
      case Some(currentUser) =>
        var serverData := MaybeSingle(Where(servers, Named(currentUser.userId, input.hostname)), lookupFails);
        if !serverData.OneRow? || serverData.row.id == "" then
          PushOutcome(Reply(400, Error("Server not found")), None, None)
        else if insertFails then
          PushOutcome(Reply(500, Error("Failed to store metrics")), None, None)
        else
          assert serverData.row in Where(servers, Named(currentUser.userId, input.hostname));
          PushOutcome(Received,
            Some(MetricRow(serverData.row.id, input.cpu, input.memory, input.disk, input.uptime)),
            Some(MetricPushedData(currentUser.userId, input.hostname, SessionKey(req.headers).value,
              input.cpu, input.memory, input.disk)))
  }

  /** Write before emit: a request keeps every `metric.pushed` event in the
      outbox backed by a stored sample. */
  lemma PushKeepsEventsBacked(
    user: map<string, Session>, servers: seq<ServerRow>, metrics: seq<MetricRow>, events: seq<Event>,
    req: Request, lookupFails: bool, insertFails: bool)
    requires AuthHeader(req.headers).Some?
    requires EventsBacked(servers, metrics, events)
    ensures var o := Push(user, servers, req, lookupFails, insertFails);
      EventsBacked(servers,
        metrics + (if o.row.Some? then [o.row.value] else []),
        events + (if o.event.Some? then [MetricPushed(o.event.value)] else []))
  {
    var o := Push(user, servers, req, lookupFails, insertFails);
    if o.row.Some? {
      var r, e := o.row.value, o.event.value;
      EventsBackedGrow(servers, metrics, events, servers, metrics + [r]);
      var s :| s in servers && s.id == r.serverId && s.userId == e.userId && s.server_name == e.hostname;
      assert r in metrics + [r];
      assert Backed(servers, metrics + [r], e);
    }
  }

  /** The handler. The row is appended before the event is emitted; every
      failure returns before both. */
  method Handler(
    req: Request, state: StateStore, db: Database, bus: EventBus, lookupFails: bool, insertFails: bool)
    returns (res: Response)
    requires AuthHeader(req.headers).Some?
    modifies db, bus
    ensures var o := Push(state.user, old(db.servers), req, lookupFails, insertFails);
      && res == o.response
      && db.server_metrics == old(db.server_metrics) + (if o.row.Some? then [o.row.value] else [])
      && bus.events == old(bus.events) + (if o.event.Some? then [MetricPushed(o.event.value)] else [])
    ensures db.servers == old(db.servers) && db.alert_thresholds == old(db.alert_thresholds)
    ensures old(EventsBacked(db.servers, db.server_metrics, bus.events)) ==>
      EventsBacked(db.servers, db.server_metrics, bus.events)
  {
    if EventsBacked(db.servers, db.server_metrics, bus.events) {
      PushKeepsEventsBacked(state.user, db.servers, db.server_metrics, bus.events, req, lookupFails, insertFails);
    }
    var result := ParseInput(req.body);
    if result.None? {
      return Reply(400, Error("Invalid input"));
    }
    var input := result.value;
    var authToken := AuthHeader(req.headers).value;
    var token := BearerToken(authToken);
    if token.None? || token.value !in state.user {
      return Reply(401, Error("Unauthorized"));
    }
    var currentUser := state.user[token.value];
    var serverData := MaybeSingle(Where(db.servers, Named(currentUser.userId, input.hostname)), lookupFails);
    if serverData.QueryError? || serverData.NoRow? || serverData.row.id == "" {
      return Reply(400, Error("Server not found"));
    }
    var insertError := db.InsertMetric(
      MetricRow(serverData.row.id, input.cpu, input.memory, input.disk, input.uptime), insertFails);
    if insertError {
      return Reply(500, Error("Failed to store metrics"));
    }
    bus.Emit(MetricPushed(MetricPushedData(currentUser.userId, input.hostname, token.value,
      input.cpu, input.memory, input.disk)));
    return Received;
  }
}
