/** The flow `green-server-flow` as a whole: events emitted by the endpoints
    are delivered to the step subscribed to their topic, and properties that
    span several steps. */
module Pipeline {
  import opened Json
  import opened Model
  import opened Headers
  import MailService
  import PushMetrics
  import MonitorMetricsEvent
  import WatcherLoginEvent
  import WatcherLogin
  import Login

  /** Delivers one emitted event to its subscriber: `metric.pushed` to the
      threshold evaluator, `watcher.login.attempt` to the server registrar.
      The failure flags and `newId` stand for the subscriber's external calls. */
  method Deliver(
    fmt: Formats, e: Event, state: StateStore, db: Database, bus: EventBus, box: Mailbox,
    show: real -> string, transportFails: bool, lookupFails: bool, insertFails: bool, newId: string)
    modifies db, box
    ensures e.MetricPushed? ==>
      var call := MonitorMetricsEvent.Evaluate(fmt, Payload(e), state.thresholds, state.user);
      && box.sent == old(box.sent) +
           (if call.None? || transportFails then []
            else [MailService.AlertEmail(call.value.to, Some(call.value.subject), call.value.metrics, show)])
      && db.servers == old(db.servers)
    ensures e.WatcherLoginAttempt? ==>
      && box.sent == old(box.sent)
      && db.servers == WatcherLoginEvent.Register(fmt, old(db.servers), Payload(e), lookupFails, insertFails, newId)
    ensures db.server_metrics == old(db.server_metrics) && db.alert_thresholds == old(db.alert_thresholds)
    ensures old(EventsBacked(db.servers, db.server_metrics, bus.events)) ==>
      EventsBacked(db.servers, db.server_metrics, bus.events)
    ensures old(ServersUnique(db.servers)) && !lookupFails ==> ServersUnique(db.servers)
  {
    ghost var servers0 := db.servers;
    ghost var backed0 := EventsBacked(db.servers, db.server_metrics, bus.events);
    if Topic(e) == "metric.pushed" {
      MonitorMetricsEvent.Handler(fmt, Payload(e), state, box, show, transportFails);
    } else {
      WatcherLoginEvent.Handler(fmt, Payload(e), db, lookupFails, insertFails, newId);
    }
    if backed0 {
      EventsBackedGrow(servers0, db.server_metrics, bus.events, db.servers, db.server_metrics);
    }
  }

  /** Ingestion does not range-check the percentages, the evaluator does: a
      body with a value outside [0, 100], from a caller with a session and a
      matching server, is stored and emitted, and its event then triggers no
      alert whatever the thresholds and sessions. */
  lemma OutOfRangeStoredNotAlerted(
    fmt: Formats, user: map<string, Session>, servers: seq<ServerRow>, req: Request,
    thresholds: map<string, Thresholds>, sessions: map<string, Session>)
    requires AuthHeader(req.headers).Some?
    requires PushMetrics.ParseInput(req.body).Some? && CurrentUser(user, req.headers).Some?
    requires var input := PushMetrics.ParseInput(req.body).value;
      !IsPercentage(input.cpu) || !IsPercentage(input.memory) || !IsPercentage(input.disk)
    requires var rows := Where(servers,
        Named(CurrentUser(user, req.headers).value.userId, PushMetrics.ParseInput(req.body).value.hostname));
      |rows| == 1 && rows[0].id != ""
    ensures var o := PushMetrics.Push(user, servers, req, false, false);
      var input := PushMetrics.ParseInput(req.body).value;
      && o.response == PushMetrics.Received
      && o.row.Some? && o.row.value.cpu == input.cpu && o.row.value.memory == input.memory
      && o.row.value.disk == input.disk
      && o.event.Some?
      && MonitorMetricsEvent.Evaluate(fmt, Payload(MetricPushed(o.event.value)), thresholds, sessions).None?
  {
    MonitorMetricsEvent.ParsePayload(fmt, PushMetrics.Push(user, servers, req, false, false).event.value);
  }

  /** The token `/login` returns, sent back as `"<scheme> <token>"`, resolves
      to the session `/login` cached. */
  lemma LoginThenAuthenticated(
    fmt: Formats, idp: IdentityProvider, body: Json, user: map<string, Session>, scheme: string)
    requires Login.Login(fmt, idp, body).session.Some?
    requires ' ' !in scheme && ' ' !in Login.Login(fmt, idp, body).session.value.0
    ensures var (token, session) := Login.Login(fmt, idp, body).session.value;
      var headers := map["authorization" := scheme + " " + token];
      AuthHeader(headers).Some? && CurrentUser(user[token := session], headers) == Some(session)
  {
    var (token, session) := Login.Login(fmt, idp, body).session.value;
    BearerTokenOf(scheme, token);
  }

  /** A successful `/watcher-login` emits an event the registrar accepts
      whenever the user id is a UUID (both schemas ask for a hostname of at
      least three characters), and handling it leaves exactly one server
      row for (user id, hostname). */
  lemma WatcherLoginRegistersServer(
    fmt: Formats, idp: IdentityProvider, body: Json, now: string, servers: seq<ServerRow>, newId: string)
    requires WatcherLogin.WatcherLogin(fmt, idp, body, now).event.Some?
    requires fmt.isUuid(WatcherLogin.WatcherLogin(fmt, idp, body, now).event.value.id)
    requires ServersUnique(servers)
    ensures var d := WatcherLogin.WatcherLogin(fmt, idp, body, now).event.value;
      && WatcherLoginEvent.Parse(fmt, Payload(WatcherLoginAttempt(d))) == Some(d)
      && |Where(WatcherLoginEvent.Register(fmt, servers, Payload(WatcherLoginAttempt(d)), false, false, newId),
              Named(d.id, d.hostname))| == 1
  {
    var d := WatcherLogin.WatcherLogin(fmt, idp, body, now).event.value;
    WatcherLoginEvent.ParsePayload(fmt, d);
    WatcherLoginEvent.RegisterOneRow(fmt, servers, Payload(WatcherLoginAttempt(d)), newId);
  }

  /** A watcher that logs in twice with the same body (the two events differ
      only in their timestamps) ends up with one server row: the second
      registration inserts nothing. */
  lemma WatcherLoginTwiceOneServer(
    fmt: Formats, idp: IdentityProvider, body: Json, now1: string, now2: string,
    servers: seq<ServerRow>, id1: string, id2: string, insertFails: bool)
    requires WatcherLogin.WatcherLogin(fmt, idp, body, now1).event.Some?
    requires fmt.isUuid(WatcherLogin.WatcherLogin(fmt, idp, body, now1).event.value.id)
    requires ServersUnique(servers)
    ensures WatcherLogin.WatcherLogin(fmt, idp, body, now2).event.Some?
    ensures var d1 := WatcherLogin.WatcherLogin(fmt, idp, body, now1).event.value;
      var d2 := WatcherLogin.WatcherLogin(fmt, idp, body, now2).event.value;
      var once := WatcherLoginEvent.Register(fmt, servers, Payload(WatcherLoginAttempt(d1)), false, false, id1);
      var twice := WatcherLoginEvent.Register(fmt, once, Payload(WatcherLoginAttempt(d2)), false, insertFails, id2);
      twice == once && |Where(twice, Named(d1.id, d1.hostname))| == 1
  {
    var d1 := WatcherLogin.WatcherLogin(fmt, idp, body, now1).event.value;
    var d2 := WatcherLogin.WatcherLogin(fmt, idp, body, now2).event.value;
    WatcherLoginRegistersServer(fmt, idp, body, now1, servers, id1);
    WatcherLoginEvent.ParsePayload(fmt, d2);
  }

  /** A user with thresholds {cpu 80, memory 80, disk 90} who pushes
      {cpu 85, memory 50, disk 50} is sent one alert, to the session's
      address, that lists cpu 85 along with the other two values. */
  lemma CpuBreachAlerts(fmt: Formats, userId: string, token: string, session: Session)
    requires fmt.isUuid(userId) && session.userId == userId
    ensures var d := MetricPushedData(userId, "web-1", token, 85.0, 50.0, 50.0);
      var call := MonitorMetricsEvent.Evaluate(fmt, Payload(MetricPushed(d)),
        map[userId := Thresholds(80.0, 80.0, 90.0)], map[token := session]);
      && call.Some?
      && call.value.to == session.email
      && MailService.AlertItems(call.value.metrics) == [
           MailService.HostnameItem("web-1"), MailService.CpuItem(85.0),
           MailService.MemoryItem(50.0), MailService.DiskItem(50.0)]
  {
    var d := MetricPushedData(userId, "web-1", token, 85.0, 50.0, 50.0);
    MonitorMetricsEvent.ParsePayload(fmt, d);
  }

  /** The same thresholds and a sample exactly at {80, 80, 90}: no alert. */
  lemma BoundarySampleNoAlert(fmt: Formats, userId: string, token: string, session: Session)
    ensures var d := MetricPushedData(userId, "web-1", token, 80.0, 80.0, 90.0);
      MonitorMetricsEvent.Evaluate(fmt, Payload(MetricPushed(d)),
        map[userId := Thresholds(80.0, 80.0, 90.0)], map[token := session]).None?
  {
    var d := MetricPushedData(userId, "web-1", token, 80.0, 80.0, 90.0);
    MonitorMetricsEvent.AtThresholdNoAlert(fmt, d, map[userId := Thresholds(80.0, 80.0, 90.0)], map[token := session]);
  }
}
