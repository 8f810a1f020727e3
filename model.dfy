/** The world the step handlers touch: the records they read and write, the
    namespaced state store, the three durable tables, the event outbox and the
    e-mail outbox, the identity provider as an oracle, and the invariants that
    hold across handlers. */
module Model {
  import opened Json

  // ---------------------------------------------------------------------------
  // Records

  /** A `"user"` entry of the state store, keyed by access token. */
  datatype Session = Session(userId: string, email: string, user_metadata: Json)

  /** A `"thresholds"` entry of the state store, keyed by user id. */
  datatype Thresholds = Thresholds(cpuThreshold: real, memoryThreshold: real, diskThreshold: real)

  /** A row of `servers`; `id` is assigned by the database. */
  datatype ServerRow = ServerRow(id: string, userId: string, server_name: string)

  /** A row of `server_metrics`. */
  datatype MetricRow = MetricRow(serverId: string, cpu: real, memory: real, disk: real, uptime: real)

  /** A row of `alert_thresholds`. */
  datatype ThresholdRow = ThresholdRow(userId: string, cpu: real, memory: real, disk: real)

  /** The data of a `metric.pushed` event. */
  datatype MetricPushedData = MetricPushedData(
    userId: string, hostname: string, authToken: string,
    currentCpu: real, currentMemory: real, currentDisk: real)

  /** The data of a `watcher.login.attempt` event; the user is carried as `id`. */
  datatype WatcherLoginData = WatcherLoginData(
    id: string, hostname: string, success: bool, timestamp: Option<string>)

  datatype Event =
    | MetricPushed(metric: MetricPushedData)
    | WatcherLoginAttempt(login: WatcherLoginData)

  function Topic(e: Event): string
  {
    match e
    case MetricPushed(_) => "metric.pushed"
    case WatcherLoginAttempt(_) => "watcher.login.attempt"
  }

  /** The `data` object an event is emitted with, as its subscriber receives it:
      an object with one key per field, `timestamp` only when it is defined. */
  function Payload(e: Event): (v: Json)
    ensures v.JObj?
    ensures e.MetricPushed? ==>
      v.fields.Keys == {"userId", "hostname", "authToken", "currentCpu", "currentMemory", "currentDisk"}
    ensures e.WatcherLoginAttempt? ==>
      v.fields.Keys == {"id", "hostname", "success"} + if e.login.timestamp.Some? then {"timestamp"} else {}
  {
    match e
    case MetricPushed(d) =>
      JObj(map[
        "userId" := JStr(d.userId), "hostname" := JStr(d.hostname),
        "authToken" := JStr(d.authToken), "currentCpu" := JNum(d.currentCpu),
        "currentMemory" := JNum(d.currentMemory), "currentDisk" := JNum(d.currentDisk)])
    case WatcherLoginAttempt(d) =>
      var fields := map["id" := JStr(d.id), "hostname" := JStr(d.hostname), "success" := JBool(d.success)];
      JObj(if d.timestamp.Some? then fields["timestamp" := JStr(d.timestamp.value)] else fields)
  }

  /** A message handed to the e-mail transport. */
  datatype Email = Email(from: string, to: seq<string>, subject: string, html: string)

  // ---------------------------------------------------------------------------
  // HTTP requests and responses

  datatype Request = Request(headers: map<string, string>, body: Json)

  datatype ServerSummary = ServerSummary(id: string, server_name: string)

  datatype Body =
    | Error(error: string)
    | Message(message: string)
    | TokenMessage(message: string, token: string)
    | ServerList(servers: seq<ServerSummary>)

  /** A handler's reply, or `Thrown` when the handler raises an exception. */
  datatype Response = Reply(status: int, body: Body) | Thrown

  // ---------------------------------------------------------------------------
  // The identity provider, as an oracle

  datatype AuthUser = AuthUser(id: string, email: string, user_metadata: Json)

  /** `sessions` maps (email, password) to the access token of the session a
      password sign-in opens (absent: an error or no session); `users` maps an
      access token to the user it belongs to (absent: `getUser` fails). */
  datatype IdentityProvider = IdentityProvider(
    sessions: map<(string, string), string>,
    users: map<string, AuthUser>)

  function SignInWithPassword(idp: IdentityProvider, email: string, password: string): Option<string>
  {
    if (email, password) in idp.sessions then Some(idp.sessions[(email, password)]) else None
  }

  function GetUser(idp: IdentityProvider, token: string): Option<AuthUser>
  {
    if token in idp.users then Some(idp.users[token]) else None
  }

  // ---------------------------------------------------------------------------
  // Queries on the durable tables

  /** The rows an `.eq(...)` filter keeps, in table order. */
  function Where<T(==,!new)>(rows: seq<T>, keep: T -> bool): (r: seq<T>)
    ensures |r| <= |rows|
    ensures forall x :: x in r <==> x in rows && keep(x)
    decreases |rows|
  {
    if rows == [] then []
    else (if keep(rows[0]) then [rows[0]] else []) + Where(rows[1..], keep)
  }

  lemma {:induction false} WhereAppend<T(!new)>(a: seq<T>, b: seq<T>, keep: T -> bool)
    ensures Where(a + b, keep) == Where(a, keep) + Where(b, keep)
    decreases |a|
  {
    if a != [] {
      WhereAppend(a[1..], b, keep);
      assert (a + b)[0] == a[0] && (a + b)[1..] == a[1..] + b;
      if keep(a[0]) {
        assert Where(a + b, keep) == [a[0]] + Where(a[1..] + b, keep);
        assert Where(a, keep) == [a[0]] + Where(a[1..], keep);
      } else {
        assert Where(a + b, keep) == Where(a[1..] + b, keep);
        assert Where(a, keep) == Where(a[1..], keep);
      }
    } else {
      assert a + b == b;
    }
  }

  lemma {:induction false} WhereNone<T(!new)>(rows: seq<T>, keep: T -> bool)
    requires forall x :: x in rows ==> !keep(x)
    ensures Where(rows, keep) == []
    decreases |rows|
  {
    if rows != [] {
      assert rows[0] in rows;
      WhereNone(rows[1..], keep);
    }
  }

  /** `.eq("userId", userId).eq("server_name", name)` on `servers`. */
  function Named(userId: string, name: string): ServerRow -> bool
  {
    (s: ServerRow) => s.userId == userId && s.server_name == name
  }

  /** `.eq("userId", userId)` on `servers`. */
  function OwnedBy(userId: string): ServerRow -> bool
  {
    (s: ServerRow) => s.userId == userId
  }

  /** `.eq("userId", userId)` on `alert_thresholds`. */
  function ThresholdsOf(userId: string): ThresholdRow -> bool
  {
    (t: ThresholdRow) => t.userId == userId
  }

  /** `.update({cpu, memory, disk}).eq("userId", userId)` on `alert_thresholds`:
      every row of `userId` takes the new values where it stands. */
  function Updated(rows: seq<ThresholdRow>, userId: string, cpu: real, memory: real, disk: real)
    : (r: seq<ThresholdRow>)
    ensures |r| == |rows|
    ensures forall i :: 0 <= i < |r| ==> r[i].userId == rows[i].userId
    ensures forall x :: x in r && x.userId == userId ==> x == ThresholdRow(userId, cpu, memory, disk)
    ensures |Where(r, ThresholdsOf(userId))| == |Where(rows, ThresholdsOf(userId))|
    ensures forall other :: other != userId ==> Where(r, ThresholdsOf(other)) == Where(rows, ThresholdsOf(other))
    decreases |rows|
  {
    if rows == [] then []
    else
      var head := if rows[0].userId == userId then ThresholdRow(userId, cpu, memory, disk) else rows[0];
      var rest := Updated(rows[1..], userId, cpu, memory, disk);
      assert ([head] + rest)[1..] == rest;
      [head] + rest
  }

  /** Updating with the values a user's rows already hold changes nothing. */
  lemma {:induction false} UpdatedFixed(rows: seq<ThresholdRow>, userId: string, cpu: real, memory: real, disk: real)
    requires forall x :: x in rows && x.userId == userId ==> x == ThresholdRow(userId, cpu, memory, disk)
    ensures Updated(rows, userId, cpu, memory, disk) == rows
    decreases |rows|
  {
    if rows != [] {
      assert rows[0] in rows;
      forall x | x in rows[1..] && x.userId == userId ensures x == ThresholdRow(userId, cpu, memory, disk) {
        assert x in rows;
      }
      UpdatedFixed(rows[1..], userId, cpu, memory, disk);
      assert rows == [rows[0]] + rows[1..];
    }
  }

  /** The outcome of `.maybeSingle()`. */
  datatype Single<T> = NoRow | OneRow(row: T) | QueryError

  /** `.maybeSingle()` over the matching rows: no data for no row, the row for
      one, and an error for more than one or when the call itself fails. */
  function MaybeSingle<T>(rows: seq<T>, fails: bool): (r: Single<T>)
    ensures r.NoRow? <==> !fails && |rows| == 0
    ensures r.OneRow? <==> !fails && |rows| == 1
    ensures r.OneRow? ==> r.row == rows[0]
  {
    if fails || |rows| > 1 then QueryError
    else if |rows| == 0 then NoRow
    else OneRow(rows[0])
  }

  // ---------------------------------------------------------------------------
  // Invariants across handlers

  /** `servers` holds at most one row per (userId, server_name). */
  ghost predicate ServersUnique(servers: seq<ServerRow>)
  {
    forall i, j :: 0 <= i < j < |servers| ==>
      servers[i].userId != servers[j].userId || servers[i].server_name != servers[j].server_name
  }

  /** `alert_thresholds` holds at most one row per userId. */
  ghost predicate ThresholdRowsUnique(rows: seq<ThresholdRow>)
  {
    forall i, j :: 0 <= i < j < |rows| ==> rows[i].userId != rows[j].userId
  }

  /** `d` describes a stored sample: a `server_metrics` row with its values
      references a server that `d`'s user owns under `d`'s hostname. */
  ghost predicate Backed(servers: seq<ServerRow>, metrics: seq<MetricRow>, d: MetricPushedData)
  {
    exists s, m :: s in servers && m in metrics &&
      s.userId == d.userId && s.server_name == d.hostname && m.serverId == s.id &&
      m.cpu == d.currentCpu && m.memory == d.currentMemory && m.disk == d.currentDisk
  }

  /** Every `metric.pushed` event in the outbox describes a stored sample. */
  ghost predicate EventsBacked(servers: seq<ServerRow>, metrics: seq<MetricRow>, events: seq<Event>)
  {
    forall e :: e in events && e.MetricPushed? ==> Backed(servers, metrics, e.metric)
  }

  /** Adding rows to the tables keeps every event backed. */
  lemma EventsBackedGrow(
    servers: seq<ServerRow>, metrics: seq<MetricRow>, events: seq<Event>,
    servers': seq<ServerRow>, metrics': seq<MetricRow>)
    requires EventsBacked(servers, metrics, events)
    requires forall s :: s in servers ==> s in servers'
    requires forall m :: m in metrics ==> m in metrics'
    ensures EventsBacked(servers', metrics', events)
  {
    forall e | e in events && e.MetricPushed? ensures Backed(servers', metrics', e.metric) {
      var s, m :| s in servers && m in metrics &&
        s.userId == e.metric.userId && s.server_name == e.metric.hostname && m.serverId == s.id &&
        m.cpu == e.metric.currentCpu && m.memory == e.metric.currentMemory && m.disk == e.metric.currentDisk;
      assert s in servers' && m in metrics';
    }
  }

  lemma {:induction false} UniqueAtMostOne(servers: seq<ServerRow>, userId: string, name: string)
    requires ServersUnique(servers)
    ensures |Where(servers, Named(userId, name))| <= 1
    decreases |servers|
  {
    if servers != [] {
      assert ServersUnique(servers[1..]) by {
        forall i, j | 0 <= i < j < |servers[1..]|
          ensures servers[1..][i].userId != servers[1..][j].userId || servers[1..][i].server_name != servers[1..][j].server_name
        {
          assert servers[1..][i] == servers[i + 1] && servers[1..][j] == servers[j + 1];
        }
      }
      UniqueAtMostOne(servers[1..], userId, name);
      if Named(userId, name)(servers[0]) {
        var rest := Where(servers[1..], Named(userId, name));
        forall x | x in servers[1..] ensures !Named(userId, name)(x) {
          var j :| 0 <= j < |servers[1..]| && servers[1..][j] == x;
          assert servers[j + 1] == x;
        }
        WhereNone(servers[1..], Named(userId, name));
      }
    }
  }

  // ---------------------------------------------------------------------------
  // The objects the handlers receive

  /** The namespaced key-value state store, with the two namespaces used:
      `"user"` (sessions by access token) and `"thresholds"` (by user id). */
  class StateStore {
    var user: map<string, Session>
    var thresholds: map<string, Thresholds>

    constructor ()
      ensures user == map[] && thresholds == map[]
    {
      user := map[];
      thresholds := map[];
    }

    /** `state.set("user", token, session)` */
    method SetUser(token: string, session: Session)
      modifies this
      ensures user == old(user)[token := session]
      ensures thresholds == old(thresholds)
    {
      user := user[token := session];
    }

    /** `state.set("thresholds", userId, t)` */
    method SetThresholds(userId: string, t: Thresholds)
      modifies this
      ensures thresholds == old(thresholds)[userId := t]
      ensures user == old(user)
    {
      thresholds := thresholds[userId := t];
    }
  }

  /** The durable tables. Each write takes the outcome of the database call
      as a parameter and returns its `error`. */
  class Database {
    var servers: seq<ServerRow>
    var server_metrics: seq<MetricRow>
    var alert_thresholds: seq<ThresholdRow>

    constructor ()
      ensures servers == [] && server_metrics == [] && alert_thresholds == []
    {
      servers, server_metrics, alert_thresholds := [], [], [];
    }

    method InsertServer(row: ServerRow, fails: bool) returns (error: bool)
      modifies this
      ensures error == fails
      ensures servers == if fails then old(servers) else old(servers) + [row]
      ensures server_metrics == old(server_metrics) && alert_thresholds == old(alert_thresholds)
    {
      error := fails;
      if !fails {
        servers := servers + [row];
      }
    }

    method InsertMetric(row: MetricRow, fails: bool) returns (error: bool)
      modifies this
      ensures error == fails
      ensures server_metrics == if fails then old(server_metrics) else old(server_metrics) + [row]
      ensures servers == old(servers) && alert_thresholds == old(alert_thresholds)
    {
      error := fails;
      if !fails {
        server_metrics := server_metrics + [row];
      }
    }

    method InsertThreshold(row: ThresholdRow, fails: bool) returns (error: bool)
      modifies this
      ensures error == fails
      ensures alert_thresholds == if fails then old(alert_thresholds) else old(alert_thresholds) + [row]
      ensures servers == old(servers) && server_metrics == old(server_metrics)
    {
      error := fails;
      if !fails {
        alert_thresholds := alert_thresholds + [row];
      }
    }

    /** `.update({cpu, memory, disk}).eq("userId", userId)` */
    method UpdateThresholds(userId: string, cpu: real, memory: real, disk: real, fails: bool)
      returns (error: bool)
      modifies this
      ensures error == fails
      ensures alert_thresholds ==
        if fails then old(alert_thresholds) else Updated(old(alert_thresholds), userId, cpu, memory, disk)
      ensures servers == old(servers) && server_metrics == old(server_metrics)
    {
      error := fails;
      if !fails {
        alert_thresholds := Updated(alert_thresholds, userId, cpu, memory, disk);
      }
    }
  }

  /** The event outbox: `emit` appends, subscribers are handed each event later. */
  class EventBus {
    var events: seq<Event>

    constructor ()
      ensures events == []
    {
      events := [];
    }

    method Emit(e: Event)
      modifies this
      ensures events == old(events) + [e]
    {
      events := events + [e];
    }
  }

  /** The e-mail outbox of the transport. */
  class Mailbox {
    var sent: seq<Email>

    constructor ()
      ensures sent == []
    {
      sent := [];
    }

    /** `resend.emails.send(email)`; `fails` is the transport's outcome. */
    method Send(email: Email, fails: bool) returns (error: bool)
      modifies this
      ensures error == fails
      ensures sent == if fails then old(sent) else old(sent) + [email]
    {
      error := fails;
      if !fails {
        sent := sent + [email];
      }
    }
  }
}
