/** The endpoint `GET /list-servers`, behind `auth({ required: true })`:
    the id and name of every server the caller owns. It only reads. */
module ListServers {
  import opened Json
  import opened Model
  import opened Headers

  /** How the `servers` query came back: with rows, with `data` null and no
      error, or with an error. */
  datatype QueryOutcome = Rows | NullData | QueryFails

  /** The `select('id, server_name')` projection: one summary per row, in
      the rows' order, so a summary is listed exactly when some row carries
      its id and name. */
  function Summaries(rows: seq<ServerRow>): (r: seq<ServerSummary>)
    ensures |r| == |rows|
    ensures forall i :: 0 <= i < |r| ==> r[i] == ServerSummary(rows[i].id, rows[i].server_name)
    ensures forall x :: x in r <==> exists s :: s in rows && x == ServerSummary(s.id, s.server_name)
    decreases |rows|
  {
    if rows == [] then []
    else
      var rest := Summaries(rows[1..]);
      assert rows[0] in rows;
      assert forall s :: s in rows <==> s == rows[0] || s in rows[1..];
      [ServerSummary(rows[0].id, rows[0].server_name)] + rest
  }

  /** The handler as a function of the sessions and the `servers` table;
      the middleware has already required an authorization header. */
  function ListServers(
    user: map<string, Session>, servers: seq<ServerRow>, headers: map<string, string>, outcome: QueryOutcome)
    : (r: Response)
    requires AuthHeader(headers).Some?
    ensures r.Reply? && r.status in {200, 401, 500}
    ensures CurrentUser(user, headers).None? <==> r == Reply(401, Error("Unauthorized"))
    ensures CurrentUser(user, headers).Some? && outcome == QueryFails ==>
      r == Reply(500, Error("Failed to fetch servers"))
    ensures CurrentUser(user, headers).Some? && outcome == NullData ==> r == Reply(200, ServerList([]))
    ensures CurrentUser(user, headers).Some? && outcome == Rows ==>
      && r.status == 200 && r.body.ServerList?
      && forall x :: x in r.body.servers <==>
           exists s :: s in servers && s.userId == CurrentUser(user, headers).value.userId &&
             x == ServerSummary(s.id, s.server_name)
    ensures CurrentUser(user, headers).Some? && outcome == Rows ==>
      var owned := Where(servers, OwnedBy(CurrentUser(user, headers).value.userId));
      && |r.body.servers| == |owned|
      && forall i :: 0 <= i < |owned| ==> r.body.servers[i] == ServerSummary(owned[i].id, owned[i].server_name)
  {
    match CurrentUser(user, headers)
    case None => Reply(401, Error("Unauthorized"))
    case Some(currentUser) =>
      match outcome
      case QueryFails => Reply(500, Error("Failed to fetch servers"))
      case NullData => Reply(200, ServerList([]))
      case Rows =>
        var owned := Where(servers, OwnedBy(currentUser.userId));
        var list := Summaries(owned);
        Reply(200, ServerList(list))
  }
}
