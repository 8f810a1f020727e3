/** The endpoint `POST /set-threshold`: validate three percentages, resolve
    the session, upsert the caller's `alert_thresholds` row, and only then
    cache the thresholds under `"thresholds"`/userId. */
module SetServerThreshold {
  import opened Json
  import opened Model
  import opened Headers

  /** `setThresholdInputSchema.safeParse(body)`: three numbers in [0, 100]. */
  function ParseInput(body: Json): (r: Option<Thresholds>)
    ensures r.Some? <==>
      && NumberField(body, "cpuThreshold").Some? && IsPercentage(NumberField(body, "cpuThreshold").value)
      && NumberField(body, "memoryThreshold").Some? && IsPercentage(NumberField(body, "memoryThreshold").value)
      && NumberField(body, "diskThreshold").Some? && IsPercentage(NumberField(body, "diskThreshold").value)
    ensures r.Some? ==> r.value == Thresholds(
      NumberField(body, "cpuThreshold").value, NumberField(body, "memoryThreshold").value,
      NumberField(body, "diskThreshold").value)
  {
    match (NumberField(body, "cpuThreshold"), NumberField(body, "memoryThreshold"), NumberField(body, "diskThreshold"))
    case (Some(cpu), Some(memory), Some(disk)) =>
      if IsPercentage(cpu) && IsPercentage(memory) && IsPercentage(disk)
      then Some(Thresholds(cpu, memory, disk)) else None
    case _ => None
  }

  /** The durable row that stores `t` for `userId`. */
  function RowOf(userId: string, t: Thresholds): ThresholdRow
  {
    ThresholdRow(userId, t.cpuThreshold, t.memoryThreshold, t.diskThreshold)
  }

  /** What one request does: its reply, the new `alert_thresholds` table and
      the new `"thresholds"` namespace. */
  datatype ThresholdOutcome = ThresholdOutcome(
    response: Response, table: seq<ThresholdRow>, cache: map<string, Thresholds>)

  const Done := Reply(200, Message("Thresholds set successfully"))
  const Failed := Reply(500, Error("Failed to set thresholds"))

  /** The handler as a function of the sessions, the table and the cache;
      `selectFails` is the outcome of the lookup, `writeFails` that of the
      update or insert that follows it. */
  function SetThreshold(
    user: map<string, Session>, table: seq<ThresholdRow>, cache: map<string, Thresholds>,
    req: Request, selectFails: bool, writeFails: bool)
    : (o: ThresholdOutcome)
    requires AuthHeader(req.headers).Some?
    ensures o.response.Reply? && o.response.status in {200, 400, 401, 500}
    ensures o.response != Done ==> o.table == table && o.cache == cache
    ensures ParseInput(req.body).None? ==> o.response == Reply(400, Error("Invalid input"))
    ensures ParseInput(req.body).Some? && CurrentUser(user, req.headers).None? ==>
      o.response == Reply(401, Error("Unauthorized"))
    ensures ParseInput(req.body).Some? && CurrentUser(user, req.headers).Some? ==>
      var userId := CurrentUser(user, req.headers).value.userId;
      && (o.response == Done <==> !selectFails && !writeFails && |Where(table, ThresholdsOf(userId))| <= 1)
      && (o.response != Done ==> o.response == Failed)
    ensures o.response == Done ==>
      var t := ParseInput(req.body).value;
      var userId := CurrentUser(user, req.headers).value.userId;
      && o.cache == cache[userId := t]
      && RowOf(userId, t) in o.table
      && (forall x :: x in o.table && x.userId == userId ==> x == RowOf(userId, t))
      && (forall other :: other != userId ==> Where(o.table, ThresholdsOf(other)) == Where(table, ThresholdsOf(other)))
      && (|o.table| == |table| + 1 <==> Where(table, ThresholdsOf(userId)) == [])
      && (|o.table| == |table| <==> Where(table, ThresholdsOf(userId)) != [])
  {
    match ParseInput(req.body)
    case None => ThresholdOutcome(Reply(400, Error("Invalid input")), table, cache)
    case Some(t) =>
      match CurrentUser(user, req.headers)
      case None => ThresholdOutcome(Reply(401, Error("Unauthorized")), table, cache)
      case Some(currentUser) =>
        var userId := currentUser.userId;
        var existingUser := MaybeSingle(Where(table, ThresholdsOf(userId)), selectFails);
        if existingUser.QueryError? || writeFails then ThresholdOutcome(Failed, table, cache)
        else if existingUser.OneRow? then
          var updated := Updated(table, userId, t.cpuThreshold, t.memoryThreshold, t.diskThreshold);
          assert Where(updated, ThresholdsOf(userId))[0] in Where(updated, ThresholdsOf(userId));
          ThresholdOutcome(Done, updated, cache[userId := t])
        else
          InsertKeepsOthers(table, RowOf(userId, t));
          ThresholdOutcome(Done, table + [RowOf(userId, t)], cache[userId := t])
  }

  /** Appending a row leaves every other user's rows as they were and adds
      it to its own user's rows. */
  lemma InsertKeepsOthers(table: seq<ThresholdRow>, row: ThresholdRow)
    ensures forall other :: other != row.userId ==>
      Where(table + [row], ThresholdsOf(other)) == Where(table, ThresholdsOf(other))
    ensures Where(table + [row], ThresholdsOf(row.userId)) == Where(table, ThresholdsOf(row.userId)) + [row]
  {
    forall other: string
      ensures Where(table + [row], ThresholdsOf(other))
           == Where(table, ThresholdsOf(other)) + Where([row], ThresholdsOf(other))
    {
      WhereAppend(table, [row], ThresholdsOf(other));
    }
    forall other: string ensures Where([row], ThresholdsOf(other)) == if other == row.userId then [row] else [] {
      assert [row][1..] == [];
    }
  }

  /** A request from a user who already has one row updates that row. */
  lemma SetThresholdUpdatesOne(
    user: map<string, Session>, table: seq<ThresholdRow>, cache: map<string, Thresholds>, req: Request)
    requires AuthHeader(req.headers).Some?
    requires ParseInput(req.body).Some? && CurrentUser(user, req.headers).Some?
    requires |Where(table, ThresholdsOf(CurrentUser(user, req.headers).value.userId))| == 1
    ensures var t := ParseInput(req.body).value;
      var userId := CurrentUser(user, req.headers).value.userId;
      SetThreshold(user, table, cache, req, false, false) == ThresholdOutcome(
        Done, Updated(table, userId, t.cpuThreshold, t.memoryThreshold, t.diskThreshold), cache[userId := t])
  {
  }

  /** After a successful request the caller has exactly one row. */
  lemma SetThresholdLeavesOneRow(
    user: map<string, Session>, table: seq<ThresholdRow>, cache: map<string, Thresholds>,
    req: Request, selectFails: bool, writeFails: bool)
    requires AuthHeader(req.headers).Some?
    requires SetThreshold(user, table, cache, req, selectFails, writeFails).response == Done
    ensures var userId := CurrentUser(user, req.headers).value.userId;
      |Where(SetThreshold(user, table, cache, req, selectFails, writeFails).table, ThresholdsOf(userId))| == 1
  {
    var userId := CurrentUser(user, req.headers).value.userId;
    if Where(table, ThresholdsOf(userId)) == [] {
      InsertKeepsOthers(table, RowOf(userId, ParseInput(req.body).value));
    }
  }

  /** A request repeated after it succeeded changes nothing more. */
  lemma RepeatAfterDone(
    user: map<string, Session>, table: seq<ThresholdRow>, cache: map<string, Thresholds>, req: Request)
    requires AuthHeader(req.headers).Some?
    requires SetThreshold(user, table, cache, req, false, false).response == Done
    ensures var once := SetThreshold(user, table, cache, req, false, false);
      SetThreshold(user, once.table, once.cache, req, false, false) == once
  {
    var once := SetThreshold(user, table, cache, req, false, false);
    var t := ParseInput(req.body).value;
    var userId := CurrentUser(user, req.headers).value.userId;
    SetThresholdLeavesOneRow(user, table, cache, req, false, false);
    SetThresholdUpdatesOne(user, once.table, once.cache, req);
    UpdatedFixed(once.table, userId, t.cpuThreshold, t.memoryThreshold, t.diskThreshold);
    assert once.cache[userId := t] == once.cache;
  }

  /** Repeating a request gives the same reply, table and cache as making it
      once. */
  lemma SetThresholdIdempotent(
    user: map<string, Session>, table: seq<ThresholdRow>, cache: map<string, Thresholds>, req: Request)
    requires AuthHeader(req.headers).Some?
    ensures var once := SetThreshold(user, table, cache, req, false, false);
      SetThreshold(user, once.table, once.cache, req, false, false) == once
  {
    if SetThreshold(user, table, cache, req, false, false).response == Done {
      RepeatAfterDone(user, table, cache, req);
    }
  }

  /** Under sequential requests a user never gets a second row. */
  lemma SetThresholdKeepsRowsUnique(
    user: map<string, Session>, table: seq<ThresholdRow>, cache: map<string, Thresholds>,
    req: Request, selectFails: bool, writeFails: bool)
    requires AuthHeader(req.headers).Some?
    requires ThresholdRowsUnique(table)
    ensures ThresholdRowsUnique(SetThreshold(user, table, cache, req, selectFails, writeFails).table)
  {
    var o := SetThreshold(user, table, cache, req, selectFails, writeFails);
    if o.response == Done && |o.table| == |table| + 1 {
      var userId := CurrentUser(user, req.headers).value.userId;
      forall r | r in table ensures r.userId != userId {
        assert ThresholdsOf(userId)(r) ==> r in Where(table, ThresholdsOf(userId));
      }
      assert o.table == table + [RowOf(userId, ParseInput(req.body).value)];
    }
  }

  /** The handler: the cache is written only after the durable write
      succeeded; every failure leaves both as they were. */
  method Handler(req: Request, state: StateStore, db: Database, selectFails: bool, writeFails: bool)
    returns (res: Response)
    requires AuthHeader(req.headers).Some?
    modifies state, db
    ensures var o := SetThreshold(
        old(state.user), old(db.alert_thresholds), old(state.thresholds), req, selectFails, writeFails);
      res == o.response && db.alert_thresholds == o.table && state.thresholds == o.cache
    ensures state.user == old(state.user)
    ensures db.servers == old(db.servers) && db.server_metrics == old(db.server_metrics)
  {
    var result := ParseInput(req.body);
    if result.None? {
      return Reply(400, Error("Invalid input"));
    }
    var t := result.value;
    var token := BearerToken(AuthHeader(req.headers).value);
    if token.None? || token.value !in state.user {
      return Reply(401, Error("Unauthorized"));
    }
    var currentUser := state.user[token.value];
    var existingUser := MaybeSingle(Where(db.alert_thresholds, ThresholdsOf(currentUser.userId)), selectFails);
    if existingUser.QueryError? {
      return Failed;
    }
    if existingUser.OneRow? {
      var error := db.UpdateThresholds(
        currentUser.userId, t.cpuThreshold, t.memoryThreshold, t.diskThreshold, writeFails);
      if error {
        return Failed;
      }
    } else {
      var error := db.InsertThreshold(RowOf(currentUser.userId, t), writeFails);
      if error {
        return Failed;
      }
    }
    state.SetThresholds(currentUser.userId, t);
    return Done;
  }
}
