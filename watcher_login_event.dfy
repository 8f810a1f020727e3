/** The server registrar, subscribed to `watcher.login.attempt`: a
    check-then-insert that adds a `servers` row for (id, hostname) when the
    lookup does not return one. */
module WatcherLoginEvent {
  import opened Json
  import opened Model

  /** The refinements `watcherLoginEventSchema` puts on a well-typed event. */
  predicate Valid(fmt: Formats, d: WatcherLoginData)
  {
    fmt.isUuid(d.id) && |d.hostname| >= 3
  }

  /** `watcherLoginEventSchema.safeParse(event)`. */
  function Parse(fmt: Formats, event: Json): (r: Option<WatcherLoginData>)
    ensures r.Some? ==> Valid(fmt, r.value)
    ensures r.Some? ==>
      && StringField(event, "id") == Some(r.value.id)
      && StringField(event, "hostname") == Some(r.value.hostname)
      && BoolField(event, "success") == Some(r.value.success)
      && OptionalStringField(event, "timestamp") == Some(r.value.timestamp)
    ensures BoolField(event, "success").None? ==> r.None?
  {
    match (StringField(event, "id"), StringField(event, "hostname"), BoolField(event, "success"),
           OptionalStringField(event, "timestamp"))
    case (Some(id), Some(hostname), Some(success), Some(timestamp)) =>
      var d := WatcherLoginData(id, hostname, success, timestamp);
      if Valid(fmt, d) then Some(d) else None
    case _ => None
  }

  /** An emitted `watcher.login.attempt` payload passes the schema exactly
      when its values meet the refinements, and parses back to itself. */
  lemma ParsePayload(fmt: Formats, d: WatcherLoginData)
    ensures Parse(fmt, Payload(WatcherLoginAttempt(d))) == if Valid(fmt, d) then Some(d) else None
  {
  }

  /** The row the registrar inserts; `id` is assigned by the database. */
  function NewServer(newId: string, d: WatcherLoginData): ServerRow
  {
    ServerRow(newId, d.id, d.hostname)
  }

  /** The handler's effect on `servers`; `lookupFails` and `insertFails` are
      the outcomes of the two database calls, `newId` the id the database
      assigns. A failed lookup is not checked: the insert is still tried. */
  function Register(
    fmt: Formats, servers: seq<ServerRow>, event: Json, lookupFails: bool, insertFails: bool, newId: string)
    : (r: seq<ServerRow>)
    ensures r == servers || (Parse(fmt, event).Some? && r == servers + [NewServer(newId, Parse(fmt, event).value)])
    ensures Parse(fmt, event).None? || insertFails ==> r == servers
    ensures
      (&& Parse(fmt, event).Some? && !lookupFails
       && |Where(servers, Named(Parse(fmt, event).value.id, Parse(fmt, event).value.hostname))| == 1)
      ==> r == servers
    ensures
      (&& Parse(fmt, event).Some? && !insertFails
       && (lookupFails || |Where(servers, Named(Parse(fmt, event).value.id, Parse(fmt, event).value.hostname))| != 1))
      ==> r == servers + [NewServer(newId, Parse(fmt, event).value)]
  {
    match Parse(fmt, event)
    case None => servers
    case Some(d) =>
      var existingData := MaybeSingle(Where(servers, Named(d.id, d.hostname)), lookupFails);
      if existingData.OneRow? then servers
      else if insertFails then servers
      else servers + [NewServer(newId, d)]
  }

  /** When the lookup answers, the registrar never creates a second row for
      a (userId, server_name) pair. */
  lemma RegisterKeepsUnique(
    fmt: Formats, servers: seq<ServerRow>, event: Json, insertFails: bool, newId: string)
    requires ServersUnique(servers)
    ensures ServersUnique(Register(fmt, servers, event, false, insertFails, newId))
  {
    var r := Register(fmt, servers, event, false, insertFails, newId);
    if r != servers {
      var d := Parse(fmt, event).value;
      UniqueAtMostOne(servers, d.id, d.hostname);
      assert Where(servers, Named(d.id, d.hostname)) == [];
      forall s | s in servers ensures s.userId != d.id || s.server_name != d.hostname {
        assert Named(d.id, d.hostname)(s) ==> s in Where(servers, Named(d.id, d.hostname));
      }
      assert forall i :: 0 <= i < |servers| ==> servers[i] in servers;
    }
  }

  /** After a valid event is handled with both database calls succeeding,
      `servers` holds exactly one row for the event's (id, hostname). */
  lemma RegisterOneRow(fmt: Formats, servers: seq<ServerRow>, event: Json, newId: string)
    requires ServersUnique(servers)
    requires Parse(fmt, event).Some?
    ensures var d := Parse(fmt, event).value;
      |Where(Register(fmt, servers, event, false, false, newId), Named(d.id, d.hostname))| == 1
  {
    var d := Parse(fmt, event).value;
    UniqueAtMostOne(servers, d.id, d.hostname);
    if Where(servers, Named(d.id, d.hostname)) == [] {
      WhereAppend(servers, [NewServer(newId, d)], Named(d.id, d.hostname));
      assert Where([NewServer(newId, d)], Named(d.id, d.hostname)) == [NewServer(newId, d)];
    }
  }

  /** Handling the same event a second time, after a first handling whose
      lookup and insert succeeded, leaves `servers` as the first left it. */
  lemma RegisterIdempotent(
    fmt: Formats, servers: seq<ServerRow>, event: Json, newId: string, insertFails: bool, otherId: string)
    requires ServersUnique(servers)
    ensures var once := Register(fmt, servers, event, false, false, newId);
      Register(fmt, once, event, false, insertFails, otherId) == once
  {
    if Parse(fmt, event).Some? {
      RegisterOneRow(fmt, servers, event, newId);
    }
  }

  /** A failed lookup lets a duplicate in: with the row already present, the
      insert still goes ahead. */
  lemma LookupErrorDuplicates(newId: string)
    ensures var fmt := Formats(s => true, s => true);
      var servers := [ServerRow("s1", "u1", "web-1")];
      var event := Payload(WatcherLoginAttempt(WatcherLoginData("u1", "web-1", true, None)));
      ServersUnique(servers) && !ServersUnique(Register(fmt, servers, event, true, false, newId))
  {
    var fmt := Formats(s => true, s => true);
    var d := WatcherLoginData("u1", "web-1", true, None);
    ParsePayload(fmt, d);
    var r := Register(fmt, [ServerRow("s1", "u1", "web-1")], Payload(WatcherLoginAttempt(d)), true, false, newId);
    assert r[0].userId == r[1].userId && r[0].server_name == r[1].server_name;
  }

  /** Once a host has two or more rows, `maybeSingle` errors on every later
      lookup, so each later login with a working insert adds one more row. */
  lemma DuplicatesKeepGrowing(fmt: Formats, servers: seq<ServerRow>, event: Json, newId: string)
    requires Parse(fmt, event).Some?
    requires var d := Parse(fmt, event).value; |Where(servers, Named(d.id, d.hostname))| >= 2
    ensures var d := Parse(fmt, event).value;
      |Where(Register(fmt, servers, event, false, false, newId), Named(d.id, d.hostname))|
        == |Where(servers, Named(d.id, d.hostname))| + 1
  {
    var d := Parse(fmt, event).value;
    WhereAppend(servers, [NewServer(newId, d)], Named(d.id, d.hostname));
    assert Where([NewServer(newId, d)], Named(d.id, d.hostname)) == [NewServer(newId, d)];
  }

  /** The `success` flag plays no part in whether a row is inserted. */
  lemma SuccessIgnored(
    fmt: Formats, servers: seq<ServerRow>, d: WatcherLoginData,
    lookupFails: bool, insertFails: bool, newId: string)
    ensures Register(fmt, servers, Payload(WatcherLoginAttempt(d)), lookupFails, insertFails, newId)
         == Register(fmt, servers, Payload(WatcherLoginAttempt(d.(success := !d.success))), lookupFails, insertFails, newId)
  {
    ParsePayload(fmt, d);
    ParsePayload(fmt, d.(success := !d.success));
  }

  /** The handler: look up, and insert when nothing was found. An insert
      error is logged and the handler returns normally. */
  method Handler(fmt: Formats, event: Json, db: Database, lookupFails: bool, insertFails: bool, newId: string)
    modifies db
    ensures db.servers == Register(fmt, old(db.servers), event, lookupFails, insertFails, newId)
    ensures db.server_metrics == old(db.server_metrics) && db.alert_thresholds == old(db.alert_thresholds)
    ensures old(ServersUnique(db.servers)) && !lookupFails ==> ServersUnique(db.servers)
  {
    if ServersUnique(db.servers) && !lookupFails {
      RegisterKeepsUnique(fmt, db.servers, event, insertFails, newId);
    }
    var result := Parse(fmt, event);
    if result.None? {
      return;  // invalid event data, logged
    }
    var d := result.value;
    var existingData := MaybeSingle(Where(db.servers, Named(d.id, d.hostname)), lookupFails);
    if existingData.OneRow? {
      return;  // server name already exists
    }
    var insertError := db.InsertServer(NewServer(newId, d), insertFails);
    if insertError {
      return;  // logged
    }
  }
}
