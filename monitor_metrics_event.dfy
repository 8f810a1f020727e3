/** The threshold evaluator, subscribed to `metric.pushed`: it validates the
    event, reads the user's cached thresholds and session from the state
    store, and sends one combined alert when any metric strictly exceeds its
    threshold. */
module MonitorMetricsEvent {
  import opened Json
  import opened Model
  import MailService

  /** The refinements `monitorMetricsEventSchema` puts on a well-typed event. */
  predicate Valid(fmt: Formats, d: MetricPushedData)
  {
    fmt.isUuid(d.userId) && |d.hostname| >= 3 &&
    IsPercentage(d.currentCpu) && IsPercentage(d.currentMemory) && IsPercentage(d.currentDisk)
  }

  /** `monitorMetricsEventSchema.safeParse(event)`. */
  function Parse(fmt: Formats, event: Json): (r: Option<MetricPushedData>)
    ensures r.Some? ==> Valid(fmt, r.value)
    ensures r.Some? ==>
      && StringField(event, "userId") == Some(r.value.userId)
      && StringField(event, "hostname") == Some(r.value.hostname)
      && StringField(event, "authToken") == Some(r.value.authToken)
      && NumberField(event, "currentCpu") == Some(r.value.currentCpu)
      && NumberField(event, "currentMemory") == Some(r.value.currentMemory)
      && NumberField(event, "currentDisk") == Some(r.value.currentDisk)
  {
    match (StringField(event, "userId"), StringField(event, "hostname"), StringField(event, "authToken"),
           NumberField(event, "currentCpu"), NumberField(event, "currentMemory"), NumberField(event, "currentDisk"))
    case (Some(userId), Some(hostname), Some(authToken), Some(cpu), Some(memory), Some(disk)) =>
      var d := MetricPushedData(userId, hostname, authToken, cpu, memory, disk);
      if Valid(fmt, d) then Some(d) else None
    case _ => None
  }

  /** An emitted `metric.pushed` payload passes the schema exactly when its
      values meet the refinements, and parses back to itself. */
  lemma ParsePayload(fmt: Formats, d: MetricPushedData)
    ensures Parse(fmt, Payload(MetricPushed(d))) == if Valid(fmt, d) then Some(d) else None
  {
  }

  /** A threshold breach: some metric strictly above its threshold. */
  predicate Exceeds(d: MetricPushedData, t: Thresholds)
  {
    d.currentCpu > t.cpuThreshold || d.currentMemory > t.memoryThreshold || d.currentDisk > t.diskThreshold
  }

  const AlertSubject := "Monitoring Alert from Green Servers"

  /** The arguments of one `sendEmail` call. */
  datatype EmailCall = EmailCall(to: string, subject: string, html: string, metrics: MailService.PassedMetrics)

  /** The handler's decision for one event: the `sendEmail` call it makes, or
      none. `thresholds` and `user` are the two namespaces of the state store. */
  function Evaluate(
    fmt: Formats, event: Json, thresholds: map<string, Thresholds>, user: map<string, Session>)
    : (call: Option<EmailCall>)
    ensures call.Some? <==>
      Parse(fmt, event).Some? &&
      Parse(fmt, event).value.userId in thresholds &&
      Parse(fmt, event).value.authToken in user &&
      Exceeds(Parse(fmt, event).value, thresholds[Parse(fmt, event).value.userId])
    ensures call.Some? ==>
      var d := Parse(fmt, event).value;
      call.value.to == user[d.authToken].email &&
      call.value.subject == AlertSubject &&
      call.value.metrics == MailService.PassedMetrics(
        Some(d.hostname), Some(d.currentCpu), Some(d.currentMemory), Some(d.currentDisk))
  {
    match Parse(fmt, event)
    case None => None
    case Some(d) =>
      if d.userId !in thresholds then None
      else if d.authToken !in user then None
      else
        var t := thresholds[d.userId];
        if Exceeds(d, t) then
          Some(EmailCall(user[d.authToken].email, AlertSubject, "",
            MailService.PassedMetrics(Some(d.hostname), Some(d.currentCpu), Some(d.currentMemory), Some(d.currentDisk))))
        else None
  }

  /** Equality with every threshold is not a breach. */
  lemma AtThresholdNoAlert(fmt: Formats, d: MetricPushedData, thresholds: map<string, Thresholds>, user: map<string, Session>)
    requires d.userId in thresholds
    requires d.currentCpu == thresholds[d.userId].cpuThreshold
    requires d.currentMemory == thresholds[d.userId].memoryThreshold
    requires d.currentDisk == thresholds[d.userId].diskThreshold
    ensures Evaluate(fmt, Payload(MetricPushed(d)), thresholds, user).None?
  {
    ParsePayload(fmt, d);
  }

  /** The handler: reads the store (never writes it) and sends at most one
      e-mail through `sendEmail`. */
  method Handler(
    fmt: Formats, event: Json, state: StateStore, box: Mailbox,
    show: real -> string, transportFails: bool)
    modifies box
    ensures var call := Evaluate(fmt, event, state.thresholds, state.user);
      box.sent == old(box.sent) +
        if call.None? || transportFails then []
        else [MailService.AlertEmail(call.value.to, Some(call.value.subject), call.value.metrics, show)]
  {
    var result := Parse(fmt, event);
    if result.None? {
      return;  // invalid event data, logged
    }
    var d := result.value;
    if d.userId !in state.thresholds {
      return;  // no thresholds set for the user
    }
    var userThresholds := state.thresholds[d.userId];
    if d.authToken !in state.user {
      return;  // no session for the token
    }
    var currentUser := state.user[d.authToken];
    if d.currentCpu > userThresholds.cpuThreshold
      || d.currentMemory > userThresholds.memoryThreshold
      || d.currentDisk > userThresholds.diskThreshold
    {
      MailService.SendEmail(box, currentUser.email, Some(AlertSubject), "",
        MailService.PassedMetrics(Some(d.hostname), Some(d.currentCpu), Some(d.currentMemory), Some(d.currentDisk)),
        show, transportFails);
    }
  }
}
