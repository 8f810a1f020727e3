/** `sendEmail`: renders the alert body from the metrics it is given and
    hands the message to the transport, swallowing transport errors. */
module MailService {
  import opened Json
  import opened Model

  /** The metrics argument; every field may be left undefined. */
  datatype PassedMetrics = PassedMetrics(
    hostname: Option<string>, cpu: Option<real>, memory: Option<real>, disk: Option<real>)

  /** One `<li>` of the rendered list. */
  datatype AlertItem =
    | HostnameItem(hostname: string)
    | CpuItem(cpu: real)
    | MemoryItem(memory: real)
    | DiskItem(disk: real)

  /** Position of each kind of item in the template. */
  function Rank(item: AlertItem): nat
  {
    match item
    case HostnameItem(_) => 0
    case CpuItem(_) => 1
    case MemoryItem(_) => 2
    case DiskItem(_) => 3
  }

  /** Whether the template renders `item` for `m`: the hostname when it is
      truthy (defined and non-empty), each number when it is not undefined. */
  predicate Renders(m: PassedMetrics, item: AlertItem)
  {
    match item
    case HostnameItem(h) => m.hostname == Some(h) && h != ""
    case CpuItem(x) => m.cpu == Some(x)
    case MemoryItem(x) => m.memory == Some(x)
    case DiskItem(x) => m.disk == Some(x)
  }

  /** The list items of the alert, in template order. */
  function AlertItems(m: PassedMetrics): (items: seq<AlertItem>)
    ensures forall item :: item in items <==> Renders(m, item)
    ensures forall i, j :: 0 <= i < j < |items| ==> Rank(items[i]) < Rank(items[j])
  {
    (if m.hostname.Some? && m.hostname.value != "" then [HostnameItem(m.hostname.value)] else [])
    + (if m.cpu.Some? then [CpuItem(m.cpu.value)] else [])
    + (if m.memory.Some? then [MemoryItem(m.memory.value)] else [])
    + (if m.disk.Some? then [DiskItem(m.disk.value)] else [])
  }

  function ItemHtml(item: AlertItem, show: real -> string): string
  {
    match item
    case HostnameItem(h) => "<li><strong>Hostname:</strong> " + h + "</li>"
    case CpuItem(x) => "<li><strong>CPU Usage:</strong> " + show(x) + "%</li>"
    case MemoryItem(x) => "<li><strong>Memory Usage:</strong> " + show(x) + "%</li>"
    case DiskItem(x) => "<li><strong>Disk Usage:</strong> " + show(x) + "%</li>"
  }

  function ItemsHtml(items: seq<AlertItem>, show: real -> string): string
    decreases |items|
  {
    if items == [] then "" else ItemHtml(items[0], show) + ItemsHtml(items[1..], show)
  }

  const Heading := "<h1>Monitoring Alert from Green Servers</h1>"
    + "<p>The following metrics have exceeded your defined thresholds:</p><ul>"
  const Closing := "</ul><p>Please take the necessary actions to address these issues.</p>"

  /** The rendered body; `show` is JavaScript's number-to-text conversion.
      The heading opens it, the closing paragraph ends it, and between them
      stand the list items of `AlertItems`, in order. */
  function HtmlContent(m: PassedMetrics, show: real -> string): (html: string)
    ensures exists items :: html == Heading + items + Closing
    ensures AlertItems(m) == [] ==> html == Heading + Closing
  {
    var items := ItemsHtml(AlertItems(m), show);
    Heading + items + Closing
  }

  const Sender := "Acme <onboarding@resend.dev>"
  const DefaultSubject := "Monitoring Alert"

  /** The message `sendEmail` hands to the transport. */
  function AlertEmail(to: string, subject: Option<string>, metrics: PassedMetrics, show: real -> string): (e: Email)
    ensures e.to == [to]
    ensures subject.Some? ==> e.subject == subject.value
    ensures subject.None? ==> e.subject == DefaultSubject
  {
    Email(Sender, [to], if subject.Some? then subject.value else DefaultSubject, HtmlContent(metrics, show))
  }

  /** `sendEmail(to, subject, html, metrics)`. The `html` argument is not
      used. A transport failure is caught: nothing is sent and the call
      still returns normally. */
  method SendEmail(
    box: Mailbox, to: string, subject: Option<string>, html: string, metrics: PassedMetrics,
    show: real -> string, transportFails: bool)
    modifies box
    ensures box.sent == old(box.sent) + if transportFails then [] else [AlertEmail(to, subject, metrics, show)]
  {
    var email := AlertEmail(to, subject, metrics, show);
    var error := box.Send(email, transportFails);
    // a transport error is only logged
  }
}
