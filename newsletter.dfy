/**
 * The weekly newsletter: the HTML page greeting the user and reporting the
 * number of log entries, the SMTP credential check and transport choice, and
 * the status record returned to the caller. The SMTP session itself is the
 * parameter `smtp`, which says whether delivering succeeded without raising.
 */
module Newsletter {
  import opened Base
  import PyText

  const PageHead := "\n    <!DOCTYPE html>\n    <html>\n    <head>\n        <title>Your Life Tracker Update</title>\n    </head>\n    <body>\n        <div style=\"font-family: Arial, sans-serif; max-width: 600px; margin: auto; padding: 20px; border: 1px solid #ddd; border-radius: 10px;\">\n            <h2>Hello "
  const PageMiddle := ",</h2>\n            <p>Here is your weekly summary from Life Tracker:</p>\n            <h3>Your Activity</h3>\n            <p>"
  const PageTail := "</p>\n            <p>This is a simplified newsletter. More features coming soon!</p>\n            <br>\n            <p>Best,</p>\n            <p>The Life Tracker Team</p>\n        </div>\n    </body>\n    </html>\n    "
  const InsightPrefix := "You've made "
  const InsightSuffix := " log entries so far. Keep up the great work!"
  const SubjectPrefix := "Your Life Tracker Weekly Summary - "
  const SslPort := 465
  const MissingSenderMessage := "NEWSLETTER_SENDER_EMAIL environment variable not set."

  /** The five SMTP settings read from the environment; None for an unset variable. */
  datatype Credentials = Credentials(
    smtpHost: Option<string>, smtpPort: Option<string>, smtpUser: Option<string>,
    smtpPassword: Option<string>, senderEmail: Option<string>)

  /** All five settings are set and non-empty. */
  predicate Complete(c: Credentials)
  {
    Truthy(c.smtpHost) && Truthy(c.smtpPort) && Truthy(c.smtpUser) && Truthy(c.smtpPassword) && Truthy(c.senderEmail)
  }

  /** What escapes the newsletter code: `split()[0]` of a name made only of whitespace. */
  datatype Raised = IndexError

  // ---------------------------------------------------------------- the page

  /**
   * The name in the greeting: the first word of a non-empty user name, or the
   * part of the email before its first '@' when the name is empty.
   */
  function GreetingName(userEmail: string, userName: string): (r: Result<string, Raised>)
    ensures userName == "" ==> r == Success(PyText.BeforeFirst(userEmail, '@'))
    ensures userName != "" ==> (r.Failure? <==> forall i :: 0 <= i < |userName| ==> PyText.IsSpace(userName[i]))
    ensures userName != "" && r.Success? ==> exists k :: PyText.FirstWordAt(userName, k, r.value)
  {
    if userName != "" then
      match PyText.FirstWord(userName)
      case Some(w) => Success(w)
      case None => Failure(IndexError)
    else
      Success(PyText.BeforeFirst(userEmail, '@'))
  }

  /** The activity sentence for `numLogs` log entries. */
  function Insight(numLogs: nat): (r: string)
    ensures |InsightPrefix| + |InsightSuffix| < |r|
    ensures r[..|InsightPrefix|] == InsightPrefix && r[|r| - |InsightSuffix|..] == InsightSuffix
    ensures PyText.AllDigits(r[|InsightPrefix|..|r| - |InsightSuffix|])
    ensures PyText.DigitsValue(r[|InsightPrefix|..|r| - |InsightSuffix|]) == numLogs
    ensures r[|InsightPrefix|] == '0' ==> numLogs == 0
  {
    var digits := PyText.NatToString(numLogs);
    var r := InsightPrefix + digits + InsightSuffix;
    assert r[|InsightPrefix|..|r| - |InsightSuffix|] == digits;
    assert r[|InsightPrefix|] == digits[0];
    r
  }

  /** The sentence determines the count it reports. */
  lemma InsightDeterminesCount(a: nat, b: nat)
    requires Insight(a) == Insight(b)
    ensures a == b
  {
    var s := Insight(a);
    var da, db := PyText.NatToString(a), PyText.NatToString(b);
    assert s[|InsightPrefix|..|s| - |InsightSuffix|] == da;
    assert Insight(b)[|InsightPrefix|..|Insight(b)| - |InsightSuffix|] == db;
    assert da == db;
  }

  /** The page: the fixed head, the greeting name, the fixed middle, the insight and the fixed tail, in that order. */
  function Page(greetingName: string, insight: string): (r: string)
    ensures |r| == |PageHead| + |greetingName| + |PageMiddle| + |insight| + |PageTail|
    ensures r[..|PageHead|] == PageHead
    ensures r[|PageHead|..|PageHead| + |greetingName|] == greetingName
    ensures var start := |PageHead| + |greetingName| + |PageMiddle|;
      r[start..start + |insight|] == insight && r[start + |insight|..] == PageTail
  {
    var r := PageHead + greetingName + PageMiddle + insight + PageTail;
    var start := |PageHead| + |greetingName| + |PageMiddle|;
    assert r[start..start + |insight|] == insight;
    r
  }

  /** Two pages with the same greeting are equal only when their activity sentences are. */
  lemma PageDeterminesInsight(greetingName: string, i1: string, i2: string)
    requires Page(greetingName, i1) == Page(greetingName, i2)
    ensures i1 == i2
  {
    var p1, p2 := Page(greetingName, i1), Page(greetingName, i2);
    var start := |PageHead + greetingName + PageMiddle|;
    assert p1[start..|p1| - |PageTail|] == i1;
    assert p2[start..|p2| - |PageTail|] == i2;
  }

  /**
   * `_generate_html_content`: the page greeting the user and reporting
   * `len(input_log)` entries; it raises where the greeting does.
   */
  function HtmlContent<T>(userEmail: string, userName: string, inputLog: seq<T>): (r: Result<string, Raised>)
    ensures r.Failure? <==> GreetingName(userEmail, userName).Failure?
    ensures r.Success? ==> r.value == Page(GreetingName(userEmail, userName).value, Insight(|inputLog|))
  {
    match GreetingName(userEmail, userName)
    case Failure(e) => Failure(e)
    case Success(greetingName) => Success(Page(greetingName, Insight(|inputLog|)))
  }

  /** The page reports exactly the number of log entries: pages for the same user differ when the counts do. */
  lemma HtmlContentReportsCount<T>(userEmail: string, userName: string, logA: seq<T>, logB: seq<T>)
    requires HtmlContent(userEmail, userName, logA).Success?
    requires HtmlContent(userEmail, userName, logA) == HtmlContent(userEmail, userName, logB)
    ensures |logA| == |logB|
  {
    var g := GreetingName(userEmail, userName).value;
    PageDeterminesInsight(g, Insight(|logA|), Insight(|logB|));
    InsightDeterminesCount(|logA|, |logB|);
  }

  // ---------------------------------------------------------------- sending

  /** SMTP over implicit TLS, or plain SMTP upgraded with STARTTLS. */
  datatype Transport = SmtpSsl | SmtpStartTls

  /** The MIME message: From, To, Subject and the HTML alternative. */
  datatype Message = Message(from: string, to: string, subject: string, html: string)

  /** Everything the SMTP session is given. */
  datatype Delivery = Delivery(
    transport: Transport, host: string, port: int, user: string, password: string,
    sender: string, recipient: string, message: Message)

  /** What `_send_email` decides before talking to a server. */
  datatype SendPlan = Incomplete | PortNotInteger | Deliver(delivery: Delivery)

  /**
   * The decision of `_send_email`: give up on incomplete credentials, fail on
   * a port that `int()` rejects, else deliver over implicit TLS on port 465
   * and over STARTTLS on every other port.
   */
  function PlanSend(subject: string, htmlBody: string, toEmail: string, creds: Credentials): (p: SendPlan)
    ensures p.Incomplete? <==> !Complete(creds)
    ensures p.PortNotInteger? <==> Complete(creds) && PyText.ParseInt(creds.smtpPort.value).None?
    ensures p.Deliver? ==>
      var d := p.delivery;
      && PyText.ParseInt(creds.smtpPort.value) == Some(d.port)
      && (d.transport == SmtpSsl <==> d.port == SslPort)
      && d.host == creds.smtpHost.value && d.user == creds.smtpUser.value
      && d.password == creds.smtpPassword.value && d.sender == creds.senderEmail.value
      && d.recipient == toEmail
      && d.message == Message("Life Tracker Newsletter <" + creds.senderEmail.value + ">", toEmail, subject, htmlBody)
  {
    if !Complete(creds) then Incomplete
    else
      var message := Message("Life Tracker Newsletter <" + creds.senderEmail.value + ">", toEmail, subject, htmlBody);
      match PyText.ParseInt(creds.smtpPort.value)
      case None => PortNotInteger
      case Some(port) =>
        var transport := if port == SslPort then SmtpSsl else SmtpStartTls;
        Deliver(Delivery(transport, creds.smtpHost.value, port, creds.smtpUser.value, creds.smtpPassword.value,
                         creds.senderEmail.value, toEmail, message))
  }

  /**
   * `_send_email`: True exactly when the credentials are complete, the port is
   * an integer and the SMTP session completes; every failure is False.
   */
  function SendEmail(subject: string, htmlBody: string, toEmail: string, creds: Credentials,
                     smtp: Delivery -> bool): (sent: bool)
    ensures !Complete(creds) ==> !sent
    ensures sent <==> PlanSend(subject, htmlBody, toEmail, creds).Deliver? && smtp(PlanSend(subject, htmlBody, toEmail, creds).delivery)
  {
    match PlanSend(subject, htmlBody, toEmail, creds)
    case Deliver(delivery) => smtp(delivery)
    case _ => false
  }

  /** The port decides the transport: 465 is implicit TLS and any other integer port is STARTTLS. */
  lemma PortChoosesTransport(subject: string, htmlBody: string, toEmail: string, creds: Credentials, port: int)
    requires Complete(creds) && PyText.ParseInt(creds.smtpPort.value) == Some(port)
    ensures PlanSend(subject, htmlBody, toEmail, creds).Deliver?
    ensures PlanSend(subject, htmlBody, toEmail, creds).delivery.transport == if port == 465 then SmtpSsl else SmtpStartTls
  {
  }

  /**
   * A port that `int()` rejects never reaches a server: one led by U+001C..U+001F,
   * which `str.isspace` counts as whitespace but `int()` does not skip, gives False.
   */
  lemma SeparatorPortIsNotSent(subject: string, htmlBody: string, toEmail: string, creds: Credentials,
                               smtp: Delivery -> bool)
    requires Complete(creds) && '\U{1c}' <= creds.smtpPort.value[0] <= '\U{1f}'
    ensures PlanSend(subject, htmlBody, toEmail, creds) == PortNotInteger
    ensures !SendEmail(subject, htmlBody, toEmail, creds, smtp)
  {
    PyText.ParseIntRejectsSeparator(creds.smtpPort.value);
  }

  /**
   * A port of more than `PyText.MaxStrDigits` digits never reaches a server,
   * whatever number they denote: `int()` raises past the limit, and leading
   * zeros count towards it.
   */
  lemma OverlongPortIsNotSent(subject: string, htmlBody: string, toEmail: string, creds: Credentials,
                              smtp: Delivery -> bool)
    requires Complete(creds) && PyText.AllDigits(creds.smtpPort.value) && |creds.smtpPort.value| > PyText.MaxStrDigits
    ensures PlanSend(subject, htmlBody, toEmail, creds) == PortNotInteger
    ensures !SendEmail(subject, htmlBody, toEmail, creds, smtp)
  {
    var port := creds.smtpPort.value;
    assert [] + port + [] == port;
    PyText.ParseIntSkipsSpace([], port, []);
  }

  // ---------------------------------------------------------------- the public call

  /** The record returned to the caller, `{"status": ..., "message": ...}`. */
  datatype NewsletterResult = NewsletterResult(status: string, message: string)

  function Subject(today: string): (r: string)
    ensures PyText.StartsWith(r, SubjectPrefix) && r[|SubjectPrefix|..] == today
  {
    SubjectPrefix + today
  }

  /**
   * `send_newsletter_for_user`: without a sender address it reports an error
   * before building or sending anything; otherwise it builds the page and
   * reports success exactly when the email was sent, naming the recipient.
   * `today` is the formatted date of the subject line.
   */
  function SendNewsletterForUser<T>(userEmail: string, userName: string, inputLog: seq<T>, creds: Credentials,
                                    today: string, smtp: Delivery -> bool): (r: Result<NewsletterResult, Raised>)
    ensures !Truthy(creds.senderEmail) ==> r == Success(NewsletterResult("error", MissingSenderMessage))
    ensures Truthy(creds.senderEmail) ==> (r.Failure? <==> HtmlContent(userEmail, userName, inputLog).Failure?)
    ensures Truthy(creds.senderEmail) && r.Success? ==>
      var sent := SendEmail(Subject(today), HtmlContent(userEmail, userName, inputLog).value, userEmail, creds, smtp);
      && (r.value.status == "success" <==> sent)
      && r.value.message == if sent then "Newsletter sent to " + userEmail + "." else "Failed to send newsletter to " + userEmail + "."
    ensures r.Success? ==> r.value.status == "success" || r.value.status == "error"
  {
    if !Truthy(creds.senderEmail) then Success(NewsletterResult("error", MissingSenderMessage))
    else
      match HtmlContent(userEmail, userName, inputLog)
      case Failure(e) => Failure(e)
      case Success(htmlContent) =>
        if SendEmail(Subject(today), htmlContent, userEmail, creds, smtp) then
          Success(NewsletterResult("success", "Newsletter sent to " + userEmail + "."))
        else
          Success(NewsletterResult("error", "Failed to send newsletter to " + userEmail + "."))
  }

  /**
   * Without a sender address the result depends on nothing else: neither the
   * name (so no page is built, and a whitespace-only name cannot raise) nor
   * the SMTP session (so nothing is sent).
   */
  lemma MissingSenderSkipsEverything<T>(userEmail: string, name1: string, name2: string, log1: seq<T>, log2: seq<T>,
                                        creds: Credentials, today: string, smtp1: Delivery -> bool, smtp2: Delivery -> bool)
    requires !Truthy(creds.senderEmail)
    ensures SendNewsletterForUser(userEmail, name1, log1, creds, today, smtp1) == SendNewsletterForUser(userEmail, name2, log2, creds, today, smtp2)
  {
  }
}
