/** `sendAlertEmail` (Server/utils/emailService.js): composes the alert
    message for a list of detected threats and reports whether the mail
    transport accepted it. The transport's answer and the sender account are
    parameters. */
module AlertEmail {
  import opened Js
  import opened Text

  /** A detected threat; `percent` is the confidence already rounded to a
      whole percentage. */
  datatype Threat = Threat(kind: string, percent: nat)

  /** The detection data passed in: both fields may be missing. */
  datatype DetectionData = DetectionData(threatDetections: Option<seq<Threat>>, operatorName: Option<string>)

  datatype Mail = Mail(from: string, to: string, subject: string, html: string)

  /** What the transport's `sendMail` did: resolved, or threw. */
  datatype TransportOutcome = Delivered(messageId: string) | TransportFailed(message: string)

  const DefaultOperator := "Operator"
  const SubjectPrefix := "\U{1F6A8} CRITICAL ALERT: Underwater Threat Detected ("
  const SubjectSuffix := " items)"
  const FallbackItem := "<li>No specific items listed. Please check system logs.</li>"
  const ItemOpen := "<li>\U{1F534} <b>"
  const ItemMiddle := "</b> detected (Confidence: "
  const ItemClose := "%)</li>"
  const HtmlHead := "<div><h2>IMMEDIATE ACTION REQUIRED</h2><p>Dear "
  const HtmlLead := ",</p><p>The DeepVision AI system has flagged a critical security event:</p><h3>Detection Summary:</h3><ul>"
  const HtmlTail := "</ul><p><b>Recommended Action:</b> Please log into the Sentinel View Dashboard immediately for live coordinates and visual confirmation.</p><p>This is an automated system alert.</p></div>"

  /** `detectionData.threat_detections || []`. */
  function Threats(d: DetectionData): (ts: seq<Threat>)
    ensures d.threatDetections.None? ==> ts == []
    ensures d.threatDetections.Some? ==> ts == d.threatDetections.value
  {
    match d.threatDetections
    case Some(ts) => ts
    case None => []
  }

  /** `detectionData.operatorName || 'Operator'`. */
  function OperatorName(d: DetectionData): (name: string)
    ensures name != []
    ensures Truthy(d.operatorName) ==> name == d.operatorName.value
    ensures !Truthy(d.operatorName) ==> name == DefaultOperator
  {
    Or(d.operatorName, DefaultOperator)
  }

  /** The list item of one threat: its type in bold and its percentage. */
  function ThreatItem(t: Threat): (item: string)
    ensures StartsWith(item, "<li>") && |item| > 4
  {
    ItemOpen + t.kind + ItemMiddle + Decimal(t.percent) + ItemClose
  }

  /** `threats.map(...)`: one item per threat, in input order. */
  function Items(ts: seq<Threat>): (items: seq<string>)
    ensures |items| == |ts|
    ensures forall i :: 0 <= i < |ts| ==> items[i] == ThreatItem(ts[i])
  {
    seq(|ts|, i requires 0 <= i < |ts| => ThreatItem(ts[i]))
  }

  /** `Array.prototype.join('')`. */
  function Join(parts: seq<string>): string
  {
    if parts == [] then "" else Join(parts[..|parts| - 1]) + parts[|parts| - 1]
  }

  /** The items of all threats joined with no separator. */
  function ThreatList(ts: seq<Threat>): string
  {
    Join(Items(ts))
  }

  /** The list body: the joined items, or the single fallback item when they
      are empty. */
  function ListBody(ts: seq<Threat>): (body: string)
    ensures ts == [] ==> body == FallbackItem
    ensures ts != [] ==> body == ThreatList(ts)
  {
    var items := ThreatList(ts);
    ThreatListEmpty(ts);
    if |items| > 0 then items else FallbackItem
  }

  function Subject(count: nat): (s: string)
  {
    SubjectPrefix + Decimal(count) + SubjectSuffix
  }

  /** The message body; its inline styles and indentation are left out, its
      text and structure are kept. */
  function Html(operatorName: string, ts: seq<Threat>): string
  {
    HtmlHead + operatorName + HtmlLead + ListBody(ts) + HtmlTail
  }

  /** The message, addressed to the recipient, from the configured account,
      counting the threats in its subject. */
  function ComposeAlert(recipientEmail: string, d: DetectionData, serviceUser: string): (m: Mail)
    ensures m.to == recipientEmail
    ensures m.from == "DeepVision Sentinel <" + serviceUser + ">"
    ensures m.subject == Subject(|Threats(d)|)
    ensures m.html == Html(OperatorName(d), Threats(d))
  {
    Mail("DeepVision Sentinel <" + serviceUser + ">", recipientEmail, Subject(|Threats(d)|), Html(OperatorName(d), Threats(d)))
  }

  /** The result of sending: true exactly when the transport accepted the
      message; a transport failure is reported as false, never raised. */
  function SendAlertEmail(recipientEmail: string, d: DetectionData, serviceUser: string, transport: TransportOutcome): (x: (Mail, bool))
    ensures x.0 == ComposeAlert(recipientEmail, d, serviceUser)
    ensures x.1 <==> transport.Delivered?
  {
    (ComposeAlert(recipientEmail, d, serviceUser), transport.Delivered?)
  }

  lemma {:induction false} JoinEmpty(parts: seq<string>)
    ensures |Join(parts)| == 0 <==> forall i :: 0 <= i < |parts| ==> parts[i] == ""
  {
    if parts != [] {
      JoinEmpty(parts[..|parts| - 1]);
    }
  }

  lemma {:induction false} JoinConcat(a: seq<string>, b: seq<string>)
    ensures Join(a + b) == Join(a) + Join(b)
  {
    if b == [] {
      assert a + b == a;
    } else {
      var ab, front := a + b, b[..|b| - 1];
      assert ab[..|ab| - 1] == a + front;
      assert ab[|ab| - 1] == b[|b| - 1];
      JoinConcat(a, front);
      assert Join(ab) == Join(a + front) + b[|b| - 1];
    }
  }

  /** The joined items are empty exactly when there are no threats, so the
      fallback item appears exactly for an empty list. */
  lemma {:induction false} ThreatListEmpty(ts: seq<Threat>)
    ensures |ThreatList(ts)| == 0 <==> ts == []
  {
    JoinEmpty(Items(ts));
    if ts != [] {
      assert Items(ts)[0] != "";
    }
  }

  /** In input order, one item per threat: the list is the items of the
      threats before `i`, then the item of threat `i`, then the items of the
      threats after it. */
  lemma {:induction false} ThreatListAt(ts: seq<Threat>, i: nat)
    requires i < |ts|
    ensures ThreatList(ts) == ThreatList(ts[..i]) + ThreatItem(ts[i]) + ThreatList(ts[i + 1..])
  {
    var items := Items(ts);
    assert items == Items(ts[..i]) + [ThreatItem(ts[i])] + Items(ts[i + 1..]);
    JoinConcat(Items(ts[..i]) + [ThreatItem(ts[i])], Items(ts[i + 1..]));
    JoinConcat(Items(ts[..i]), [ThreatItem(ts[i])]);
    assert Join([ThreatItem(ts[i])]) == ThreatItem(ts[i]) by {
      assert [ThreatItem(ts[i])][..0] == [];
    }
  }

  /** The subject names the count: reading the digits between its fixed
      prefix and suffix gives back the number of threats. */
  lemma {:induction false} SubjectCount(d: DetectionData)
    ensures var s := ComposeAlert("", d, "").subject;
      && |s| > |SubjectPrefix| + |SubjectSuffix|
      && (forall k :: |SubjectPrefix| <= k < |s| - |SubjectSuffix| ==> IsDigit(s[k]))
      && DecimalValue(s[|SubjectPrefix|..|s| - |SubjectSuffix|]) == |Threats(d)|
  {
    var n := |Threats(d)|;
    var s := Subject(n);
    assert s[|SubjectPrefix|..|s| - |SubjectSuffix|] == Decimal(n);
    DecimalRoundTrip(n);
  }

  /** A threat's item reads back to the threat: the type in bold right
      after the item's opening, then the fixed middle text, then digits that
      give back the percentage, and the item closes with `%)</li>`. */
  lemma {:induction false} ThreatItemShows(t: Threat)
    ensures var item := ThreatItem(t);
      var start := |ItemOpen| + |t.kind| + |ItemMiddle|;
      && |item| > start + |ItemClose|
      && item[..|ItemOpen|] == ItemOpen
      && item[|ItemOpen|..|ItemOpen| + |t.kind|] == t.kind
      && item[|ItemOpen| + |t.kind|..start] == ItemMiddle
      && item[|item| - |ItemClose|..] == ItemClose
      && (forall k :: start <= k < |item| - |ItemClose| ==> IsDigit(item[k]))
      && DecimalValue(item[start..|item| - |ItemClose|]) == t.percent
  {
    var item := ThreatItem(t);
    var start := |ItemOpen| + |t.kind| + |ItemMiddle|;
    assert item[start..|item| - |ItemClose|] == Decimal(t.percent);
    DecimalRoundTrip(t.percent);
  }
}
