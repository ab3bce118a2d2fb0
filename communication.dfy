/** The notification service: picks a message template by key, fills its `{{name}}`
    placeholders from the variables given, and records the message in the communication
    log as sent. */
module Communication {
  import opened Wrappers
  import opened Keys
  import opened Store
  import opened Text

  datatype Template = Template(subject: string, body: string)

  function P(key: string): string { Placeholder(key) }

  const TenantInvite := Template("Welcome to " + P("propertyName") + "!",
    "Hello " + P("tenantName") + ", you are invited to join the portal for " + P("unitName") + ".")
  const InvoiceGenerated := Template("New Invoice Generated - " + P("month"),
    "Hello " + P("tenantName") + ", your invoice for " + P("month") + " has been generated. Amount: $" + P("invoiceAmount")
    + ". Due Date: " + P("dueDate") + ".")
  const PaymentSuccessful := Template("Payment Confirmation",
    "Hello " + P("tenantName") + ", we have received your payment of $" + P("invoiceAmount") + " for " + P("unitName") + ".")
  const InsuranceExpiring := Template("ACTION REQUIRED: Insurance Expiring Soon",
    "Hello " + P("tenantName") + ", your insurance policy for " + P("unitName") + " is set to expire on " + P("endDate")
    + ". Please upload a new policy.")
  const InsuranceExpired := Template("URGENT: Insurance Expired",
    "Hello " + P("tenantName") + ", your insurance policy has expired. Please upload valid coverage immediately.")
  const InsuranceApproved := Template("Insurance Approved",
    "Hello " + P("tenantName") + ", your insurance policy for " + P("unitName") + " has been approved.")
  const InsuranceRejected := Template("Insurance Rejected",
    "Hello " + P("tenantName") + ", your insurance policy was rejected. Reason: " + P("rejectionReason") + ".")

  const Templates: map<string, Template> := map[
    "TENANT_INVITE" := TenantInvite,
    "INVOICE_GENERATED" := InvoiceGenerated,
    "PAYMENT_SUCCESSFUL" := PaymentSuccessful,
    "INSURANCE_EXPIRING" := InsuranceExpiring,
    "INSURANCE_EXPIRED" := InsuranceExpired,
    "INSURANCE_APPROVED" := InsuranceApproved,
    "INSURANCE_REJECTED" := InsuranceRejected
  ]

  /** A variable's name and its value; None stands for a value that is missing or falsy. */
  type Variable = (string, Option<string>)

  /** The call's parameters. An omitted channel is 'Email'; an omitted related entity is
      null, stored as the empty string, and an omitted entity id is None. */
  datatype NotificationRequest = NotificationRequest(
    templateKey: string, recipientId: Option<Id>, recipientAddress: string, variables: seq<Variable>,
    channel: Option<string>, relatedEntity: string, entityId: Option<Id>)

  datatype CommError = TemplateNotFound

  function Placeholder(key: string): (p: string)
    ensures |p| > 0 && p[0] == '{'
  {
    "{{" + key + "}}"
  }

  /** The variables applied in order: each replaces every occurrence of its placeholder,
      and a falsy value replaces it with nothing. */
  function Fill(text: string, vars: seq<Variable>): string
    decreases |vars|
  {
    if vars == [] then text
    else Fill(ReplaceAll(text, Placeholder(vars[0].0), vars[0].1.GetOr("")), vars[1..])
  }

  function Content(subject: string, body: string): string {
    "Subject: " + subject + " | Body: " + body
  }

  /** sendNotification: an unknown template key throws and nothing is logged; otherwise
      one log row is appended, marked Sent. */
  function SendNotificationSpec(logs: seq<CommLog>, req: NotificationRequest): (r: (Result<CommLog, CommError>, seq<CommLog>))
    ensures r.0.Err? <==> req.templateKey !in Templates
    ensures r.0.Err? ==> r.1 == logs
    ensures r.0.Ok? ==> r.1 == logs + [r.0.value] && r.0.value.status == "Sent" && r.0.value.eventType == req.templateKey
    ensures r.0.Ok? ==> r.0.value.channel == (if req.channel.Some? then req.channel.value else "Email")
  {
    if req.templateKey !in Templates then (Err(TemplateNotFound), logs)
    else
      var t := Templates[req.templateKey];
      var log := CommLog(req.channel.GetOr("Email"), req.templateKey, req.recipientAddress, req.recipientId, req.relatedEntity,
                         req.entityId, Content(Fill(t.subject, req.variables), Fill(t.body, req.variables)), "Sent");
      (Ok(log), logs + [log])
  }

  method SendNotification(db: Database, req: NotificationRequest) returns (r: Result<CommLog, CommError>)
    modifies db`commLogs
    ensures (r, db.commLogs) == SendNotificationSpec(old(db.commLogs), req)
  {
    if req.templateKey !in Templates {
      return Err(TemplateNotFound);
    }
    var template := Templates[req.templateKey];
    var subject := template.subject;
    var body := template.body;
    var i := 0;
    while i < |req.variables|
      invariant 0 <= i <= |req.variables|
      invariant Fill(subject, req.variables[i..]) == Fill(template.subject, req.variables)
      invariant Fill(body, req.variables[i..]) == Fill(template.body, req.variables)
    {
      var (key, value) := req.variables[i];
      subject := ReplaceAll(subject, Placeholder(key), value.GetOr(""));
      body := ReplaceAll(body, Placeholder(key), value.GetOr(""));
      assert req.variables[i..][1..] == req.variables[i + 1..];
      i := i + 1;
    }
    var log := CommLog(req.channel.GetOr("Email"), req.templateKey, req.recipientAddress, req.recipientId, req.relatedEntity,
                       req.entityId, Content(subject, body), "Sent");
    db.commLogs := db.commLogs + [log];
    r := Ok(log);
  }

  /** Text in which no supplied variable's placeholder occurs comes out as it went in;
      placeholders whose variable is not supplied stay in the text. */
  lemma {:induction false} FillAbsent(text: string, vars: seq<Variable>)
    requires forall j :: 0 <= j < |vars| ==> !Contains(text, Placeholder(vars[j].0))
    ensures Fill(text, vars) == text
    decreases |vars|
  {
    if vars != [] {
      ReplaceAllAbsent(text, Placeholder(vars[0].0), vars[0].1.GetOr(""));
      FillAbsent(text, vars[1..]);
    }
  }

  /** A text free of `{` is not changed by any variables. */
  lemma PlainText(text: string, vars: seq<Variable>)
    requires '{' !in text
    ensures Fill(text, vars) == text
  {
    forall j | 0 <= j < |vars|
      ensures !Contains(text, Placeholder(vars[j].0))
    {
      AbsentFirstChar(text, Placeholder(vars[j].0));
    }
    FillAbsent(text, vars);
  }

  /** A text with one placeholder, and no other `{`, gets the variable's value in its
      place, or nothing when the value is falsy. */
  lemma FillOne(a: string, key: string, b: string, value: Option<string>)
    requires '{' !in a && '{' !in b
    ensures Fill(a + P(key) + b, [(key, value)]) == a + value.GetOr("") + b
  {
    ReplaceAllSingle(a, b, P(key), value.GetOr(""));
    var vars: seq<Variable> := [(key, value)];
    assert vars[1..] == [];
  }
}
