/** The leave-decision notification handler: renders the email for an approved or
    rejected leave request and sends it. The store lookup, the email provider and the
    locale date formatting are parameters of the model. */
module LeaveNotification {
  import opened Values
  import opened Text

  /** The JSON body `{leaveRequestId, action, rejectionReason?}`. */
  datatype NotificationRequest = NotificationRequest(
    leaveRequestId: string,
    action: string,
    rejectionReason: Option<string>)

  /** `req.json()`: a decoded body, or the message of the exception it threw. */
  datatype RequestBody = Decoded(request: NotificationRequest) | Unreadable(message: string)

  datatype HttpRequest = HttpRequest(httpMethod: string, body: RequestBody)

  /** The `employees!inner(first_name, last_name, email)` part of the joined row. */
  datatype Recipient = Recipient(firstName: string, lastName: string, email: string)

  /** A leave request joined with its employee. */
  datatype LeaveRow = LeaveRow(
    leaveType: string,
    startDate: string,
    endDate: string,
    daysRequested: int,
    reason: Option<string>,
    employee: Recipient)

  datatype Email = Email(from: string, to: seq<string>, subject: string, html: string)

  /** What `resend.emails.send` does: return (with a message id or without one), or throw. */
  datatype SendResult = Returned(emailId: Option<string>) | Threw(message: string)

  datatype ResponseBody = SuccessBody(emailId: Option<string>) | ErrorBody(error: string)

  /** The CORS preflight answer, or a JSON response with a status code. */
  datatype Response = Preflight | JsonResponse(status: int, body: ResponseBody)

  /** One invocation: the response, the ids looked up, and the emails sent, in order. */
  datatype Run = Run(response: Response, lookups: seq<string>, sent: seq<Email>)

  const Sender := "HRIS <noreply@resend.dev>"
  const NotFoundMessage := "Leave request not found"
  const NotSpecified := "Not specified"

  /** The subject line, also the body's heading: any action other than `'approved'`
      reads "Rejected". */
  function Subject(action: string): (s: string)
    ensures s == "Leave Request Approved" <==> action == "approved"
    ensures s == "Leave Request Rejected" <==> action != "approved"
  {
    if action == "approved" then "Leave Request Approved" else "Leave Request Rejected"
  }

  /** One element of the HTML body. */
  datatype Block =
    | Heading(level: nat, text: string)
    | Paragraph(html: string)
    | ListStart
    | ListEnd
    | Item(name: string, value: string)

  function Render(b: Block): string {
    match b
    case Heading(level, text) =>
      var tag := if level == 1 then "h1" else "h3";
      "<" + tag + ">" + text + "</" + tag + ">"
    case Paragraph(html) => "<p>" + html + "</p>"
    case ListStart => "<ul>"
    case ListEnd => "</ul>"
    case Item(name, value) => "<li><strong>" + name + "</strong> " + value + "</li>"
  }

  function Concat(parts: seq<string>): string {
    if |parts| == 0 then "" else parts[0] + Concat(parts[1..])
  }

  function RenderAll(blocks: seq<Block>): seq<string> {
    seq(|blocks|, i requires 0 <= i < |blocks| => Render(blocks[i]))
  }

  /** The HTML text of a body. */
  function Html(blocks: seq<Block>): string {
    Concat(RenderAll(blocks))
  }

  /** `leaveRequest.reason || 'Not specified'`. */
  function ReasonText(row: LeaveRow): (s: string)
    ensures s == NotSpecified <==> row.reason.None? || row.reason.value == "" || row.reason.value == NotSpecified
    ensures row.reason.Some? && row.reason.value != "" ==> s == row.reason.value
  {
    if row.reason.None? || row.reason.value == "" then NotSpecified else row.reason.value
  }

  function Details(row: LeaveRow, localeDate: string -> string): seq<Block> {
    [ Heading(3, "Leave Request Details:"),
      ListStart,
      Item("Leave Type:", row.leaveType),
      Item("Start Date:", localeDate(row.startDate)),
      Item("End Date:", localeDate(row.endDate)),
      Item("Days Requested:", Show(row.daysRequested)),
      Item("Reason:", ReasonText(row)),
      ListEnd ]
  }

  function RejectionSection(reason: string): seq<Block> {
    [Heading(3, "Rejection Reason:"), Paragraph(reason)]
  }

  const Closing := [Paragraph("If you have any questions, please contact HR."),
                    Paragraph("Best regards,<br>HR Department")]

  /** Whether the rejection-reason section is rendered. */
  predicate ShowsRejectionReason(action: string, rejectionReason: Option<string>) {
    action == "rejected" && rejectionReason.Some? && rejectionReason.value != ""
  }

  /** `emailContent`: heading, greeting, decision, details, the rejection reason when
      rejected with a non-empty reason, then the closing. */
  function Body(action: string, row: LeaveRow, rejectionReason: Option<string>, localeDate: string -> string): (blocks: seq<Block>)
    ensures |blocks| == if ShowsRejectionReason(action, rejectionReason) then 15 else 13
    ensures blocks[0] == Heading(1, Subject(action))
    ensures blocks[1] == Paragraph("Dear " + row.employee.firstName + " " + row.employee.lastName + ",")
    ensures blocks[2] == Paragraph("Your leave request has been <strong>" + action + "</strong>.")
    ensures blocks[3..11] == Details(row, localeDate)
    ensures blocks[|blocks| - 2..] == Closing
    ensures Heading(3, "Rejection Reason:") in blocks <==> ShowsRejectionReason(action, rejectionReason)
    ensures ShowsRejectionReason(action, rejectionReason) ==> blocks[11..13] == RejectionSection(rejectionReason.value)
  {
    [ Heading(1, Subject(action)),
      Paragraph("Dear " + row.employee.firstName + " " + row.employee.lastName + ","),
      Paragraph("Your leave request has been <strong>" + action + "</strong>.") ]
    + Details(row, localeDate)
    + (if ShowsRejectionReason(action, rejectionReason) then RejectionSection(rejectionReason.value) else [])
    + Closing
  }

  /** The text of any part appears in the concatenation, between what precedes it and
      what follows it. */
  lemma {:induction false} ConcatSurrounds(parts: seq<string>, i: int)
    requires 0 <= i < |parts|
    ensures Concat(parts) == Concat(parts[..i]) + parts[i] + Concat(parts[i + 1..])
    decreases |parts|
  {
    if i > 0 {
      ConcatSurrounds(parts[1..], i - 1);
      assert parts[1..][..i - 1] == parts[1..i];
      assert parts[1..][i..] == parts[i + 1..];
      assert Concat(parts[..i]) == parts[0] + Concat(parts[1..i]) by {
        assert parts[..i][1..] == parts[1..i];
      }
    } else {
      assert parts[..0] == [];
    }
  }

  /** Text inside one part is found in the concatenation of all parts. */
  lemma ConcatShowsPartText(parts: seq<string>, i: int, before: string, text: string, after: string)
    requires 0 <= i < |parts| && parts[i] == before + text + after
    ensures Contains(Concat(parts), text)
  {
    ConcatSurrounds(parts, i);
    var pre := Concat(parts[..i]);
    var post := Concat(parts[i + 1..]);
    assert Concat(parts) == (pre + before) + text + (after + post);
    ContainsPart(pre + before, text, after + post);
  }

  /** A value rendered inside one block is found in the HTML text. */
  lemma HtmlShowsBlockText(blocks: seq<Block>, i: int, before: string, text: string, after: string)
    requires 0 <= i < |blocks| && Render(blocks[i]) == before + text + after
    ensures Contains(Html(blocks), text)
  {
    var parts := RenderAll(blocks);
    assert parts[i] == Render(blocks[i]);
    ConcatShowsPartText(parts, i, before, text, after);
  }

  /** The value of a list item is found in the HTML text. */
  lemma ItemValueShown(blocks: seq<Block>, i: int)
    requires 0 <= i < |blocks| && blocks[i].Item?
    ensures Contains(Html(blocks), blocks[i].value)
  {
    HtmlShowsBlockText(blocks, i, "<li><strong>" + blocks[i].name + "</strong> ", blocks[i].value, "</li>");
  }

  /** The details list always shows the leave type, both dates, the day count and the
      reason (or "Not specified"). */
  lemma BodyListsDetails(action: string, row: LeaveRow, rejectionReason: Option<string>, localeDate: string -> string)
    ensures var html := Html(Body(action, row, rejectionReason, localeDate));
      && Contains(html, row.leaveType)
      && Contains(html, localeDate(row.startDate))
      && Contains(html, localeDate(row.endDate))
      && Contains(html, Show(row.daysRequested))
      && Contains(html, ReasonText(row))
  {
    var blocks := Body(action, row, rejectionReason, localeDate);
    var details := Details(row, localeDate);
    assert blocks[3..11] == details;
    assert blocks[5] == details[2] && blocks[6] == details[3] && blocks[7] == details[4];
    assert blocks[8] == details[5] && blocks[9] == details[6];
    ItemValueShown(blocks, 5);
    ItemValueShown(blocks, 6);
    ItemValueShown(blocks, 7);
    ItemValueShown(blocks, 8);
    ItemValueShown(blocks, 9);
  }

  /** A rejection with a non-empty reason quotes that reason in the HTML text. */
  lemma RejectionReasonIsQuoted(row: LeaveRow, reason: string, localeDate: string -> string)
    requires reason != ""
    ensures Contains(Html(Body("rejected", row, Some(reason), localeDate)), reason)
  {
    var blocks := Body("rejected", row, Some(reason), localeDate);
    assert blocks[12] == Paragraph(reason);
    HtmlShowsBlockText(blocks, 12, "<p>", reason, "</p>");
  }

  function Compose(request: NotificationRequest, row: LeaveRow, localeDate: string -> string): Email {
    Email(Sender, [row.employee.email], Subject(request.action),
          Html(Body(request.action, row, request.rejectionReason, localeDate)))
  }

  /** `handler`. */
  function Handle(
    req: HttpRequest,
    lookup: string -> Option<LeaveRow>,
    send: Email -> SendResult,
    localeDate: string -> string): (run: Run)
    ensures req.httpMethod == "OPTIONS" ==> run == Run(Preflight, [], [])
    ensures req.httpMethod != "OPTIONS" && req.body.Unreadable? ==>
      run == Run(JsonResponse(500, ErrorBody(req.body.message)), [], [])
    ensures req.httpMethod != "OPTIONS" && req.body.Decoded? ==>
      run.lookups == [req.body.request.leaveRequestId]
    ensures |run.sent| <= 1
    ensures |run.sent| == 1 <==>
      req.httpMethod != "OPTIONS" && req.body.Decoded? && lookup(req.body.request.leaveRequestId).Some?
    ensures req.httpMethod != "OPTIONS" && req.body.Decoded? && run.sent == [] ==>
      run.response == JsonResponse(500, ErrorBody(NotFoundMessage))
    ensures |run.sent| == 1 ==>
      var row := lookup(req.body.request.leaveRequestId).value;
      && run.sent[0].from == Sender
      && run.sent[0].to == [row.employee.email]
      && run.sent[0].subject == Subject(req.body.request.action)
      && run.sent[0].html
         == Html(Body(req.body.request.action, row, req.body.request.rejectionReason, localeDate))
    ensures |run.sent| == 1 && send(run.sent[0]).Returned? ==>
      run.response == JsonResponse(200, SuccessBody(send(run.sent[0]).emailId))
    ensures |run.sent| == 1 && send(run.sent[0]).Threw? ==>
      run.response == JsonResponse(500, ErrorBody(send(run.sent[0]).message))
  {
    if req.httpMethod == "OPTIONS" then
      Run(Preflight, [], [])
    else if req.body.Unreadable? then
      Run(JsonResponse(500, ErrorBody(req.body.message)), [], [])
    else
      var request := req.body.request;
      match lookup(request.leaveRequestId)
      case None =>
        Run(JsonResponse(500, ErrorBody(NotFoundMessage)), [request.leaveRequestId], [])
      case Some(row) =>
        var email := Compose(request, row, localeDate);
        var response := match send(email)
          case Returned(id) => JsonResponse(200, SuccessBody(id))
          case Threw(message) => JsonResponse(500, ErrorBody(message));
        Run(response, [request.leaveRequestId], [email])
  }

  /** The scenario of a rejected request with a stated reason: exactly one email is sent,
      and its HTML quotes the reason. */
  lemma RejectedEmailQuotesReason(
    id: string, reason: string, row: LeaveRow, lookup: string -> Option<LeaveRow>,
    send: Email -> SendResult, localeDate: string -> string)
    requires lookup(id) == Some(row) && reason != ""
    ensures var run := Handle(HttpRequest("POST", Decoded(NotificationRequest(id, "rejected", Some(reason)))), lookup, send, localeDate);
      |run.sent| == 1 && Contains(run.sent[0].html, reason)
  {
    var request := NotificationRequest(id, "rejected", Some(reason));
    var run := Handle(HttpRequest("POST", Decoded(request)), lookup, send, localeDate);
    assert run.sent == [Compose(request, row, localeDate)];
    RejectionReasonIsQuoted(row, reason, localeDate);
  }
}
