/**
 * The handler of `POST /api/send-codelist-email`, written once, independent of the
 * host it runs in. The standalone server and the serverless function carry the same
 * handler text; modules Backend and Netlify adapt this one to each of them.
 *
 * The handler takes the parsed request body apart, rejects it when a mandatory
 * field is falsy, builds the message envelope, hands it to the mail provider once,
 * and turns the provider's answer into an HTTP status and a JSON body.
 */
module Relay {
  import opened Wrappers
  import opened Js

  /** Fixed text of the service: default sender, filename, MIME type, tag, messages. */
  const PlaceholderSender := "noreply@example.com"
  const DefaultFilename := "codelist.xlsx"
  const XlsxMimeType := "application/vnd.openxmlformats-officedocument.spreadsheetml.sheet"
  const AttachmentDisposition := "attachment"
  const Category := "codelist-dashboard"
  const MissingFieldsMessage := "Missing required fields (to, subject, html)"
  const SendFailedMessage := "Email send failed"

  /**
   * The configured default sender: the environment's `EMAIL_DEFAULT_FROM` when it is
   * set to a non-empty string, the placeholder address otherwise.
   */
  function DefaultFrom(env: Option<string>): (r: string)
    ensures r != ""
    ensures env.Some? && env.value != "" ==> r == env.value
    ensures env.None? || env.value == "" ==> r == PlaceholderSender
  {
    var v := Or(if env.Some? then Str(env.value) else Undefined, Str(PlaceholderSender));
    v.s
  }

  /** The nine values the handler destructures from the body. */
  datatype Fields = Fields(
    to: JsVal, from: JsVal, replyTo: JsVal, subject: JsVal, html: JsVal,
    xlsxBase64: JsVal, filename: JsVal, cc: JsVal, bcc: JsVal)

  /** A property of the body as destructuring reads it. */
  function Prop(src: JsVal, name: string): JsVal
  {
    Get(src, Name(name))
  }

  /**
   * `const { to, ..., filename = "codelist.xlsx", ... } = body || {}`. The default
   * replaces `filename` only when the property reads as undefined.
   */
  function Destructure(body: JsVal): (f: Fields)
    ensures f.to == Prop(body, "to") && f.from == Prop(body, "from") && f.replyTo == Prop(body, "replyTo")
    ensures f.subject == Prop(body, "subject") && f.html == Prop(body, "html")
    ensures f.xlsxBase64 == Prop(body, "xlsxBase64") && f.cc == Prop(body, "cc") && f.bcc == Prop(body, "bcc")
    ensures f.filename == if Prop(body, "filename").Undefined? then Str(DefaultFilename) else Prop(body, "filename")
  {
    var src := Or(body, Obj(map[]));
    var filename := Prop(src, "filename");
    Fields(
      Prop(src, "to"), Prop(src, "from"), Prop(src, "replyTo"),
      Prop(src, "subject"), Prop(src, "html"), Prop(src, "xlsxBase64"),
      if filename.Undefined? then Str(DefaultFilename) else filename,
      Prop(src, "cc"), Prop(src, "bcc"))
  }

  /** `!to || !subject || !html`. */
  predicate MissingRequired(f: Fields): (missing: bool)
    ensures !missing <==> Truthy(f.to) && Truthy(f.subject) && Truthy(f.html)
  {
    !Truthy(f.to) || !Truthy(f.subject) || !Truthy(f.html)
  }

  /** The attachment descriptor; the provider receives it as a one-element list. */
  datatype Attachment = Attachment(content: string, filename: JsVal, mimeType: string, disposition: string)

  /** The message handed to the provider. */
  datatype Envelope = Envelope(
    to: JsVal, from: JsVal, subject: JsVal, html: JsVal, replyTo: JsVal,
    cc: JsVal, bcc: JsVal, categories: seq<string>, attachment: Option<Attachment>)

  /** `if (xlsxBase64 && typeof xlsxBase64 === "string") msg.attachments = [...]`. */
  function AttachmentFor(f: Fields): (a: Option<Attachment>)
    ensures a.Some? <==> f.xlsxBase64.Str? && f.xlsxBase64.s != ""
    ensures a.Some? ==> a.value.content == f.xlsxBase64.s && a.value.filename == f.filename
    ensures a.Some? ==> a.value.mimeType == XlsxMimeType && a.value.disposition == AttachmentDisposition
  {
    if Truthy(f.xlsxBase64) && f.xlsxBase64.Str? then
      Some(Attachment(f.xlsxBase64.s, f.filename, XlsxMimeType, AttachmentDisposition))
    else
      None
  }

  /** The `msg` object literal, with the attachment added when one is supplied. */
  function BuildEnvelope(defaultFrom: string, f: Fields): (e: Envelope)
    ensures e.to == f.to && e.subject == f.subject && e.html == f.html
    ensures e.cc == f.cc && e.bcc == f.bcc
    ensures e.categories == [Category]
    ensures e.from == FirstTruthy([f.from, Str(defaultFrom)])
    ensures e.replyTo == FirstTruthy([f.replyTo, f.from, Str(defaultFrom)])
    ensures defaultFrom != "" ==> Truthy(e.from) && Truthy(e.replyTo)
    ensures e.attachment == AttachmentFor(f)
  {
    OrChainIsFirstTruthy([f.from, Str(defaultFrom)]);
    OrChainIsFirstTruthy([f.replyTo, f.from, Str(defaultFrom)]);
    assert [f.replyTo, f.from, Str(defaultFrom)][..2] == [f.replyTo, f.from];
    Envelope(
      f.to, Or(f.from, Str(defaultFrom)), f.subject, f.html,
      Or(Or(f.replyTo, f.from), Str(defaultFrom)),
      f.cc, f.bcc, [Category], AttachmentFor(f))
  }

  /** How the promise returned by the provider's `send` settles. */
  datatype Settled = Fulfilled(value: JsVal) | Thrown(reason: JsVal)

  /** The outcome of one request: rejected before sending, sent, or failed on the way. */
  datatype Outcome = Rejected | Sent(status: JsVal) | Failed(caught: JsVal)

  /**
   * What the engine throws when `const [sgResp] = ...` meets a value that is not
   * iterable, or when `sgResp.statusCode` is read from undefined or null. Its message
   * text is engine-specific; the handler never looks at it.
   */
  const EngineTypeError: JsVal := Obj(map["name" := Str("TypeError")])

  /** `const [sgResp] = v`: the first element, or None when `v` is not iterable. */
  function FirstElement(v: JsVal): (first: Option<JsVal>)
    ensures first.Some? <==> v.Arr? || v.Str?
    ensures v.Arr? ==> first == Some(if v.elems == [] then Undefined else v.elems[0])
    ensures v.Str? && v.s != "" ==> first == Some(Str([v.s[0]]))
    ensures v.Str? && v.s == "" ==> first == Some(Undefined)
  {
    match v
    case Arr(xs) => Some(if |xs| > 0 then xs[0] else Undefined)
    case Str(s) => Some(if |s| > 0 then Str([s[0]]) else Undefined)
    case _ => None
  }

  /**
   * The `try` block after the envelope is built: await `send`, destructure its
   * result and read `statusCode`. Everything thrown on the way ends in the `catch`.
   */
  function Deliver(settled: Settled): (o: Outcome)
    ensures !o.Rejected?
    ensures settled.Thrown? ==> o == Failed(settled.reason)
  {
    match settled
    case Thrown(err) => Failed(err)
    case Fulfilled(v) =>
      match FirstElement(v)
      case None => Failed(EngineTypeError)
      case Some(resp) => if Nullish(resp) then Failed(EngineTypeError) else Sent(Prop(resp, "statusCode"))
  }

  /** `(err?.response?.body || err)?.errors?.[0]?.message || "Email send failed"`. */
  function ErrorMessage(err: JsVal): (m: JsVal)
    ensures Truthy(m)
  {
    var sgErr := Or(Chain(err, [Name("response"), Name("body")]), err);
    Or(Chain(sgErr, [Name("errors"), Index(0), Name("message")]), Str(SendFailedMessage))
  }

  /** The JSON object passed to `res.json`. */
  function ErrorBody(error: JsVal): JsVal
  {
    Obj(map["ok" := Bool(false), "error" := error])
  }

  function SuccessBody(status: JsVal): JsVal
  {
    Obj(map["ok" := Bool(true), "status" := status])
  }

  /** What the handler answers: the envelope it sent, if any, and the HTTP response. */
  datatype Reply = Reply(sent: Option<Envelope>, status: nat, body: JsVal)

  /** `res.status(...).json(...)` for each outcome. */
  function Respond(o: Outcome): (r: (nat, JsVal))
    ensures o.Rejected? <==> r.0 == 400
    ensures o.Sent? <==> r.0 == 200
    ensures o.Failed? <==> r.0 == 502
    ensures r.1.Obj? && "ok" in r.1.props && r.1.props["ok"] == Bool(o.Sent?)
  {
    match o
    case Rejected => (400, ErrorBody(Str(MissingFieldsMessage)))
    case Sent(status) => (200, SuccessBody(status))
    case Failed(err) => (502, ErrorBody(ErrorMessage(err)))
  }

  /** The whole handler, for a given default sender, request body and provider. */
  function Handle(defaultFrom: string, body: JsVal, send: Envelope -> Settled): (r: Reply)
    ensures r.status in {200, 400, 502}
    ensures r.status == 400 <==> MissingRequired(Destructure(body))
    ensures r.sent.None? <==> r.status == 400
    ensures r.sent.Some? ==> r.sent.value == BuildEnvelope(defaultFrom, Destructure(body))
  {
    var f := Destructure(body);
    var outcome := if MissingRequired(f) then Rejected else Deliver(send(BuildEnvelope(defaultFrom, f)));
    var (status, json) := Respond(outcome);
    Reply(if outcome.Rejected? then None else Some(BuildEnvelope(defaultFrom, f)), status, json)
  }

  // ---------------------------------------------------------------------------
  // Properties of the handler
  // ---------------------------------------------------------------------------

  /** An own property of an object body that is present and truthy. */
  predicate HasTruthy(body: JsVal, name: string)
  {
    body.Obj? && name in body.props && Truthy(body.props[name])
  }

  /** A body is accepted exactly when it is an object whose own to, subject and html are truthy. */
  lemma ValidationRule(body: JsVal)
    ensures !MissingRequired(Destructure(body)) <==>
              HasTruthy(body, "to") && HasTruthy(body, "subject") && HasTruthy(body, "html")
  {
  }

  /** A missing or falsy body is read as `{}` and rejected before anything is sent. */
  lemma MissingBodyRejected(defaultFrom: string, body: JsVal, send: Envelope -> Settled)
    requires !Truthy(body)
    ensures Handle(defaultFrom, body, send) == Reply(None, 400, ErrorBody(Str(MissingFieldsMessage)))
  {
  }

  /**
   * A rejected request gets the fixed 400 answer, and the provider is never asked:
   * two different providers give the same reply.
   */
  lemma RejectionIgnoresSender(defaultFrom: string, body: JsVal, send1: Envelope -> Settled, send2: Envelope -> Settled)
    requires MissingRequired(Destructure(body))
    ensures Handle(defaultFrom, body, send1) == Handle(defaultFrom, body, send2)
    ensures Handle(defaultFrom, body, send1) == Reply(None, 400, ErrorBody(Str(MissingFieldsMessage)))
  {
  }

  /**
   * The provider is consulted once, on the envelope built from the request: two
   * providers that answer that envelope alike give the same reply.
   */
  lemma OnlyTheEnvelopeIsSent(defaultFrom: string, body: JsVal, send1: Envelope -> Settled, send2: Envelope -> Settled)
    requires send1(BuildEnvelope(defaultFrom, Destructure(body))) == send2(BuildEnvelope(defaultFrom, Destructure(body)))
    ensures Handle(defaultFrom, body, send1) == Handle(defaultFrom, body, send2)
  {
  }

  /** An empty recipient list is truthy, so `to: []` passes validation. */
  lemma EmptyRecipientListAccepted(defaultFrom: string, send: Envelope -> Settled)
    ensures var r := Handle(defaultFrom, Obj(map["to" := Arr([]), "subject" := Str("s"), "html" := Str("h")]), send);
            r.status != 400 && r.sent.Some? && r.sent.value.to == Arr([])
  {
  }

  /**
   * `from` is the request's own when truthy, else the default; `replyTo` is the
   * request's own when truthy, else `from`'s, else the default.
   */
  lemma SenderFallback(defaultFrom: string, body: JsVal)
    ensures var e := BuildEnvelope(defaultFrom, Destructure(body));
            && e.from == (if Truthy(Prop(body, "from")) then Prop(body, "from") else Str(defaultFrom))
            && e.replyTo == (if Truthy(Prop(body, "replyTo")) then Prop(body, "replyTo")
                             else if Truthy(Prop(body, "from")) then Prop(body, "from")
                             else Str(defaultFrom))
  {
  }

  /** An empty `from` is falsy and falls back to the default sender. */
  lemma EmptyFromFallsBack(defaultFrom: string, m: map<string, JsVal>)
    requires "from" in m && m["from"] == Str("")
    requires !HasTruthy(Obj(m), "replyTo")
    ensures var e := BuildEnvelope(defaultFrom, Destructure(Obj(m)));
            e.from == Str(defaultFrom) && e.replyTo == Str(defaultFrom)
  {
  }

  /**
   * A request carrying only to, subject and html is sent from and answered to the
   * default sender, with no attachment.
   */
  lemma MinimalRequest(defaultFrom: string, to: JsVal, subject: JsVal, html: JsVal, send: Envelope -> Settled)
    requires Truthy(to) && Truthy(subject) && Truthy(html)
    ensures var r := Handle(defaultFrom, Obj(map["to" := to, "subject" := subject, "html" := html]), send);
            && r.sent.Some?
            && r.sent.value == Envelope(to, Str(defaultFrom), subject, html, Str(defaultFrom),
                                        Undefined, Undefined, [Category], None)
  {
  }

  /** With `from` set and `replyTo` absent, replies go to `from`. */
  lemma ReplyToFollowsFrom(defaultFrom: string, m: map<string, JsVal>)
    requires HasTruthy(Obj(m), "from") && "replyTo" !in m
    ensures BuildEnvelope(defaultFrom, Destructure(Obj(m))).replyTo == m["from"]
  {
  }

  /**
   * to, subject, html, cc and bcc reach the provider exactly as the request holds
   * them, and the category list is always the one fixed tag.
   */
  lemma PassThrough(defaultFrom: string, body: JsVal, send: Envelope -> Settled)
    requires !MissingRequired(Destructure(body))
    ensures var r := Handle(defaultFrom, body, send);
            && r.sent.Some?
            && r.sent.value.to == Prop(body, "to") && r.sent.value.subject == Prop(body, "subject")
            && r.sent.value.html == Prop(body, "html")
            && r.sent.value.cc == Prop(body, "cc") && r.sent.value.bcc == Prop(body, "bcc")
            && r.sent.value.categories == ["codelist-dashboard"]
  {
  }

  /**
   * An attachment is added exactly when `xlsxBase64` is a non-empty string; it then
   * carries that string, the spreadsheet MIME type and the "attachment" disposition.
   */
  lemma AttachmentRule(defaultFrom: string, body: JsVal)
    ensures var a := BuildEnvelope(defaultFrom, Destructure(body)).attachment;
            && (a.Some? <==> Prop(body, "xlsxBase64").Str? && Prop(body, "xlsxBase64").s != "")
            && (a.Some? ==> a.value.content == Prop(body, "xlsxBase64").s
                            && a.value.mimeType == "application/vnd.openxmlformats-officedocument.spreadsheetml.sheet"
                            && a.value.disposition == "attachment")
  {
  }

  /**
   * The attachment's filename is the request's `filename` whenever that property is
   * not undefined (an empty string or null included), and "codelist.xlsx" otherwise.
   */
  lemma FilenameDefault(defaultFrom: string, body: JsVal)
    requires BuildEnvelope(defaultFrom, Destructure(body)).attachment.Some?
    ensures var a := BuildEnvelope(defaultFrom, Destructure(body)).attachment.value;
            && (Prop(body, "filename").Undefined? ==> a.filename == Str("codelist.xlsx"))
            && (!Prop(body, "filename").Undefined? ==> a.filename == Prop(body, "filename"))
  {
  }

  /** `filename: ""` is kept as it is: the default applies to undefined only. */
  lemma EmptyFilenameKept(defaultFrom: string, content: string)
    requires content != ""
    ensures var a := BuildEnvelope(defaultFrom, Destructure(Obj(map["xlsxBase64" := Str(content), "filename" := Str("")]))).attachment;
            a.Some? && a.value.filename == Str("")
  {
  }

  /**
   * When the provider resolves to a list whose first element is a response object,
   * the answer is 200 with `{ ok: true, status: <its statusCode> }`.
   */
  lemma SuccessResponse(defaultFrom: string, body: JsVal, send: Envelope -> Settled, resp: JsVal, rest: seq<JsVal>)
    requires !MissingRequired(Destructure(body))
    requires send(BuildEnvelope(defaultFrom, Destructure(body))) == Fulfilled(Arr([resp] + rest))
    requires !Nullish(resp)
    ensures Handle(defaultFrom, body, send)
            == Reply(Some(BuildEnvelope(defaultFrom, Destructure(body))), 200,
                     Obj(map["ok" := Bool(true), "status" := Prop(resp, "statusCode")]))
  {
  }

  /**
   * A provider answer the handler cannot destructure (not iterable, or without a
   * first element) throws inside the `try` and ends as 502 with the generic message.
   */
  lemma MalformedProviderAnswer(defaultFrom: string, body: JsVal, send: Envelope -> Settled)
    requires !MissingRequired(Destructure(body))
    requires var s := send(BuildEnvelope(defaultFrom, Destructure(body)));
             s.Fulfilled? && (FirstElement(s.value).None? || Nullish(FirstElement(s.value).value))
    ensures Handle(defaultFrom, body, send)
            == Reply(Some(BuildEnvelope(defaultFrom, Destructure(body))), 502,
                     Obj(map["ok" := Bool(false), "error" := Str("Email send failed")]))
  {
  }

  /** A provider error always becomes 502 with the message extracted from the error. */
  lemma FailureResponse(defaultFrom: string, body: JsVal, send: Envelope -> Settled, err: JsVal)
    requires !MissingRequired(Destructure(body))
    requires send(BuildEnvelope(defaultFrom, Destructure(body))) == Thrown(err)
    ensures Handle(defaultFrom, body, send)
            == Reply(Some(BuildEnvelope(defaultFrom, Destructure(body))), 502,
                     Obj(map["ok" := Bool(false), "error" := ErrorMessage(err)]))
  {
  }

  /** `v.errors[0].message`, when v is an object whose first error has a truthy message. */
  predicate FirstErrorMessage(v: JsVal, m: JsVal)
  {
    && v.Obj? && "errors" in v.props
    && var errs := v.props["errors"];
    && errs.Arr? && |errs.elems| > 0
    && var e0 := errs.elems[0];
    && e0.Obj? && "message" in e0.props && e0.props["message"] == m && Truthy(m)
  }

  /** The provider's error body, `err.response.body`, when it is present and truthy. */
  predicate ResponseBody(err: JsVal, b: JsVal)
  {
    && err.Obj? && "response" in err.props
    && var resp := err.props["response"];
    && resp.Obj? && "body" in resp.props && resp.props["body"] == b && Truthy(b)
  }

  /** The message comes from the provider's response body when the error carries one. */
  lemma MessageFromResponseBody(err: JsVal, b: JsVal, m: JsVal)
    requires ResponseBody(err, b) && FirstErrorMessage(b, m)
    ensures ErrorMessage(err) == m
  {
  }

  /** Without a truthy response body the message is read from the thrown value itself. */
  lemma MessageFromError(err: JsVal, m: JsVal)
    requires !Truthy(Chain(err, [Name("response"), Name("body")]))
    requires FirstErrorMessage(err, m)
    ensures ErrorMessage(err) == m
  {
  }

  /**
   * A truthy `response.body` without a readable `errors[0].message` gives the generic
   * message, whatever the thrown value itself carries.
   */
  lemma GenericMessageFromResponseBody(err: JsVal, b: JsVal)
    requires ResponseBody(err, b)
    requires !Truthy(Chain(b, [Name("errors"), Index(0), Name("message")]))
    ensures ErrorMessage(err) == Str("Email send failed")
  {
  }

  /** Without a truthy `response.body` and without an own `errors[0].message`: the generic message. */
  lemma GenericMessageFromError(err: JsVal)
    requires !Truthy(Chain(err, [Name("response"), Name("body")]))
    requires !Truthy(Chain(err, [Name("errors"), Index(0), Name("message")]))
    ensures ErrorMessage(err) == Str("Email send failed")
  {
  }

  /**
   * A truthy response body hides the thrown value's own error list: with
   * `response.body = "oops"` and an own `errors[0].message` of "X", the answer is the
   * generic message, not "X".
   */
  lemma ResponseBodyHidesOwnErrors()
    ensures ErrorMessage(Obj(map["response" := Obj(map["body" := Str("oops")]),
                                 "errors" := Arr([Obj(map["message" := Str("X")])])]))
            == Str("Email send failed")
  {
  }

  /**
   * When the thrown value has a truthy `response.body`, the message is the single
   * chain `err?.response?.body?.errors?.[0]?.message`, or the generic message.
   */
  lemma MessageReadThroughBody(err: JsVal)
    requires Truthy(Chain(err, [Name("response"), Name("body")]))
    ensures ErrorMessage(err)
            == Or(Chain(err, [Name("response"), Name("body"), Name("errors"), Index(0), Name("message")]),
                  Str(SendFailedMessage))
  {
  }

  /** Throwing a bare string or undefined yields the generic message. */
  lemma NonObjectErrorsAreGeneric(s: string)
    ensures ErrorMessage(Str(s)) == Str("Email send failed")
    ensures ErrorMessage(Undefined) == Str("Email send failed")
  {
  }

  /** The provider rejects with `errors[0].message` "Unauthorized": 502 "Unauthorized". */
  lemma UnauthorizedExample(defaultFrom: string, body: JsVal, send: Envelope -> Settled)
    requires !MissingRequired(Destructure(body))
    requires send(BuildEnvelope(defaultFrom, Destructure(body)))
             == Thrown(Obj(map["response" := Obj(map["body" := Obj(map["errors" := Arr([Obj(map["message" := Str("Unauthorized")])])])])]))
    ensures Handle(defaultFrom, body, send).status == 502
    ensures Handle(defaultFrom, body, send).body == Obj(map["ok" := Bool(false), "error" := Str("Unauthorized")])
  {
    var err := Obj(map["response" := Obj(map["body" := Obj(map["errors" := Arr([Obj(map["message" := Str("Unauthorized")])])])])]);
    MessageFromResponseBody(err, Obj(map["errors" := Arr([Obj(map["message" := Str("Unauthorized")])])]), Str("Unauthorized"));
  }

  /** The provider accepts with status code 202: 200 `{ ok: true, status: 202 }`. */
  lemma AcceptedExample(defaultFrom: string, body: JsVal, send: Envelope -> Settled)
    requires !MissingRequired(Destructure(body))
    requires send(BuildEnvelope(defaultFrom, Destructure(body))) == Fulfilled(Arr([Obj(map["statusCode" := Num(202.0)])]))
    ensures Handle(defaultFrom, body, send) == Reply(Some(BuildEnvelope(defaultFrom, Destructure(body))), 200,
                                                     Obj(map["ok" := Bool(true), "status" := Num(202.0)]))
  {
  }
}
