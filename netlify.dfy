/**
 * The serverless function's `POST /api/send-codelist-email` route. Its handler text
 * is the standalone server's, so it runs the same shared handler; the lemmas below
 * restate the handler's promises for this entry point and show that both entry
 * points answer every request alike.
 */
module Netlify {
  import opened Wrappers
  import opened Js
  import opened Relay
  import Backend

  /** The route for `EMAIL_DEFAULT_FROM` = `env`, request body `body` and provider `send`. */
  function HandlePost(env: Option<string>, body: JsVal, send: Envelope -> Settled): (r: Reply)
    ensures r.status in {200, 400, 502}
    ensures r.status == 400 <==> !(HasTruthy(body, "to") && HasTruthy(body, "subject") && HasTruthy(body, "html"))
    ensures r.sent.None? <==> r.status == 400
    ensures r.sent.Some? ==> r.sent.value == BuildEnvelope(DefaultFrom(env), Destructure(body))
  {
    ValidationRule(body);
    Handle(DefaultFrom(env), body, send)
  }

  /** A missing or falsy body, or a falsy to, subject or html: 400, nothing sent. */
  lemma RejectsMissingFields(env: Option<string>, body: JsVal, send: Envelope -> Settled)
    requires !Truthy(body) || !Truthy(Prop(body, "to")) || !Truthy(Prop(body, "subject")) || !Truthy(Prop(body, "html"))
    ensures HandlePost(env, body, send)
            == Reply(None, 400, Obj(map["ok" := Bool(false), "error" := Str("Missing required fields (to, subject, html)")]))
  {
    if !Truthy(body) {
      MissingBodyRejected(DefaultFrom(env), body, send);
    }
  }

  /** `from` falls back to the configured default, `replyTo` to `from` and then the default. */
  lemma SenderFallbackHere(env: Option<string>, body: JsVal, send: Envelope -> Settled)
    requires HandlePost(env, body, send).sent.Some?
    ensures var e := HandlePost(env, body, send).sent.value;
            var d := Str(DefaultFrom(env));
            && e.from == (if Truthy(Prop(body, "from")) then Prop(body, "from") else d)
            && e.replyTo == (if Truthy(Prop(body, "replyTo")) then Prop(body, "replyTo")
                             else if Truthy(Prop(body, "from")) then Prop(body, "from") else d)
            && (env.None? ==> d == Str("noreply@example.com"))
  {
    SenderFallback(DefaultFrom(env), body);
  }

  /** to, subject, html, cc and bcc are passed on unchanged; the category tag is fixed. */
  lemma PassThroughHere(env: Option<string>, body: JsVal, send: Envelope -> Settled)
    requires HandlePost(env, body, send).sent.Some?
    ensures var e := HandlePost(env, body, send).sent.value;
            && e.to == Prop(body, "to") && e.subject == Prop(body, "subject") && e.html == Prop(body, "html")
            && e.cc == Prop(body, "cc") && e.bcc == Prop(body, "bcc")
            && e.categories == ["codelist-dashboard"]
  {
  }

  /**
   * An attachment exactly when `xlsxBase64` is a non-empty string, with the fixed
   * MIME type and disposition, named "codelist.xlsx" only when `filename` is undefined.
   */
  lemma AttachmentHere(env: Option<string>, body: JsVal, send: Envelope -> Settled)
    requires HandlePost(env, body, send).sent.Some?
    ensures var a := HandlePost(env, body, send).sent.value.attachment;
            && (a.Some? <==> Prop(body, "xlsxBase64").Str? && Prop(body, "xlsxBase64").s != "")
            && (a.Some? ==> a.value.content == Prop(body, "xlsxBase64").s)
            && (a.Some? ==> a.value.mimeType == "application/vnd.openxmlformats-officedocument.spreadsheetml.sheet")
            && (a.Some? ==> a.value.disposition == "attachment")
            && (a.Some? ==> a.value.filename == (if Prop(body, "filename").Undefined? then Str("codelist.xlsx")
                                                 else Prop(body, "filename")))
  {
    AttachmentRule(DefaultFrom(env), body);
  }

  /**
   * Once sent: 200 with the provider's status code when it resolves to a response,
   * 502 with the extracted or generic message when it throws.
   */
  lemma OutcomeHere(env: Option<string>, body: JsVal, send: Envelope -> Settled)
    requires HandlePost(env, body, send).sent.Some?
    ensures var r := HandlePost(env, body, send);
            var s := send(r.sent.value);
            && (s.Fulfilled? && s.value.Arr? && |s.value.elems| > 0 && !Nullish(s.value.elems[0]) ==>
                  r.status == 200 && r.body == Obj(map["ok" := Bool(true), "status" := Prop(s.value.elems[0], "statusCode")]))
            && (s.Thrown? ==>
                  r.status == 502 && r.body == Obj(map["ok" := Bool(false), "error" := ErrorMessage(s.reason)]))
  {
  }

  /**
   * For the same configuration, request and provider, the serverless function and
   * the standalone server send the same envelope and give the same response.
   */
  lemma MatchesBackend(env: Option<string>, body: JsVal, send: Envelope -> Settled)
    ensures HandlePost(env, body, send) == Backend.HandlePost(env, body, send)
  {
  }
}
