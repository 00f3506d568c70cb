/**
 * The standalone server's `POST /api/send-codelist-email` route: the shared handler
 * run with the default sender configured from the process environment.
 */
module Backend {
  import opened Wrappers
  import opened Js
  import opened Relay

  /** The route for `EMAIL_DEFAULT_FROM` = `env`, request body `body` and provider `send`. */
  function HandlePost(env: Option<string>, body: JsVal, send: Envelope -> Settled): (r: Reply)
    ensures r.status in {200, 400, 502}
    ensures r.status == 400 <==> !(HasTruthy(body, "to") && HasTruthy(body, "subject") && HasTruthy(body, "html"))
    ensures r.sent.None? <==> r.status == 400
    ensures r.sent.Some? ==> Truthy(r.sent.value.from) && Truthy(r.sent.value.replyTo)
    ensures r.sent.Some? ==> r.sent.value.from == FirstTruthy([Prop(body, "from"), Str(DefaultFrom(env))])
  {
    ValidationRule(body);
    Handle(DefaultFrom(env), body, send)
  }
}
