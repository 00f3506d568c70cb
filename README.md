# Codelist email relay: a Dafny model of the send handler

The codelist dashboard's backend is a small mail relay. It has one endpoint that does real work, `POST /api/send-codelist-email`.
That endpoint takes a JSON body describing an email: recipients, subject, HTML and an optional base64 XLSX spreadsheet.
It checks the mandatory fields and builds the message for SendGrid. It hands the message to SendGrid once and turns the answer into an HTTP status and a JSON body.
The handler exists twice, word for word: in the standalone Express server (`backend/server.js`) and in the Netlify function (`netlify/functions/server.js`).

The model holds the handler once, as a pure function that does not depend on its host:

- `js.dfy`, module `Js`: the JavaScript values the handler sees (`JsVal`) and the parts of the language it relies on. These are truthiness (`Truthy`), `||` (`Or`, `OrChain`), property access (`Get`) and optional chaining (`Chain`). `FirstTruthy` is an independent reading of an `||` chain: the first truthy operand, else the last one.
- `relay.dfy`, module `Relay`: the handler, in pieces.
  - `Destructure` models `const {..., filename = "codelist.xlsx", ...} = req.body || {}`.
  - `MissingRequired` is the validation test.
  - `BuildEnvelope` and `AttachmentFor` build the `msg` object.
  - `Deliver` models `const [sgResp] = await sgMail.send(msg)` and `sgResp.statusCode`.
  - `ErrorMessage` models the catch block's message extraction.
  - `Respond` maps each outcome to a status and a body.
  - `Handle` puts the pieces together. The properties of the handler are proved about it.
- `backend.dfy`, module `Backend`, and `netlify.dfy`, module `Netlify`: the two entry points. Each runs `Handle` with the default sender configured from `EMAIL_DEFAULT_FROM`. `Netlify.MatchesBackend` states that the two give the same reply for every request. The statement rests on the two handler texts (backend/server.js:43-94 and netlify/functions/server.js:44-98) being identical code, so both entry points run the one `Handle`.

The SendGrid client is a parameter, `send: Envelope -> Settled`. It maps the envelope to how the `send` promise settles: it is fulfilled with a value, or it throws a value.
The `Reply` records the envelope handed to `send`, if there was one. So "the provider is never asked" is stated as `sent == None`, and `RejectionIgnoresSender` states it as independence from `send`.

The model follows the code wherever the code is more permissive than the route's doc comment (backend/server.js:29-42) suggests:

- An empty recipient list `to: []` passes validation, because arrays are truthy (`EmptyRecipientListAccepted`).
- `from: ""` falls back to the default sender (`EmptyFromFallsBack`).
- The `filename` default applies only when the property is undefined. `filename: ""` or `null` is passed on as it is (`EmptyFilenameKept`, `FilenameDefault`).
- The attachment field names are `xlsxBase64` and `filename`, as in the code.
- Truthy non-string `to` and `from`, and any `cc`, `bcc` or non-undefined `filename`, are passed through unchanged, as the code does. A falsy `from` of any type (`null`, `0`, `false`, `""`) is replaced by the default sender.
- If the provider's promise fulfils with something the handler cannot destructure, the resulting `TypeError` is caught and answered with 502 "Email send failed" (`MalformedProviderAnswer`). For example, the value may not be iterable, or its first element may be missing.

## Model

| member | source | states |
|---|---|---|
| `Js.FirstTruthy` | backend/server.js:66 | the value of a fallback chain is one of its candidates; it is truthy iff some candidate is; it is the first truthy candidate when there is one, else the last candidate |
| `Js.OrChainIsFirstTruthy` | backend/server.js:63-66 | a left-grouped `a \|\| b \|\| ... \|\| z` equals the first-truthy-else-last reading, for any number of operands |
| `Js.ChainAppend` | backend/server.js:87-91 | splitting an optional chain `v?.p?.q` into `(v?.p)?.q` does not change its value, short-circuiting included |
| `Relay.DefaultFrom` | backend/server.js:8 | the default sender is never empty; it is `EMAIL_DEFAULT_FROM` when that is a non-empty string, else "noreply@example.com" |
| `Relay.Destructure` | backend/server.js:45-55 | each field is the body's own property of that name; a missing or falsy body reads as `{}`; `filename` becomes "codelist.xlsx" only when it reads as undefined |
| `Relay.AttachmentFor` | backend/server.js:73-82 | an attachment exists iff `xlsxBase64` is a non-empty string; it then carries that content, the filename, the OpenXML spreadsheet MIME type and disposition "attachment" |
| `Relay.BuildEnvelope` | backend/server.js:61-82 | to/subject/html/cc/bcc are copied; categories is exactly ["codelist-dashboard"]; from is the first truthy of (from, default); replyTo is the first truthy of (replyTo, from, default); both are truthy whenever the default is non-empty |
| `Relay.Deliver` | backend/server.js:84-86 | a settled send never yields a rejection; a thrown value is what the catch block receives |
| `Relay.ErrorMessage` | backend/server.js:87-92 | the 502 error value is always truthy |
| `Relay.Respond` | backend/server.js:57-92 | status 400 iff rejected, 200 iff sent, 502 iff failed; the body's `ok` is true exactly for a sent message |
| `Relay.MissingRequired` | backend/server.js:57 | true iff `to`, `subject` or `html` is falsy |
| `Relay.FirstElement` | backend/server.js:84 | `const [sgResp] = v`: the first element of an array or string (undefined when empty); None for a value that cannot be iterated |
| `Relay.Handle` | backend/server.js:43-94 | status is 200, 400 or 502; 400 iff a mandatory field is falsy; nothing is sent iff 400; what is sent is the envelope built from the request |
| `Relay.ValidationRule` | backend/server.js:55-59 | a body passes iff it is an object whose own `to`, `subject` and `html` are present and truthy |
| `Relay.MissingBodyRejected` | backend/server.js:55-59 | a missing or falsy body yields 400 with the fixed missing-fields error and no send |
| `Relay.RejectionIgnoresSender` | backend/server.js:57-59 | a rejected request gives the fixed 400 reply whatever the provider would do |
| `Relay.OnlyTheEnvelopeIsSent` | backend/server.js:84 | the reply depends on the provider only through its answer to the one envelope sent |
| `Relay.EmptyRecipientListAccepted` | backend/server.js:57 | `to: []` passes validation and is sent as `[]` |
| `Relay.SenderFallback` | backend/server.js:63-66 | from = request from if truthy else default; replyTo = request replyTo if truthy, else request from if truthy, else default |
| `Relay.EmptyFromFallsBack` | backend/server.js:63-66 | `from: ""` without a truthy replyTo makes both from and replyTo the default sender |
| `Relay.MinimalRequest` | backend/server.js:61-70 | a request with only to, subject and html is sent with from = replyTo = default, cc/bcc undefined, the fixed category and no attachment |
| `Relay.ReplyToFollowsFrom` | backend/server.js:66 | with a truthy from and no replyTo, replyTo equals from |
| `Relay.PassThrough` | backend/server.js:61-70 | an accepted request's to, subject, html, cc and bcc reach the provider unchanged, with categories ["codelist-dashboard"] |
| `Relay.AttachmentRule` | backend/server.js:73-82 | at the request level: attachment iff `xlsxBase64` is a non-empty string, with that content, the spreadsheet MIME type and disposition "attachment" |
| `Relay.FilenameDefault` | backend/server.js:52 | the attachment's filename is the request's `filename` unless that is undefined, in which case it is "codelist.xlsx" |
| `Relay.EmptyFilenameKept` | backend/server.js:52 | `filename: ""` stays "" |
| `Relay.SuccessResponse` | backend/server.js:84-85 | a provider answer `[resp, ...]` with a non-nullish resp gives 200 `{ ok: true, status: resp.statusCode }` |
| `Relay.MalformedProviderAnswer` | backend/server.js:84-91 | a provider answer that cannot be destructured gives 502 "Email send failed" |
| `Relay.FailureResponse` | backend/server.js:86-92 | a thrown provider error gives 502 `{ ok: false, error: <extracted message> }` |
| `Relay.MessageFromResponseBody` | backend/server.js:87-91 | when the error has a truthy `response.body`, the message is that body's `errors[0].message` |
| `Relay.MessageFromError` | backend/server.js:87-91 | without a truthy `response.body`, the message is the error's own `errors[0].message` |
| `Relay.GenericMessageFromResponseBody` | backend/server.js:87-91 | a truthy `response.body` without a truthy `errors[0].message` gives "Email send failed", whatever the thrown value itself carries |
| `Relay.GenericMessageFromError` | backend/server.js:87-91 | with no truthy `response.body` and no truthy own `errors[0].message`, the message is "Email send failed" |
| `Relay.ResponseBodyHidesOwnErrors` | backend/server.js:87-91 | `response.body = "oops"` hides the thrown value's own `errors[0].message` "X": the answer is the generic message |
| `Relay.MessageReadThroughBody` | backend/server.js:87-91 | with a truthy `response.body`, the message is the one chain `err?.response?.body?.errors?.[0]?.message`, else the generic message |
| `Relay.NonObjectErrorsAreGeneric` | backend/server.js:87-91 | a thrown string or undefined gives "Email send failed" |
| `Relay.UnauthorizedExample` | backend/server.js:86-92 | a provider error whose `errors[0].message` is "Unauthorized" gives 502 with error "Unauthorized" |
| `Relay.AcceptedExample` | backend/server.js:84-85 | a provider status code 202 gives 200 `{ ok: true, status: 202 }` |
| `Backend.HandlePost` | backend/server.js:43-94 | the standalone route: 200/400/502; 400 iff the body is not an object with truthy own to, subject and html; nothing sent iff 400; a sent envelope has truthy from and replyTo, from falling back to the configured default |
| `Netlify.HandlePost` | netlify/functions/server.js:44-98 | the serverless route: 200/400/502; 400 iff the body is not an object with truthy own to, subject and html; nothing sent iff 400; what is sent is the envelope built from the request |
| `Netlify.RejectsMissingFields` | netlify/functions/server.js:56-63 | a falsy body or a falsy to, subject or html gives the fixed 400 reply with nothing sent |
| `Netlify.SenderFallbackHere` | netlify/functions/server.js:67-70 | from and replyTo follow their fallback chains to the default sender, which is "noreply@example.com" when `EMAIL_DEFAULT_FROM` is unset |
| `Netlify.PassThroughHere` | netlify/functions/server.js:65-74 | to, subject, html, cc and bcc are sent unchanged and categories is ["codelist-dashboard"] |
| `Netlify.AttachmentHere` | netlify/functions/server.js:77-86 | attachment iff `xlsxBase64` is a non-empty string, with fixed MIME type and disposition, named "codelist.xlsx" only when `filename` is undefined |
| `Netlify.OutcomeHere` | netlify/functions/server.js:88-97 | a provider response gives 200 with its statusCode; a thrown error gives 502 with the extracted or generic message |
| `Netlify.MatchesBackend` | netlify/functions/server.js:44-98 | for the same configuration, request and provider, the serverless route and the standalone route send the same envelope and give the same reply |

## Left out

- Express and Netlify glue: app setup, the `express.json` 25 MB body limit, the `cors` middleware and the hand-written CORS headers, the OPTIONS short-circuit, `app.listen` and the `serverless-http` export. These are transport and routing with no logic of the handler's own.
- `GET /` and `GET /api/health`: their responses are constant.
- Reading the environment (`dotenv`, `process.env`), `setApiKey` and the missing-key warning. `EMAIL_DEFAULT_FROM` is the input `env` of `DefaultFrom`. A missing API key shows up only as a provider error, which `send` can model.
- The SendGrid client and `await`. The promise's settlement is the abstract input `send`.
- The two hosts configure the SendGrid client differently when `SENDGRID_API_KEY` is unset. backend/server.js:14 calls `setApiKey` unconditionally; netlify/functions/server.js:11-13 calls it only when the key is set. `Netlify.MatchesBackend` passes one shared `send` to both routes, so it does not capture any difference in how the two clients then fail.
- `console.error` logging.
- JSON serialisation by `res.json`. The reply body is the JavaScript object the handler passes to it. For example, an undefined `status` stays in the model, while the wire format would omit it.
- The prototype chain, getters and proxies: `Get` reads own properties only. A plain `Error` inherits `message = ""` from its prototype; that empty string is falsy, so it has the same effect as the model's undefined.
- Numbers are reals, with `NaN` as a separate value. Negative zero is folded into zero; it is falsy either way.
- Arrays have no named own properties in the model. String iteration and indexing work per `char`, not per UTF-16 code unit.
- The message text of the engine's `TypeError`: the handler never reads it.
- `ARCHIVED/Master_Script_Testing.py` is not part of this model. It is archived Excel and DataFrame processing built on pandas.
