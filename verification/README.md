# Lead intake server — Dafny model

The server is an Express application with one route that carries logic,
`POST /lead`. It receives `{nome, email}` from a web form, checks that both
fields are present, checks the email against the pattern
`^[^\s@]+@[^\s@]+\.[^\s@]+$`, checks that the Brevo API key is configured,
and then asks Brevo to create the contact on list 3. It maps the outcome to
one of these responses:

- 400 when a field is missing or the email is invalid;
- 500 when the key is missing;
- 200 `success: true` when the contact is created;
- 200 `success: false` when Brevo reports `duplicate_parameter`;
- 500 with `details` and `code` for any other failure.

A second route, `GET /test`, always answers with a fixed message.

The model has four modules:

- `JsValues` (`js_values.dfy`) holds `Optional` (a property that is
  `Undefined` or `Defined`) and JavaScript truthiness for values that are
  either `undefined` or a string. `Undefined` and `""` are falsy.
  It also holds the `a || b || fallback` chain used for the error details.
- `EmailRegex` (`email_regex.dfy`) gives the email pattern three ways:
  - `Matches` is the regular expression itself: there are split points giving
    three runs of `[^\s@]`, separated by `@` and by `.`.
  - `WellFormed` is four conditions: exactly one `@`, no whitespace, a
    non-empty local part, and a `.` strictly inside the domain.
  - `Scan` is a single pass over the string, with no backtracking.

  The three are proved to accept the same strings. `\s` is the ECMAScript
  set of WhiteSpace and LineTerminator code points.
- `LeadHandler` (`lead_handler.dfy`) is the handler as a pure function of
  three inputs: the request, the optional API key, and an upstream oracle.
  The oracle maps the call the handler makes to the result Brevo reports.
  The handler returns the response together with the list of upstream calls
  it made. "Not consulted" and "consulted once with this payload" are
  therefore plain statements about that list.
- `LeadProperties` (`lead_properties.dfy`) states each outcome of the
  handler as a lemma. It also proves that the outcomes split the inputs by
  status and by the success flag, and that `GET /test` is constant.

The required-field check comes first, then the email format, then the
configuration check, then the single upstream call. A missing key never
reaches the upstream. Three details of server.js shape the model:

- The messages are the literal Portuguese strings of server.js:21-97.
- An empty key counts as missing, as `!API_KEY` does at line 36.
- `code` is passed through unchanged at line 90, so an empty upstream code
  stays in the 500 body.

## Model

| member | source | states |
|---|---|---|
| JsValues.Truthy | server.js:20-36 | JavaScript truthiness of an `undefined`-or-string value: `Undefined` and `""` are falsy; the negation is the `!nome`, `!email` and `!API_KEY` tests of lines 20 and 36 |
| JsValues.FirstTruthy | server.js:85 | defines the or-chain of line 85 (first truthy of two optional strings, else a fallback): its first three ensures are its own if-then-else branches, so they define JavaScript's or-operator rather than prove anything about it; the fourth states that a non-empty fallback gives non-empty details |
| EmailRegex.IsSpace | server.js:25 | the `\s` class of ECMAScript regular expressions: the WhiteSpace and LineTerminator code points |
| EmailRegex.InClass | server.js:25 | the class `[^\s@]`: neither `@` nor whitespace |
| EmailRegex.Matches | server.js:25 | the anchored pattern matches exactly when split points give three non-empty class runs separated by `@` and `.` (a definition; its partner is `WellFormed`, see `MatchesIffWellFormed`) |
| EmailRegex.MatchesImpliesWellFormed | server.js:25 | a match with `@` at i and the literal dot at j makes i the only `@`, leaves no whitespace, and puts j strictly inside the domain |
| EmailRegex.WellFormedImpliesMatches | server.js:25 | the only `@`, preceded by something, plus any dot strictly inside the domain gives valid split points for the pattern |
| EmailRegex.MatchesIffWellFormed | server.js:25 | the pattern accepts a string exactly when it has one `@`, no whitespace, a non-empty local part and an interior dot in the domain |
| EmailRegex.ComposedMatches | server.js:25 | local part + `@` + host + `.` + last part, each a non-empty run without whitespace or `@`, always matches |
| EmailRegex.Scan | server.js:25-26 | the single left-to-right pass returns true exactly when the pattern matches, and exactly when the four conditions hold |
| EmailRegex.RejectedExamples | server.js:25-28 | `abc`, `a@b`, `@b.com`, `a@.com`, `a@b.`, `a@@b.c` and `a b@c.d` are rejected |
| EmailRegex.SeveralDotsAccepted | server.js:25 | `a@b.c.d` is accepted: the domain may hold several dots |
| EmailRegex.LeadingDotAccepted | server.js:25 | `a@.b.c` is accepted: the host part may start with a dot when another dot follows |
| EmailRegex.DoubleDotAccepted | server.js:25 | `a@b..c` is accepted |
| EmailRegex.TypicalAddressAccepted | server.js:25 | `ana@example.com` is accepted |
| LeadHandler.HasRequiredFields | server.js:20-22 | the first guard passes exactly when `nome` and `email` are both truthy |
| LeadHandler.ValidRequest | server.js:20-28 | both validation guards pass: required fields present and the email matched by the pattern |
| LeadHandler.ReachesUpstream | server.js:20-47 | validation passes and the key is truthy, which `HandleLead` proves is exactly when the upstream is called |
| LeadHandler.CallFor | server.js:47-62 | the upstream call sends the configured non-empty key as `api-key`, the email, the name as `FIRSTNAME`, and list ids `[3]` |
| LeadHandler.RejectionResponse | server.js:68-91 | a rejection gives status 200 exactly when the code is `duplicate_parameter`, and then the body is `{success: false, message: "Email já registrado!"}`; otherwise it is a 500 with `error` "Erro ao cadastrar o lead", the code passed through and non-empty details |
| LeadHandler.HandleLead | server.js:15-92 | at most one upstream call; a call happens exactly when validation and the key check pass, and it is the payload built from the request; status is one of 200/400/500; 400 exactly when validation fails |
| LeadHandler.Serve | server.js:96-98 | `GET /test` answers 200 and calls nothing; `POST /lead` is the lead handler |
| LeadProperties.RequiredFieldsCheckedFirst | server.js:20-22 | a missing or empty `nome` or `email` gives 400 "Nome e email são obrigatórios!" with no upstream call, whatever the email looks like |
| LeadProperties.InvalidEmailRejected | server.js:25-28 | both fields present and an email the pattern rejects give 400 "Email inválido!" with no upstream call |
| LeadProperties.MissingKeyRejected | server.js:34-39 | a valid request with an absent or empty key gives 500 "Erro de configuração do servidor" with no upstream call |
| LeadProperties.UpstreamCalledOnce | server.js:47-62 | a valid request with a key makes exactly one call, carrying that key, the email, `FIRSTNAME = nome` and `listIds = [3]` |
| LeadProperties.CreatedIsAccepted | server.js:67 | upstream success gives 200 `{success: true, message: "Lead cadastrado com sucesso!"}` |
| LeadProperties.DuplicateIsSoft | server.js:72-74 | a rejection with code `duplicate_parameter` gives 200 `{success: false, message: "Email já registrado!"}`, whatever messages it carries |
| LeadProperties.OtherRejectionIsFailure | server.js:75-91 | any other rejection gives 500 "Erro ao cadastrar o lead"; `details` is the first non-empty of `data.message` and `error.message`, else "Erro desconhecido"; `code` is `data.code` unchanged |
| LeadProperties.OnlyTheCallMatters | server.js:47-62 | the upstream affects the exchange only through its answer to the one call made; without a call it does not matter at all |
| LeadProperties.OkStatusIff | server.js:67-74 | status 200 exactly when the upstream was reached and either created the contact or reported a duplicate |
| LeadProperties.SuccessIff | server.js:67 | `success: true` appears exactly when the upstream was reached and created the contact |
| LeadProperties.TestRouteConstant | server.js:96-98 | `GET /test` gives the same 200 "Servidor está funcionando!" whatever the key and the upstream, with no calls |

## Left out

- Express setup, JSON body parsing, CORS, static files from `public` and
  `app.listen` on port 3000 (server.js:1-12, 100-103): framework wiring and
  socket I/O.
- The HTTP transport of the Brevo call (URL, `Content-Type` header, axios):
  it is a foreign network call. Only the key and payload sent are modelled,
  and the call's result is an oracle input.
- `dotenv` and `process.env`: the key is an `Optional<string>` input.
- All console output, including the masked key printed at server.js:41.
  Logging has no observable contract.
- async/await and concurrent requests: the handler keeps no state across
  requests, so one request is one pure function call.
- LeadHandler.HandleLead: the upstream call is assumed to complete. The
  oracle is total, so the model always produces exactly one response, but
  server.js sets no timeout on the call at line 47, and an upstream that
  never answers leaves the request without any response.
- JavaScript coercion of non-string JSON values in `nome`, `email`,
  `data.code` and `data.message` (numbers, booleans, objects). These are
  modelled as optional strings.
- UTF-16 code units: JavaScript strings are sequences of UTF-16 code units,
  while a Dafny `char` is a Unicode scalar value. Every `\s` code point is a
  single code unit, and no surrogate is `@` or whitespace, so the pattern
  accepts the same strings either way.
- A request with no JSON body at all: what happens depends on the Express
  version, which the repository does not fix. Where `express.json()` leaves
  an empty object as the body, the request is `LeadRequest(Undefined,
  Undefined)` and gets the required-field 400. Where the body stays
  `undefined`, destructuring it at line 16 throws before the handler's own
  logic, and Express's error handling is not modelled.
