/** The `POST /lead` request handler (server.js lines 15-92) and the
    `GET /test` liveness route (lines 96-98), as pure functions of one request.

    The upstream contact-creation call is an oracle: a function from the call
    the handler makes to the result the upstream reports. The handler returns,
    beside its response, the list of calls it made, so "the upstream was not
    consulted" and "it was consulted exactly once, with this payload" are
    statements about that list. */
module LeadHandler {
  import opened JsValues
  import EmailRegex

  /** The identifier of the contact list every lead is added to. */
  const TargetListId: int := 3

  /** The upstream error code that signals an already existing contact. */
  const DuplicateCode: string := "duplicate_parameter"

  const MsgRequired: string := "Nome e email são obrigatórios!"
  const MsgInvalidEmail: string := "Email inválido!"
  const MsgConfiguration: string := "Erro de configuração do servidor"
  const MsgCreated: string := "Lead cadastrado com sucesso!"
  const MsgDuplicate: string := "Email já registrado!"
  const MsgUpstreamFailure: string := "Erro ao cadastrar o lead"
  const MsgUnknown: string := "Erro desconhecido"
  const MsgAlive: string := "Servidor está funcionando!"

  /** The JSON body of `POST /lead`: `nome` and `email`, each possibly absent. */
  datatype LeadRequest = LeadRequest(nome: Optional<string>, email: Optional<string>)

  /** The contact the handler asks the upstream to create: the applicant's
      email, the first-name attribute and the lists to join. */
  datatype ContactPayload = ContactPayload(email: string, firstName: string, listIds: seq<int>)

  /** One upstream call: the credential sent in the `api-key` header and the
      payload. */
  datatype UpstreamCall = UpstreamCall(apiKey: string, payload: ContactPayload)

  /** What the upstream call came back with. A rejection carries what the
      thrown error exposes: `response.data.code`, `response.data.message` and
      the error's own `message`, each possibly absent. */
  datatype UpstreamResult =
    | Created
    | Rejected(dataCode: Optional<string>, dataMessage: Optional<string>, errorMessage: Optional<string>)

  /** The JSON bodies the routes send. `code` is left out of the JSON when absent. */
  datatype Body =
    | ErrorBody(error: string)
    | OutcomeBody(success: bool, message: string)
    | FailureBody(error: string, details: string, code: Optional<string>)
    | MessageBody(message: string)

  datatype Response = Response(status: int, body: Body)

  /** A response together with the upstream calls made while computing it. */
  datatype Exchange = Exchange(response: Response, calls: seq<UpstreamCall>)

  /** The required-field guard passes: both fields are truthy. */
  predicate HasRequiredFields(req: LeadRequest)
  {
    Truthy(req.nome) && Truthy(req.email)
  }

  /** The request passes both validation steps. */
  predicate ValidRequest(req: LeadRequest)
  {
    HasRequiredFields(req) && EmailRegex.Matches(req.email.value)
  }

  /** The request gets past validation and the configuration guard, which is
      exactly when the upstream is consulted. */
  predicate ReachesUpstream(req: LeadRequest, apiKey: Optional<string>)
  {
    ValidRequest(req) && Truthy(apiKey)
  }

  /** The call made for a request that reaches the upstream. */
  function CallFor(req: LeadRequest, apiKey: Optional<string>): (c: UpstreamCall)
    requires ReachesUpstream(req, apiKey)
    ensures c.apiKey == apiKey.value && c.apiKey != ""
    ensures c.payload.email == req.email.value && c.payload.firstName == req.nome.value
    ensures c.payload.listIds == [TargetListId]
  {
    UpstreamCall(apiKey.value, ContactPayload(req.email.value, req.nome.value, [TargetListId]))
  }

  /** The response for an upstream rejection: a duplicate contact is a soft
      200 outcome, any other rejection a 500 with the best detail available. */
  function RejectionResponse(dataCode: Optional<string>, dataMessage: Optional<string>, errorMessage: Optional<string>): (r: Response)
    ensures r.status == 200 <==> dataCode == Defined(DuplicateCode)
    ensures r.status != 200 ==> r.status == 500
    ensures r.status == 200 ==> r.body == OutcomeBody(false, MsgDuplicate)
    ensures r.status == 500 ==> r.body.FailureBody? && r.body.error == MsgUpstreamFailure
    ensures r.status == 500 ==> r.body.code == dataCode && r.body.details != ""
  {
    if dataCode == Defined(DuplicateCode) then
      Response(200, OutcomeBody(false, MsgDuplicate))
    else
      Response(500, FailureBody(MsgUpstreamFailure, FirstTruthy(dataMessage, errorMessage, MsgUnknown), dataCode))
  }

  /** `POST /lead`: the required-field check, then the email format, then the
      configuration guard, then one upstream call whose result is mapped to
      the response. */
  function HandleLead(req: LeadRequest, apiKey: Optional<string>, upstream: UpstreamCall -> UpstreamResult): (x: Exchange)
    ensures |x.calls| <= 1
    ensures x.calls != [] <==> ReachesUpstream(req, apiKey)
    ensures x.calls != [] ==> x.calls == [CallFor(req, apiKey)]
    ensures x.response.status in {200, 400, 500}
    ensures x.response.status == 400 <==> !ValidRequest(req)
  {
    if !HasRequiredFields(req) then
      Exchange(Response(400, ErrorBody(MsgRequired)), [])
    else if !EmailRegex.Matches(req.email.value) then
      Exchange(Response(400, ErrorBody(MsgInvalidEmail)), [])
    else if !Truthy(apiKey) then
      Exchange(Response(500, ErrorBody(MsgConfiguration)), [])
    else
      var call := CallFor(req, apiKey);
      match upstream(call)
      case Created =>
        Exchange(Response(200, OutcomeBody(true, MsgCreated)), [call])
      case Rejected(code, dataMessage, errorMessage) =>
        Exchange(RejectionResponse(code, dataMessage, errorMessage), [call])
  }

  /** The routes of the server that carry logic. */
  datatype Route = PostLead(req: LeadRequest) | GetTest

  /** Dispatches a request to its route handler. */
  function Serve(route: Route, apiKey: Optional<string>, upstream: UpstreamCall -> UpstreamResult): (x: Exchange)
    ensures route.GetTest? ==> x.calls == [] && x.response.status == 200
    ensures route.PostLead? ==> x == HandleLead(route.req, apiKey, upstream)
  {
    match route
    case PostLead(req) => HandleLead(req, apiKey, upstream)
    case GetTest => Exchange(Response(200, MessageBody(MsgAlive)), [])
  }
}
