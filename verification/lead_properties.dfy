/** What the `POST /lead` and `GET /test` routes promise their callers, one
    outcome at a time, and how the outcomes partition the inputs. */
module LeadProperties {
  import opened JsValues
  import EmailRegex
  import opened LeadHandler

  /** A missing or empty `nome` or `email` is answered with the required-field
      error before anything else is looked at, however malformed the email. */
  lemma RequiredFieldsCheckedFirst(req: LeadRequest, apiKey: Optional<string>, upstream: UpstreamCall -> UpstreamResult)
    requires !Truthy(req.nome) || !Truthy(req.email)
    ensures HandleLead(req, apiKey, upstream) == Exchange(Response(400, ErrorBody(MsgRequired)), [])
  {
  }

  /** Both fields present, an email the pattern rejects: 400 with the
      invalid-email message, and the upstream is not consulted. */
  lemma InvalidEmailRejected(req: LeadRequest, apiKey: Optional<string>, upstream: UpstreamCall -> UpstreamResult)
    requires HasRequiredFields(req)
    requires !EmailRegex.Matches(req.email.value)
    ensures HandleLead(req, apiKey, upstream) == Exchange(Response(400, ErrorBody(MsgInvalidEmail)), [])
  {
  }

  /** A valid request without a usable credential is a 500 configuration
      error, and the upstream is not consulted. */
  lemma MissingKeyRejected(req: LeadRequest, apiKey: Optional<string>, upstream: UpstreamCall -> UpstreamResult)
    requires ValidRequest(req)
    requires apiKey == Undefined || apiKey == Defined("")
    ensures HandleLead(req, apiKey, upstream) == Exchange(Response(500, ErrorBody(MsgConfiguration)), [])
  {
  }

  /** A valid request with a credential consults the upstream exactly once,
      sending the configured key, the email, the name as `FIRSTNAME` and the
      single target list 3. */
  lemma UpstreamCalledOnce(req: LeadRequest, key: string, upstream: UpstreamCall -> UpstreamResult)
    requires ValidRequest(req) && key != ""
    ensures HandleLead(req, Defined(key), upstream).calls
         == [UpstreamCall(key, ContactPayload(req.email.value, req.nome.value, [3]))]
  {
  }

  /** Upstream success: 200 with `success: true`. */
  lemma CreatedIsAccepted(req: LeadRequest, apiKey: Optional<string>, upstream: UpstreamCall -> UpstreamResult)
    requires ReachesUpstream(req, apiKey)
    requires upstream(CallFor(req, apiKey)) == Created
    ensures HandleLead(req, apiKey, upstream).response == Response(200, OutcomeBody(true, MsgCreated))
  {
  }

  /** An upstream rejection with code `duplicate_parameter` is a soft outcome:
      status 200 with `success: false`, never a 500, whatever messages the
      rejection carries. */
  lemma DuplicateIsSoft(req: LeadRequest, apiKey: Optional<string>, upstream: UpstreamCall -> UpstreamResult)
    requires ReachesUpstream(req, apiKey)
    requires upstream(CallFor(req, apiKey)).Rejected?
    requires upstream(CallFor(req, apiKey)).dataCode == Defined("duplicate_parameter")
    ensures HandleLead(req, apiKey, upstream).response == Response(200, OutcomeBody(false, MsgDuplicate))
  {
  }

  /** Any other rejection is a 500 whose `details` is the first non-empty of
      the upstream message, the error message and "Erro desconhecido", and
      whose `code` is the upstream code passed through unchanged. */
  lemma OtherRejectionIsFailure(req: LeadRequest, apiKey: Optional<string>, upstream: UpstreamCall -> UpstreamResult,
                                code: Optional<string>, dataMessage: Optional<string>, errorMessage: Optional<string>)
    requires ReachesUpstream(req, apiKey)
    requires upstream(CallFor(req, apiKey)) == Rejected(code, dataMessage, errorMessage)
    requires code != Defined("duplicate_parameter")
    ensures var r := HandleLead(req, apiKey, upstream).response;
            && r.status == 500
            && r.body.FailureBody?
            && r.body.error == MsgUpstreamFailure
            && r.body.code == code
            && (Truthy(dataMessage) ==> r.body.details == dataMessage.value)
            && (!Truthy(dataMessage) && Truthy(errorMessage) ==> r.body.details == errorMessage.value)
            && (!Truthy(dataMessage) && !Truthy(errorMessage) ==> r.body.details == "Erro desconhecido")
  {
  }

  /** The handler sees the upstream only through the one call it makes: two
      upstreams that answer that call alike give the same exchange, and when
      no call is made the upstream does not matter at all. */
  lemma OnlyTheCallMatters(req: LeadRequest, apiKey: Optional<string>, u1: UpstreamCall -> UpstreamResult, u2: UpstreamCall -> UpstreamResult)
    requires ReachesUpstream(req, apiKey) ==> u1(CallFor(req, apiKey)) == u2(CallFor(req, apiKey))
    ensures HandleLead(req, apiKey, u1) == HandleLead(req, apiKey, u2)
  {
  }

  /** The status is 200 exactly when the upstream was reached and either
      created the contact or reported it as a duplicate. */
  lemma OkStatusIff(req: LeadRequest, apiKey: Optional<string>, upstream: UpstreamCall -> UpstreamResult)
    ensures HandleLead(req, apiKey, upstream).response.status == 200
        <==> ReachesUpstream(req, apiKey)
             && (upstream(CallFor(req, apiKey)).Created?
                 || upstream(CallFor(req, apiKey)).dataCode == Defined(DuplicateCode))
  {
  }

  /** The response reports `success: true` exactly when the upstream created
      the contact. */
  lemma SuccessIff(req: LeadRequest, apiKey: Optional<string>, upstream: UpstreamCall -> UpstreamResult)
    ensures var b := HandleLead(req, apiKey, upstream).response.body;
            (b.OutcomeBody? && b.success) <==> (ReachesUpstream(req, apiKey) && upstream(CallFor(req, apiKey)).Created?)
  {
  }

  /** `GET /test` answers 200 with the fixed acknowledgment, whatever the
      configuration and the upstream, and consults nothing. */
  lemma TestRouteConstant(k1: Optional<string>, k2: Optional<string>, u1: UpstreamCall -> UpstreamResult, u2: UpstreamCall -> UpstreamResult)
    ensures Serve(GetTest, k1, u1) == Serve(GetTest, k2, u2)
    ensures Serve(GetTest, k1, u1) == Exchange(Response(200, MessageBody("Servidor está funcionando!")), [])
  {
  }
}
