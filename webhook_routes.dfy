/**
 * The `POST /github` webhook endpoint: the payload is re-serialized from the
 * parsed request body, its signature is checked in production only, the
 * payload is parsed back, and the event type picks the answer. The
 * `pull_request` handler is a function parameter standing for the outcome of
 * `HandlePullRequestEvent`; `JSON.stringify`, `JSON.parse` and HMAC-SHA256
 * are parameters too. Logging and the clock are left out.
 */
module WebhookRoutes {
  import opened Wrappers
  import opened Text
  import opened Js
  import opened WebhookService

  /** The request as the route sees it, after the JSON body parser has run. */
  datatype WebhookRequest = WebhookRequest(
    event: Option<string>,            // X-GitHub-Event
    deliveryId: Option<string>,       // X-GitHub-Delivery
    signatureHeader: Option<string>,  // X-Hub-Signature-256
    rawBody: string,                  // the bytes GitHub sent and signed
    body: Json)                       // those bytes as parsed by the body parser

  /** The process settings and the library functions the route relies on. */
  datatype Environment = Environment(
    nodeEnv: Option<string>,
    configuredSecret: Option<string>,
    hmac: Hmac,
    stringify: JsonSerializer,
    parse: JsonParser)

  /** The outcome of handling a parsed `pull_request` payload. */
  type PullRequestHandler = Json -> Result<(), Exception>

  datatype Response = Response(status: int, body: Json)

  predicate IsProduction(env: Environment) {
    env.nodeEnv == Some("production")
  }

  /**
   * The verification gate: `Ok(true)` lets the request through, `Ok(false)`
   * rejects it, `Err` is a thrown comparison. Outside production everything
   * passes; in production exactly a header equal to the digest header of the
   * re-serialized body passes, and a non-empty header of another UTF-8 byte
   * length throws.
   */
  function Gate(req: WebhookRequest, env: Environment): (r: Result<bool, Exception>)
    ensures !IsProduction(env) ==> r == Ok(true)
    ensures IsProduction(env) ==>
              var expected := ExpectedHeader(WebhookSecret(env.configuredSecret), env.hmac, env.stringify(req.body));
              && (r == Ok(true) <==> req.signatureHeader == Some(expected))
              && (r.Err? <==> req.signatureHeader.Some? && req.signatureHeader.value != ""
                              && Utf8Length(req.signatureHeader.value) != Utf8Length(expected))
              && (r.Err? ==> r.error == LengthMismatch)
  {
    if IsProduction(env) then
      var (payload, signature) := ExtractPayload(req.body, req.signatureHeader, env.stringify);
      assert req.signatureHeader.None? ==> signature != ExpectedHeader(WebhookSecret(env.configuredSecret), env.hmac, payload) by {
        assert StartsWith(ExpectedHeader(WebhookSecret(env.configuredSecret), env.hmac, payload), SignaturePrefix);
      }
      VerifySignature(WebhookSecret(env.configuredSecret), env.hmac, payload, signature)
    else
      Ok(true)
  }

  function MessageBody(message: string): Json {
    JObj(map["message" := JStr(message)])
  }

  const InvalidSignature := Response(401, JObj(map["error" := JStr("Invalid signature")]))
  const Unsupported := Response(200, MessageBody("Event type not supported"))

  /** The catch block: 500 with the error's message. */
  function ServerError(e: Exception): (res: Response)
    ensures res.status == 500 && res.body.JObj? && res.body.fields.Keys == {"error", "message"}
    ensures res.body.fields["message"] == JStr(MessageOf(e))
  {
    Response(500, JObj(map["error" := JStr("Internal server error"), "message" := JStr(MessageOf(e))]))
  }

  /** `fields` with `key` set to `value`, or without it when `value` is `undefined`. */
  function With(fields: map<string, Json>, key: string, value: Option<Json>): (r: map<string, Json>)
    ensures r.Keys == if value.Some? then fields.Keys + {key} else fields.Keys
    ensures value.Some? ==> r[key] == value.value
    ensures forall k :: k in fields && k != key ==> r[k] == fields[k]
  {
    if value.Some? then fields[key := value.value] else fields
  }

  function StringValue(s: Option<string>): Option<Json> {
    if s.Some? then Some(JStr(s.value)) else None
  }

  /** The `pull_request` answer once the handler has finished. */
  function Processed(req: WebhookRequest): Response {
    var fields := With(map["message" := JStr("Webhook processed successfully")], "event", StringValue(req.event));
    Response(200, JObj(With(fields, "deliveryId", StringValue(req.deliveryId))))
  }

  /** The `ping` answer: the payload's `zen`, left out when the payload has none. */
  function Pong(zen: Option<Json>): Response {
    Response(200, JObj(With(map["message" := JStr("DevFlow webhook is active")], "zen", zen)))
  }

  /**
   * The answer to an event whose payload passed the gate and parsed: 500
   * exactly when the `pull_request` handler fails or a `ping` payload is
   * `null`, the unsupported-event message for any other event, and 200
   * otherwise.
   */
  function Dispatch(req: WebhookRequest, parsed: Json, handle: PullRequestHandler): (res: Response)
    ensures res.status == 200 || res.status == 500
    ensures res.status == 500 <==>
              || (req.event == Some("pull_request") && handle(parsed).Err?)
              || (req.event == Some("ping") && parsed == JNull)
    ensures req.event == Some("pull_request") && handle(parsed).Err? ==> res == ServerError(handle(parsed).error)
    ensures req.event != Some("pull_request") && req.event != Some("ping") ==> res == Unsupported
  {
    if req.event == Some("pull_request") then
      match handle(parsed)
      case Err(e) => ServerError(e)
      case Ok(_) => Processed(req)
    else if req.event == Some("ping") then
      match Get(parsed, "zen")
      case Err(e) => ServerError(e)
      case Ok(zen) => Pong(zen)
    else
      Unsupported
  }

  /** The `POST /github` route. */
  function HandleWebhook(req: WebhookRequest, env: Environment, handle: PullRequestHandler): (res: Response)
    ensures res.status == 200 || res.status == 401 || res.status == 500
    ensures res.status == 401 <==> Gate(req, env) == Ok(false)
    ensures res.status == 401 ==> res == InvalidSignature
    ensures Gate(req, env).Err? ==> res == ServerError(Gate(req, env).error)
  {
    match Gate(req, env)
    case Err(e) => ServerError(e)
    case Ok(false) => InvalidSignature
    case Ok(true) =>
      var (payload, _) := ExtractPayload(req.body, req.signatureHeader, env.stringify);
      match env.parse(payload)
      case Err(e) => ServerError(e)
      case Ok(parsed) => Dispatch(req, parsed, handle)
  }

  // ------------------------------------------------------------ properties

  /** Outside production neither the signature header nor the secret nor the digest matters. */
  lemma SignatureIgnoredOutsideProduction(
    req: WebhookRequest, env: Environment, handle: PullRequestHandler,
    header: Option<string>, secret: Option<string>, hmac: Hmac)
    requires !IsProduction(env)
    ensures HandleWebhook(req, env, handle)
         == HandleWebhook(req.(signatureHeader := header), env.(configuredSecret := secret, hmac := hmac), handle)
  {
    assert !IsProduction(env.(configuredSecret := secret, hmac := hmac));
  }

  /** In production a missing or empty signature is answered 401, whatever the event. */
  lemma UnsignedRequestRejectedInProduction(req: WebhookRequest, env: Environment, handle: PullRequestHandler)
    requires IsProduction(env)
    requires req.signatureHeader.None? || req.signatureHeader.value == ""
    ensures HandleWebhook(req, env, handle) == InvalidSignature
  {
  }

  /** A rejected signature is answered before the payload is parsed or any handler runs. */
  lemma RejectedRequestRunsNoHandler(
    req: WebhookRequest, env: Environment, handle: PullRequestHandler,
    parse: JsonParser, other: PullRequestHandler)
    requires Gate(req, env) == Ok(false)
    ensures HandleWebhook(req, env, handle) == InvalidSignature
    ensures HandleWebhook(req, env.(parse := parse), other) == InvalidSignature
  {
    assert Gate(req, env.(parse := parse)) == Gate(req, env);
  }

  /**
   * In production a request passes the gate exactly when its header is the
   * digest of the re-serialized body; the bytes that were actually signed
   * play no part.
   */
  lemma GateReadsReserializedBody(req: WebhookRequest, env: Environment, raw: string)
    requires IsProduction(env)
    ensures Gate(req, env) == Ok(true) <==>
            req.signatureHeader == Some(ExpectedHeader(WebhookSecret(env.configuredSecret), env.hmac, env.stringify(req.body)))
    ensures Gate(req.(rawBody := raw), env) == Gate(req, env)
  {
  }

  /**
   * A header GitHub computed over the bytes it sent is not accepted when the
   * re-serialized body has a different digest: it is rejected with 401, or
   * the comparison throws and the answer is 500.
   */
  lemma RawBodySignatureRejected(req: WebhookRequest, env: Environment, handle: PullRequestHandler)
    requires IsProduction(env)
    requires var secret := WebhookSecret(env.configuredSecret);
             && req.signatureHeader == Some(ExpectedHeader(secret, env.hmac, req.rawBody))
             && env.hmac(secret, req.rawBody) != env.hmac(secret, env.stringify(req.body))
    ensures HandleWebhook(req, env, handle).status != 200
  {
    var secret := WebhookSecret(env.configuredSecret);
    var signed := ExpectedHeader(secret, env.hmac, req.rawBody);
    var expected := ExpectedHeader(secret, env.hmac, env.stringify(req.body));
    if signed == expected {
      assert Hex(env.hmac(secret, req.rawBody)) == signed[|SignaturePrefix|..];
      assert Hex(env.hmac(secret, env.stringify(req.body))) == expected[|SignaturePrefix|..];
      HexInjective(env.hmac(secret, req.rawBody), env.hmac(secret, env.stringify(req.body)));
    }
    GateReadsReserializedBody(req, env, req.rawBody);
  }

  /** Every answer that follows a passed gate and a parsed payload, by event type. */
  lemma EventDispatch(req: WebhookRequest, env: Environment, handle: PullRequestHandler, parsed: Json)
    requires Gate(req, env) == Ok(true)
    requires env.parse(env.stringify(req.body)) == Ok(parsed)
    ensures var res := HandleWebhook(req, env, handle);
            && (req.event == Some("pull_request") && handle(parsed).Ok? ==>
                  res.status == 200 && res.body.JObj?
                  && res.body.fields["message"] == JStr("Webhook processed successfully")
                  && res.body.fields["event"] == JStr("pull_request")
                  && ("deliveryId" in res.body.fields <==> req.deliveryId.Some?))
            && (req.event == Some("pull_request") && handle(parsed).Err? ==> res == ServerError(handle(parsed).error))
            && (req.event == Some("ping") && parsed.JObj? ==>
                  res.status == 200 && res.body.JObj?
                  && res.body.fields["message"] == JStr("DevFlow webhook is active")
                  && ("zen" in res.body.fields <==> "zen" in parsed.fields)
                  && ("zen" in parsed.fields ==> res.body.fields["zen"] == parsed.fields["zen"]))
            && (req.event == Some("ping") && parsed == JNull ==> res.status == 500)
            && (req.event != Some("pull_request") && req.event != Some("ping") ==> res == Unsupported)
  {
  }

  /** The handler is consulted for `pull_request` events only. */
  lemma HandlerOnlyForPullRequests(req: WebhookRequest, env: Environment, handle: PullRequestHandler, other: PullRequestHandler)
    requires req.event != Some("pull_request")
    ensures HandleWebhook(req, env, handle) == HandleWebhook(req, env, other)
  {
  }

  /** A payload that does not parse back is answered 500 with the parser's error, whatever the event. */
  lemma UnparsablePayloadIsServerError(req: WebhookRequest, env: Environment, handle: PullRequestHandler)
    requires Gate(req, env) == Ok(true)
    requires env.parse(env.stringify(req.body)).Err?
    ensures HandleWebhook(req, env, handle) == ServerError(env.parse(env.stringify(req.body)).error)
  {
  }

  // ---------------------------------------------------------- health check

  const SupportedEvents := ["pull_request", "ping"]

  /** `GET /health`, at the given time. */
  function Health(timestamp: string): (res: Response)
    ensures res.status == 200 && res.body.JObj?
    ensures res.body.fields.Keys == {"message", "timestamp", "supportedEvents"}
    ensures var advertised := res.body.fields["supportedEvents"];
            && advertised.JArr? && |advertised.items| == |SupportedEvents|
            && forall i :: 0 <= i < |SupportedEvents| ==> advertised.items[i] == JStr(SupportedEvents[i])
  {
    Response(200, JObj(map[
      "message" := JStr("Webhook endpoint is healthy"),
      "timestamp" := JStr(timestamp),
      "supportedEvents" := JArr([JStr("pull_request"), JStr("ping")])]))
  }

  /** The events the health check advertises are exactly those the route does not answer as unsupported. */
  lemma AdvertisedEventsAreHandled(req: WebhookRequest, parsed: Json, handle: PullRequestHandler)
    ensures Dispatch(req, parsed, handle) == Unsupported ==> req.event.None? || req.event.value !in SupportedEvents
    ensures req.event.Some? && req.event.value !in SupportedEvents ==> Dispatch(req, parsed, handle) == Unsupported
  {
    if req.event == Some("pull_request") || req.event == Some("ping") {
      assert Processed(req).body.fields["message"] != Unsupported.body.fields["message"];
      assert forall zen :: Pong(zen).body.fields["message"] != Unsupported.body.fields["message"];
    }
  }
}
