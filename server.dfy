/** `handleRequest` (src/server.ts): authenticate an inbound webhook delivery by its
    `authorization` header, hand its JSON body to the event handlers, and turn the
    outcome into an HTTP response. */
module Server {
  import opened Wrappers
  import opened Config

  /** What `await req.json()` does with the request body: yields the parsed payload
      (here its text) or throws. */
  datatype BodyParse = Json(payload: string) | Malformed

  /** What `handleEvent(events, payload, middleware)` does: resolves to a status or throws. */
  datatype HandlerOutcome = Status(code: int) | Threw

  /** `new Response(body, { status })`; a `null` body is `None`. */
  datatype Response = Response(status: int, body: Option<string>)

  /** The observable steps of one call, in order. */
  datatype Effect =
    | ErrorLogged(message: string)
    | BodyRead
    | HandlerCalled(payload: string, middleware: Option<Middleware>)

  /** A call either settles with a response or rejects: reading `botEnv.DISCORD_TOKEN`
      throws when the variable is unset, and that read is outside the `try`. */
  datatype Handled =
    | Responded(response: Response, effects: seq<Effect>)
    | Rejected(effects: seq<Effect>)

  const PingAck := "{\"type\":1}"
  const InvalidAuthorization := "Invalid authorization"
  const ProcessingFailed := "Failed to process request:"

  /** The Fetch standard's `Response` constructor throws a RangeError for a status
      outside 200..599. */
  predicate ConstructibleStatus(status: int) {
    200 <= status <= 599
  }

  /** The WebIDL `unsigned short` conversion the constructor applies to `init.status`
      before that check: the integer modulo 2^16 (it is not `[EnforceRange]`). */
  function UnsignedShort(n: int): (r: int)
    ensures 0 <= r < 0x1_0000
    ensures (r - n) % 0x1_0000 == 0
  {
    n % 0x1_0000
  }

  /** `handleRequest(req, events, config = serverConfig)`. `authorization` is the
      request's header (`None` when absent), `token` the bot token as the environment
      holds it, `dispatch` is `handleEvent` applied to the handler set `events`,
      `config` the optional third argument and `global` the `serverConfig` singleton. */
  function HandleRequest(
    authorization: Option<string>,
    token: Option<string>,
    body: BodyParse,
    dispatch: (string, Option<Middleware>) -> HandlerOutcome,
    config: Option<ServerConfig>,
    global: ServerConfig): (r: Handled)
    ensures r.Rejected? <==> token.None?
    ensures r.Responded? ==> ConstructibleStatus(r.response.status)
    ensures r.Responded? ==> r.response.body == None || r.response.body == Some(PingAck)
    ensures r.Responded? && r.response.body == Some(PingAck) ==> r.response.status == 200
  {
    if token.None? then Rejected([])
    else if authorization != Some(token.value) then
      Responded(Response(401, None), [ErrorLogged(InvalidAuthorization)])
    else
      var cfg := config.GetOr(global);
      match body
      case Malformed => Responded(Response(500, None), [BodyRead, ErrorLogged(ProcessingFailed)])
      case Json(payload) =>
        var called := [BodyRead, HandlerCalled(payload, cfg.middleware)];
        match dispatch(payload, cfg.middleware)
        case Threw => Responded(Response(500, None), called + [ErrorLogged(ProcessingFailed)])
        case Status(s) =>
          var status := UnsignedShort(s);
          if ConstructibleStatus(status) then
            Responded(Response(status, if s == 200 then Some(PingAck) else None), called)
          else
            Responded(Response(500, None), called + [ErrorLogged(ProcessingFailed)])
  }

  /** A header other than the token, or no header, gives 401 with a null body; the body
      is not read and the handlers are not called, so neither can change the result. */
  lemma UnauthorizedRejected(
    authorization: Option<string>, token: string,
    body: BodyParse, otherBody: BodyParse,
    dispatch: (string, Option<Middleware>) -> HandlerOutcome,
    otherDispatch: (string, Option<Middleware>) -> HandlerOutcome,
    config: Option<ServerConfig>, global: ServerConfig)
    requires authorization != Some(token)
    ensures HandleRequest(authorization, Some(token), body, dispatch, config, global)
              == Responded(Response(401, None), [ErrorLogged(InvalidAuthorization)])
    ensures HandleRequest(authorization, Some(token), body, dispatch, config, global)
              == HandleRequest(authorization, Some(token), otherBody, otherDispatch, config, global)
  {
  }

  /** An authorized request whose handlers report 200 gets 200 with body `{"type":1}`. */
  lemma HandledOkIsPingAck(
    token: string, payload: string,
    dispatch: (string, Option<Middleware>) -> HandlerOutcome,
    config: Option<ServerConfig>, global: ServerConfig)
    requires dispatch(payload, config.GetOr(global).middleware) == Status(200)
    ensures HandleRequest(Some(token), Some(token), Json(payload), dispatch, config, global).response
              == Response(200, Some(PingAck))
  {
  }

  /** Any other status the Response constructor accepts is passed through with a null body. */
  lemma OtherStatusPassedThrough(
    token: string, payload: string, s: int,
    dispatch: (string, Option<Middleware>) -> HandlerOutcome,
    config: Option<ServerConfig>, global: ServerConfig)
    requires dispatch(payload, config.GetOr(global).middleware) == Status(s)
    requires s != 200 && ConstructibleStatus(s)
    ensures HandleRequest(Some(token), Some(token), Json(payload), dispatch, config, global).response
              == Response(s, None)
  {
  }

  /** A handler status is converted modulo 2^16 before the range check, while the body
      is chosen by comparing the unconverted status with 200: 65736 becomes 200 with a
      null body, and -65336 too. */
  lemma WrappedStatusConverted(
    token: string, payload: string, s: int,
    dispatch: (string, Option<Middleware>) -> HandlerOutcome,
    config: Option<ServerConfig>, global: ServerConfig)
    requires dispatch(payload, config.GetOr(global).middleware) == Status(s)
    requires ConstructibleStatus(s % 0x1_0000) && !ConstructibleStatus(s)
    ensures HandleRequest(Some(token), Some(token), Json(payload), dispatch, config, global).response
              == Response(s % 0x1_0000, None)
  {
  }

  /** The status 65736 is answered as 200, with a null body. */
  lemma WrappedOkHasNullBody(
    token: string, payload: string,
    dispatch: (string, Option<Middleware>) -> HandlerOutcome,
    config: Option<ServerConfig>, global: ServerConfig)
    requires dispatch(payload, config.GetOr(global).middleware) == Status(65736)
    ensures HandleRequest(Some(token), Some(token), Json(payload), dispatch, config, global).response
              == Response(200, None)
  {
    WrappedStatusConverted(token, payload, 65736, dispatch, config, global);
  }

  /** A body that fails to parse, a handler that throws, or a status the Response
      constructor refuses after its conversion all end in 500 with a null body and a
      logged error. */
  lemma FailuresAre500(
    token: string, body: BodyParse,
    dispatch: (string, Option<Middleware>) -> HandlerOutcome,
    config: Option<ServerConfig>, global: ServerConfig)
    requires
      || body.Malformed?
      || dispatch(body.payload, config.GetOr(global).middleware).Threw?
      || !ConstructibleStatus(UnsignedShort(dispatch(body.payload, config.GetOr(global).middleware).code))
    ensures var r := HandleRequest(Some(token), Some(token), body, dispatch, config, global);
            r.Responded? && r.response == Response(500, None)
            && r.effects[|r.effects| - 1] == ErrorLogged(ProcessingFailed)
  {
  }

  /** Once the body is read, the handlers are called exactly once, with the parsed
      payload and the middleware of `config`, or of `serverConfig` when no config is passed. */
  lemma HandlerGetsConfiguredMiddleware(
    token: string, payload: string,
    dispatch: (string, Option<Middleware>) -> HandlerOutcome,
    config: Option<ServerConfig>, global: ServerConfig)
    ensures var r := HandleRequest(Some(token), Some(token), Json(payload), dispatch, config, global);
            var mw := if config.Some? then config.value.middleware else global.middleware;
            |r.effects| >= 2 && r.effects[..2] == [BodyRead, HandlerCalled(payload, mw)]
            && forall i :: 2 <= i < |r.effects| ==> !r.effects[i].HandlerCalled?
  {
  }
}
