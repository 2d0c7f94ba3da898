/**
  `POST /api/chat`: validating the JSON body, defaulting the optional fields, calling the
  message handler, mapping every failure to a status code, and the session cookie. The
  handler, the clock and the random suffix of a new session id are parameters.
*/
module ChatRoute {
  import opened Wrappers
  import opened Text
  import opened ChatTypes
  import Conversation

  const SessionCookieName: string := "ario_session_id"
  const EmptyMessageText: string := "پیام نمی\U{200C}تواند خالی باشد"
  const InternalErrorText: string := "خطای داخلی سرور. لطفاً دوباره تلاش کنید."
  const UnknownErrorText: string := "Unknown error"
  const DefaultTone: string := "default"
  const DefaultResponseMode: string := "auto"
  /** One year, in seconds. */
  const CookieMaxAge: int := 60 * 60 * 24 * 365

  /** A thrown value: an `Error` with its message, or anything else. */
  datatype Thrown = ErrorObject(message: string) | NonError

  /** The body fields the route reads; `None` is an absent or null field. */
  datatype ChatPayload = ChatPayload(
    message: Option<string>,
    tone: Option<string>,
    responseMode: Option<string>,
    conversationId: Option<string>,
    clientId: Option<string>)

  /** `request.json()`: a parsed payload, or the error parsing raised. */
  datatype Body = Parsed(payload: ChatPayload) | Malformed(parseError: Thrown)

  /** What the route passes to the message handler. */
  datatype HandlerRequest = HandlerRequest(
    clientId: Option<string>,
    channel: Channel,
    message: string,
    conversationId: Option<string>,
    tone: string,
    responseMode: string)

  datatype HandlerReply = HandlerReply(reply: string, conversationId: Option<string>)

  datatype ResponseBody =
    | ReplyBody(reply: string, conversationId: Option<string>)
    | ErrorBody(error: string, details: Option<string>)

  datatype CookieSpec = CookieSpec(name: string, value: string, httpOnly: bool, secure: bool,
                                   sameSite: string, maxAge: int)

  datatype Response = Response(status: int, body: ResponseBody, setCookie: Option<CookieSpec>)

  /** `process.env.NODE_ENV`. */
  datatype Env = Env(nodeEnv: Option<string>)

  /** `x || fallback` on an optional string: absent and empty both give the fallback. */
  function OrDefault(x: Option<string>, fallback: string): (r: string)
    ensures x.Some? && x.value != "" ==> r == x.value
    ensures x.None? || x.value == "" ==> r == fallback
  {
    if x.Some? && x.value != "" then x.value else fallback
  }

  /** A fresh session id: `web_`, the clock in milliseconds, `_`, and a random suffix. */
  function NewSessionId(nowMillis: nat, randomSuffix: string): (r: string)
    ensures StartsWith(r, "web_")
  {
    "web_" + NatToString(nowMillis) + "_" + randomSuffix
  }

  /** `getOrCreateSessionId`: a cookie with a non-empty value is reused; otherwise a fresh id. */
  function GetOrCreateSessionId(cookie: Option<string>, nowMillis: nat, randomSuffix: string): (r: string)
    ensures cookie.Some? && cookie.value != "" ==> r == cookie.value
    ensures cookie.None? || cookie.value == "" ==> r == NewSessionId(nowMillis, randomSuffix)
  {
    if cookie.Some? && cookie.value != "" then cookie.value else NewSessionId(nowMillis, randomSuffix)
  }

  /** The handler's arguments for an accepted message. */
  function HandlerRequestFor(p: ChatPayload, message: string): (r: HandlerRequest)
    ensures r.channel == Web && r.message == message
    ensures r.conversationId == p.conversationId && r.clientId == p.clientId
    ensures r.tone == OrDefault(p.tone, DefaultTone)
    ensures r.responseMode == OrDefault(p.responseMode, DefaultResponseMode)
  {
    HandlerRequest(p.clientId, Web, message, p.conversationId,
                   OrDefault(p.tone, DefaultTone), OrDefault(p.responseMode, DefaultResponseMode))
  }

  /** The 500 response: the generic text, with the error's message as details in development only. */
  function ServerError(env: Env, thrown: Thrown): (r: Response)
    ensures r.status == 500 && r.setCookie.None?
    ensures r.body.ErrorBody? && r.body.error == InternalErrorText
    ensures env.nodeEnv != Some("development") ==> r.body.details.None?
    ensures env.nodeEnv == Some("development") && thrown.ErrorObject? ==> r.body.details == Some(thrown.message)
    ensures env.nodeEnv == Some("development") && thrown.NonError? ==> r.body.details == Some(UnknownErrorText)
  {
    var errorMessage := if thrown.ErrorObject? then thrown.message else UnknownErrorText;
    Response(500, ErrorBody(InternalErrorText, if env.nodeEnv == Some("development") then Some(errorMessage) else None), None)
  }

  /** The session cookie written on a successful reply when the request carried none. */
  function SessionCookie(env: Env, sessionId: string): (r: CookieSpec)
    ensures r.name == SessionCookieName && r.value == sessionId
    ensures r.secure <==> env.nodeEnv == Some("production")
    ensures r.httpOnly && r.sameSite == "lax" && r.maxAge == CookieMaxAge
  {
    CookieSpec(SessionCookieName, sessionId, true, env.nodeEnv == Some("production"), "lax", CookieMaxAge)
  }

  /** A message the route rejects with 400: absent, or blank once trimmed. */
  predicate Rejected(p: ChatPayload) {
    p.message.None? || AllWhitespace(p.message.value)
  }

  /** The reply once the handler is called: its answer with 200 (and a new session
      cookie when the request carried none), or its failure as a 500. */
  function Answer(req: HandlerRequest, cookie: Option<string>, env: Env, nowMillis: nat,
                  randomSuffix: string, handler: HandlerRequest -> Result<HandlerReply, Thrown>): (r: Response)
    ensures match handler(req)
      case Failure(e) => r == ServerError(env, e)
      case Success(out) =>
        && r.status == 200
        && r.body == ReplyBody(out.reply, out.conversationId)
        && (cookie.None? ==> r.setCookie == Some(SessionCookie(env, NewSessionId(nowMillis, randomSuffix))))
        && (cookie.Some? ==> r.setCookie.None?)
  {
    var sessionId := GetOrCreateSessionId(cookie, nowMillis, randomSuffix);
    match handler(req)
    case Failure(e) => ServerError(env, e)
    case Success(out) =>
      var cookieToSet := if cookie.None? then Some(SessionCookie(env, sessionId)) else None;
      Response(200, ReplyBody(out.reply, out.conversationId), cookieToSet)
  }

  /** `POST`. */
  function Post(body: Body, cookie: Option<string>, env: Env, nowMillis: nat, randomSuffix: string,
                handler: HandlerRequest -> Result<HandlerReply, Thrown>): (r: Response)
    ensures body.Malformed? ==> r == ServerError(env, body.parseError)
    ensures body.Parsed? && Rejected(body.payload) ==>
      r == Response(400, ErrorBody(EmptyMessageText, None), None)
    ensures body.Parsed? && !Rejected(body.payload) ==>
      r == Answer(HandlerRequestFor(body.payload, Trim(body.payload.message.value)), cookie, env, nowMillis,
                  randomSuffix, handler)
  {
    match body
    case Malformed(e) => ServerError(env, e)
    case Parsed(p) =>
      var message := if p.message.Some? then Some(Trim(p.message.value)) else None;
      if message.None? || message.value == "" then Response(400, ErrorBody(EmptyMessageText, None), None)
      else Answer(HandlerRequestFor(p, message.value), cookie, env, nowMillis, randomSuffix, handler)
  }

  /** A rejected message never reaches the handler: any two handlers give the same response. */
  lemma RejectedNeverHandled(p: ChatPayload, cookie: Option<string>, env: Env, now: nat, suffix: string,
                             h1: HandlerRequest -> Result<HandlerReply, Thrown>,
                             h2: HandlerRequest -> Result<HandlerReply, Thrown>)
    requires Rejected(p)
    ensures Post(Parsed(p), cookie, env, now, suffix, h1) == Post(Parsed(p), cookie, env, now, suffix, h2)
    ensures Post(Parsed(p), cookie, env, now, suffix, h1).status == 400
  {
  }

  /** The handler sees the trimmed message: payloads differing only in surrounding white space
      give the same response. */
  lemma SurroundingWhitespaceIrrelevant(p: ChatPayload, cookie: Option<string>, env: Env, now: nat, suffix: string,
                                        handler: HandlerRequest -> Result<HandlerReply, Thrown>)
    requires p.message.Some?
    ensures Post(Parsed(p), cookie, env, now, suffix, handler)
         == Post(Parsed(p.(message := Some(Trim(p.message.value)))), cookie, env, now, suffix, handler)
  {
    var t := Trim(p.message.value);
    var q := p.(message := Some(t));
    TrimIdempotent(p.message.value);
    assert Rejected(p) <==> Rejected(q);
    assert HandlerRequestFor(p, t) == HandlerRequestFor(q, Trim(t));
  }

  /** The response status is one of 200, 400 and 500, and only 200 carries a reply. */
  lemma StatusCodes(body: Body, cookie: Option<string>, env: Env, now: nat, suffix: string,
                    handler: HandlerRequest -> Result<HandlerReply, Thrown>)
    ensures var r := Post(body, cookie, env, now, suffix, handler);
      && (r.status == 200 || r.status == 400 || r.status == 500)
      && (r.status == 200 <==> r.body.ReplyBody?)
      && (r.setCookie.Some? ==> r.status == 200 && cookie.None?)
  {
  }

  /** An existing cookie is reused and never rewritten; with none, a fresh id is written. */
  lemma SessionCookieReuse(cookie: Option<string>, env: Env, now: nat, suffix: string)
    ensures cookie.Some? && cookie.value != "" ==> GetOrCreateSessionId(cookie, now, suffix) == cookie.value
    ensures cookie.None? ==> StartsWith(GetOrCreateSessionId(cookie, now, suffix), "web_")
  {
  }

  /** The message handler as it stands: the echo of `handleUserMessage`, with no conversation id. */
  function EchoHandler(req: HandlerRequest): (r: Result<HandlerReply, Thrown>)
    ensures r.Success? <==> !AllWhitespace(req.message)
    ensures r.Success? ==> r.value.conversationId.None?
  {
    var params := Conversation.HandleParams(Conversation.UserIdentifier(None, None), req.channel, req.message);
    match Conversation.HandleUserMessage(params)
    case Success(reply) => Success(HandlerReply(reply, None))
    case Failure(e) => Failure(ErrorObject(e))
  }

  /** With the echo handler every accepted message is answered with 200 and the echo of its
      trimmed text; the handler's own emptiness check can never fire. */
  lemma EchoEndToEnd(p: ChatPayload, cookie: Option<string>, env: Env, now: nat, suffix: string)
    requires !Rejected(p)
    ensures var r := Post(Parsed(p), cookie, env, now, suffix, EchoHandler);
      && r.status == 200
      && r.body.ReplyBody?
      && StartsWith(r.body.reply, Conversation.EchoPrefix)
      && r.body.reply[|Conversation.EchoPrefix|..] == Trim(p.message.value)
      && r.body.conversationId.None?
  {
    var m := Trim(p.message.value);
    TrimIdempotent(p.message.value);
    assert !AllWhitespace(m);
  }
}
