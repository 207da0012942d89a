/**
 * The backend client of the legacy app (public/js/client.js): it talks to the
 * session service directly at a base URL rather than through the proxy. The
 * differences from the current client are the base-URL normalisation, the
 * `||` in the error message, the socket URL derived from the base URL, an
 * `onopen` that does not guard a missing socket, and a dispatch that knows six
 * of the seven tags.
 */
module LegacyClient {
  import opened Wrappers
  import opened Strings
  import opened SessionTypes
  import ApiClient

  /** A session as the legacy app reads it: id, workdir and last activity (in milliseconds). */
  datatype LegacySession = LegacySession(id: string, workdir: string, lastActivity: int)

  /** The push events on the wire, as the legacy client reads them. */
  datatype LegacyEvent =
    | Created(session: LegacySession)
    | Updated(session: LegacySession)
    | Ended(sessionId: string, reason: Option<string>)
    | Pushed(sessionId: string, message: Message)
    | Raised(attention: Attention)
    | Resolved(attentionId: string)
    | InteractionDone(sessionId: string, interaction: ResolvedInteraction)

  function LegacyTag(e: LegacyEvent): string {
    match e
    case Created(_) => "session:created"
    case Updated(_) => "session:updated"
    case Ended(_, _) => "session:ended"
    case Pushed(_, _) => "session:message"
    case Raised(_) => "attention:requested"
    case Resolved(_) => "attention:resolved"
    case InteractionDone(_, _) => "interaction:resolved"
  }

  datatype LegacyFrame = Malformed | Event(event: LegacyEvent) | Unlisted(tag: string)

  /** One callback invocation of the legacy app's handlers. */
  datatype LegacyCall =
    | Connected
    | Disconnected
    | Errored
    | CreatedCall(session: LegacySession)
    | UpdatedCall(session: LegacySession)
    | EndedCall(sessionId: string, reason: Option<string>)
    | MessageCall(sessionId: string, message: Message)
    | AttentionCall(attention: Attention)
    | AttentionResolvedCall(attentionId: string)

  function LegacyHandlerOf(c: LegacyCall): ApiClient.Handler {
    match c
    case Connected => ApiClient.OnConnect
    case Disconnected => ApiClient.OnDisconnect
    case Errored => ApiClient.OnError
    case CreatedCall(_) => ApiClient.OnSessionCreated
    case UpdatedCall(_) => ApiClient.OnSessionUpdated
    case EndedCall(_, _) => ApiClient.OnSessionEnded
    case MessageCall(_, _) => ApiClient.OnMessage
    case AttentionCall(_) => ApiClient.OnAttention
    case AttentionResolvedCall(_) => ApiClient.OnAttentionResolved
  }

  /** The legacy `handleEvent` switch: six cases, none for 'interaction:resolved'. */
  function LegacyCallFor(e: LegacyEvent): Option<LegacyCall> {
    match e
    case Created(s) => Some(CreatedCall(s))
    case Updated(s) => Some(UpdatedCall(s))
    case Ended(id, reason) => Some(EndedCall(id, reason))
    case Pushed(sid, m) => Some(MessageCall(sid, m))
    case Raised(a) => Some(AttentionCall(a))
    case Resolved(id) => Some(AttentionResolvedCall(id))
    case InteractionDone(_, _) => None
  }

  /**
   * The legacy switch selects, for each tag it lists, the same handler as the
   * current client's switch; 'interaction:resolved' reaches no handler.
   */
  lemma LegacyDispatchSpec(e: LegacyEvent)
    ensures LegacyCallFor(e).None? <==> LegacyTag(e) == "interaction:resolved"
    ensures LegacyCallFor(e).Some? ==> ApiClient.HandlerForTag(LegacyTag(e)) == Some(LegacyHandlerOf(LegacyCallFor(e).value))
    ensures LegacyCallFor(e).Some? ==> LegacyHandlerOf(LegacyCallFor(e).value) != ApiClient.OnInteractionResolved
  {
  }

  /** The invocation a frame causes; malformed frames and unlisted tags cause none. */
  function LegacyHandleFrame(f: LegacyFrame, registered: set<ApiClient.Handler>): (c: Option<LegacyCall>)
    ensures c.Some? ==> f.Event? && Some(c.value) == LegacyCallFor(f.event) && LegacyHandlerOf(c.value) in registered
    ensures f.Event? && LegacyCallFor(f.event).Some? && LegacyHandlerOf(LegacyCallFor(f.event).value) in registered ==> c.Some?
  {
    match f
    case Event(e) =>
      var c := LegacyCallFor(e);
      if c.Some? && LegacyHandlerOf(c.value) in registered then c else None
    case _ => None
  }

  /** `baseUrl.replace(/\/$/, '')`: one trailing '/' removed. */
  function StripTrailingSlash(s: string): (r: string)
    ensures EndsWith(s, "/") ==> r + "/" == s
    ensures !EndsWith(s, "/") ==> r == s
  {
    if s != "" && s[|s| - 1] == '/' then s[..|s| - 1] else s
  }

  /** Only one slash is removed: 'http://host//' keeps one. */
  lemma StripOneSlashOnly()
    ensures StripTrailingSlash("http://h//") == "http://h/"
    ensures StripTrailingSlash("http://h") == "http://h"
  {
  }

  /** `s.replace(/^http/, 'ws')`: a leading 'http' (lower case only) becomes 'ws'. */
  function HttpToWs(s: string): (r: string)
    ensures StartsWith(s, "http") ==> r == "ws" + s[4..]
    ensures !StartsWith(s, "http") ==> r == s
  {
    if StartsWith(s, "http") then "ws" + s[4..] else s
  }

  /** The legacy socket URL: the base with its scheme rewritten, then '?token=' + token. */
  function LegacySocketUrl(baseUrl: string, token: string): (u: string)
    ensures EndsWith(u, "?token=" + token)
  {
    var u := HttpToWs(baseUrl) + "?token=" + token;
    assert u[|u| - |"?token=" + token|..] == "?token=" + token;
    u
  }

  lemma HttpPrefix(x: string)
    ensures HttpToWs("http" + x) == "ws" + x
  {
    assert ("http" + x)[..4] == "http" && ("http" + x)[4..] == x;
  }

  /** 'http' maps to 'ws' and 'https' to 'wss'. */
  lemma LegacySocketSchemes(rest: string, token: string)
    ensures LegacySocketUrl("http://" + rest, token) == "ws://" + rest + "?token=" + token
    ensures LegacySocketUrl("https://" + rest, token) == "wss://" + rest + "?token=" + token
  {
    assert "http://" + rest == "http" + ("://" + rest);
    HttpPrefix("://" + rest);
    assert "https://" + rest == "http" + ("s://" + rest);
    HttpPrefix("s://" + rest);
  }

  /** The match is case-sensitive: an upper-case scheme is left alone. */
  lemma LegacySocketUpperCase(rest: string, token: string)
    ensures LegacySocketUrl("HTTP://" + rest, token) == "HTTP://" + rest + "?token=" + token
  {
    assert ("HTTP://" + rest)[0] == 'H';
  }

  /** The legacy request: to base + path, with the same header merge as the current client. */
  function LegacyRequestFor(baseUrl: string, token: string, path: string, options: ApiClient.Options): (r: ApiClient.Request)
    ensures StartsWith(r.url, baseUrl) && r.url[|baseUrl|..] == path
    ensures r.verb == options.verb && r.body == options.body
    ensures r.headers == ApiClient.MergeHeaders(token, options.headers)
  {
    ApiClient.Request(baseUrl + path, options.verb, ApiClient.MergeHeaders(token, options.headers), options.body)
  }

  /** `error.error || 'Request failed'`, where a body that is not JSON reads as `{error: statusText}`. */
  function LegacyErrorMessage(body: ApiClient.ErrorBody, statusText: string): string {
    var e := match body
      case NotJson => statusText
      case Json(e) => e.GetOr("");
    if e == "" then "Request failed" else e
  }

  function LegacyFailure(r: ApiClient.Response): (m: Option<string>)
    ensures r.ok <==> m == None
  {
    if r.ok then None else Some(LegacyErrorMessage(r.body, r.statusText))
  }

  /**
   * The legacy message is a non-empty `error` field or non-empty status text,
   * and 'Request failed' exactly where the current client would report an empty
   * string or a missing field; otherwise both clients report the same message.
   */
  lemma LegacyErrorMessageSpec(r: ApiClient.Response)
    requires !r.ok
    ensures LegacyFailure(r).Some? && LegacyFailure(r).value != ""
    ensures r.body.Json? && r.body.error.Some? && r.body.error.value != "" ==> LegacyFailure(r) == Some(r.body.error.value)
    ensures r.body.NotJson? && r.statusText != "" ==> LegacyFailure(r) == Some(r.statusText)
    ensures ApiClient.Failure(r) == Some("") || r.body == ApiClient.Json(None) ==> LegacyFailure(r) == Some("Request failed")
    ensures ApiClient.Failure(r) != Some("") ==> LegacyFailure(r) == ApiClient.Failure(r)
  {
  }

  function LegacyInvokeIf(call: LegacyCall, registered: set<ApiClient.Handler>): seq<ApiClient.Effect<LegacyCall>> {
    if LegacyHandlerOf(call) in registered then [ApiClient.Invoked(call)] else []
  }

  class LegacyClient {
    var baseUrl: string
    var token: string
    var ws: Option<string>
    var handlers: set<ApiClient.Handler>
    var log: seq<ApiClient.Effect<LegacyCall>>

    constructor(baseUrl: string, token: string)
      ensures this.baseUrl == StripTrailingSlash(baseUrl) && this.token == token
      ensures ws == None && handlers == {} && log == []
    {
      this.baseUrl := StripTrailingSlash(baseUrl);
      this.token := token;
      ws := None;
      handlers := {};
      log := [];
    }

    method Subscribe(registered: set<ApiClient.Handler>)
      modifies this
      ensures handlers == registered && ws == Some(LegacySocketUrl(baseUrl, token))
      ensures baseUrl == old(baseUrl) && token == old(token) && log == old(log)
    {
      handlers := registered;
      ws := Some(LegacySocketUrl(baseUrl, token));
    }

    /**
     * `onopen`: `this.ws.send(...)` without a guard, so with no socket the call
     * throws before `onConnect` and nothing happens.
     */
    method OnOpen()
      modifies this
      ensures log == old(log) + (if ws.Some? then [ApiClient.Sent(ApiClient.SubscribeFrame)] + LegacyInvokeIf(Connected, handlers) else [])
      ensures baseUrl == old(baseUrl) && token == old(token) && ws == old(ws) && handlers == old(handlers)
    {
      if ws.Some? {
        log := log + [ApiClient.Sent(ApiClient.SubscribeFrame)] + LegacyInvokeIf(Connected, handlers);
      }
    }

    method OnClose()
      modifies this
      ensures log == old(log) + LegacyInvokeIf(Disconnected, handlers)
      ensures baseUrl == old(baseUrl) && token == old(token) && ws == old(ws) && handlers == old(handlers)
    {
      log := log + LegacyInvokeIf(Disconnected, handlers);
    }

    method OnSocketError()
      modifies this
      ensures log == old(log) + LegacyInvokeIf(Errored, handlers)
      ensures baseUrl == old(baseUrl) && token == old(token) && ws == old(ws) && handlers == old(handlers)
    {
      log := log + LegacyInvokeIf(Errored, handlers);
    }

    /** `onmessage`: a malformed frame is swallowed by the `catch`. */
    method OnSocketMessage(f: LegacyFrame)
      modifies this
      ensures var c := LegacyHandleFrame(f, handlers);
        log == old(log) + (if c.Some? then [ApiClient.Invoked(c.value)] else [])
      ensures baseUrl == old(baseUrl) && token == old(token) && ws == old(ws) && handlers == old(handlers)
    {
      var c := LegacyHandleFrame(f, handlers);
      if c.Some? {
        log := log + [ApiClient.Invoked(c.value)];
      }
    }

    /** The unsubscribe closure: closes and forgets the socket if there is one. */
    method Unsubscribe()
      modifies this
      ensures ws == None
      ensures log == old(log) + (if old(ws).Some? then [ApiClient.Closed] else [])
      ensures baseUrl == old(baseUrl) && token == old(token) && handlers == old(handlers)
    {
      if ws.Some? {
        log := log + [ApiClient.Closed];
        ws := None;
      }
    }
  }

  /** A second unsubscribe, and a malformed frame, add nothing to what the client did. */
  method LegacyUnsubscribeTwice(baseUrl: string, token: string, registered: set<ApiClient.Handler>) returns (c: LegacyClient)
    ensures c.log == [ApiClient.Closed] && c.ws == None
  {
    c := new LegacyClient(baseUrl, token);
    c.Subscribe(registered);
    c.OnSocketMessage(Malformed);
    c.Unsubscribe();
    c.Unsubscribe();
  }
}
