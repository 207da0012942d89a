/**
 * The backend client of the current web app (src/api/client.ts): request
 * construction and error extraction of its `fetch`, the browse URL, and the
 * push-event socket as an object whose fields are the token, the socket, the
 * registered handlers and the log of what the client did.
 *
 * The network is not modelled: a request is a record, a response is an input,
 * and each socket callback (open, message, close, error) is a method the
 * environment calls. `JSON.parse` is not modelled either: a frame arrives
 * already classified as malformed, as one of the seven events, or as an
 * object whose `type` is none of the seven tags.
 */
module ApiClient {
  import opened Wrappers
  import opened Strings
  import opened SessionTypes
  import opened ApiTypes

  // ---------------------------------------------------------------------------
  // Requests and error messages
  // ---------------------------------------------------------------------------

  /** The parts of `RequestInit` the client passes through or merges. */
  datatype Options = Options(verb: Option<string>, headers: map<string, string>, body: Option<string>)

  datatype Request = Request(url: string, verb: Option<string>, headers: map<string, string>, body: Option<string>)

  /** The two headers every request carries unless the caller overrides them. */
  function DefaultHeaders(token: string): (h: map<string, string>)
    ensures h.Keys == {"Content-Type", "Authorization"}
    ensures h["Content-Type"] == "application/json" && h["Authorization"] == "Bearer " + token
  {
    map["Content-Type" := "application/json", "Authorization" := "Bearer " + token]
  }

  /** `{...defaults, ...extra}`: a header the caller supplies wins. */
  function MergeHeaders(token: string, extra: map<string, string>): (h: map<string, string>)
    ensures h.Keys == DefaultHeaders(token).Keys + extra.Keys
    ensures forall k :: k in extra ==> h[k] == extra[k]
    ensures forall k :: k in DefaultHeaders(token) && k !in extra ==> h[k] == DefaultHeaders(token)[k]
  {
    DefaultHeaders(token) + extra
  }

  /** The request `fetch(path, options)` sends: to '/api' + path, method and body passed through. */
  function RequestFor(token: string, path: string, options: Options): (r: Request)
    ensures StartsWith(r.url, "/api") && r.url[4..] == path
    ensures r.verb == options.verb && r.body == options.body
    ensures r.headers == MergeHeaders(token, options.headers)
  {
    Request("/api" + path, options.verb, MergeHeaders(token, options.headers), options.body)
  }

  /**
   * A response body as `res.json()` sees it on a failed request: not JSON at
   * all, or a JSON object whose `error` field is a string or is missing/null.
   */
  datatype ErrorBody = NotJson | Json(error: Option<string>)

  datatype Response = Response(ok: bool, statusText: string, body: ErrorBody)

  /** `error.error ?? 'Request failed'`, where a body that is not JSON reads as `{error: statusText}`. */
  function ErrorMessage(body: ErrorBody, statusText: string): string {
    match body
    case NotJson => statusText
    case Json(e) => e.GetOr("Request failed")
  }

  /** What a finished request yields: nothing to report for an OK response, otherwise the thrown message. */
  function Failure(r: Response): (m: Option<string>)
    ensures r.ok <==> m == None
  {
    if r.ok then None else Some(ErrorMessage(r.body, r.statusText))
  }

  /**
   * The error message is the body's `error` field whenever it has one (even an
   * empty one), the status text when the body is not JSON, and 'Request failed'
   * only when the JSON has no `error`.
   */
  lemma ErrorMessageSpec(r: Response)
    requires !r.ok
    ensures r.body.Json? && r.body.error.Some? ==> Failure(r) == Some(r.body.error.value)
    ensures r.body.NotJson? ==> Failure(r) == Some(r.statusText)
    ensures r.body == Json(None) ==> Failure(r) == Some("Request failed")
    ensures Failure(r) == Some("Request failed") ==>
      r.body == Json(None) || r.body == Json(Some("Request failed")) || (r.body.NotJson? && r.statusText == "Request failed")
  {
  }

  /**
   * `browse(path)` asks for '/browse' without a path, and for
   * '/browse?path=' + encode(path) otherwise. `encode` is `encodeURIComponent`.
   */
  function BrowsePath(path: string, encode: string -> string): (p: string)
    ensures path == "" ==> p == "/browse"
    ensures path != "" ==> StartsWith(p, "/browse?path=") && p[13..] == encode(path)
  {
    if path == "" then "/browse" else "/browse?path=" + encode(path)
  }

  /** The request of `browse(path)`: a plain GET to '/api/browse…' with the default headers. */
  lemma BrowseRequest(token: string, path: string, encode: string -> string)
    ensures var r := RequestFor(token, BrowsePath(path, encode), Options(None, map[], None));
      && (path == "" ==> r.url == "/api/browse")
      && (path != "" ==> r.url == "/api/browse?path=" + encode(path))
      && r.verb == None && r.headers == DefaultHeaders(token)
  {
    var r := RequestFor(token, BrowsePath(path, encode), Options(None, map[], None));
    assert r.headers == DefaultHeaders(token) + map[];
  }

  // ---------------------------------------------------------------------------
  // Push events
  // ---------------------------------------------------------------------------

  /** The callbacks of `WebSocketHandlers`; any of them may be absent. */
  datatype Handler =
    | OnConnect | OnDisconnect | OnError
    | OnSessionCreated | OnSessionUpdated | OnSessionEnded | OnMessage
    | OnAttention | OnAttentionResolved | OnInteractionResolved

  /** One callback invocation with its arguments. */
  datatype Call =
    | Connected
    | Disconnected
    | Errored
    | CreatedCall(session: Session, tempId: string)
    | UpdatedCall(session: Session)
    | EndedCall(sessionId: string, reason: Option<string>)
    | MessageCall(sessionId: string, message: Message)
    | AttentionCall(attention: Attention)
    | AttentionResolvedCall(attentionId: string)
    | InteractionResolvedCall(sessionId: string, interaction: ResolvedInteraction)

  function HandlerOf(c: Call): Handler {
    match c
    case Connected => OnConnect
    case Disconnected => OnDisconnect
    case Errored => OnError
    case CreatedCall(_, _) => OnSessionCreated
    case UpdatedCall(_) => OnSessionUpdated
    case EndedCall(_, _) => OnSessionEnded
    case MessageCall(_, _) => OnMessage
    case AttentionCall(_) => OnAttention
    case AttentionResolvedCall(_) => OnAttentionResolved
    case InteractionResolvedCall(_, _) => OnInteractionResolved
  }

  /** The `case` labels of `handleEvent`'s switch: the handler each tag selects. */
  function HandlerForTag(tag: string): Option<Handler> {
    if tag == "session:created" then Some(OnSessionCreated)
    else if tag == "session:updated" then Some(OnSessionUpdated)
    else if tag == "session:ended" then Some(OnSessionEnded)
    else if tag == "session:message" then Some(OnMessage)
    else if tag == "attention:requested" then Some(OnAttention)
    else if tag == "attention:resolved" then Some(OnAttentionResolved)
    else if tag == "interaction:resolved" then Some(OnInteractionResolved)
    else None
  }

  /** The invocation `handleEvent` makes for an event, carrying the event's fields. */
  function CallFor(e: WsEvent): Call {
    match e
    case SessionCreated(s, t) => CreatedCall(s, t)
    case SessionUpdated(s) => UpdatedCall(s)
    case SessionEnded(id, reason) => EndedCall(id, reason)
    case SessionMessage(sid, m) => MessageCall(sid, m)
    case AttentionRequested(a) => AttentionCall(a)
    case AttentionResolved(id) => AttentionResolvedCall(id)
    case InteractionResolved(sid, it) => InteractionResolvedCall(sid, it)
  }

  /** The event an event callback's arguments came from (none for the socket's own callbacks). */
  function EventOf(c: Call): Option<WsEvent> {
    match c
    case CreatedCall(s, t) => Some(SessionCreated(s, t))
    case UpdatedCall(s) => Some(SessionUpdated(s))
    case EndedCall(id, reason) => Some(SessionEnded(id, reason))
    case MessageCall(sid, m) => Some(SessionMessage(sid, m))
    case AttentionCall(a) => Some(AttentionRequested(a))
    case AttentionResolvedCall(id) => Some(AttentionResolved(id))
    case InteractionResolvedCall(sid, it) => Some(InteractionResolved(sid, it))
    case _ => None
  }

  /**
   * Each of the seven tags selects exactly one handler, no two tags the same one,
   * and the invocation for an event is that handler with all of the event's fields.
   */
  lemma DispatchSpec(e: WsEvent, tag: string)
    ensures HandlerForTag(Tag(e)) == Some(HandlerOf(CallFor(e)))
    ensures EventOf(CallFor(e)) == Some(e)
    ensures HandlerForTag(tag).Some? && HandlerForTag(tag) == HandlerForTag(Tag(e)) ==> tag == Tag(e)
    ensures HandlerOf(CallFor(e)) !in {OnConnect, OnDisconnect, OnError}
  {
  }

  /** A frame as `JSON.parse` left it. */
  datatype Frame =
    | Malformed
    | Event(event: WsEvent)
    | Unlisted(tag: string)

  /** The invocation a frame causes, given which callbacks are registered. */
  function HandleFrame(f: Frame, registered: set<Handler>): (c: Option<Call>)
    ensures c.Some? ==> f.Event? && c.value == CallFor(f.event) && HandlerOf(c.value) in registered
    ensures f.Event? && HandlerOf(CallFor(f.event)) in registered ==> c.Some?
  {
    match f
    case Event(e) => if HandlerOf(CallFor(e)) in registered then Some(CallFor(e)) else None
    case _ => None
  }

  /** What the client does that others can see, in order. */
  datatype Effect<C> = Sent(text: string) | Closed | Invoked(call: C)

  /** `JSON.stringify({ type: 'subscribe' })`. */
  const SubscribeFrame: string := "{\"type\":\"subscribe\"}"

  /** `${wsProtocol}//${location.host}/ws?token=${token}`. */
  function SocketUrl(secure: bool, host: string, token: string): (u: string)
    ensures StartsWith(u, if secure then "wss://" else "ws://")
    ensures EndsWith(u, "/ws?token=" + token)
  {
    var scheme := if secure then "wss:" else "ws:";
    var u := scheme + "//" + host + "/ws?token=" + token;
    assert u[|u| - |"/ws?token=" + token|..] == "/ws?token=" + token;
    u
  }

  /** The log entry of an invocation, when its callback is registered. */
  function InvokeIf(call: Call, registered: set<Handler>): seq<Effect<Call>> {
    if HandlerOf(call) in registered then [Invoked(call)] else []
  }

  class Client {
    var token: string
    /** The socket `subscribe` opened, by its URL, until it is closed. */
    var ws: Option<string>
    var handlers: set<Handler>
    var log: seq<Effect<Call>>

    constructor(token: string)
      ensures this.token == token && ws == None && handlers == {} && log == []
    {
      this.token := token;
      ws := None;
      handlers := {};
      log := [];
    }

    /** `subscribe(handlers)`: records the handlers and opens the socket. */
    method Subscribe(registered: set<Handler>, secure: bool, host: string)
      modifies this
      ensures handlers == registered && ws == Some(SocketUrl(secure, host, token))
      ensures token == old(token) && log == old(log)
    {
      handlers := registered;
      ws := Some(SocketUrl(secure, host, token));
    }

    /** `onopen`: the subscribe frame, then `onConnect`. */
    method OnOpen()
      modifies this
      ensures log == old(log) + (if ws.Some? then [Sent(SubscribeFrame)] else []) + InvokeIf(Connected, handlers)
      ensures token == old(token) && ws == old(ws) && handlers == old(handlers)
    {
      if ws.Some? {
        log := log + [Sent(SubscribeFrame)];
      }
      log := log + InvokeIf(Connected, handlers);
    }

    /** `onclose`. */
    method OnClose()
      modifies this
      ensures log == old(log) + InvokeIf(Disconnected, handlers)
      ensures token == old(token) && ws == old(ws) && handlers == old(handlers)
    {
      log := log + InvokeIf(Disconnected, handlers);
    }

    /** `onerror`. */
    method OnSocketError()
      modifies this
      ensures log == old(log) + InvokeIf(Errored, handlers)
      ensures token == old(token) && ws == old(ws) && handlers == old(handlers)
    {
      log := log + InvokeIf(Errored, handlers);
    }

    /**
     * `onmessage`: parse, then `handleEvent`. A malformed frame is dropped: no
     * callback, no frame sent, the socket stays open.
     */
    method OnSocketMessage(f: Frame)
      modifies this
      ensures var c := HandleFrame(f, handlers);
        log == old(log) + (if c.Some? then [Invoked(c.value)] else [])
      ensures token == old(token) && ws == old(ws) && handlers == old(handlers)
    {
      var c := HandleFrame(f, handlers);
      if c.Some? {
        log := log + [Invoked(c.value)];
      }
    }

    /** The closure `subscribe` returns: closes the socket if there is one. */
    method Unsubscribe()
      modifies this
      ensures ws == None
      ensures log == old(log) + (if old(ws).Some? then [Closed] else [])
      ensures token == old(token) && handlers == old(handlers)
    {
      if ws.Some? {
        log := log + [Closed];
        ws := None;
      }
    }

    /** `disconnect()`: `ws?.close()`, then `ws = null`. */
    method Disconnect()
      modifies this
      ensures ws == None
      ensures log == old(log) + (if old(ws).Some? then [Closed] else [])
      ensures token == old(token) && handlers == old(handlers)
    {
      if ws.Some? {
        log := log + [Closed];
      }
      ws := None;
    }
  }

  /** Opening sends the subscribe frame before `onConnect` runs; a second close does nothing. */
  method SubscribeLifecycle(token: string, registered: set<Handler>, secure: bool, host: string)
    returns (c: Client)
    requires OnConnect in registered
    ensures c.log == [Sent(SubscribeFrame), Invoked(Connected), Closed]
    ensures c.ws == None
  {
    c := new Client(token);
    c.Subscribe(registered, secure, host);
    c.OnOpen();
    c.OnSocketMessage(Malformed);
    assert c.ws.Some? && c.log == [Sent(SubscribeFrame), Invoked(Connected)];
    c.Unsubscribe();
    c.Disconnect();
    c.Unsubscribe();
  }
}
