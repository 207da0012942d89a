/**
 * The proxy's forwarding of REST calls to the session service
 * (src/server/routes/api-proxy.ts): the outbound request is a record built
 * from the inbound one, and the caller's response is an object that the
 * backend's response and error callbacks write to. Streaming the bodies
 * through (`pipe`) is not modelled.
 */
module ApiProxy {
  import opened Wrappers
  import opened Strings

  /** The inbound request: URL and method may be missing; header names are lower case. */
  datatype Inbound = Inbound(url: Option<string>, verb: Option<string>, headers: map<string, string>)

  datatype Outbound = Outbound(path: string, verb: Option<string>, headers: map<string, string>)

  /** `req.url?.replace(/^\/api/, '') ?? '/'`. */
  function BackendPath(url: Option<string>): (p: string)
    ensures url.None? ==> p == "/"
    ensures url.Some? && StartsWith(url.value, "/api") ==> "/api" + p == url.value
    ensures url.Some? && !StartsWith(url.value, "/api") ==> p == url.value
  {
    match url
    case None => "/"
    case Some(u) => if StartsWith(u, "/api") then u[4..] else u
  }

  /** Only one leading '/api' goes: '/api/api/x' keeps the second. */
  lemma BackendPathOnce()
    ensures BackendPath(Some("/api/api/x")) == "/api/x"
    ensures BackendPath(Some("/api/sessions")) == "/sessions"
  {
    assert "/api/api/x"[..4] == "/api";
    assert "/api/sessions"[..4] == "/api";
  }

  /** The outbound request: path rewritten, method kept, `host` set to the backend's. */
  function OutboundFor(req: Inbound, backendHost: string): (o: Outbound)
    ensures o.path == BackendPath(req.url) && o.verb == req.verb
    ensures o.headers.Keys == req.headers.Keys + {"host"} && o.headers["host"] == backendHost
    ensures forall k :: k in req.headers && k != "host" ==> o.headers[k] == req.headers[k]
  {
    Outbound(BackendPath(req.url), req.verb, req.headers["host" := backendHost])
  }

  const BackendUnavailable: string := "{\"error\":\"Backend unavailable\"}"

  /**
   * The caller's response: its head once written, and what was ended with.
   * `crashed` records that a callback called `writeHead` on a reply whose
   * head was already written: Node throws there, nothing catches it, and the
   * proxy process ends.
   */
  class Reply {
    var status: Option<int>
    var headers: map<string, string>
    var body: Option<string>
    var crashed: bool

    constructor()
      ensures status == None && headers == map[] && body == None && !crashed
    {
      status := None;
      headers := map[];
      body := None;
      crashed := false;
    }

    /**
     * The backend answered: its status (500 when it has none) and headers are
     * copied. A second head throws.
     */
    method OnBackendResponse(code: Option<int>, backendHeaders: map<string, string>)
      modifies this
      ensures old(status).None? ==> status == Some(code.GetOr(500)) && headers == backendHeaders
      ensures old(status).Some? ==> status == old(status) && headers == old(headers)
      ensures body == old(body)
      ensures crashed == (old(crashed) || old(status).Some?)
    {
      if status.None? {
        status := Some(code.GetOr(500));
        headers := backendHeaders;
      } else {
        crashed := true;
      }
    }

    /**
     * The outbound request failed: 502 with the JSON error. Once a head was
     * written, `writeHead(502)` throws: the reply stays as it was and the
     * process crashes.
     */
    method OnBackendError()
      modifies this
      ensures old(status).None? ==> status == Some(502) && headers == old(headers) && body == Some(BackendUnavailable)
      ensures old(status).Some? ==> status == old(status) && headers == old(headers) && body == old(body)
      ensures crashed == (old(crashed) || old(status).Some?)
    {
      if status.None? {
        status := Some(502);
        body := Some(BackendUnavailable);
      } else {
        crashed := true;
      }
    }
  }

  /** A backend that fails before answering makes the caller see 502 and the error body. */
  method FailedForward() returns (r: Reply)
    ensures r.status == Some(502) && r.body == Some(BackendUnavailable) && !r.crashed
  {
    r := new Reply();
    r.OnBackendError();
  }

  /**
   * A backend that answers and then drops the connection (a reset while the
   * body streams) reaches the error listener after the head was written: the
   * caller keeps the backend's status and the proxy process crashes.
   */
  method ResetAfterHead(code: Option<int>, backendHeaders: map<string, string>) returns (r: Reply)
    ensures r.status == Some(code.GetOr(500)) && r.headers == backendHeaders && r.body == None
    ensures r.crashed
  {
    r := new Reply();
    r.OnBackendResponse(code, backendHeaders);
    r.OnBackendError();
  }
}
