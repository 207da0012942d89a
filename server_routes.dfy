/**
 * The proxy's request routing (src/server/index.ts): which handler serves a
 * plain request and what happens to a connection upgrade. A missing URL is
 * `None`.
 */
module ServerRoutes {
  import opened Wrappers
  import opened Strings

  datatype Route = BrowseRoute | ApiProxyRoute | StaticRoute

  datatype UpgradeRoute = SocketProxy | DestroySocket

  /** `handleRequest`: '/api/browse' first, then '/api/', then static files; `req.url ?? '/'`. */
  function RouteFor(url: Option<string>): Route {
    var u := url.GetOr("/");
    if StartsWith(u, "/api/browse") then BrowseRoute
    else if StartsWith(u, "/api/") then ApiProxyRoute
    else StaticRoute
  }

  /** The `upgrade` listener: `req.url?.startsWith('/ws')`, so a missing URL is refused. */
  function UpgradeFor(url: Option<string>): UpgradeRoute {
    if url.Some? && StartsWith(url.value, "/ws") then SocketProxy else DestroySocket
  }

  lemma StartsWithChain(s: string, p: string, q: string)
    requires StartsWith(s, p + q)
    ensures StartsWith(s, p)
  {
    assert s[..|p|] == (p + q)[..|p|];
  }

  /**
   * The browse rule wins over the proxy rule, every other '/api/' URL is proxied,
   * and everything else (also a missing URL) is served statically.
   */
  lemma RouteSpec(url: Option<string>)
    ensures RouteFor(url) == BrowseRoute <==> url.Some? && StartsWith(url.value, "/api/browse")
    ensures RouteFor(url) == ApiProxyRoute <==>
      url.Some? && StartsWith(url.value, "/api/") && !StartsWith(url.value, "/api/browse")
    ensures RouteFor(url) == StaticRoute <==> url.None? || !StartsWith(url.value, "/api/")
  {
    var u := url.GetOr("/");
    if StartsWith(u, "/api/browse") {
      StartsWithChain(u, "/api/", "browse");
    }
    if url.None? {
      assert !StartsWith("/", "/api/browse") && !StartsWith("/", "/api/");
    }
  }

  /** Which URLs do not reach the handler one would guess: '/api/browsers' is browsed, '/api' is static. */
  lemma RouteExamples()
    ensures RouteFor(Some("/api/browse?path=/x")) == BrowseRoute
    ensures RouteFor(Some("/api/browsers")) == BrowseRoute
    ensures RouteFor(Some("/api")) == StaticRoute
    ensures RouteFor(Some("/api/sessions")) == ApiProxyRoute
  {
    assert "/api/browse?path=/x"[..11] == "/api/browse";
    assert "/api/browsers"[..11] == "/api/browse";
    assert "/api/sessions"[..5] == "/api/";
    assert "/api/sessions"[5] == 's';
  }

  /** Upgrades are proxied exactly for URLs starting '/ws'; all others are destroyed. */
  lemma UpgradeSpec(url: Option<string>)
    ensures UpgradeFor(url) == SocketProxy <==> url.Some? && StartsWith(url.value, "/ws")
    ensures UpgradeFor(None) == DestroySocket
  {
  }
}
