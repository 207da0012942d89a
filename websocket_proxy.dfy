/**
 * The proxy's WebSocket bridge (src/server/routes/websocket.ts). An upgrade
 * request from the browser is re-issued to the session service; the service
 * either accepts the upgrade, and the proxy writes the 101 reply of the
 * WebSocket server opening handshake (section 4.2.2 of RFC 6455) to the
 * browser's socket, or answers with an ordinary response, which is relayed
 * with the HTTP/1.1 message framing of section 2.1 of RFC 9112 (status line,
 * one field line per header, an empty line, the body).
 *
 * The browser's socket is an append-only sequence of writes; the bodies that
 * are piped through after the head are given as their chunks. Socket errors
 * and destruction are explicit events and flags.
 */
module WebSocketProxy {
  import opened Wrappers
  import opened Strings
  import opened Seqs

  const CRLF: string := "\r\n"

  /** A value of `IncomingMessage.headers`: absent, a string, or a list (as for `set-cookie`). */
  datatype HeaderValue = Undefined | Single(text: string) | Multiple(texts: seq<string>)

  datatype Header = Header(name: string, value: HeaderValue)

  predicate IsDefined(h: Header) { !h.value.Undefined? }

  /** `${value}`: a list is written comma-joined. */
  function ValueText(v: HeaderValue): string {
    match v
    case Undefined => "undefined"
    case Single(t) => t
    case Multiple(ts) => Join(ts, ',')
  }

  /** `${key}: ${value}\r\n`. */
  function HeaderLine(h: Header): (line: string)
    ensures StartsWith(line, h.name + ": ") && EndsWith(line, CRLF)
  {
    var line := h.name + ": " + ValueText(h.value) + CRLF;
    assert line[..|h.name + ": "|] == h.name + ": ";
    assert line[|line| - 2..] == CRLF;
    line
  }

  /** The header block: one line per defined header, in the order of `Object.entries`. */
  function FieldLines(hs: seq<Header>): seq<string> {
    if hs == [] then [] else (if IsDefined(hs[0]) then [HeaderLine(hs[0])] else []) + FieldLines(hs[1..])
  }

  lemma {:induction false} FieldLinesSnoc(hs: seq<Header>, h: Header)
    ensures FieldLines(hs + [h]) == FieldLines(hs) + (if IsDefined(h) then [HeaderLine(h)] else [])
  {
    if hs == [] {
      assert [] + [h] == [h];
      assert [h][1..] == [];
    } else {
      FieldLinesSnoc(hs[1..], h);
      assert (hs + [h])[1..] == hs[1..] + [h];
    }
  }

  /** The block is `filter(defined).map(line)`: the lines of the defined headers, in order. */
  lemma {:induction false} FieldLinesReference(hs: seq<Header>)
    ensures FieldLines(hs) == Map(Filter(hs, IsDefined), HeaderLine)
  {
    if hs != [] {
      FieldLinesReference(hs[1..]);
      var rest := Filter(hs[1..], IsDefined);
      assert Filter(hs, IsDefined) == (if IsDefined(hs[0]) then [hs[0]] else []) + rest;
      if IsDefined(hs[0]) {
        assert Map([hs[0]] + rest, HeaderLine) == [HeaderLine(hs[0])] + Map(rest, HeaderLine);
      } else {
        assert [] + rest == rest;
      }
    }
  }

  lemma FieldLinesStep(hs: seq<Header>, i: nat)
    requires i < |hs|
    ensures FieldLines(hs[..i + 1]) == FieldLines(hs[..i]) + (if IsDefined(hs[i]) then [HeaderLine(hs[i])] else [])
  {
    FieldLinesSnoc(hs[..i], hs[i]);
    assert hs[..i + 1] == hs[..i] + [hs[i]];
  }

  /** Every field line is the `name: value` line of a defined header, ended by CRLF. */
  lemma {:induction false} FieldLinesSound(hs: seq<Header>)
    ensures forall line :: line in FieldLines(hs) ==>
      EndsWith(line, CRLF) && exists h :: h in hs && IsDefined(h) && line == HeaderLine(h)
  {
    if hs != [] {
      FieldLinesSound(hs[1..]);
      forall line | line in FieldLines(hs)
        ensures exists h :: h in hs && IsDefined(h) && line == HeaderLine(h)
      {
        if line !in FieldLines(hs[1..]) {
          assert line == HeaderLine(hs[0]);
        } else {
          var h :| h in hs[1..] && IsDefined(h) && line == HeaderLine(h);
          assert h in hs;
        }
      }
    }
  }

  /** No defined header is skipped. */
  lemma {:induction false} FieldLinesComplete(hs: seq<Header>)
    ensures forall h :: h in hs && IsDefined(h) ==> HeaderLine(h) in FieldLines(hs)
  {
    if hs != [] {
      FieldLinesComplete(hs[1..]);
      forall h | h in hs && IsDefined(h) ensures HeaderLine(h) in FieldLines(hs) {
        if h != hs[0] {
          assert h in hs[1..];
        }
      }
    }
  }

  /** Headers that are all undefined give no field line at all. */
  lemma {:induction false} FieldLinesNone(hs: seq<Header>)
    requires forall h :: h in hs ==> !IsDefined(h)
    ensures FieldLines(hs) == []
  {
    if hs != [] {
      assert forall h :: h in hs[1..] ==> h in hs;
      FieldLinesNone(hs[1..]);
    }
  }

  /** The request the proxy sends to the service. `token` is the `token` query parameter, if any. */
  datatype UpgradeRequest = UpgradeRequest(hostname: string, port: string, path: string, verb: string,
                                           headers: map<string, string>)

  /** `{...req.headers, host, connection: 'Upgrade', upgrade: 'websocket'}`. */
  function UpgradeHeaders(incoming: map<string, string>, backendHost: string): (h: map<string, string>)
    ensures h.Keys == incoming.Keys + {"host", "connection", "upgrade"}
    ensures h["host"] == backendHost && h["connection"] == "Upgrade" && h["upgrade"] == "websocket"
    ensures forall k :: k in incoming && k !in {"host", "connection", "upgrade"} ==> h[k] == incoming[k]
  {
    incoming + map["host" := backendHost, "connection" := "Upgrade", "upgrade" := "websocket"]
  }

  /**
   * The outbound request: GET '/?token=' + token (a missing token is written
   * 'null'), to the service's host name and port (80 when the URL has none).
   */
  function OutboundRequest(token: Option<string>, incoming: map<string, string>,
                           backendHost: string, backendHostname: string, backendPort: string): (r: UpgradeRequest)
    ensures r.verb == "GET" && r.path == "/?token=" + token.GetOr("null")
    ensures r.port == (if backendPort == "" then "80" else backendPort) && r.hostname == backendHostname
    ensures r.headers == UpgradeHeaders(incoming, backendHost)
  {
    UpgradeRequest(backendHostname, if backendPort == "" then "80" else backendPort,
                   "/?token=" + token.GetOr("null"), "GET", UpgradeHeaders(incoming, backendHost))
  }

  /**
   * A path `http.request` accepts: every character in U+0021..U+00FF. Any other
   * character (a space, a control character, anything above Latin-1) makes it
   * throw `ERR_UNESCAPED_CHARACTERS` synchronously.
   */
  predicate ValidRequestPath(p: string) {
    forall i :: 0 <= i < |p| ==> 0x21 <= p[i] as int <= 0xFF
  }

  /**
   * The token is interpolated as decoded by `searchParams.get`, so the outbound
   * path is accepted exactly when the token (or `null`) is: `?token=a%20b`
   * reaches `http.request` as `/?token=a b`.
   */
  lemma RequestPathValid(token: Option<string>, incoming: map<string, string>,
                         backendHost: string, backendHostname: string, backendPort: string)
    ensures ValidRequestPath(OutboundRequest(token, incoming, backendHost, backendHostname, backendPort).path)
        <==> ValidRequestPath(token.GetOr("null"))
  {
    var t := token.GetOr("null");
    var p := OutboundRequest(token, incoming, backendHost, backendHostname, backendPort).path;
    assert p == "/?token=" + t;
    if ValidRequestPath(t) {
      forall i | 0 <= i < |p| ensures 0x21 <= p[i] as int <= 0xFF {
        if i >= 8 {
          assert p[i] == t[i - 8];
        }
      }
    }
    if ValidRequestPath(p) {
      forall i | 0 <= i < |t| ensures 0x21 <= t[i] as int <= 0xFF {
        assert t[i] == p[i + 8];
      }
    }
  }

  /** A token with a space in it (`?token=a%20b`) gives a path `http.request` refuses. */
  lemma SpacedTokenRefused(incoming: map<string, string>, backendHost: string,
                           backendHostname: string, backendPort: string)
    ensures !ValidRequestPath(OutboundRequest(Some("a b"), incoming, backendHost, backendHostname, backendPort).path)
    ensures ValidRequestPath(OutboundRequest(None, incoming, backendHost, backendHostname, backendPort).path)
  {
    RequestPathValid(Some("a b"), incoming, backendHost, backendHostname, backendPort);
    RequestPathValid(None, incoming, backendHost, backendHostname, backendPort);
    assert "a b"[1] == ' ';
  }

  const SwitchingProtocols: string := "HTTP/1.1 101 Switching Protocols\r\n"

  /** `HTTP/1.1 ${statusCode} ${statusMessage}\r\n`. */
  function StatusLine(code: nat, message: string): string {
    "HTTP/1.1 " + NatToString(code) + " " + message + CRLF
  }

  /** Where the bridge is: waiting for the service, upgraded, or relaying a refusal. */
  datatype Phase = Waiting | Upgraded | Relayed

  /**
   * One bridged upgrade. `crashed` records an exception nothing catches, which
   * ends the proxy process: `http.request` refusing the path, or an `error`
   * event on the browser's socket before the upgrade listener attached one
   * (the server drops its own listener when it hands the socket over).
   */
  class Bridge {
    const request: UpgradeRequest
    /** Every `socket.write` to the browser, in order. */
    var written: seq<string>
    var phase: Phase
    var clientDestroyed: bool
    var backendDestroyed: bool
    var crashed: bool

    constructor(token: Option<string>, incoming: map<string, string>,
                backendHost: string, backendHostname: string, backendPort: string)
      ensures request == OutboundRequest(token, incoming, backendHost, backendHostname, backendPort)
      ensures written == [] && phase == Waiting && !clientDestroyed && !backendDestroyed
      ensures crashed == !ValidRequestPath(request.path)
    {
      request := OutboundRequest(token, incoming, backendHost, backendHostname, backendPort);
      written := [];
      phase := Waiting;
      clientDestroyed := false;
      backendDestroyed := false;
      crashed := !ValidRequestPath(OutboundRequest(token, incoming, backendHost, backendHostname, backendPort).path);
    }

    /** The loop over `proxyRes.headers`: one write per defined header. */
    method WriteFieldLines(hs: seq<Header>)
      modifies this`written
      ensures written == old(written) + FieldLines(hs)
    {
      ghost var start := written;
      var i := 0;
      while i < |hs|
        invariant 0 <= i <= |hs|
        invariant written == start + FieldLines(hs[..i])
      {
        FieldLinesStep(hs, i);
        if IsDefined(hs[i]) {
          var line := HeaderLine(hs[i]);
          assert start + FieldLines(hs[..i + 1]) == (start + FieldLines(hs[..i])) + [line];
          written := written + [line];
        }
        i := i + 1;
      }
      assert hs[..|hs|] == hs;
    }

    /** The service accepted the upgrade: the 101 head, then the handshake bytes it already sent, if any. */
    method OnUpgrade(hs: seq<Header>, head: string)
      modifies this
      ensures written == old(written) + [SwitchingProtocols] + FieldLines(hs) + [CRLF]
                         + (if |head| > 0 then [head] else [])
      ensures phase == Upgraded
      ensures clientDestroyed == old(clientDestroyed) && backendDestroyed == old(backendDestroyed)
      ensures crashed == old(crashed)
    {
      written := written + [SwitchingProtocols];
      WriteFieldLines(hs);
      written := written + [CRLF];
      if |head| > 0 {
        written := written + [head];
      }
      phase := Upgraded;
    }

    /** The service answered without upgrading: its status line, headers, blank line, then its body. */
    method OnResponse(code: nat, message: string, hs: seq<Header>, body: seq<string>)
      modifies this
      ensures written == old(written) + [StatusLine(code, message)] + FieldLines(hs) + [CRLF] + body
      ensures phase == Relayed
      ensures clientDestroyed == old(clientDestroyed) && backendDestroyed == old(backendDestroyed)
      ensures crashed == old(crashed)
    {
      written := written + [StatusLine(code, message)];
      WriteFieldLines(hs);
      written := written + [CRLF] + body;
      phase := Relayed;
    }

    /** The outbound request failed: the browser's socket is destroyed. */
    method OnRequestError()
      modifies this
      ensures clientDestroyed
      ensures written == old(written) && phase == old(phase) && backendDestroyed == old(backendDestroyed)
      ensures crashed == old(crashed)
    {
      clientDestroyed := true;
    }

    /** An error on the service's socket destroys the browser's; the listener exists only after the upgrade. */
    method OnBackendSocketError()
      modifies this
      ensures clientDestroyed == (old(clientDestroyed) || phase == Upgraded)
      ensures written == old(written) && phase == old(phase) && backendDestroyed == old(backendDestroyed)
      ensures crashed == old(crashed)
    {
      if phase == Upgraded {
        clientDestroyed := true;
      }
    }

    /**
     * An error on the browser's socket: after the upgrade it destroys the
     * service's; before it (and while a refusal is relayed) no listener
     * handles it and it is thrown.
     */
    method OnClientSocketError()
      modifies this
      ensures backendDestroyed == (old(backendDestroyed) || phase == Upgraded)
      ensures crashed == (old(crashed) || phase != Upgraded)
      ensures written == old(written) && phase == old(phase) && clientDestroyed == old(clientDestroyed)
    {
      if phase == Upgraded {
        backendDestroyed := true;
      } else {
        crashed := true;
      }
    }
  }

  /** The bytes the browser receives: all writes, concatenated. */
  function Bytes(ws: seq<string>): string {
    if ws == [] then "" else ws[0] + Bytes(ws[1..])
  }

  lemma {:induction false} BytesAppend(a: seq<string>, b: seq<string>)
    ensures Bytes(a + b) == Bytes(a) + Bytes(b)
  {
    if a != [] {
      BytesAppend(a[1..], b);
      assert (a + b)[1..] == a[1..] + b;
    } else {
      assert a + b == b;
    }
  }

  /** A head framed by a first and a last write. */
  lemma BytesFramed(first: string, middle: seq<string>, last: string, rest: seq<string>)
    ensures Bytes([first] + middle + [last] + rest) == first + Bytes(middle) + last + Bytes(rest)
  {
    BytesAppend([first] + middle + [last], rest);
    BytesAppend([first] + middle, [last]);
    BytesAppend([first], middle);
    assert Bytes([last]) == last + Bytes([]);
    assert Bytes([first]) == first + Bytes([]);
  }

  /**
   * An accepted upgrade gives the browser exactly the 101 status line, the field
   * lines, the empty line and the head: skipping an empty head changes no byte.
   */
  lemma UpgradeBytes(hs: seq<Header>, head: string)
    ensures Bytes([SwitchingProtocols] + FieldLines(hs) + [CRLF] + (if |head| > 0 then [head] else []))
         == SwitchingProtocols + Bytes(FieldLines(hs)) + CRLF + head
  {
    BytesFramed(SwitchingProtocols, FieldLines(hs), CRLF, if |head| > 0 then [head] else []);
    if |head| > 0 {
      assert Bytes([head]) == head + Bytes([]);
    } else {
      assert head == "";
    }
  }

  /** A relayed response gives the status line, the field lines, the empty line and the body's bytes. */
  lemma ResponseBytes(code: nat, message: string, hs: seq<Header>, body: seq<string>)
    ensures Bytes([StatusLine(code, message)] + FieldLines(hs) + [CRLF] + body)
         == StatusLine(code, message) + Bytes(FieldLines(hs)) + CRLF + Bytes(body)
  {
    BytesFramed(StatusLine(code, message), FieldLines(hs), CRLF, body);
  }

  /** The status line of a relayed response reads back as its code. */
  lemma StatusLineCode(code: nat, message: string)
    ensures StartsWith(StatusLine(code, message), "HTTP/1.1 ")
    ensures var digits := NatToString(code);
      StatusLine(code, message)[9..9 + |digits|] == digits && DigitsValue(digits) == code
  {
    NatToStringRoundTrip(code);
    var line := StatusLine(code, message);
    assert line[..9] == "HTTP/1.1 ";
  }
}
