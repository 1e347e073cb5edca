/**
  The string decisions of the local HTTPS proxy: the callback authority
  (`connectstring`), host matching, request routing, CONNECT target
  selection, the status replies, and the close-once `terminate`. Sockets,
  TLS, forwarding and certificate files are not modelled; a parsed callback
  URL is given as the fields url.parse yields.
 */
module Proxy {
  import opened Wrappers
  import opened Text
  import opened Http

  const ThanksMessage := "Thanks. I got the required code. This window will be closed shortly."
  const ForbiddenMessage := "Forbidden"
  const NotOperationalPrefix := "not operational. ignoring request to "


  /** The fields of url.parse(callbackUrl) the proxy uses; None is JavaScript null. */
  datatype ParsedUrl = ParsedUrl(protocol: Option<string>, hostname: Option<string>, port: Option<string>)

  /** Template-literal rendering of a possibly-null string. */
  function NullableText(s: Option<string>): (t: string)
    ensures s.Some? ==> t == s.value
    ensures s.None? ==> t == "null"
  {
    if s.Some? then s.value else "null"
  }

  /** The default port of the scheme: "80" for http:, "443" (https) for anything else. */
  function SchemePort(protocol: Option<string>): (p: string)
    ensures p == "80" <==> protocol == Some("http:")
    ensures p != "80" ==> p == "443"
  {
    if protocol == Some("http:") then "80" else "443"
  }

  /** The port the callback authority uses: an explicit non-empty port, else the scheme's default. */
  function EffectivePort(u: ParsedUrl): (p: string)
    ensures u.port.Some? && u.port.value != "" ==> p == u.port.value
    ensures u.port.None? || u.port.value == "" ==> p == SchemePort(u.protocol)
  {
    if u.port.Some? && u.port.value != "" then u.port.value else SchemePort(u.protocol)
  }

  /**
    `${hostname}:${port || (protocol === 'http:' ? 80 : 443)}`. When neither the
    hostname nor an explicit port holds a colon, splitting on ':' gives back
    the hostname (or 'null') and the port (explicit, else the scheme's default).
   */
  function ConnectString(u: ParsedUrl): (cs: string)
    ensures (u.hostname.Some? ==> ':' !in u.hostname.value) && (u.port.Some? ==> ':' !in u.port.value) ==>
              Split(cs, ':') == [if u.hostname.Some? then u.hostname.value else "null",
                                 if u.port.Some? && u.port.value != "" then u.port.value
                                 else if u.protocol == Some("http:") then "80" else "443"]
  {
    var host, port := NullableText(u.hostname), EffectivePort(u);
    DefaultsHaveNoColon();
    if ':' !in host && ':' !in port then
      SplitAfterPiece(host, port, ':');
      assert Split(port, ':') == [port];
      host + ":" + port
    else
      host + ":" + port
  }

  lemma DefaultsHaveNoColon()
    ensures ':' !in "null" && ':' !in "80" && ':' !in "443"
  {
    assert "null" == ['n', 'u', 'l', 'l'] && "80" == ['8', '0'] && "443" == ['4', '4', '3'];
  }

  function DefaultPort(isSecure: bool): string
  {
    if isSecure then "443" else "80"
  }

  /** _isCallback: a host without a colon gets the default port appended, then it must equal the connect string. */
  function IsCallback(connectString: string, hostPort: string, isSecure: bool): (b: bool)
    ensures ':' in hostPort ==> (b <==> connectString == hostPort)
    ensures ':' !in hostPort ==> (b <==> connectString == hostPort + ":" + DefaultPort(isSecure))
  {
    var full := if FirstIndex(hostPort, ':') == |hostPort| then hostPort + ":" + DefaultPort(isSecure) else hostPort;
    connectString == full
  }

  /** A browser's Host header for an https callback on its default port is recognised. */
  lemma HttpsDefaultPortIsCallback(host: string, port: Option<string>)
    requires ':' !in host
    requires port.None? || port == Some("")
    ensures IsCallback(ConnectString(ParsedUrl(Some("https:"), Some(host), port)), host, true)
  {
  }

  /** With an explicit port, the Host header "host:port" is recognised whatever the scheme. */
  lemma ExplicitPortIsCallback(protocol: Option<string>, host: string, port: string, isSecure: bool)
    requires port != ""
    ensures IsCallback(ConnectString(ParsedUrl(protocol, Some(host), Some(port))), host + ":" + port, isSecure)
  {
    assert ':' in host + ":" + port by { assert (host + ":" + port)[|host|] == ':'; }
  }

  /**
    Requests are matched with isSecure set, so for an http: callback without
    a port the bare Host header is not the callback; only "host:80" is.
   */
  lemma HttpDefaultPortNeedsExplicitPort(host: string)
    requires ':' !in host
    ensures !IsCallback(ConnectString(ParsedUrl(Some("http:"), Some(host), None)), host, true)
    ensures IsCallback(ConnectString(ParsedUrl(Some("http:"), Some(host), None)), host + ":80", true)
  {
    var cs := ConnectString(ParsedUrl(Some("http:"), Some(host), None));
    assert cs == host + ":80";
    assert (host + ":80")[|host|] == ':';
    assert cs[|host| + 1] == '8';
    assert (host + ":443")[|host| + 1] == '4';
  }

  // -------------------------------------------------------------- replies

  /** sendStatus: Content-Length is the UTF-8 byte length of the message, Content-Type text/plain. */
  function SendStatus(status: nat, message: string): (r: Reply)
    ensures r.status == status && r.body == message
    ensures |r.headers| == 2 && r.headers[0].0 == "Content-Length" && r.headers[1] == ("Content-Type", "text/plain")
    ensures forall i :: 0 <= i < |r.headers[0].1| ==> IsDigit(r.headers[0].1[i])
    ensures ParseNat(r.headers[0].1) == Utf8Length(message)
  {
    ParseNatToString(Utf8Length(message));
    Reply(status, [("Content-Length", NatToString(Utf8Length(message))), ("Content-Type", "text/plain")], message)
  }

  /** For an ASCII message the byte length is the character count; otherwise it is larger. */
  lemma ContentLengthOfAscii(status: nat, message: string)
    ensures IsAscii(message) <==> ParseNat(SendStatus(status, message).headers[0].1) == |message|
    ensures |message| <= ParseNat(SendStatus(status, message).headers[0].1) <= 4 * |message|
  {
    Utf8LengthBounds(message);
  }

  /** The Content-Length of a message is the sum over its parts. */
  lemma ContentLengthOfConcat(status: nat, prefix: string, rest: string)
    ensures ParseNat(SendStatus(status, prefix + rest).headers[0].1)
            == Utf8Length(prefix) + Utf8Length(rest)
  {
    Utf8LengthConcat(prefix, rest);
  }

  // -------------------------------------------------------------- routing

  datatype RequestAction =
    | DeliverCallback(url: string)  // dataCallback(request.url), then 200
    | Blocked                       // 403 for a host that is not fully qualified
    | Forward(url: string)                        // proxied with http.request
    | HostMissing                                 // no Host header: hostPort.indexOf throws

  /** _onRequest: the callback check first, then the fully-qualified check, then forwarding. */
  function OnRequest(connectString: string, host: Option<string>, url: string): (r: RequestAction)
    ensures r.HostMissing? <==> host.None?
    ensures host.Some? ==> (r.DeliverCallback? <==> IsCallback(connectString, host.value, true))
    ensures r.DeliverCallback? ==> r.url == url
    ensures host.Some? && !IsCallback(connectString, host.value, true) ==>
              (r.Blocked? <==> host.value != "localhost" && '.' !in host.value)
    ensures r.Forward? ==> r.url == url && host.Some? && (host.value == "localhost" || '.' in host.value)
  {
    if host.None? then HostMissing
    else if IsCallback(connectString, host.value, true) then DeliverCallback(url)
    else if host.value != "localhost" && FirstIndex(host.value, '.') == |host.value| then Blocked
    else Forward(url)
  }

  /** The callback test comes first: a callback host without a dot is delivered, not blocked. */
  lemma CallbackBeforeForbidden(host: string, url: string)
    requires ':' !in host && '.' !in host && host != "localhost"
    ensures OnRequest(host + ":443", Some(host), url) == DeliverCallback(url)
    ensures OnRequest(host + ":80", Some(host), url) == Blocked
  {
    assert (host + ":80")[|host| + 1] == '8';
    assert (host + ":443")[|host| + 1] == '4';
    assert host + ":80" != host + ":443";
  }

  /** The reply _onRequest sends itself: the thanks message for a callback, 'Forbidden' for a blocked host. */
  function ImmediateReply(a: RequestAction): (r: Option<Reply>)
    ensures r.Some? <==> a.DeliverCallback? || a.Blocked?
    ensures a.DeliverCallback? ==> r.value.status == 200 && r.value.body == ThanksMessage
    ensures a.Blocked? ==> r.value.status == 403 && r.value.body == ForbiddenMessage
    ensures r.Some? ==> |r.value.headers| == 2 && r.value.headers[1] == ("Content-Type", "text/plain")
    ensures r.Some? ==> r.value.headers[0].0 == "Content-Length" &&
                        (forall i :: 0 <= i < |r.value.headers[0].1| ==> IsDigit(r.value.headers[0].1[i])) &&
                        ParseNat(r.value.headers[0].1) == Utf8Length(r.value.body)
  {
    match a
    case DeliverCallback(_) => Some(SendStatus(200, ThanksMessage))
    case Blocked => Some(SendStatus(403, ForbiddenMessage))
    case _ => None
  }

  /** The reply sent when forwarding a request fails. */
  function ForwardFailedReply(url: string): (r: Reply)
    ensures r.status == 502 && r.body == NotOperationalPrefix + url
    ensures |r.headers| == 2 && r.headers[0].0 == "Content-Length" && r.headers[1] == ("Content-Type", "text/plain")
    ensures forall i :: 0 <= i < |r.headers[0].1| ==> IsDigit(r.headers[0].1[i])
    ensures ParseNat(r.headers[0].1) == Utf8Length(NotOperationalPrefix) + Utf8Length(url)
  {
    Utf8LengthConcat(NotOperationalPrefix, url);
    SendStatus(502, NotOperationalPrefix + url)
  }

  // -------------------------------------------------------------- CONNECT

  datatype TunnelTarget =
    | SelfTarget(address: string, listenPort: nat)      // the proxy's own listening address
    | Remote(host: string, remotePort: Option<string>)  // split(':', 2) of the request URL

  /** The first piece of a split runs up to the first separator. */
  lemma SplitFirstPiece(s: string, sep: char)
    ensures Split(s, sep)[0] == s[..FirstIndex(s, sep)]
  {
  }

  /** With a separator, the first two split pieces and the separator between them are a prefix. */
  lemma SplitFirstTwo(s: string, sep: char)
    requires sep in s
    ensures |Split(s, sep)| >= 2 && Split(s, sep)[0] + [sep] + Split(s, sep)[1] <= s
  {
    var k := FirstIndex(s, sep);
    var head, rest := s[..k], s[k + 1..];
    assert sep !in head by {
      forall i | 0 <= i < k ensures head[i] != sep { }
    }
    assert s == head + [sep] + rest;
    SplitAfterPiece(head, rest, sep);
    SplitFirstPiece(rest, sep);
    PieceThenSeparatorIsPrefix(s, head, sep, rest, FirstIndex(rest, sep));
  }

  lemma PieceThenSeparatorIsPrefix(s: string, head: string, sep: char, rest: string, j: nat)
    requires s == head + [sep] + rest && j <= |rest|
    ensures head + [sep] + rest[..j] <= s
  {
    assert s[..|head| + 1 + j] == head + [sep] + rest[..j];
  }

  /** A split has one piece exactly when the separator does not occur, and that piece is the string. */
  lemma SplitSingle(s: string, sep: char)
    ensures |Split(s, sep)| == 1 <==> sep !in s
    ensures sep !in s ==> Split(s, sep) == [s]
  {
    if sep in s {
      SplitFirstTwo(s, sep);
    }
  }

  /**
    _onConnect: the connect string tunnels to the proxy's own bound address
    (None when the server has no address: reading it throws); any other
    request URL is cut at the colons and keeps at most two pieces.
   */
  function ConnectTarget(connectString: string, requestUrl: string, bound: Option<(string, nat)>): (t: Option<TunnelTarget>)
    ensures requestUrl == connectString ==> t == (if bound.Some? then Some(SelfTarget(bound.value.0, bound.value.1)) else None)
    ensures requestUrl != connectString ==> t.Some? && t.value.Remote?
    ensures t.Some? && t.value.Remote? ==>
              ':' !in t.value.host && (t.value.remotePort.Some? ==> ':' !in t.value.remotePort.value)
    ensures t.Some? && t.value.Remote? ==> (t.value.remotePort.None? <==> ':' !in requestUrl)
    ensures t.Some? && t.value.Remote? && t.value.remotePort.None? ==> t.value.host == requestUrl
    ensures t.Some? && t.value.Remote? && t.value.remotePort.Some? ==>
              t.value.host + ":" + t.value.remotePort.value <= requestUrl
  {
    if requestUrl == connectString then
      if bound.Some? then Some(SelfTarget(bound.value.0, bound.value.1)) else None
    else
      var pieces := Split(requestUrl, ':');
      SplitPiecesHaveNoSeparator(requestUrl, ':');
      SplitSingle(requestUrl, ':');
      if |pieces| == 1 then Some(Remote(pieces[0], None))
      else
        SplitFirstTwo(requestUrl, ':');
        Some(Remote(pieces[0], Some(pieces[1])))
  }

  /** CONNECT host:port to anywhere but the callback authority tunnels to exactly that host and port. */
  lemma ConnectToHostPort(connectString: string, host: string, port: string, bound: Option<(string, nat)>)
    requires ':' !in host && ':' !in port
    requires host + ":" + port != connectString
    ensures ConnectTarget(connectString, host + ":" + port, bound) == Some(Remote(host, Some(port)))
  {
    SplitAfterPiece(host, port, ':');
    assert Split(port, ':') == [port];
  }

  /** Pieces after the second are dropped: "h:p:x" tunnels to h and p. */
  lemma ConnectDropsExtraPieces(connectString: string, host: string, port: string, extra: string, bound: Option<(string, nat)>)
    requires ':' !in host && ':' !in port
    requires host + ":" + port + ":" + extra != connectString
    ensures ConnectTarget(connectString, host + ":" + port + ":" + extra, bound) == Some(Remote(host, Some(port)))
  {
    var tail := port + [':'] + extra;
    SplitAfterPiece(port, extra, ':');
    assert Split(tail, ':') == [port] + Split(extra, ':');
    assert host + ":" + port + ":" + extra == host + [':'] + tail;
    SplitAfterPiece(host, tail, ':');
    assert Split(host + ":" + port + ":" + extra, ':') == [host] + ([port] + Split(extra, ':'));
  }

  /** The connect string of the callback URL is tunnelled to the proxy itself. */
  lemma CallbackAuthorityTunnelsToSelf(u: ParsedUrl, address: string, port: nat)
    ensures ConnectTarget(ConnectString(u), ConnectString(u), Some((address, port))) == Some(SelfTarget(address, port))
  {
  }

  // --------------------------------------------------------------- server

  /**
    ProxyServer: `serverOpen` is whether httpsServer is still set,
    `closeCalls` counts httpsServer.close(), `delivered` lists the URLs
    handed to dataCallback.
   */
  class ProxyServer {
    const connectstring: string
    var serverOpen: bool
    var closeCalls: nat
    var bound: Option<(string, nat)>
    var proxyUrl: Option<string>
    var delivered: seq<string>

    /** The server is closed once, and only when the field is dropped. */
    ghost predicate Valid()
      reads this
    {
      closeCalls == (if serverOpen then 0 else 1)
    }

    constructor (callbackUrl: ParsedUrl)
      ensures Valid()
      ensures connectstring == ConnectString(callbackUrl)
      ensures serverOpen && closeCalls == 0 && bound.None? && proxyUrl.None? && delivered == []
    {
      connectstring := ConnectString(callbackUrl);
      serverOpen := true;
      closeCalls := 0;
      bound := None;
      proxyUrl := None;
      delivered := [];
    }

    /**
      listen: once bound, proxyUrl is https://address:port. The promise rejects
      (None) on a terminated server, whose field is gone, and on one already
      listening, where Node throws ERR_SERVER_ALREADY_LISTEN.
     */
    method Listen(address: string, port: nat) returns (r: Option<string>)
      requires Valid()
      modifies this
      ensures Valid()
      ensures r.None? <==> !old(serverOpen) || old(bound).Some?
      ensures serverOpen == old(serverOpen) && closeCalls == old(closeCalls) && delivered == old(delivered)
      ensures r.Some? ==> r.value == "https://" + address + ":" + NatToString(port) &&
                          proxyUrl == r && bound == Some((address, port))
      ensures r.None? ==> proxyUrl == old(proxyUrl) && bound == old(bound)
    {
      if serverOpen && bound.None? {
        bound := Some((address, port));
        proxyUrl := Some("https://" + address + ":" + NatToString(port));
        r := proxyUrl;
      } else {
        r := None;
      }
    }

    /** terminate: closes the server only while it is set, then drops it. */
    method Terminate()
      requires Valid()
      modifies this
      ensures Valid()
      ensures !serverOpen
      ensures closeCalls == old(closeCalls) + (if old(serverOpen) then 1 else 0)
      ensures closeCalls <= 1
      ensures bound == old(bound) && proxyUrl == old(proxyUrl) && delivered == old(delivered)
    {
      if serverOpen {
        closeCalls := closeCalls + 1;
        serverOpen := false;
      }
    }

    /** One request through _onRequest; a callback is handed to dataCallback. */
    method Request(host: Option<string>, url: string) returns (r: RequestAction)
      requires Valid()
      modifies this
      ensures Valid()
      ensures r == OnRequest(connectstring, host, url)
      ensures r.DeliverCallback? ==> delivered == old(delivered) + [url]
      ensures !r.DeliverCallback? ==> delivered == old(delivered)
      ensures serverOpen == old(serverOpen) && closeCalls == old(closeCalls)
      ensures bound == old(bound) && proxyUrl == old(proxyUrl)
    {
      r := OnRequest(connectstring, host, url);
      if r.DeliverCallback? {
        delivered := delivered + [url];
      }
    }
  }
}
