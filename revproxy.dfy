/**
 * The reverse proxy (src/revproxy.rs): the URL path, stripped of its leading
 * slashes, is split at its first "/" into a route name and the request sent
 * upstream; the upstream reply is relayed to the client untouched. Name
 * resolution, the TCP connection, the TLS handshake and the upstream reads and
 * writes are inputs.
 */
module RevProxy {
  import opened Wrappers
  import opened Bytes
  import opened Net
  import opened Status
  import opened Logger
  import opened Conn

  /**
   * The two guards on `splitn(2, "/")` of the trimmed path: `None` when there is
   * no "/" after the first segment or when what follows it is "" or "/", else
   * the bytes to send upstream.
   */
  function ProxyTarget(path: Str): (r: Option<Str>)
    ensures r.Some? ==> r.value != [] && r.value != [SLASH]
    ensures r.Some? ==> var t := TrimStartMatches(path, [SLASH]);
      t == SplitOnce(t, SLASH)[0] + [SLASH] + r.value && SLASH !in SplitOnce(t, SLASH)[0]
  {
    var p := SplitOnce(TrimStartMatches(path, [SLASH]), SLASH);
    if |p| == 1 then None
    else if p[1] == [] || p[1] == [SLASH] then None
    else Some(p[1])
  }

  /** A path "/route/rest" forwards exactly "rest", unless "rest" is empty or a lone "/". */
  lemma ProxyTargetOf(route: Str, rest: Str)
    requires route != [] && SLASH !in route
    ensures ProxyTarget([SLASH] + route + [SLASH] + rest) == if rest == [] || rest == [SLASH] then None else Some(rest)
  {
    var path := [SLASH] + route + [SLASH] + rest;
    assert StartsWith(path, [SLASH]);
    assert path[|[SLASH]|..] == route + [SLASH] + rest;
    assert route[0] != SLASH by { assert route[0] in route; }
    assert path[1..][..1] == [route[0]];
    assert !StartsWith(path[1..], [SLASH]);
    assert TrimStartMatches(path, [SLASH]) == route + [SLASH] + rest;
    FindAfter(route, SLASH, rest);
  }

  /** A path with no "/" after its first segment is never forwarded. */
  lemma NoTargetWithoutSecondSlash(route: Str)
    requires SLASH !in route
    ensures ProxyTarget([SLASH] + route) == None
  {
    var path := [SLASH] + route;
    assert path[|[SLASH]|..] == route;
    if route != [] {
      assert route[0] != SLASH by { assert route[0] in route; }
      assert route[..1] == [route[0]];
    }
    assert !StartsWith(route, [SLASH]);
    assert TrimStartMatches(path, [SLASH]) == route;
  }

  /** How the conversation with the upstream server goes, step by step. */
  datatype Upstream =
    | Unresolvable      // `to_socket_addrs` fails or yields no address
    | ConnectFailed
    | HandshakeFailed
    | WriteFailed       // `write_all` or `flush` of the request fails
    | ReadFailed        // `read_to_end` fails
    | Replied(bytes: Str)

  /** What `proxy` does: the bytes it writes to the client, its log lines, what it sends upstream, how it ends. */
  datatype Relayed = Relayed(written: Str, logged: seq<Line>, sent: Option<Str>, end: Outcome)

  /**
   * The specification of `proxy`: NotFound for a path that names no upstream
   * request, an error without any status when the address does not resolve,
   * ProxyError when the connection or the handshake fails, and otherwise the
   * reply relayed raw, without a header of its own.
   */
  function Relay(peer: PeerAddr, u: Url, upstream: Upstream): (r: Relayed)
    ensures ProxyTarget(u.path).None? ==>
      r == Relayed(Header(NotFound, None), [Log(peer, NotFound, u.text)], None, Done)
    ensures ProxyTarget(u.path).Some? && upstream.Unresolvable? ==> r == Relayed([], [], None, IoError)
    ensures ProxyTarget(u.path).Some? && (upstream.ConnectFailed? || upstream.HandshakeFailed?) ==>
      r == Relayed(Header(ProxyError, None), [Log(peer, ProxyError, u.text)], None, Done)
    ensures ProxyTarget(u.path).Some? && (upstream.WriteFailed? || upstream.ReadFailed?) ==>
      r == Relayed([], [], ProxyTarget(u.path), IoError)
    ensures ProxyTarget(u.path).Some? && upstream.Replied? ==>
      r == Relayed(upstream.bytes, [], ProxyTarget(u.path), Done)
  {
    match ProxyTarget(u.path)
    case None => Relayed(Header(NotFound, None), [Log(peer, NotFound, u.text)], None, Done)
    case Some(request) =>
      match upstream
      case Unresolvable => Relayed([], [], None, IoError)
      case ConnectFailed => Relayed(Header(ProxyError, None), [Log(peer, ProxyError, u.text)], None, Done)
      case HandshakeFailed => Relayed(Header(ProxyError, None), [Log(peer, ProxyError, u.text)], None, Done)
      case WriteFailed => Relayed([], [], Some(request), IoError)
      case ReadFailed => Relayed([], [], Some(request), IoError)
      case Replied(bytes) => Relayed(bytes, [], Some(request), Done)
  }

  /** Every outcome writes at most one status header, and a relayed reply none at all. */
  lemma RelayWritesAtMostOneHeader(peer: PeerAddr, u: Url, upstream: Upstream)
    ensures var r := Relay(peer, u, upstream);
      || r.written == []
      || (r.written == Header(NotFound, None) && r.end == Done)
      || (r.written == Header(ProxyError, None) && r.end == Done)
      || (upstream.Replied? && r.written == upstream.bytes)
  {
  }

  /**
   * `proxy`, step by step: the guards on the split path, then resolution,
   * connection and handshake, the upstream write, the read, and the relay.
   * `sent` is what was written upstream.
   */
  method Proxy(con: Connection, u: Url, upstream: Upstream)
    returns (sent: Option<Str>, logged: seq<Line>, r: Outcome)
    modifies con
    ensures var rel := Relay(con.peer, u, upstream);
      con.stream == old(con.stream) + rel.written && sent == rel.sent && logged == rel.logged && r == rel.end
  {
    sent := None;
    logged := [];
    var p := SplitOnce(TrimStartMatches(u.path, [SLASH]), SLASH);
    if |p| == 1 {
      logged := [Log(con.peer, NotFound, u.text)];
      con.SendStatus(NotFound, None);
      return sent, logged, Done;
    }
    if p[1] == [] || p[1] == [SLASH] {
      logged := [Log(con.peer, NotFound, u.text)];
      con.SendStatus(NotFound, None);
      return sent, logged, Done;
    }
    if upstream.Unresolvable? {
      return sent, logged, IoError;
    }
    if upstream.ConnectFailed? {
      logged := [Log(con.peer, ProxyError, u.text)];
      con.SendStatus(ProxyError, None);
      return sent, logged, Done;
    }
    if upstream.HandshakeFailed? {
      logged := [Log(con.peer, ProxyError, u.text)];
      con.SendStatus(ProxyError, None);
      return sent, logged, Done;
    }
    sent := Some(p[1]);
    if upstream.WriteFailed? || upstream.ReadFailed? {
      return sent, logged, IoError;
    }
    var buf := upstream.bytes;
    con.SendRaw(buf);
    return sent, logged, Done;
  }
}
