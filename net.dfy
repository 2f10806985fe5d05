/**
 * The values the server receives from its libraries: the peer's socket address
 * and a parsed URL. `Url::parse` itself is not modelled; a `Url` is the record
 * of the accessors the server reads from its result.
 */
module Net {
  import opened Wrappers
  import opened Bytes

  type Port = p: nat | p < 0x1_0000

  /** A `SocketAddr`: `ip()` rendered as text, and `port()`. */
  datatype PeerAddr = PeerAddr(ip: Str, port: Port)

  /**
   * A parsed `url::Url`: `as_str()`/`to_string()` (`text`), `scheme()`,
   * `host_str()`, `port()`, `path()` and `query()`.
   */
  datatype Url = Url(
    text: Str,
    scheme: Str,
    host: Option<Str>,
    port: Option<Port>,
    path: Str,
    query: Option<Str>)

  /**
   * `url.path_segments()`: nothing for a path that does not start with "/",
   * else the pieces of the rest of the path between slashes.
   */
  function PathSegments(u: Url): (r: Option<seq<Str>>)
    ensures r.None? <==> !StartsWith(u.path, [SLASH])
    ensures r.Some? ==> |r.value| >= 1 && [SLASH] + Join(r.value, SLASH) == u.path
    ensures r.Some? ==> forall i :: 0 <= i < |r.value| ==> SLASH !in r.value[i]
  {
    if StartsWith(u.path, [SLASH]) then
      assert u.path == [SLASH] + u.path[1..];
      Some(Split(u.path[1..], SLASH))
    else None
  }
}
