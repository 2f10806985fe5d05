/**
 * The CGI and SCGI gateway (src/cgi.rs): the environment handed to a script
 * (the meta-variables of section 4.1 of RFC 3875 plus Gemini-specific ones),
 * the check on the first byte of a script's output, and the step sequences of
 * `cgi` and `scgi`. Processes, sockets, the 5-second timeouts and the peer
 * certificate are inputs: the outcome of each external step is a parameter.
 */
module Cgi {
  import opened Wrappers
  import opened Bytes
  import opened Utf8
  import opened Net
  import opened Status
  import opened Logger
  import opened Conn
  import opened Config
  import opened Netstrings

  /**
   * A client certificate as `envs` reads it: each Common Name entry of its
   * subject, as text or `None` where `as_utf8` fails, and its fingerprint
   * (`util::fingerhex`, which is not part of this model, computes it).
   */
  datatype Certificate = Certificate(commonNames: seq<Option<Str>>, fingerprint: Str)

  const GATEWAY_INTERFACE: Str := Ascii("GATEWAY_INTERFACE")
  const GEMINI_URL: Str := Ascii("GEMINI_URL")
  const SERVER_NAME: Str := Ascii("SERVER_NAME")
  const SERVER_PROTOCOL: Str := Ascii("SERVER_PROTOCOL")
  const REMOTE_ADDR: Str := Ascii("REMOTE_ADDR")
  const REMOTE_HOST: Str := Ascii("REMOTE_HOST")
  const REMOTE_PORT: Str := Ascii("REMOTE_PORT")
  const SERVER_SOFTWARE: Str := Ascii("SERVER_SOFTWARE")
  const QUERY_STRING: Str := Ascii("QUERY_STRING")
  const AUTH_TYPE: Str := Ascii("AUTH_TYPE")
  const REMOTE_USER: Str := Ascii("REMOTE_USER")
  const TLS_CLIENT_HASH: Str := Ascii("TLS_CLIENT_HASH")
  const SCRIPT_NAME: Str := Ascii("SCRIPT_NAME")
  const PATH_INFO: Str := Ascii("PATH_INFO")

  const CGI_VERSION: Str := Ascii("CGI/1.1")
  const PROTOCOL: Str := Ascii("GEMINI")
  const CERTIFICATE: Str := Ascii("Certificate")
  /** `env!("CARGO_PKG_NAME")`: the crate's name. */
  const PACKAGE_NAME: Str := Ascii("gemserv")

  /** The names `envs` may set itself. */
  const BUILTIN_NAMES: set<Str> := {
    GATEWAY_INTERFACE, GEMINI_URL, SERVER_NAME, SERVER_PROTOCOL, REMOTE_ADDR, REMOTE_HOST,
    REMOTE_PORT, SERVER_SOFTWARE, QUERY_STRING, AUTH_TYPE, REMOTE_USER, TLS_CLIENT_HASH }

  /** The variable names of equal length differ; names of different lengths differ anyway. */
  lemma NamesDistinct()
    ensures SERVER_NAME != REMOTE_ADDR && SERVER_NAME != REMOTE_HOST && SERVER_NAME != REMOTE_PORT
    ensures SERVER_NAME != REMOTE_USER && SERVER_NAME != SCRIPT_NAME
    ensures REMOTE_ADDR != REMOTE_HOST && REMOTE_ADDR != REMOTE_PORT && REMOTE_ADDR != REMOTE_USER
    ensures REMOTE_HOST != REMOTE_PORT && REMOTE_HOST != REMOTE_USER && REMOTE_PORT != REMOTE_USER
    ensures REMOTE_ADDR != SCRIPT_NAME && REMOTE_HOST != SCRIPT_NAME
    ensures REMOTE_PORT != SCRIPT_NAME && REMOTE_USER != SCRIPT_NAME
    ensures SERVER_PROTOCOL != SERVER_SOFTWARE && SERVER_PROTOCOL != TLS_CLIENT_HASH
    ensures SERVER_SOFTWARE != TLS_CLIENT_HASH
    ensures AUTH_TYPE != PATH_INFO
  {
    assert SERVER_NAME[0] != REMOTE_ADDR[0];
    assert SERVER_NAME[0] != REMOTE_HOST[0];
    assert SERVER_NAME[0] != REMOTE_PORT[0];
    assert SERVER_NAME[0] != REMOTE_USER[0];
    assert SERVER_NAME[1] != SCRIPT_NAME[1];
    assert REMOTE_ADDR[7] != REMOTE_HOST[7];
    assert REMOTE_ADDR[7] != REMOTE_PORT[7];
    assert REMOTE_ADDR[7] != REMOTE_USER[7];
    assert REMOTE_HOST[7] != REMOTE_PORT[7];
    assert REMOTE_HOST[7] != REMOTE_USER[7];
    assert REMOTE_PORT[7] != REMOTE_USER[7];
    assert REMOTE_ADDR[0] != SCRIPT_NAME[0];
    assert REMOTE_HOST[0] != SCRIPT_NAME[0];
    assert REMOTE_PORT[0] != SCRIPT_NAME[0];
    assert REMOTE_USER[0] != SCRIPT_NAME[0];
    assert SERVER_PROTOCOL[7] != SERVER_SOFTWARE[7];
    assert SERVER_PROTOCOL[0] != TLS_CLIENT_HASH[0];
    assert SERVER_SOFTWARE[0] != TLS_CLIENT_HASH[0];
    assert AUTH_TYPE[0] != PATH_INFO[0];
  }

  /** The value `REMOTE_USER` is left with: the last Common Name, or "" when that one is not UTF-8. */
  function LastCommonName(names: seq<Option<Str>>): Str
    requires |names| > 0
  {
    names[|names| - 1].GetOr([])
  }

  /** The `cgienv` table of a virtual host, empty when none is configured. */
  function Extra(srv: ServerCfg): map<Str, Str> {
    srv.server.cgienv.GetOr(map[])
  }

  /** The eight variables `envs` always sets, in the order it inserts them. */
  function ServerBlock(peer: PeerAddr, url: Url): map<Str, Str>
    requires url.host.Some?
  {
    map[GATEWAY_INTERFACE := CGI_VERSION][GEMINI_URL := url.text]
      [SERVER_NAME := url.host.value][SERVER_PROTOCOL := PROTOCOL]
      [REMOTE_ADDR := peer.ip][REMOTE_HOST := peer.ip][REMOTE_PORT := Decimal(peer.port)]
      [SERVER_SOFTWARE := PACKAGE_NAME]
  }

  /** The variables `envs` sets before the configured ones, in the order it inserts them. */
  function Builtins(peer: PeerAddr, cert: Option<Certificate>, url: Url): map<Str, Str>
    requires url.host.Some?
  {
    var server := ServerBlock(peer, url);
    var withQuery := if url.query.Some? then server[QUERY_STRING := url.query.value] else server;
    match cert
    case None => withQuery
    case Some(x) => WithCertificate(withQuery, x)
  }

  /** The inserts `envs` makes for a client certificate, on top of `env`. */
  function WithCertificate(env: map<Str, Str>, x: Certificate): map<Str, Str> {
    var withAuth := env[AUTH_TYPE := CERTIFICATE];
    var withUser :=
      if |x.commonNames| > 0 then withAuth[REMOTE_USER := LastCommonName(x.commonNames)] else withAuth;
    withUser[TLS_CLIENT_HASH := x.fingerprint]
  }

  /** What `envs` returns: the built-in variables overridden by the configured ones. */
  function Environment(peer: PeerAddr, cert: Option<Certificate>, extra: map<Str, Str>, url: Url): map<Str, Str>
    requires url.host.Some?
  {
    Builtins(peer, cert, url) + extra
  }

  /**
   * `envs`: successive inserts into an empty table, one per Common Name for
   * `REMOTE_USER`, then one per configured variable, in the table's own order.
   * `host_str().unwrap()` makes a host a precondition.
   */
  method Envs(peer: PeerAddr, cert: Option<Certificate>, srv: ServerCfg, url: Url)
    returns (env: map<Str, Str>)
    requires url.host.Some?
    ensures env == Environment(peer, cert, Extra(srv), url)
  {
    env := map[];
    env := env[GATEWAY_INTERFACE := CGI_VERSION];
    env := env[GEMINI_URL := url.text];
    env := env[SERVER_NAME := url.host.value];
    env := env[SERVER_PROTOCOL := PROTOCOL];
    var addr := peer.ip;
    env := env[REMOTE_ADDR := addr];
    env := env[REMOTE_HOST := addr];
    var port := Decimal(peer.port);
    env := env[REMOTE_PORT := port];
    env := env[SERVER_SOFTWARE := PACKAGE_NAME];
    if url.query.Some? {
      env := env[QUERY_STRING := url.query.value];
    }
    if cert.Some? {
      env := InsertCertificate(env, cert.value);
    }
    env := InsertAll(env, Extra(srv));
  }

  /** The certificate inserts of `envs`, one `REMOTE_USER` insert per Common Name. */
  method InsertCertificate(start: map<Str, Str>, x: Certificate) returns (env: map<Str, Str>)
    ensures env == WithCertificate(start, x)
  {
    env := start[AUTH_TYPE := CERTIFICATE];
    ghost var withAuth := env;
    var i := 0;
    while i < |x.commonNames|
      invariant 0 <= i <= |x.commonNames|
      invariant env == if i == 0 then withAuth else withAuth[REMOTE_USER := LastCommonName(x.commonNames[..i])]
    {
      var cd := x.commonNames[i].GetOr([]);
      env := env[REMOTE_USER := cd];
      i := i + 1;
    }
    assert x.commonNames[..i] == x.commonNames;
    env := env[TLS_CLIENT_HASH := x.fingerprint];
  }

  /** One insert per configured variable, in whatever order the table yields them. */
  method InsertAll(start: map<Str, Str>, extra: map<Str, Str>) returns (env: map<Str, Str>)
    ensures env == start + extra
  {
    env := start;
    var keys := extra.Keys;
    while keys != {}
      invariant keys <= extra.Keys
      invariant env.Keys == start.Keys + (extra.Keys - keys)
      invariant forall k :: k in env ==> env[k] == if k in extra.Keys - keys then extra[k] else start[k]
      decreases |keys|
    {
      var k :| k in keys;
      env := env[k := extra[k]];
      keys := keys - {k};
    }
  }

  /** The lengths of the variable names, which tell most of them apart. */
  lemma NameLengths()
    ensures |GATEWAY_INTERFACE| == 17 && |GEMINI_URL| == 10 && |SERVER_NAME| == 11
    ensures |SERVER_PROTOCOL| == 15 && |REMOTE_ADDR| == 11 && |REMOTE_HOST| == 11
    ensures |REMOTE_PORT| == 11 && |SERVER_SOFTWARE| == 15 && |QUERY_STRING| == 12
    ensures |AUTH_TYPE| == 9 && |REMOTE_USER| == 11 && |TLS_CLIENT_HASH| == 15
    ensures |SCRIPT_NAME| == 11 && |PATH_INFO| == 9
  {
  }

  /** The built-in names are pairwise distinct, so no built-in insert overwrites another. */
  lemma BuiltinNamesDistinct()
    ensures GATEWAY_INTERFACE != GEMINI_URL && GATEWAY_INTERFACE != SERVER_NAME && GATEWAY_INTERFACE != SERVER_PROTOCOL && GATEWAY_INTERFACE != REMOTE_ADDR && GATEWAY_INTERFACE != REMOTE_HOST && GATEWAY_INTERFACE != REMOTE_PORT && GATEWAY_INTERFACE != SERVER_SOFTWARE && GATEWAY_INTERFACE != QUERY_STRING && GATEWAY_INTERFACE != AUTH_TYPE && GATEWAY_INTERFACE != REMOTE_USER && GATEWAY_INTERFACE != TLS_CLIENT_HASH
    ensures GEMINI_URL != SERVER_NAME && GEMINI_URL != SERVER_PROTOCOL && GEMINI_URL != REMOTE_ADDR && GEMINI_URL != REMOTE_HOST && GEMINI_URL != REMOTE_PORT && GEMINI_URL != SERVER_SOFTWARE && GEMINI_URL != QUERY_STRING && GEMINI_URL != AUTH_TYPE && GEMINI_URL != REMOTE_USER && GEMINI_URL != TLS_CLIENT_HASH
    ensures SERVER_NAME != SERVER_PROTOCOL && SERVER_NAME != REMOTE_ADDR && SERVER_NAME != REMOTE_HOST && SERVER_NAME != REMOTE_PORT && SERVER_NAME != SERVER_SOFTWARE && SERVER_NAME != QUERY_STRING && SERVER_NAME != AUTH_TYPE && SERVER_NAME != REMOTE_USER && SERVER_NAME != TLS_CLIENT_HASH
    ensures SERVER_PROTOCOL != REMOTE_ADDR && SERVER_PROTOCOL != REMOTE_HOST && SERVER_PROTOCOL != REMOTE_PORT && SERVER_PROTOCOL != SERVER_SOFTWARE && SERVER_PROTOCOL != QUERY_STRING && SERVER_PROTOCOL != AUTH_TYPE && SERVER_PROTOCOL != REMOTE_USER && SERVER_PROTOCOL != TLS_CLIENT_HASH
    ensures REMOTE_ADDR != REMOTE_HOST && REMOTE_ADDR != REMOTE_PORT && REMOTE_ADDR != SERVER_SOFTWARE && REMOTE_ADDR != QUERY_STRING && REMOTE_ADDR != AUTH_TYPE && REMOTE_ADDR != REMOTE_USER && REMOTE_ADDR != TLS_CLIENT_HASH
    ensures REMOTE_HOST != REMOTE_PORT && REMOTE_HOST != SERVER_SOFTWARE && REMOTE_HOST != QUERY_STRING && REMOTE_HOST != AUTH_TYPE && REMOTE_HOST != REMOTE_USER && REMOTE_HOST != TLS_CLIENT_HASH
    ensures REMOTE_PORT != SERVER_SOFTWARE && REMOTE_PORT != QUERY_STRING && REMOTE_PORT != AUTH_TYPE && REMOTE_PORT != REMOTE_USER && REMOTE_PORT != TLS_CLIENT_HASH
    ensures SERVER_SOFTWARE != QUERY_STRING && SERVER_SOFTWARE != AUTH_TYPE && SERVER_SOFTWARE != REMOTE_USER && SERVER_SOFTWARE != TLS_CLIENT_HASH
    ensures QUERY_STRING != AUTH_TYPE && QUERY_STRING != REMOTE_USER && QUERY_STRING != TLS_CLIENT_HASH
    ensures AUTH_TYPE != REMOTE_USER && AUTH_TYPE != TLS_CLIENT_HASH
    ensures REMOTE_USER != TLS_CLIENT_HASH
  {
    NameLengths();
    NamesDistinct();
  }

  /** The later, optional inserts leave the eight always-set variables alone. */
  lemma BuiltinsKeepServerBlock(peer: PeerAddr, cert: Option<Certificate>, url: Url, k: Str)
    requires url.host.Some? && k in {GATEWAY_INTERFACE, GEMINI_URL, SERVER_NAME, SERVER_PROTOCOL,
                                     REMOTE_ADDR, REMOTE_HOST, REMOTE_PORT, SERVER_SOFTWARE}
    ensures k in ServerBlock(peer, url) && k in Builtins(peer, cert, url)
    ensures Builtins(peer, cert, url)[k] == ServerBlock(peer, url)[k]
  {
    BuiltinNamesDistinct();
  }

  /** The variables that are always set, unless `cgienv` overrides them. */
  lemma ServerVariables(peer: PeerAddr, cert: Option<Certificate>, extra: map<Str, Str>, url: Url)
    requires url.host.Some?
    ensures var env := Environment(peer, cert, extra, url);
      && (GATEWAY_INTERFACE !in extra ==> GATEWAY_INTERFACE in env && env[GATEWAY_INTERFACE] == CGI_VERSION)
      && (GEMINI_URL !in extra ==> GEMINI_URL in env && env[GEMINI_URL] == url.text)
      && (SERVER_NAME !in extra ==> SERVER_NAME in env && env[SERVER_NAME] == url.host.value)
      && (SERVER_PROTOCOL !in extra ==> SERVER_PROTOCOL in env && env[SERVER_PROTOCOL] == PROTOCOL)
      && (REMOTE_ADDR !in extra ==> REMOTE_ADDR in env && env[REMOTE_ADDR] == peer.ip)
      && (REMOTE_HOST !in extra ==> REMOTE_HOST in env && env[REMOTE_HOST] == peer.ip)
      && (REMOTE_PORT !in extra ==> REMOTE_PORT in env && AllDigits(env[REMOTE_PORT])
                                    && DigitsValue(env[REMOTE_PORT]) == peer.port)
      && (SERVER_SOFTWARE !in extra ==> SERVER_SOFTWARE in env && env[SERVER_SOFTWARE] == PACKAGE_NAME)
  {
    BuiltinNamesDistinct();
    var block := ServerBlock(peer, url);
    forall k | k in {GATEWAY_INTERFACE, GEMINI_URL, SERVER_NAME, SERVER_PROTOCOL,
                     REMOTE_ADDR, REMOTE_HOST, REMOTE_PORT, SERVER_SOFTWARE}
      ensures k in Builtins(peer, cert, url) && Builtins(peer, cert, url)[k] == block[k]
    {
      BuiltinsKeepServerBlock(peer, cert, url, k);
    }
    DecimalRoundTrip(peer.port);
  }

  /** `QUERY_STRING` is set exactly when the URL has a query, to that query verbatim. */
  lemma QueryVariable(peer: PeerAddr, cert: Option<Certificate>, extra: map<Str, Str>, url: Url)
    requires url.host.Some? && QUERY_STRING !in extra
    ensures var env := Environment(peer, cert, extra, url);
      && (QUERY_STRING in env <==> url.query.Some?)
      && (url.query.Some? ==> env[QUERY_STRING] == url.query.value)
  {
    NamesDistinct();
  }

  /**
   * `AUTH_TYPE` and `TLS_CLIENT_HASH` are set exactly when a certificate was
   * presented; `REMOTE_USER` exactly when it also has a Common Name, to the last one.
   */
  lemma CertificateVariables(peer: PeerAddr, cert: Option<Certificate>, extra: map<Str, Str>, url: Url)
    requires url.host.Some?
    requires AUTH_TYPE !in extra && TLS_CLIENT_HASH !in extra && REMOTE_USER !in extra
    ensures var env := Environment(peer, cert, extra, url);
      && (AUTH_TYPE in env <==> cert.Some?)
      && (TLS_CLIENT_HASH in env <==> cert.Some?)
      && (REMOTE_USER in env <==> cert.Some? && |cert.value.commonNames| > 0)
      && (cert.Some? ==> env[AUTH_TYPE] == CERTIFICATE && env[TLS_CLIENT_HASH] == cert.value.fingerprint)
      && (cert.Some? && |cert.value.commonNames| > 0 ==> env[REMOTE_USER] == LastCommonName(cert.value.commonNames))
  {
    NamesDistinct();
  }

  /** Configured variables win over built-in ones, and nothing else is ever set. */
  lemma ConfiguredVariables(peer: PeerAddr, cert: Option<Certificate>, extra: map<Str, Str>, url: Url)
    requires url.host.Some?
    ensures var env := Environment(peer, cert, extra, url);
      && (forall k :: k in extra ==> k in env && env[k] == extra[k])
      && (forall k :: k in env ==> k in extra || k in BUILTIN_NAMES)
  {
  }

  /** What `check` decides about a first byte, and the log line it writes, if any. */
  datatype Verdict = Verdict(accepted: bool, logged: Option<Line>)

  /** `check`: '1' and '2' are logged as Input and Success, '3' to '6' pass silently, anything else is logged as a CGI error and rejected. */
  function Check(b: byte, peer: PeerAddr, u: Url): (v: Verdict)
    ensures v.accepted <==> 49 <= b <= 54
    ensures v.logged.None? <==> 51 <= b <= 54
    ensures b == 49 ==> v.logged == Some(Log(peer, Input, u.text))
    ensures b == 50 ==> v.logged == Some(Log(peer, Success, u.text))
    ensures !v.accepted ==> v.logged == Some(Log(peer, CGIError, u.text))
  {
    if b == 49 then Verdict(true, Some(Log(peer, Input, u.text)))
    else if b == 50 then Verdict(true, Some(Log(peer, Success, u.text)))
    else if 51 <= b <= 54 then Verdict(true, None)
    else Verdict(false, Some(Log(peer, CGIError, u.text)))
  }

  /** The accepted bytes are exactly the first characters of the status codes. */
  lemma CheckAcceptsStatusDigits(b: byte, peer: PeerAddr, u: Url)
    ensures Check(b, peer, u).accepted <==> exists s: Status :: Decimal(Code(s))[0] == b
  {
    if Check(b, peer, u).accepted {
      var s :=
        if b == 49 then Input else if b == 50 then Success else if b == 51 then RedirectTemporary
        else if b == 52 then TemporaryFailure else if b == 53 then PermanentFailure
        else ClientCertificateRequired;
      DecimalTwoDigits(Code(s));
      assert Decimal(Code(s))[0] == b;
    } else {
      forall s: Status ensures Decimal(Code(s))[0] != b {
        DecimalTwoDigits(Code(s));
      }
    }
  }

  /**
   * Output that starts with a status line is accepted; only the input and
   * success categories are logged, and then as Input or Success whatever the
   * actual code (a 21 is logged as 20).
   */
  lemma CheckOfStatusLine(sep: byte, s: Status, meta: Str, rest: Str, peer: PeerAddr, u: Url)
    ensures var v := Check((StatusLine(sep, s, meta) + rest)[0], peer, u);
      && v.accepted
      && (CategoryOf(s) == InputExpected ==> v.logged == Some(Log(peer, Input, u.text)))
      && (CategoryOf(s) == Successful ==> v.logged == Some(Log(peer, Success, u.text)))
      && (CategoryOf(s) !in {InputExpected, Successful} ==> v.logged == None)
  {
    DecimalTwoDigits(Code(s));
    CodeCategory(s);
  }

  /** The log lines a verdict writes. */
  function LogLines(v: Verdict): (lines: seq<Line>)
    ensures |lines| <= 1
  {
    if v.logged.Some? then [v.logged.value] else []
  }

  /** How a script run ends: the 5-second timeout fires, spawning fails, or it exits with its stdout. */
  datatype Child = TimedOut | SpawnFailed | Exited(success: bool, stdout: Str)

  /**
   * `cgi`: the script runs with the environment of `envs` plus `SCRIPT_NAME`
   * and `PATH_INFO`. A timeout, a failed spawn or an unsuccessful exit sends
   * exactly one CGI-error header; otherwise the output is relayed unchanged when
   * its first byte passes `check`. `path.to_str().unwrap()` panics on a non-UTF-8
   * path, and indexing empty output panics. The change of working directory
   * before the spawn is taken to succeed.
   */
  method Cgi(con: Connection, srv: ServerCfg, path: Str, url: Url, scriptName: Str, pathInfo: Str,
             cert: Option<Certificate>, child: Child)
    returns (env: map<Str, Str>, logged: seq<Line>, r: Outcome)
    requires url.host.Some?
    modifies con
    ensures env == Environment(con.peer, cert, Extra(srv), url)[SCRIPT_NAME := scriptName][PATH_INFO := pathInfo]
    ensures !Valid(path) ==> r == Panicked && logged == [] && con.stream == old(con.stream)
    ensures Valid(path) && (child.TimedOut? || child.SpawnFailed? || (child.Exited? && !child.success)) ==>
      && r == Done && logged == [Log(con.peer, CGIError, url.text)]
      && con.stream == old(con.stream) + Header(CGIError, None)
    ensures Valid(path) && child.Exited? && child.success && child.stdout == [] ==>
      r == Panicked && logged == [] && con.stream == old(con.stream)
    ensures Valid(path) && child.Exited? && child.success && child.stdout != [] ==>
      var v := Check(child.stdout[0], con.peer, url);
      && r == Done && logged == LogLines(v)
      && con.stream == old(con.stream) + (if v.accepted then child.stdout else Header(CGIError, None))
  {
    env := Envs(con.peer, cert, srv, url);
    env := env[SCRIPT_NAME := scriptName];
    env := env[PATH_INFO := pathInfo];
    logged := [];
    if !Valid(path) {
      return env, logged, Panicked;
    }
    match child {
      case TimedOut =>
        logged := [Log(con.peer, CGIError, url.text)];
        con.SendStatus(CGIError, None);
        return env, logged, Done;
      case SpawnFailed =>
        logged := [Log(con.peer, CGIError, url.text)];
        con.SendStatus(CGIError, None);
        return env, logged, Done;
      case Exited(success, stdout) =>
        if !success {
          logged := [Log(con.peer, CGIError, url.text)];
          con.SendStatus(CGIError, None);
          return env, logged, Done;
        }
        if |stdout| == 0 {
          return env, logged, Panicked;
        }
        var v := Check(stdout[0], con.peer, url);
        logged := LogLines(v);
        if !v.accepted {
          con.SendStatus(CGIError, None);
          return env, logged, Done;
        }
        con.SendRaw(stdout);
        return env, logged, Done;
    }
  }

  /** The `SCRIPT_NAME` and `PATH_INFO` a script sees are the ones `cgi` was given, whatever `cgienv` says. */
  lemma ScriptVariablesWin(env: map<Str, Str>, scriptName: Str, pathInfo: Str)
    ensures var e := env[SCRIPT_NAME := scriptName][PATH_INFO := pathInfo];
      SCRIPT_NAME in e && e[SCRIPT_NAME] == scriptName && PATH_INFO in e && e[PATH_INFO] == pathInfo
  {
    assert |SCRIPT_NAME| != |PATH_INFO|;
  }

  /** The names and values of the fixed SCGI header block. */
  const CONTENT_LENGTH: Str := Ascii("CONTENT_LENGTH")
  const SCGI: Str := Ascii("SCGI")
  const SCGI_VERSION: Str := Ascii("1")
  /**
   * The line break and indentation inside the format string end up in the
   * third name, and "RQUEST_METHOD" is spelled as written.
   */
  const METHOD_NAME: Str := [LF] + Ascii("        RQUEST_METHOD")
  const POST: Str := Ascii("POST")
  const REQUEST_URI: Str := Ascii("REQUEST_URI")

  /**
   * The fixed header block of the SCGI request: the format string with
   * `len` (always 0) and the request path in its two holes, written out piece
   * by piece between its NULs.
   */
  function RequestPrefix(path: Str): Str {
    Field(CONTENT_LENGTH, Decimal(0)) + Field(SCGI, SCGI_VERSION)
      + Field(METHOD_NAME, POST) + Field(REQUEST_URI, path)
  }

  /** The same block as name/value pairs. */
  function PrefixPairs(path: Str): seq<(Str, Str)> {
    [(CONTENT_LENGTH, Ascii("0")), (SCGI, SCGI_VERSION), (METHOD_NAME, POST), (REQUEST_URI, path)]
  }

  /** The fixed block is the encoding of its pairs. */
  lemma RequestPrefixPairs(path: Str)
    ensures RequestPrefix(path) == EncodePairs(PrefixPairs(path))
  {
    var ps := PrefixPairs(path);
    var f0, f1 := Field(CONTENT_LENGTH, Decimal(0)), Field(SCGI, SCGI_VERSION);
    var f2, f3 := Field(METHOD_NAME, POST), Field(REQUEST_URI, path);
    assert Decimal(0) == Ascii("0");
    assert ps[1..][1..][1..][1..] == [];
    var t1, t2, t3 := ps[1..], ps[1..][1..], ps[1..][1..][1..];
    assert EncodePairs(t3) == f3 + [] == f3;
    assert EncodePairs(t2) == f2 + f3;
    assert EncodePairs(t1) == f1 + (f2 + f3);
    assert EncodePairs(ps) == f0 + (f1 + (f2 + f3));
    ConcatAssoc(f0, f1, f2 + f3);
    ConcatAssoc(f0 + f1, f2, f3);
  }

  /** None of the fixed names and values contains NUL; the path is the caller's to vouch for. */
  lemma PrefixPairsNulFree(path: Str)
    requires NUL !in path
    ensures NulFree(PrefixPairs(path))
  {
    PrintableNulFree("CONTENT_LENGTH");
    PrintableNulFree("0");
    PrintableNulFree("SCGI");
    PrintableNulFree("1");
    PrintableNulFree("        RQUEST_METHOD");
    PrintableNulFree("POST");
    PrintableNulFree("REQUEST_URI");
    var ps := PrefixPairs(path);
    forall i | 0 <= i < |ps| ensures NUL !in ps[i].0 && NUL !in ps[i].1 {
    }
  }

  lemma PrintableNulFree(t: string)
    requires Printable(t)
    ensures NUL !in Ascii(t)
  {
    AsciiOfPrintable(t);
  }

  /** `pairs` lists every entry of `m` exactly once, in some order. */
  ghost predicate Lists(pairs: seq<(Str, Str)>, m: map<Str, Str>) {
    && (forall i :: 0 <= i < |pairs| ==> pairs[i].0 in m && pairs[i].1 == m[pairs[i].0])
    && (forall i, j :: 0 <= i < j < |pairs| ==> pairs[i].0 != pairs[j].0)
    && (forall k :: k in m ==> exists i :: 0 <= i < |pairs| && pairs[i].0 == k)
  }

  /** `pairs` lists every entry of `m` whose name is not in `pending`, once each. */
  ghost predicate ListsAllBut(pairs: seq<(Str, Str)>, m: map<Str, Str>, pending: set<Str>) {
    && (forall i :: 0 <= i < |pairs| ==> pairs[i].0 in m && pairs[i].0 !in pending && pairs[i].1 == m[pairs[i].0])
    && (forall i, j :: 0 <= i < j < |pairs| ==> pairs[i].0 != pairs[j].0)
    && (forall k :: k in m && k !in pending ==> exists i :: 0 <= i < |pairs| && pairs[i].0 == k)
  }

  /** Listing one more pending entry. */
  lemma ListsStep(pairs: seq<(Str, Str)>, m: map<Str, Str>, pending: set<Str>, k: Str)
    requires ListsAllBut(pairs, m, pending) && k in pending && k in m
    ensures ListsAllBut(pairs + [(k, m[k])], m, pending - {k})
  {
    var after := pairs + [(k, m[k])];
    forall k2 | k2 in m && k2 !in pending - {k}
      ensures exists i :: 0 <= i < |after| && after[i].0 == k2
    {
      if k2 == k {
        assert after[|pairs|].0 == k2;
      } else {
        var i :| 0 <= i < |pairs| && pairs[i].0 == k2;
        assert after[i].0 == k2;
      }
    }
  }

  /**
   * The request `scgi` writes: the fixed block, then `name NUL value NUL` for
   * every variable in the table's iteration order, wrapped in a netstring.
   */
  method ScgiRequest(path: Str, env: map<Str, Str>) returns (frame: Str, ghost pairs: seq<(Str, Str)>)
    ensures Lists(pairs, env)
    ensures frame == Netstring(RequestPrefix(path) + EncodePairs(pairs))
  {
    var byt := RequestPrefix(path);
    pairs := [];
    var keys := env.Keys;
    assert ListsAllBut(pairs, env, keys);
    while keys != {}
      invariant keys <= env.Keys
      invariant ListsAllBut(pairs, env, keys)
      invariant byt == RequestPrefix(path) + EncodePairs(pairs)
      decreases |keys|
    {
      var k :| k in keys;
      var line := k + [NUL] + env[k] + [NUL];
      assert EncodePairs([(k, env[k])]) == Field(k, env[k]) + [];
      EncodePairsAppend(pairs, [(k, env[k])]);
      ConcatAssoc(RequestPrefix(path), EncodePairs(pairs), line);
      byt := byt + line;
      ListsStep(pairs, env, keys, k);
      pairs := pairs + [(k, env[k])];
      keys := keys - {k};
    }
    frame := Decimal(|byt|) + [COLON] + byt + [COMMA];
  }

  /**
   * A backend reading the request recovers it whole: one netstring with
   * nothing after it, whose payload reads back as the fixed pairs followed by
   * the variables, provided no name, value or path contains NUL.
   */
  lemma ScgiRequestDecodes(path: Str, pairs: seq<(Str, Str)>)
    requires NUL !in path && NulFree(pairs)
    ensures var payload := RequestPrefix(path) + EncodePairs(pairs);
      && DecodeNetstring(Netstring(payload)) == Some((payload, []))
      && DecodePairs(payload) == Some(PrefixPairs(path) + pairs)
  {
    var payload := RequestPrefix(path) + EncodePairs(pairs);
    NetstringRoundTrip(payload, []);
    assert Netstring(payload) + [] == Netstring(payload);
    RequestPrefixPairs(path);
    var fixed := PrefixPairs(path);
    EncodePairsAppend(fixed, pairs);
    PrefixPairsNulFree(path);
    var all := fixed + pairs;
    assert NulFree(all) by {
      forall i | 0 <= i < |all| ensures NUL !in all[i].0 && NUL !in all[i].1 {
        if i < |fixed| {
          assert all[i] == fixed[i];
        } else {
          assert all[i] == pairs[i - |fixed|];
        }
      }
    }
    PairsRoundTrip(all);
  }

  /** How talking to an SCGI backend goes, step by step. */
  datatype Backend =
    | Unresolvable   // `to_socket_addrs` fails or yields no address
    | ConnectFailed
    | WriteFailed    // `write_all` or `flush` of the request fails
    | TimedOut       // the 5-second read timeout fires
    | Replied(bytes: Str)  // what was read before end of stream or a read error

  /**
   * `scgi`: resolve, connect, send the request, read the reply within the
   * timeout, convert it lossily to UTF-8 and relay it if its first byte passes
   * `check`. A failed read inside the timeout is not noticed: whatever was read
   * is relayed.
   */
  method Scgi(con: Connection, srv: ServerCfg, u: Url, cert: Option<Certificate>, backend: Backend)
    returns (frame: Option<Str>, ghost pairs: seq<(Str, Str)>, logged: seq<Line>, r: Outcome)
    requires u.host.Some?
    modifies con
    ensures backend.Unresolvable? ==> r == IoError && frame == None && logged == [] && con.stream == old(con.stream)
    ensures backend.ConnectFailed? ==>
      && r == Done && frame == None && logged == [Log(con.peer, CGIError, u.text)]
      && con.stream == old(con.stream) + Header(CGIError, None)
    ensures !backend.Unresolvable? && !backend.ConnectFailed? ==>
      && frame.Some?
      && Lists(pairs, Environment(con.peer, cert, Extra(srv), u))
      && frame.value == Netstring(RequestPrefix(u.path) + EncodePairs(pairs))
    ensures backend.WriteFailed? ==> r == IoError && logged == [] && con.stream == old(con.stream)
    ensures backend.TimedOut? ==>
      && r == Done && logged == [Log(con.peer, CGIError, u.text)]
      && con.stream == old(con.stream) + Header(CGIError, None)
    ensures backend.Replied? && backend.bytes == [] ==> r == Panicked && logged == [] && con.stream == old(con.stream)
    ensures backend.Replied? && backend.bytes != [] ==>
      var reply := Lossy(backend.bytes);
      && |reply| > 0
      && (Valid(backend.bytes) ==> reply == backend.bytes)
      && var v := Check(reply[0], con.peer, u);
      && r == Done && logged == LogLines(v)
      && con.stream == old(con.stream) + (if v.accepted then reply else Header(CGIError, None))
  {
    frame := None;
    pairs := [];
    logged := [];
    if backend.Unresolvable? {
      return frame, pairs, logged, IoError;
    }
    if backend.ConnectFailed? {
      logged := [Log(con.peer, CGIError, u.text)];
      con.SendStatus(CGIError, None);
      return frame, pairs, logged, Done;
    }
    var env := Envs(con.peer, cert, srv, u);
    var byt;
    byt, pairs := ScgiRequest(u.path, env);
    frame := Some(byt);
    match backend {
      case WriteFailed =>
        return frame, pairs, logged, IoError;
      case TimedOut =>
        logged := [Log(con.peer, CGIError, u.text)];
        con.SendStatus(CGIError, None);
        return frame, pairs, logged, Done;
      case Replied(buf) =>
        var req := Lossy(buf);
        if |buf| == 0 {
          return frame, pairs, logged, Panicked;
        }
        if Valid(buf) {
          LossyOfValid(buf);
        }
        var v := Check(req[0], con.peer, u);
        logged := LogLines(v);
        if !v.accepted {
          con.SendStatus(CGIError, None);
          return frame, pairs, logged, Done;
        }
        con.SendRaw(req);
        return frame, pairs, logged, Done;
    }
  }
}
