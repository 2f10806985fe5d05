/**
 * The request router of src/main.rs: `handle_connection` reads one request,
 * checks it against the virtual host, hands it to the reverse proxy or maps it
 * to a file, and answers with a status, a file, a directory listing or a CGI
 * hand-off; `get_mime`, `get_binary` and `get_content` do the last steps.
 *
 * `Handle` is the specification: the whole reply as a function of the bytes
 * the client sent, the virtual host, the filesystem and the answers of the
 * libraries the router calls (`Url::parse`, `mime_guess`, the upstream server).
 * `HandleConnection` and the methods below it follow the code step by step
 * and are proved to produce exactly that reply.
 */
module Router {
  import opened Wrappers
  import opened Bytes
  import opened Utf8
  import opened Net
  import opened Status
  import opened Logger
  import opened Conn
  import opened Paths
  import opened Fs
  import opened RevProxy

  /**
   * The virtual host as src/main.rs reads it: its hostname and port, the
   * document root, the CGI directory, the proxy routes (first path segment to
   * upstream address) and whether "/~user" paths are served.
   */
  datatype VHost = VHost(hostname: Str, dir: Str, cgi: Str, proxy: map<Str, Str>, usrdir: bool, port: Port)

  /** The size of the request buffer. */
  const BUFFER_SIZE: nat := 1024
  /** The capacity of the `BufReader` that `get_binary` reads through. */
  const CHUNK: nat := 1024 * 1024

  const DOUBLE_SLASH: Str := [SLASH, SLASH]
  const TILDE: byte := 126
  const GEMINI_PREFIX: Str := Ascii("gemini://")
  const GEMINI: Str := Ascii("gemini")
  const TEXT_GEMINI: Str := Ascii("text/gemini")
  const TEXT: Str := Ascii("text/")
  const HOME: Str := Ascii("/home/")
  const PUBLIC_GEMINI: Str := Ascii("public_gemini")
  const INDEX: Str := Ascii("index.gemini")

  const BAD_REQUEST: Str := Ascii("Bad Request!")
  const URL_MISMATCH: Str := Ascii("Url doesn't match certificate!")
  const WRONG_PORT: Str := Ascii("Wrong Port!")
  const NOT_GEMINI: Str := Ascii("Not a gemini scheme!")
  const MISSING: Str := Ascii("Not found!")
  const CGI_ERROR: Str := Ascii("CGI Error!")
  const UNREADABLE: Str := Ascii("Not Found!")

  /**
   * Everything one connection produces: the bytes written to the client, the
   * log lines, the request sent upstream (proxied requests), the script handed
   * to the CGI runner, and how the handler ends.
   */
  datatype Reply = Reply(written: Str, logged: seq<Line>, upstream: Option<Str>, cgiPath: Option<Str>, end: Outcome)

  /** A reply that writes `written` and nothing else. */
  function Only(written: Str): Reply {
    Reply(written, [], None, None, Done)
  }

  /** The handler ends early with nothing further written. */
  function Stop(end: Outcome): Reply {
    Reply([], [], None, None, end)
  }

  /** `r`, after `prefix` was already written. */
  function After(prefix: Str, r: Reply): Reply {
    r.(written := prefix + r.written)
  }

  // ---------------------------------------------------------------- request

  /**
   * The 1024-byte buffer after one `read`: the first bytes of what the client
   * sent, then the zeros the buffer was initialised with.
   */
  function Padded(got: Str): (buf: Str)
    ensures |buf| == BUFFER_SIZE
    ensures |got| <= BUFFER_SIZE ==> buf[..|got|] == got
    ensures |got| >= BUFFER_SIZE ==> buf == got[..BUFFER_SIZE]
    ensures forall i :: |got| <= i < BUFFER_SIZE ==> buf[i] == NUL
  {
    if |got| >= BUFFER_SIZE then got[..BUFFER_SIZE]
    else got + seq(BUFFER_SIZE - |got|, _ => NUL)
  }

  /** A request starting with "//" gets its first "//" replaced by "gemini://". */
  function Normalise(request: Str): Str {
    if StartsWith(request, DOUBLE_SLASH) then ReplaceFirst(request, DOUBLE_SLASH, GEMINI_PREFIX)
    else request
  }

  /** Only the leading "//" is rewritten, into a scheme; any other request is left as it is. */
  lemma NormaliseLeadingSlashes(request: Str)
    ensures StartsWith(request, DOUBLE_SLASH) ==> Normalise(request) == GEMINI_PREFIX + request[2..]
    ensures !StartsWith(request, DOUBLE_SLASH) ==> Normalise(request) == request
  {
    if StartsWith(request, DOUBLE_SLASH) {
      ReplaceFirstOfPrefix(request, DOUBLE_SLASH, GEMINI_PREFIX);
    }
  }

  // ---------------------------------------------------------------- path mapping

  /**
   * The filesystem path for a URL path: "/~user/rest" under
   * "/home/user/public_gemini/" when user directories are on, otherwise the
   * URL path without its leading slashes pushed onto the document root.
   */
  function MapPath(srv: VHost, path: Str): Str {
    if StartsWith(path, [SLASH, TILDE]) && srv.usrdir then HomePath(TrimStartMatches(path, [SLASH, TILDE]))
    else Push(Push([], srv.dir), TrimStartMatches(path, [SLASH]))
  }

  /** The user-directory branch, given the URL path without its leading "/~". */
  function HomePath(usr: Str): Str {
    var parts := SplitOnce(usr, SLASH);
    if |parts| == 2 then Push(Push([], HOME), parts[0] + [SLASH] + PUBLIC_GEMINI + [SLASH] + parts[1])
    else Push(Push([], HOME), parts[0] + [SLASH] + PUBLIC_GEMINI + [SLASH])
  }

  /** Stripping "/~" from "/~user..." leaves "user...", for a user name that does not start with "/". */
  lemma StripTilde(user: Str, tail: Str)
    requires user != [] && user[0] != SLASH
    ensures StartsWith([SLASH, TILDE] + user + tail, [SLASH, TILDE])
    ensures TrimStartMatches([SLASH, TILDE] + user + tail, [SLASH, TILDE]) == user + tail
  {
    var path := [SLASH, TILDE] + (user + tail);
    assert [SLASH, TILDE] + user + tail == path;
    assert path[..2] == [SLASH, TILDE];
    assert path[|[SLASH, TILDE]|..] == user + tail;
    assert (user + tail)[0] == user[0];
  }

  /** Pushing "/home/" and then a relative path gives their concatenation. */
  lemma PushHome(x: Str)
    requires x != [] && x[0] != SLASH
    ensures Push(Push([], HOME), x) == HOME + x
  {
    assert HOME[0] == SLASH;
    assert HOME[|HOME| - 1] == SLASH;
  }

  lemma HomePathWithRest(user: Str, rest: Str)
    requires user != [] && SLASH !in user
    ensures HomePath(user + [SLASH] + rest) == HOME + (user + [SLASH] + PUBLIC_GEMINI + [SLASH] + rest)
  {
    assert user[0] != SLASH by { assert user[0] in user; }
    SplitOnceAt(user, SLASH, rest);
    var pushed := user + [SLASH] + PUBLIC_GEMINI + [SLASH] + rest;
    assert pushed[0] == user[0];
    PushHome(pushed);
  }

  /** "/~user/rest" maps to "/home/user/public_gemini/rest". */
  lemma UserDirectory(srv: VHost, user: Str, rest: Str)
    requires srv.usrdir && user != [] && SLASH !in user
    ensures MapPath(srv, [SLASH, TILDE] + user + [SLASH] + rest) == HOME + (user + [SLASH] + PUBLIC_GEMINI + [SLASH] + rest)
  {
    assert user[0] != SLASH by { assert user[0] in user; }
    var path := [SLASH, TILDE] + user + [SLASH] + rest;
    assert path == [SLASH, TILDE] + user + ([SLASH] + rest);
    StripTilde(user, [SLASH] + rest);
    assert user + ([SLASH] + rest) == user + [SLASH] + rest;
    HomePathWithRest(user, rest);
  }

  lemma HomePathBare(user: Str)
    requires user != [] && SLASH !in user
    ensures HomePath(user) == HOME + (user + [SLASH] + PUBLIC_GEMINI + [SLASH])
  {
    assert user[0] != SLASH by { assert user[0] in user; }
    var pushed := user + [SLASH] + PUBLIC_GEMINI + [SLASH];
    assert pushed[0] == user[0];
    PushHome(pushed);
  }

  /** "/~user" alone maps to the user's "/home/user/public_gemini/" directory. */
  lemma UserDirectoryBare(srv: VHost, user: Str)
    requires srv.usrdir && user != [] && SLASH !in user
    ensures MapPath(srv, [SLASH, TILDE] + user) == HOME + (user + [SLASH] + PUBLIC_GEMINI + [SLASH])
  {
    var path := [SLASH, TILDE] + user;
    assert StartsWith(path, [SLASH, TILDE]) && TrimStartMatches(path, [SLASH, TILDE]) == user by {
      assert user[0] != SLASH by { assert user[0] in user; }
      StripTilde(user, []);
      assert path + [] == path;
      assert user + [] == user;
    }
    HomePathBare(user);
  }

  /**
   * Any other URL path "/p" maps to the document root joined with "p", with one
   * "/" between them; so the test at line 175 of src/main.rs, which is always
   * true, changes nothing.
   */
  lemma DocumentRoot(srv: VHost, p: Str)
    requires srv.dir != [] && !EndsWith(srv.dir, [SLASH])
    requires !StartsWith(p, [SLASH])
    requires !(srv.usrdir && StartsWith([SLASH] + p, [SLASH, TILDE]))
    ensures MapPath(srv, [SLASH] + p) == srv.dir + [SLASH] + p
  {
    var path := [SLASH] + p;
    assert path[|[SLASH]|..] == p;
    assert TrimStartMatches(path, [SLASH]) == p;
  }

  // ---------------------------------------------------------------- index.gemini

  /** A path and the metadata the router holds for it. */
  datatype Located = Located(path: Str, entry: Entry)

  /**
   * Lines 191-213 of src/main.rs, once the redirect is ruled out: a directory
   * holding an "index.gemini" is served by that file; when the index is not
   * readable by all, the path is reset to "<parent of the index>/" pushed onto
   * the index path, and `None` is the `expect` on its metadata failing.
   */
  function Resolve(fs: FileSystem, path: Str, e: Entry): (r: Option<Located>)
    requires Lookup(fs, path) == Some(e)
    ensures r.Some? ==> Lookup(fs, r.value.path) == Some(r.value.entry)
    ensures e.kind == File ==> r == Some(Located(path, e))
  {
    if e.kind == File then Some(Located(path, e))
    else
      var idx := Push(path, INDEX);
      match Lookup(fs, idx)
      case None => Some(Located(path, e))
      case Some(ie) =>
        if ReadableByAll(ie) then Some(Located(idx, ie))
        else
          var back := Push(idx, Pop(idx) + [SLASH]);
          match Lookup(fs, back)
          case None => None
          case Some(be) => Some(Located(back, be))
  }

  /** The index path of directory "dir/", and its parent "dir". */
  lemma IndexOf(dir: Str)
    requires dir != [] && !EndsWith(dir, [SLASH])
    ensures Push(dir + [SLASH], INDEX) == dir + [SLASH] + INDEX
    ensures Pop(dir + [SLASH] + INDEX) == dir
  {
    assert INDEX[0] != SLASH;
    assert SLASH !in INDEX;
    ParentOfChild(dir, INDEX);
  }

  /** A readable index replaces its directory. */
  lemma ReadableIndexServed(fs: FileSystem, dir: Str, e: Entry)
    requires dir != [] && !EndsWith(dir, [SLASH]) && Lookup(fs, dir + [SLASH]) == Some(e)
    requires dir + [SLASH] + INDEX in fs && ReadableByAll(fs[dir + [SLASH] + INDEX])
    ensures Resolve(fs, dir + [SLASH], e) == Some(Located(dir + [SLASH] + INDEX, fs[dir + [SLASH] + INDEX]))
  {
    IndexOf(dir);
    var idx := dir + [SLASH] + INDEX;
    assert idx[|idx| - 1] == INDEX[|INDEX| - 1];
  }

  /**
   * Under an absolute root, an unreadable index sends the router back to the
   * directory itself, which is then listed.
   */
  lemma UnreadableIndexFallsBack(fs: FileSystem, dir: Str, e: Entry)
    requires IsAbsolute(dir) && !EndsWith(dir, [SLASH])
    requires Lookup(fs, dir + [SLASH]) == Some(e)
    requires dir + [SLASH] + INDEX in fs && !ReadableByAll(fs[dir + [SLASH] + INDEX])
    ensures Resolve(fs, dir + [SLASH], e) == Some(Located(dir + [SLASH], e))
  {
    var p := dir + [SLASH];
    IndexOf(dir);
    var idx := p + INDEX;
    assert Lookup(fs, idx) == Some(fs[idx]) by {
      assert idx[|idx| - 1] == INDEX[|INDEX| - 1];
    }
    assert IsAbsolute(p) by {
      assert p[..1] == dir[..1];
    }
    assert Push(idx, Pop(idx) + [SLASH]) == p;
  }

  /**
   * Under a relative root the same fallback pushes the relative directory onto
   * the index path, "dir/index.gemini/dir/", which names nothing, so the
   * connection handler panics.
   */
  lemma UnreadableIndexUnderRelativeRoot(fs: FileSystem, dir: Str, e: Entry)
    requires dir != [] && !IsAbsolute(dir) && !EndsWith(dir, [SLASH])
    requires Lookup(fs, dir + [SLASH]) == Some(e)
    requires dir + [SLASH] + INDEX in fs && !ReadableByAll(fs[dir + [SLASH] + INDEX])
    requires dir + [SLASH] + INDEX + [SLASH] + dir !in fs
    ensures Resolve(fs, dir + [SLASH], e) == None
  {
    IndexOf(dir);
    var idx := dir + [SLASH] + INDEX;
    assert idx[|idx| - 1] == INDEX[|INDEX| - 1];
    assert (dir + [SLASH])[0] == dir[0];
    var back := idx + [SLASH] + dir;
    assert Push(idx, dir + [SLASH]) == back + [SLASH];
    TrailingSlashNamesDirectory(fs, back);
  }

  // ---------------------------------------------------------------- content

  /**
   * `get_mime`: "text/gemini" for a path without extension or with extension
   * "gemini", otherwise the first type `mime_guess` gives for the extension;
   * `None` is the `unwrap` on an unknown extension panicking.
   */
  function GetMime(path: Str, guess: Str -> Option<Str>): Option<Str> {
    match Extension(path)
    case None => Some(TEXT_GEMINI)
    case Some(ext) => if ext == GEMINI then Some(TEXT_GEMINI) else guess(ext)
  }

  /** A ".gemini" file is text/gemini, whatever `mime_guess` would say. */
  lemma GeminiFilesAreGemtext(dir: Str, stem: Str, guess: Str -> Option<Str>)
    requires stem != [] && SLASH !in stem
    ensures GetMime(dir + [SLASH] + stem + [DOT] + GEMINI, guess) == Some(TEXT_GEMINI)
  {
    assert SLASH !in GEMINI && DOT !in GEMINI;
    assert stem + [DOT] + GEMINI != [DOT, DOT];
    ExtensionOf(dir, stem, GEMINI);
  }

  /** A file name without a dot is text/gemini. */
  lemma NoExtensionIsGemtext(dir: Str, name: Str, guess: Str -> Option<Str>)
    requires name != [] && SLASH !in name && DOT !in name
    ensures GetMime(dir + [SLASH] + name, guess) == Some(TEXT_GEMINI)
  {
    NoDotNoExtension(dir, name);
  }

  /** Any other extension is looked up, and only then. */
  lemma OtherExtensionsAreGuessed(dir: Str, stem: Str, ext: Str, guess: Str -> Option<Str>)
    requires stem != [] && SLASH !in stem && SLASH !in ext && DOT !in ext && ext != GEMINI
    requires stem + [DOT] + ext != [DOT, DOT]
    ensures GetMime(dir + [SLASH] + stem + [DOT] + ext, guess) == guess(ext)
  {
    ExtensionOf(dir, stem, ext);
  }

  /** "text/gemini" is a text type, so gemtext goes through `get_content`. */
  lemma GemtextIsText()
    ensures StartsWith(TEXT_GEMINI, TEXT)
  {
    assert TEXT_GEMINI[..|TEXT|] == TEXT;
  }

  /** The head of a directory listing. */
  function ListingHead(urlPath: Str): Str {
    Ascii("# Directory Listing") + CRLF + CRLF + Ascii("Path: ") + urlPath + CRLF + CRLF
  }

  /** One listing line: "=> n/ n/" for a directory, "=> n n" otherwise. */
  function LinkLine(name: Str, e: Entry): Str {
    var shown := if e.kind == Dir then name + [SLASH] else name;
    Ascii("=> ") + shown + [SPACE] + shown + CRLF
  }

  /** The listing line for one directory entry, `None` when its metadata cannot be read. */
  function Listed(fs: FileSystem, dir: Str, name: Str): Option<Str> {
    match Lookup(fs, Push(dir, name))
    case None => None
    case Some(e) => Some(if ReadableByAll(e) then LinkLine(name, e) else [])
  }

  /**
   * The listing lines for the directory entries `names`, in the order given,
   * leaving out those not readable by all; `None` when the metadata of one of
   * them cannot be read.
   */
  function Entries(fs: FileSystem, dir: Str, names: seq<Str>): Option<Str>
    decreases |names|
  {
    if names == [] then Some([])
    else
      match Entries(fs, dir, names[..|names| - 1])
      case None => None
      case Some(before) =>
        match Listed(fs, dir, names[|names| - 1])
        case None => None
        case Some(line) => Some(before + line)
  }

  /** One missing entry makes the whole listing fail, wherever it comes. */
  lemma {:induction false} EntriesFailFromPrefix(fs: FileSystem, dir: Str, names: seq<Str>, i: nat)
    requires i <= |names| && Entries(fs, dir, names[..i]) == None
    ensures Entries(fs, dir, names) == None
    decreases |names| - i
  {
    if i < |names| {
      assert names[..i + 1][..i] == names[..i];
      EntriesFailFromPrefix(fs, dir, names, i + 1);
    } else {
      assert names[..i] == names;
    }
  }

  /** Listing one more entry appends its line, or fails when the entry cannot be read. */
  lemma EntriesSnoc(fs: FileSystem, dir: Str, names: seq<Str>, name: Str)
    ensures Entries(fs, dir, names + [name]) ==
      if Entries(fs, dir, names).None? || Listed(fs, dir, name).None? then None
      else Some(Entries(fs, dir, names).value + Listed(fs, dir, name).value)
  {
    var s := names + [name];
    assert s[..|s| - 1] == names;
  }

  /**
   * The listing of `a + b` is the listing of `a` followed by that of `b`: the
   * entries appear in the order the directory yields them, unsorted.
   */
  lemma {:induction false} EntriesAppend(fs: FileSystem, dir: Str, a: seq<Str>, b: seq<Str>)
    requires Entries(fs, dir, a).Some? && Entries(fs, dir, b).Some?
    ensures Entries(fs, dir, a + b) == Some(Entries(fs, dir, a).value + Entries(fs, dir, b).value)
    decreases |b|
  {
    if b == [] {
      assert a + b == a;
      var x := Entries(fs, dir, a).value;
      assert x + [] == x;
    } else {
      var init, last := b[..|b| - 1], b[|b| - 1];
      assert b == init + [last];
      assert a + b == (a + init) + [last];
      EntriesSnoc(fs, dir, init, last);
      EntriesAppend(fs, dir, a, init);
      EntriesSnoc(fs, dir, a + init, last);
      var x, y, z := Entries(fs, dir, a).value, Entries(fs, dir, init).value, Listed(fs, dir, last).value;
      ConcatAssoc(x, y, z);
    }
  }

  /** A single readable entry gives its one line; an unreadable one gives nothing. */
  lemma EntriesOne(fs: FileSystem, dir: Str, name: Str, e: Entry)
    requires Lookup(fs, Push(dir, name)) == Some(e)
    ensures Entries(fs, dir, [name]) == Some(if ReadableByAll(e) then LinkLine(name, e) else [])
  {
    assert [name][..0] == [];
    var line := if ReadableByAll(e) then LinkLine(name, e) else [];
    assert [] + line == line;
  }

  /**
   * What `get_content` returns for `path`: the text of a file, which must be
   * valid UTF-8, or the listing of a directory; `Err` carries how the handler
   * ends otherwise.
   */
  function Content(fs: FileSystem, path: Str, urlPath: Str): Result<Str, Outcome> {
    match Lookup(fs, path)
    case None => Err(Panicked)
    case Some(e) =>
      if e.kind == File then
        if Valid(e.data) then Ok(e.data) else Err(Panicked)
      else
        match Entries(fs, path, e.children)
        case None => Err(IoError)
        case Some(lines) => Ok(ListingHead(urlPath) + lines)
  }

  /** What `get_binary` writes: the Success header, then the file's bytes; a directory fails after the header. */
  function Binary(fs: FileSystem, path: Str, mime: Str): (r: Reply)
    ensures r.logged == [] && r.upstream == None && r.cgiPath == None
    ensures r.written != [] ==> StartsWith(r.written, Header(Success, Some(mime)))
  {
    match Lookup(fs, path)
    case None => Stop(IoError)
    case Some(e) =>
      if e.kind == File then Only(Header(Success, Some(mime)) + e.data)
      else Reply(Header(Success, Some(mime)), [], None, None, IoError)
  }

  // ---------------------------------------------------------------- routing

  /**
   * From the CGI test on: a file in the CGI directory is handed to the CGI
   * runner when executable by all (CGIError otherwise); outside it, a file not
   * readable by all is NotFound, and a readable one is dispatched by type.
   */
  function Deliver(srv: VHost, urlPath: Str, fs: FileSystem, guess: Str -> Option<Str>, loc: Located): (r: Reply)
    ensures r.logged == [] && r.upstream == None
    ensures r.cgiPath.Some? ==> r.cgiPath == Some(loc.path) && r.written == [] && ExecutableByAll(loc.entry)
  {
    match Parent(loc.path)
    case None => Stop(Panicked)
    case Some(parent) =>
      if TrimEnd(srv.cgi, SLASH) == parent then
        if ExecutableByAll(loc.entry) then Reply([], [], None, Some(loc.path), Done)
        else Only(Header(CGIError, Some(CGI_ERROR)))
      else if !ReadableByAll(loc.entry) then Only(Header(NotFound, Some(UNREADABLE)))
      else Dispatch(urlPath, fs, guess, loc.path)
  }

  /** The MIME dispatch: binary types through `get_binary`, text types through `get_content`. */
  function Dispatch(urlPath: Str, fs: FileSystem, guess: Str -> Option<Str>, path: Str): (r: Reply)
    ensures r.logged == [] && r.upstream == None && r.cgiPath == None
  {
    match GetMime(path, guess)
    case None => Stop(Panicked)
    case Some(mime) =>
      if !StartsWith(mime, TEXT) then Binary(fs, path, mime)
      else
        match Content(fs, path, urlPath)
        case Err(end) => Stop(end)
        case Ok(text) => Only(Header(Success, Some(mime)) + text)
  }

  /** The local half of the router, from the path mapping to the reply. */
  function Serve(srv: VHost, url: Url, fs: FileSystem, guess: Str -> Option<Str>): (r: Reply)
    ensures r.logged == [] && r.upstream == None
  {
    var path := MapPath(srv, url.path);
    match Lookup(fs, path)
    case None => Only(Header(NotFound, Some(MISSING)))
    case Some(e) =>
      if e.kind == Dir && !EndsWith(url.path, [SLASH]) then
        Only(Header(RedirectPermanent, Some(url.text + [SLASH])))
      else Existing(srv, url.path, fs, guess, path, e)
  }

  /** An existing path that needs no redirect: the index substitution, then delivery. */
  function Existing(srv: VHost, urlPath: Str, fs: FileSystem, guess: Str -> Option<Str>, path: Str, e: Entry): (r: Reply)
    requires Lookup(fs, path) == Some(e)
    ensures r.logged == [] && r.upstream == None
  {
    match Resolve(fs, path, e)
    case None => Stop(Panicked)
    case Some(loc) => Deliver(srv, urlPath, fs, guess, loc)
  }

  /** The upstream address for a URL whose first path segment is a proxy route. */
  function ProxyRoute(srv: VHost, url: Url): Option<Str> {
    if |srv.proxy| != 0 then
      match PathSegments(url)
      case None => None
      case Some(s) => if s[0] in srv.proxy then Some(srv.proxy[s[0]]) else None
    else None
  }

  /** After the checks: the reverse proxy for a proxy route, the filesystem otherwise. */
  function Route(srv: VHost, peer: PeerAddr, url: Url, fs: FileSystem, guess: Str -> Option<Str>,
                 upstream: Str -> Upstream): Reply
  {
    match ProxyRoute(srv, url)
    case Some(addr) =>
      var rel := Relay(peer, url, upstream(addr));
      Reply(rel.written, rel.logged, rel.sent, None, rel.end)
    case None => Serve(srv, url, fs, guess)
  }

  /** The header sent when the URL names a port other than the host's, and routing goes on. */
  function PortWarning(srv: VHost, url: Url): Str {
    if url.port.Some? && url.port.value != srv.port then Header(ProxyRequestRefused, Some(WRONG_PORT)) else []
  }

  /** The host, port and scheme checks on a parsed URL. */
  function Checked(srv: VHost, peer: PeerAddr, url: Url, fs: FileSystem, guess: Str -> Option<Str>,
                   upstream: Str -> Upstream): Reply
  {
    if Some(srv.hostname) != url.host then Only(Header(ProxyRequestRefused, Some(URL_MISMATCH)))
    else if url.scheme != GEMINI then Only(PortWarning(srv, url) + Header(ProxyRequestRefused, Some(NOT_GEMINI)))
    else After(PortWarning(srv, url), Route(srv, peer, url, fs, guess, upstream))
  }

  /**
   * `handle_connection`: `got` is what the client's first `read` finds, or
   * `None` when the read fails; `parse` is `Url::parse`, `guess` is
   * `mime_guess`, and `upstream` tells how talking to each upstream address goes.
   */
  function Handle(srv: VHost, peer: PeerAddr, got: Option<Str>, parse: Str -> Option<Url>, fs: FileSystem,
                  guess: Str -> Option<Str>, upstream: Str -> Upstream): Reply
  {
    match got
    case None => Stop(IoError)
    case Some(bytes) =>
      var buffer := Padded(bytes);
      if !Valid(buffer) then Only(Header(BadRequest, Some(BAD_REQUEST)))
      else
        match parse(Normalise(buffer))
        case None => Only(Header(BadRequest, Some(BAD_REQUEST)))
        case Some(url) => Checked(srv, peer, url, fs, guess, upstream)
  }

  // ---------------------------------------------------------------- what the router promises

  /**
   * A request that is not UTF-8, does not parse, names another host or another
   * scheme gets one status (after the port warning, for the scheme) and
   * nothing else: the reply does not depend on the filesystem, the MIME table
   * or any upstream server.
   */
  lemma EarlyRejections(srv: VHost, peer: PeerAddr, bytes: Str, parse: Str -> Option<Url>, fs: FileSystem,
                        guess: Str -> Option<Str>, upstream: Str -> Upstream)
    ensures var buffer := Padded(bytes);
      var rep := Handle(srv, peer, Some(bytes), parse, fs, guess, upstream);
      && (!Valid(buffer) || parse(Normalise(buffer)).None? ==> rep == Only(Header(BadRequest, Some(BAD_REQUEST))))
      && (Valid(buffer) && parse(Normalise(buffer)).Some? && parse(Normalise(buffer)).value.host != Some(srv.hostname)
          ==> rep == Only(Header(ProxyRequestRefused, Some(URL_MISMATCH))))
      && (Valid(buffer) && parse(Normalise(buffer)).Some? && parse(Normalise(buffer)).value.host == Some(srv.hostname)
          && parse(Normalise(buffer)).value.scheme != GEMINI
          ==> rep == Only(PortWarning(srv, parse(Normalise(buffer)).value) + Header(ProxyRequestRefused, Some(NOT_GEMINI))))
  {
  }

  /** A failed read ends the handler with no output at all. */
  lemma ReadFailureIsSilent(srv: VHost, peer: PeerAddr, parse: Str -> Option<Url>, fs: FileSystem,
                            guess: Str -> Option<Str>, upstream: Str -> Upstream)
    ensures Handle(srv, peer, None, parse, fs, guess, upstream) == Reply([], [], None, None, IoError)
  {
  }

  /**
   * A URL with the wrong port is warned about with ProxyRequestRefused, and
   * then routed anyway: a client reading the reply sees the warning header
   * followed by the whole routed reply.
   */
  lemma WrongPortThenRoute(srv: VHost, peer: PeerAddr, url: Url, fs: FileSystem, guess: Str -> Option<Str>,
                           upstream: Str -> Upstream)
    requires url.host == Some(srv.hostname) && url.port.Some? && url.port.value != srv.port && url.scheme == GEMINI
    ensures var rep := Checked(srv, peer, url, fs, guess, upstream);
      var routed := Route(srv, peer, url, fs, guess, upstream);
      && rep == After(Header(ProxyRequestRefused, Some(WRONG_PORT)), routed)
      && ParseStatusLine(rep.written) == Some(Parsed(Code(ProxyRequestRefused), SPACE, WRONG_PORT, routed.written))
  {
    AsciiOfPrintable("Wrong Port!");
    StatusLineRoundTrip(SPACE, ProxyRequestRefused, WRONG_PORT, Route(srv, peer, url, fs, guess, upstream).written);
  }

  /** With the right port, or none, nothing comes before the routed reply. */
  lemma RightPortRoutesDirectly(srv: VHost, peer: PeerAddr, url: Url, fs: FileSystem, guess: Str -> Option<Str>,
                                upstream: Str -> Upstream)
    requires url.host == Some(srv.hostname) && (url.port.None? || url.port.value == srv.port) && url.scheme == GEMINI
    ensures Checked(srv, peer, url, fs, guess, upstream) == Route(srv, peer, url, fs, guess, upstream)
  {
    var r := Route(srv, peer, url, fs, guess, upstream);
    assert [] + r.written == r.written;
  }

  /**
   * A URL whose first segment is a proxy route goes to that route's upstream
   * and never touches the filesystem; any other URL never reaches an upstream.
   */
  lemma ProxyRoutesBypassFilesystem(srv: VHost, peer: PeerAddr, url: Url, fs: FileSystem, guess: Str -> Option<Str>,
                                    upstream: Str -> Upstream, route: Str, rest: seq<Str>)
    requires url.path == [SLASH] + Join([route] + rest, SLASH) && SLASH !in route
    ensures route in srv.proxy ==>
      var rel := Relay(peer, url, upstream(srv.proxy[route]));
      Route(srv, peer, url, fs, guess, upstream) == Reply(rel.written, rel.logged, rel.sent, None, rel.end)
    ensures route !in srv.proxy ==> Route(srv, peer, url, fs, guess, upstream) == Serve(srv, url, fs, guess)
  {
    assert StartsWith(url.path, [SLASH]);
    var segments := PathSegments(url).value;
    JoinFirst(segments, [route] + rest);
  }

  /** Two segment lists with the same "/"-joined text and slash-free segments start with the same segment. */
  lemma JoinFirst(a: seq<Str>, b: seq<Str>)
    requires |a| >= 1 && |b| >= 1 && Join(a, SLASH) == Join(b, SLASH)
    requires forall i :: 0 <= i < |a| ==> SLASH !in a[i]
    requires SLASH !in b[0]
    ensures a[0] == b[0]
  {
    JoinHead(a);
    JoinHead(b);
  }

  /** The first segment of a join is what comes before its first "/". */
  lemma JoinHead(a: seq<Str>)
    requires |a| >= 1 && SLASH !in a[0]
    ensures SplitOnce(Join(a, SLASH), SLASH)[0] == a[0]
  {
    if |a| == 1 {
      assert Join(a, SLASH) == a[0];
    } else {
      assert Join(a, SLASH) == a[0] + [SLASH] + Join(a[1..], SLASH);
      SplitOnceAt(a[0], SLASH, Join(a[1..], SLASH));
    }
  }

  /** A path that does not exist is NotFound ("Not found!"), before anything else is looked at. */
  lemma MissingIsNotFound(srv: VHost, url: Url, fs: FileSystem, guess: Str -> Option<Str>)
    requires Lookup(fs, MapPath(srv, url.path)).None?
    ensures Serve(srv, url, fs, guess) == Only(Header(NotFound, Some(MISSING)))
  {
  }

  /**
   * A directory asked for without its trailing "/" is redirected to the URL
   * plus "/", whatever the directory holds.
   */
  lemma DirectoryRedirect(srv: VHost, url: Url, fs: FileSystem, guess: Str -> Option<Str>)
    requires Lookup(fs, MapPath(srv, url.path)).Some? && Lookup(fs, MapPath(srv, url.path)).value.kind == Dir
    requires !EndsWith(url.path, [SLASH])
    ensures Serve(srv, url, fs, guess) == Only(Header(RedirectPermanent, Some(url.text + [SLASH])))
  {
  }

  /**
   * In the CGI directory a script executable by all is handed to the CGI
   * runner with nothing written; one that is not gets CGIError. Outside it, a
   * file not readable by all is NotFound ("Not Found!").
   */
  lemma PermissionChecks(srv: VHost, urlPath: Str, fs: FileSystem, guess: Str -> Option<Str>, loc: Located)
    requires Parent(loc.path).Some?
    ensures var rep := Deliver(srv, urlPath, fs, guess, loc);
      && (TrimEnd(srv.cgi, SLASH) == Parent(loc.path).value && ExecutableByAll(loc.entry)
          ==> rep == Reply([], [], None, Some(loc.path), Done))
      && (TrimEnd(srv.cgi, SLASH) == Parent(loc.path).value && !ExecutableByAll(loc.entry)
          ==> rep == Only(Header(CGIError, Some(CGI_ERROR))))
      && (TrimEnd(srv.cgi, SLASH) != Parent(loc.path).value && !ReadableByAll(loc.entry)
          ==> rep == Only(Header(NotFound, Some(UNREADABLE))))
  {
  }

  /**
   * A binary file is sent as a Success header with the MIME type as meta,
   * followed by exactly the file's bytes, in order.
   */
  lemma BinaryFileReadsBack(fs: FileSystem, path: Str, mime: Str)
    requires Lookup(fs, path).Some? && Lookup(fs, path).value.kind == File && CR !in mime
    ensures Binary(fs, path, mime).end == Done
    ensures ParseStatusLine(Binary(fs, path, mime).written)
            == Some(Parsed(Code(Success), SPACE, mime, Lookup(fs, path).value.data))
  {
    StatusLineRoundTrip(SPACE, Success, mime, Lookup(fs, path).value.data);
  }

  /** "stem.gemini" holds no "/". */
  lemma GemtextNameHasNoSlash(stem: Str)
    requires SLASH !in stem
    ensures SLASH !in stem + [DOT] + GEMINI
  {
    var name := stem + [DOT] + GEMINI;
    assert SLASH !in GEMINI;
    forall i | 0 <= i < |name| ensures name[i] != SLASH {
      if i < |stem| { assert name[i] in stem; } else if i > |stem| { assert name[i] == GEMINI[i - |stem| - 1]; }
    }
  }

  /** A readable UTF-8 "dir/stem.gemini" outside the CGI directory is sent as gemtext. */
  lemma DeliversGemtext(srv: VHost, urlPath: Str, fs: FileSystem, guess: Str -> Option<Str>, dir: Str, stem: Str, e: Entry)
    requires dir != [] && !EndsWith(dir, [SLASH]) && stem != [] && SLASH !in stem
    requires Lookup(fs, dir + [SLASH] + (stem + [DOT] + GEMINI)) == Some(e)
    requires e.kind == File && ReadableByAll(e) && Valid(e.data) && TrimEnd(srv.cgi, SLASH) != dir
    ensures Existing(srv, urlPath, fs, guess, dir + [SLASH] + (stem + [DOT] + GEMINI), e)
            == Only(Header(Success, Some(TEXT_GEMINI)) + e.data)
  {
    var name := stem + [DOT] + GEMINI;
    var path := dir + [SLASH] + name;
    assert Parent(path) == Some(dir) by {
      GemtextNameHasNoSlash(stem);
      ParentOfChild(dir, name);
    }
    assert GetMime(path, guess) == Some(TEXT_GEMINI) by {
      GeminiFilesAreGemtext(dir, stem, guess);
      ConcatAssoc(dir + [SLASH], stem + [DOT], GEMINI);
      ConcatAssoc(dir + [SLASH], stem, [DOT]);
    }
    GemtextIsText();
  }

  /**
   * End to end below the checks: "/stem.gemini" under the document root, for
   * a readable UTF-8 file outside the CGI directory, is answered with Success,
   * meta "text/gemini", and the file's text.
   */
  lemma ServesGemtextFile(srv: VHost, url: Url, fs: FileSystem, guess: Str -> Option<Str>, stem: Str)
    requires !srv.usrdir && srv.dir != [] && !EndsWith(srv.dir, [SLASH])
    requires stem != [] && SLASH !in stem
    requires url.path == [SLASH] + (stem + [DOT] + GEMINI)
    requires var path := srv.dir + [SLASH] + (stem + [DOT] + GEMINI);
      && path in fs && fs[path].kind == File && ReadableByAll(fs[path]) && Valid(fs[path].data)
    requires TrimEnd(srv.cgi, SLASH) != srv.dir
    ensures var path := srv.dir + [SLASH] + (stem + [DOT] + GEMINI);
      Serve(srv, url, fs, guess) == Only(Header(Success, Some(TEXT_GEMINI)) + fs[path].data)
  {
    var path := srv.dir + [SLASH] + (stem + [DOT] + GEMINI);
    var e := fs[path];
    GemtextUnderRoot(srv, stem);
    assert Serve(srv, url, fs, guess) == Existing(srv, url.path, fs, guess, path, e);
    DeliversGemtext(srv, url.path, fs, guess, srv.dir, stem, e);
  }

  /** "/stem.gemini" maps under the document root to a path naming a file, not a directory. */
  lemma GemtextUnderRoot(srv: VHost, stem: Str)
    requires !srv.usrdir && srv.dir != [] && !EndsWith(srv.dir, [SLASH])
    requires stem != [] && SLASH !in stem
    ensures var path := srv.dir + [SLASH] + (stem + [DOT] + GEMINI);
      MapPath(srv, [SLASH] + (stem + [DOT] + GEMINI)) == path && path != [] && !EndsWith(path, [SLASH])
  {
    var name := stem + [DOT] + GEMINI;
    var path := srv.dir + [SLASH] + name;
    assert !StartsWith(name, [SLASH]) by { assert name[0] == stem[0] && stem[0] in stem; }
    DocumentRoot(srv, name);
    assert !EndsWith(path, [SLASH]) by {
      assert path[|path| - 1..] == [GEMINI[5]];
      assert GEMINI[5] == 105;
    }
  }

  /**
   * A directory reached through a URL ending in "/", holding no index, is
   * listed: Success, "text/gemini", the listing head with the URL path, then one
   * line per readable entry in the order the directory yields them. (The CGI
   * test compares the CGI directory with the directory's own parent, and the
   * MIME type comes from the directory's name.)
   */
  lemma ListsDirectory(srv: VHost, urlPath: Str, fs: FileSystem, guess: Str -> Option<Str>, dir: Str, e: Entry)
    requires dir != [] && !EndsWith(dir, [SLASH]) && Lookup(fs, dir + [SLASH]) == Some(e)
    requires Lookup(fs, dir + [SLASH] + INDEX).None?
    requires Parent(dir + [SLASH]).Some? && TrimEnd(srv.cgi, SLASH) != Parent(dir + [SLASH]).value
    requires ReadableByAll(e) && Extension(dir + [SLASH]).None?
    requires Entries(fs, dir + [SLASH], e.children).Some?
    ensures Existing(srv, urlPath, fs, guess, dir + [SLASH], e)
            == Only(Header(Success, Some(TEXT_GEMINI)) + (ListingHead(urlPath) + Entries(fs, dir + [SLASH], e.children).value))
  {
    var path := dir + [SLASH];
    assert Resolve(fs, path, e) == Some(Located(path, e)) by {
      IndexOf(dir);
    }
    assert Dispatch(urlPath, fs, guess, path)
           == Only(Header(Success, Some(TEXT_GEMINI)) + (ListingHead(urlPath) + Entries(fs, path, e.children).value)) by {
      GemtextIsText();
    }
  }

  // ---------------------------------------------------------------- the code, step by step

  /** `get_content`: the file's text, or the listing built line by line over `read_dir`. */
  method GetContent(fs: FileSystem, path: Str, urlPath: Str) returns (content: Result<Str, Outcome>)
    ensures content == Content(fs, path, urlPath)
  {
    var meta := Lookup(fs, path);
    if meta.None? {
      return Err(Panicked);
    }
    var e := meta.value;
    if e.kind == File {
      if !Valid(e.data) {
        return Err(Panicked);
      }
      return Ok(e.data);
    }
    var list := ListingHead(urlPath);
    var i := 0;
    while i < |e.children|
      invariant 0 <= i <= |e.children|
      invariant Entries(fs, path, e.children[..i]).Some?
      invariant list == ListingHead(urlPath) + Entries(fs, path, e.children[..i]).value
    {
      var name := e.children[i];
      EntriesSnoc(fs, path, e.children[..i], name);
      assert e.children[..i + 1] == e.children[..i] + [name];
      var m := Lookup(fs, Push(path, name));
      if m.None? {
        EntriesFailFromPrefix(fs, path, e.children, i + 1);
        return Err(IoError);
      }
      if ReadableByAll(m.value) {
        ConcatAssoc(ListingHead(urlPath), Entries(fs, path, e.children[..i]).value, LinkLine(name, m.value));
        list := list + LinkLine(name, m.value);
      } else {
        assert Entries(fs, path, e.children[..i]).value + [] == Entries(fs, path, e.children[..i]).value;
      }
      i := i + 1;
    }
    assert e.children[..i] == e.children;
    return Ok(list);
  }

  /**
   * `get_binary`: the Success header, then the file in chunks of at most
   * `CHUNK` bytes, each passed to `send_raw` as it is read, until a read comes
   * back empty (which is sent too). Reading a directory fails after the header.
   */
  method GetBinary(con: Connection, fs: FileSystem, path: Str, mime: Str) returns (r: Outcome)
    modifies con
    ensures con.stream == old(con.stream) + Binary(fs, path, mime).written
    ensures r == Binary(fs, path, mime).end
  {
    var fd := Lookup(fs, path);
    if fd.None? {
      return IoError;
    }
    con.SendStatus(Success, Some(mime));
    if fd.value.kind == Dir {
      return IoError;
    }
    var data := fd.value.data;
    var pos := 0;
    while true
      invariant 0 <= pos <= |data|
      invariant con.stream == old(con.stream) + Header(Success, Some(mime)) + data[..pos]
      decreases |data| - pos
    {
      var len := if |data| - pos < CHUNK then |data| - pos else CHUNK;
      var buf := data[pos..pos + len];
      con.SendRaw(buf);
      assert data[..pos + len] == data[..pos] + buf;
      if len == 0 {
        break;
      }
      pos := pos + len;
    }
    assert data[..pos] == data;
    return Done;
  }

  /** Lines 162-179 of src/main.rs: the path pushed together piece by piece. */
  method BuildPath(srv: VHost, urlPath: Str) returns (path: Str)
    ensures path == MapPath(srv, urlPath)
  {
    path := [];
    if StartsWith(urlPath, [SLASH, TILDE]) && srv.usrdir {
      var usr := TrimStartMatches(urlPath, [SLASH, TILDE]);
      var parts := SplitOnce(usr, SLASH);
      path := Push(path, HOME);
      if |parts| == 2 {
        path := Push(path, parts[0] + [SLASH] + PUBLIC_GEMINI + [SLASH] + parts[1]);
      } else {
        path := Push(path, parts[0] + [SLASH] + PUBLIC_GEMINI + [SLASH]);
      }
    } else {
      path := Push(path, srv.dir);
      if urlPath != [] || urlPath != [SLASH] {
        path := Push(path, TrimStartMatches(urlPath, [SLASH]));
      }
    }
  }

  /** Lines 201-212 of src/main.rs: `path` and `meta` reassigned for the index, if there is one. */
  method SubstituteIndex(fs: FileSystem, dir: Str, e: Entry) returns (path: Str, meta: Option<Entry>)
    requires Lookup(fs, dir) == Some(e) && e.kind == Dir
    ensures meta.None? <==> Resolve(fs, dir, e).None?
    ensures meta.Some? ==> Resolve(fs, dir, e) == Some(Located(path, meta.value))
  {
    path, meta := dir, Some(e);
    if Lookup(fs, Push(path, INDEX)).Some? {
      path := Push(path, INDEX);
      meta := Lookup(fs, path);
      if !ReadableByAll(meta.value) {
        var p := Pop(path);
        path := Push(path, p + [SLASH]);
        meta := Lookup(fs, path);
      }
    }
  }

  /** Lines 216-231 of src/main.rs: the CGI test and the permission test. */
  method DeliverPath(con: Connection, srv: VHost, urlPath: Str, fs: FileSystem, guess: Str -> Option<Str>,
                     path: Str, meta: Entry)
    returns (cgiPath: Option<Str>, r: Outcome)
    modifies con
    ensures var rep := Deliver(srv, urlPath, fs, guess, Located(path, meta));
      con.stream == old(con.stream) + rep.written && cgiPath == rep.cgiPath && r == rep.end
  {
    var parent := Parent(path);
    if parent.None? {
      return None, Panicked;
    }
    if TrimEnd(srv.cgi, SLASH) == parent.value {
      if ExecutableByAll(meta) {
        return Some(path), Done;
      }
      con.SendStatus(CGIError, Some(CGI_ERROR));
      return None, Done;
    }
    if !ReadableByAll(meta) {
      con.SendStatus(NotFound, Some(UNREADABLE));
      return None, Done;
    }
    r := SendFile(con, urlPath, fs, guess, path);
    return None, r;
  }

  /** Lines 233-246 of src/main.rs: `get_mime`, then `get_binary` or `get_content` and `send_body`. */
  method SendFile(con: Connection, urlPath: Str, fs: FileSystem, guess: Str -> Option<Str>, path: Str)
    returns (r: Outcome)
    modifies con
    ensures con.stream == old(con.stream) + Dispatch(urlPath, fs, guess, path).written
    ensures r == Dispatch(urlPath, fs, guess, path).end
  {
    var mime := GetMime(path, guess);
    if mime.None? {
      return Panicked;
    }
    if !StartsWith(mime.value, TEXT) {
      r := GetBinary(con, fs, path, mime.value);
      return r;
    }
    var content := GetContent(fs, path, urlPath);
    if content.Err? {
      return content.error;
    }
    ghost var before := con.stream;
    con.SendBody(Success, Some(mime.value), Some(content.value));
    ConcatAssoc(before, Header(Success, Some(mime.value)), content.value);
    return Done;
  }

  /** Lines 162-246 of src/main.rs: the local half of the router. */
  method ServePath(con: Connection, srv: VHost, url: Url, fs: FileSystem, guess: Str -> Option<Str>)
    returns (cgiPath: Option<Str>, r: Outcome)
    modifies con
    ensures con.stream == old(con.stream) + Serve(srv, url, fs, guess).written
    ensures cgiPath == Serve(srv, url, fs, guess).cgiPath && r == Serve(srv, url, fs, guess).end
  {
    var path := BuildPath(srv, url.path);
    var found := Lookup(fs, path);
    if found.None? {
      con.SendStatus(NotFound, Some(MISSING));
      return None, Done;
    }
    if found.value.kind == Dir && !EndsWith(url.path, [SLASH]) {
      con.SendStatus(RedirectPermanent, Some(url.text + [SLASH]));
      return None, Done;
    }
    cgiPath, r := ServeExisting(con, srv, url.path, fs, guess, path, found.value);
  }

  /** Lines 186-246 of src/main.rs: `path`, `meta` and `perm` reassigned for the index, then delivery. */
  method ServeExisting(con: Connection, srv: VHost, urlPath: Str, fs: FileSystem, guess: Str -> Option<Str>,
                       path: Str, meta: Entry)
    returns (cgiPath: Option<Str>, r: Outcome)
    requires Lookup(fs, path) == Some(meta)
    modifies con
    ensures var rep := Existing(srv, urlPath, fs, guess, path, meta);
      con.stream == old(con.stream) + rep.written && cgiPath == rep.cgiPath && r == rep.end
  {
    var p, m := path, meta;
    if m.kind == Dir {
      var resolved;
      p, resolved := SubstituteIndex(fs, path, meta);
      if resolved.None? {
        return None, Panicked;
      }
      m := resolved.value;
    }
    cgiPath, r := DeliverPath(con, srv, urlPath, fs, guess, p, m);
  }

  /** Lines 147-160 of src/main.rs: the upstream address, when the first path segment is a proxy route. */
  method FindRoute(srv: VHost, url: Url) returns (addr: Option<Str>)
    ensures addr == ProxyRoute(srv, url)
  {
    addr := None;
    if |srv.proxy| != 0 {
      var segments := PathSegments(url);
      if segments.Some? {
        var s := segments.value;
        if s[0] in srv.proxy {
          addr := Some(srv.proxy[s[0]]);
        }
      }
    }
  }

  /** The reverse proxy for a proxy route, the filesystem otherwise. */
  method RouteRequest(con: Connection, srv: VHost, url: Url, fs: FileSystem, guess: Str -> Option<Str>,
                      upstream: Str -> Upstream)
    returns (logged: seq<Line>, sent: Option<Str>, cgiPath: Option<Str>, r: Outcome)
    modifies con
    ensures var rep := Route(srv, con.peer, url, fs, guess, upstream);
      && con.stream == old(con.stream) + rep.written
      && logged == rep.logged && sent == rep.upstream && cgiPath == rep.cgiPath && r == rep.end
  {
    var addr := FindRoute(srv, url);
    if addr.Some? {
      cgiPath := None;
      sent, logged, r := Proxy(con, url, upstream(addr.value));
    } else {
      logged, sent := [], None;
      cgiPath, r := ServePath(con, srv, url, fs, guess);
    }
  }

  /** Lines 126-145 of src/main.rs: the host, port and scheme checks. */
  method CheckAndRoute(con: Connection, srv: VHost, url: Url, fs: FileSystem, guess: Str -> Option<Str>,
                       upstream: Str -> Upstream)
    returns (logged: seq<Line>, sent: Option<Str>, cgiPath: Option<Str>, r: Outcome)
    modifies con
    ensures var rep := Checked(srv, con.peer, url, fs, guess, upstream);
      && con.stream == old(con.stream) + rep.written
      && logged == rep.logged && sent == rep.upstream && cgiPath == rep.cgiPath && r == rep.end
  {
    logged, sent, cgiPath := [], None, None;
    if Some(srv.hostname) != url.host {
      con.SendStatus(ProxyRequestRefused, Some(URL_MISMATCH));
      return logged, sent, cgiPath, Done;
    }
    if url.port.Some? && url.port.value != srv.port {
      con.SendStatus(ProxyRequestRefused, Some(WRONG_PORT));
    }
    assert con.stream == old(con.stream) + PortWarning(srv, url);
    if url.scheme != GEMINI {
      con.SendStatus(ProxyRequestRefused, Some(NOT_GEMINI));
      ConcatAssoc(old(con.stream), PortWarning(srv, url), Header(ProxyRequestRefused, Some(NOT_GEMINI)));
      return logged, sent, cgiPath, Done;
    }
    ghost var rep := Route(srv, con.peer, url, fs, guess, upstream);
    assert Checked(srv, con.peer, url, fs, guess, upstream) == After(PortWarning(srv, url), rep);
    logged, sent, cgiPath, r := RouteRequest(con, srv, url, fs, guess, upstream);
    ConcatAssoc(old(con.stream), PortWarning(srv, url), rep.written);
  }

  /**
   * `handle_connection`: one read, the UTF-8 and URL checks, then the checks on
   * the URL. `logged` and `sent` come from the proxy, `cgiPath` is the script
   * handed to the CGI runner.
   */
  method HandleConnection(con: Connection, srv: VHost, got: Option<Str>, parse: Str -> Option<Url>,
                          fs: FileSystem, guess: Str -> Option<Str>, upstream: Str -> Upstream)
    returns (logged: seq<Line>, sent: Option<Str>, cgiPath: Option<Str>, r: Outcome)
    modifies con
    ensures var rep := Handle(srv, con.peer, got, parse, fs, guess, upstream);
      && con.stream == old(con.stream) + rep.written
      && logged == rep.logged && sent == rep.upstream && cgiPath == rep.cgiPath && r == rep.end
  {
    logged, sent, cgiPath := [], None, None;
    if got.None? {
      return logged, sent, cgiPath, IoError;
    }
    var buffer := Padded(got.value);
    if !Valid(buffer) {
      con.SendStatus(BadRequest, Some(BAD_REQUEST));
      return logged, sent, cgiPath, Done;
    }
    var request := buffer;
    if StartsWith(request, DOUBLE_SLASH) {
      request := ReplaceFirst(request, DOUBLE_SLASH, GEMINI_PREFIX);
    }
    var parsed := parse(request);
    if parsed.None? {
      con.SendStatus(BadRequest, Some(BAD_REQUEST));
      return logged, sent, cgiPath, Done;
    }
    logged, sent, cgiPath, r := CheckAndRoute(con, srv, parsed.value, fs, guess, upstream);
  }
}
