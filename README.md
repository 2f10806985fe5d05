# gemserv, modelled in Dafny

A model of the request path of gemserv, a Gemini server written in Rust.
The model covers:

- the status table (`Status`);
- the status-line writers of the connection (`Conn`, `Util`);
- the access logger (`Logger`);
- the per-host configuration map (`Config`);
- the TLS acceptor set-up and SNI context selection (`Tls`);
- the CGI and SCGI gateways (`Cgi`, with the SCGI netstring framing in `Netstrings`);
- the reverse proxy (`RevProxy`);
- the connection handler with its URL-to-path mapping, index substitution,
  permission checks, MIME dispatch and directory listings (`Router`);
- the example CGI script agena-cgi (`Agena`).

Supporting modules model the Rust library behaviour the core relies on:

- `Bytes`: byte strings, decimal rendering, trimming, splitting;
- `Utf8`: UTF-8 validity and `String::from_utf8_lossy`;
- `Paths`: `PathBuf::push`, `parent`, `pop`, `file_name` and `extension` on "/"-separated paths;
- `Fs`: the filesystem as a map from path to entry, with `st_mode` bits;
- `Net`: the parsed URL and `path_segments`.

All Rust strings are byte sequences (`Bytes.Str = seq<byte>`).

Outside effects are explicit inputs:

- what the client's first `read` returns;
- `Url::parse` and `mime_guess` (oracle functions);
- the filesystem contents;
- whether key and certificate files load;
- how a CGI child, an SCGI backend or an upstream Gemini server behaves.

Each method that writes to a connection is proved against a function giving
the exact bytes written, the log lines and how the handler ends (`Done`,
`IoError` for a `?` that propagates an error, `Panicked` for an `unwrap`,
`expect` or index out of bounds). Lemmas about those functions state what
the server promises.

## Model

| member | source | states |
|---|---|---|
| Status.Code | src/status.rs:6-28 | every status carries a two-digit code between 10 and 65 |
| Status.CodeInjective | src/status.rs:7-27 | no two statuses share a code |
| Status.CodeCategory | src/status.rs:7-27 | the tens digit of a code is the digit of its category (1 input … 6 certificate) |
| Status.Reason | src/status.rs:31-56 | every status has a non-empty reason text |
| Status.ReasonIsPrintable | src/status.rs:31-56 | every reason text is printable ASCII, so it fits on a status line |
| Status.Name | src/status.rs:59-63 | the displayed name is non-empty and does not start with a digit |
| Status.NameIsNotCode | src/status.rs:59-63 | `Display` never prints the numeric code |
| Status.NameVersusReason | src/status.rs:31-63 | the displayed name equals the reason text for Input and Success only |
| Conn.StatusLineRoundTrip | src/conn.rs:32-33 | a status line with a CR-free meta parses back to its code, separator, meta and the bytes after it |
| Conn.DefaultHeaderReadsBack | src/conn.rs:28-33 | with no meta, the header carries the status's reason text after a space |
| Conn.Connection.SendRaw | src/conn.rs:40-44 | the stream grows by exactly the given bytes |
| Conn.Connection.SendBody | src/conn.rs:22-38 | the stream grows by the header, then the body if there is one |
| Conn.Connection.SendStatus | src/conn.rs:17-20 | the stream grows by the header alone |
| Util.Send | src/util.rs:8-23 | the stream grows by exactly the tab-separated header and the optional body |
| Util.HeaderComesFirst | src/util.rs:14-20 | the output parses back as a tab-separated status line followed by the body |
| Util.NoBodyRepeatsHeader | src/util.rs:14-21 | without a body, the header line is written twice |
| Logger.Log | src/logger.rs:5-10 | the line carries address, code and request; severity is info exactly for codes 20-29 |
| Logger.InfoExactlyForSuccess | src/logger.rs:6-9 | info severity holds exactly for the Successful category, that is Success and SuccessEndOfSession |
| Logger.SeverityOnlyFromStatus | src/logger.rs:5-10 | severity depends on the status alone, not on address or request |
| Config.LastWith | src/config.rs:54-62 | the index of the last server with a hostname, -1 if none; no later server has it |
| Config.LastWithFound | src/config.rs:54-62 | a last index exists exactly for the configured hostnames |
| Config.ToMap | src/config.rs:52-64 | keys are exactly the hostnames; each entry holds the global port and the last server block with that hostname |
| Config.HostnameCount | src/config.rs:52-64 | there are at most as many keys as server blocks, and exactly as many when hostnames are distinct |
| Tls.FirstFailureMeans | src/tls.rs:20-36 | loading succeeds exactly when every key and certificate loads; otherwise the error names the first failing server, and the key is tried before the certificate |
| Tls.AcceptorConf | src/tls.rs:15-43 | fails exactly with the first load error; on success every hostname maps to its last server, and "default" maps to the last server named "default", or else to the first server |
| Tls.Bind | src/tls.rs:38-42 | each server's insertions extend the SNI table to the servers seen so far |
| Tls.TableStep | src/tls.rs:38-42 | adding a server's hostname, and "default" for the first server, keeps the SNI table invariant |
| Tls.SelectContext | src/tls.rs:46-59 | a known SNI name selects its own context; otherwise, or with no SNI, the default context |
| Tls.SelectNamedHost | src/tls.rs:48-51 | a configured hostname selects the context of the last server with that hostname |
| Tls.SelectFallsBackToFirst | src/tls.rs:52-57 | when no server is named "default", an unknown or missing SNI name selects the first server's context |
| Tls.SelectWithoutServers | src/tls.rs:52-57 | with no servers there is no context to select |
| Tls.VerifyClientCert | src/tls.rs:61-63 | every client certificate is accepted |
| Cgi.Envs | src/cgi.rs:25-69 | the environment is the fixed variables, then QUERY_STRING, then the certificate variables, overridden by the configured ones |
| Cgi.InsertCertificate | src/cgi.rs:42-58 | adds AUTH_TYPE, TLS_CLIENT_HASH and REMOTE_USER (the last common name) to the environment |
| Cgi.InsertAll | src/cgi.rs:60-67 | every configured variable is inserted, overriding the built-in one |
| Cgi.ServerVariables | src/cgi.rs:27-36 | the fixed variables hold the URL, host, protocol, software name and peer address unless configuration overrides them |
| Cgi.QueryVariable | src/cgi.rs:38-40 | QUERY_STRING is present exactly when the URL has a query, and holds it |
| Cgi.CertificateVariables | src/cgi.rs:42-58 | the certificate variables are present exactly when a client certificate is, and hold its fingerprint and last common name |
| Cgi.ConfiguredVariables | src/cgi.rs:60-67 | a configured variable always wins over a built-in one |
| Cgi.BuiltinsKeepServerBlock | src/cgi.rs:27-36 | the later certificate and query inserts never touch a fixed variable |
| Cgi.Check | src/cgi.rs:72-87 | the first byte of backend output is accepted exactly for "1" to "6"; "1" and "2" log Input and Success, "3" to "6" log nothing, anything else logs CGIError |
| Cgi.CheckAcceptsStatusDigits | src/cgi.rs:72-87 | accepted first bytes are exactly the leading digits of the status codes |
| Cgi.CheckOfStatusLine | src/cgi.rs:72-87 | output that starts with a status line is always accepted, logged as Input or Success for those categories and not logged otherwise |
| Cgi.Cgi | src/cgi.rs:90-148 | non-UTF-8 script path panics; a failed, timed-out or unsuccessful child gets CGIError; empty output panics; other output is relayed verbatim when its first byte passes the check, and replaced by CGIError otherwise; the environment is the gateway's plus SCRIPT_NAME and PATH_INFO |
| Cgi.ScriptVariablesWin | src/cgi.rs:100-102 | SCRIPT_NAME and PATH_INFO hold the script's values whatever the environment held |
| Cgi.RequestPrefixPairs | src/cgi.rs:167-169 | the fixed request head is the NUL-separated encoding of CONTENT_LENGTH 0, SCGI 1, the method and REQUEST_URI pairs |
| Cgi.PrefixPairsNulFree | src/cgi.rs:167-169 | the fixed head's names and values contain no NUL when the path does not |
| Cgi.ScgiRequest | src/cgi.rs:167-173 | the frame is a netstring holding the head then every environment pair exactly once |
| Cgi.ScgiRequestDecodes | src/cgi.rs:167-173 | a backend decoding the frame gets back the head pairs followed by the environment pairs |
| Cgi.Scgi | src/cgi.rs:151-193 | an unresolvable or failing backend is an error; a refused connection or a timeout gets CGIError; a reply is lossily decoded, checked and relayed or replaced by CGIError |
| Netstrings.NetstringRoundTrip | src/cgi.rs:173 | decoding a netstring followed by more bytes gives back the payload and those bytes |
| Netstrings.DecodeNetstringSound | src/cgi.rs:173 | whatever the decoder accepts is a netstring of the payload followed by the rest |
| Netstrings.PairsRoundTrip | src/cgi.rs:170-172 | NUL-free name/value pairs decode back to themselves, in order |
| Netstrings.EncodePairsAppend | src/cgi.rs:170-172 | encoding pairs one by one is encoding them all at once |
| Utf8.Lossy | src/cgi.rs:185 | lossy decoding yields nothing exactly for empty input |
| Utf8.LossyOfValid | src/cgi.rs:185 | lossy decoding leaves valid UTF-8 unchanged |
| Utf8.LossyIsValid | src/cgi.rs:185 | lossy decoding always yields valid UTF-8 |
| Utf8.LossyFirstAscii | src/cgi.rs:185-186 | an ASCII first byte survives lossy decoding, so the status check sees it |
| Net.PathSegments | src/main.rs:148 | segments exist exactly for a path starting with "/", contain no "/", and join back to the path |
| RevProxy.ProxyTarget | src/revproxy.rs:13-23 | a target is what follows the route segment, never empty or "/" |
| RevProxy.ProxyTargetOf | src/revproxy.rs:13-23 | for "/route/rest" the target is rest, unless rest is empty or "/" |
| RevProxy.NoTargetWithoutSecondSlash | src/revproxy.rs:13-18 | a path with only the route segment has no target |
| RevProxy.Relay | src/revproxy.rs:12-57 | no target: logged NotFound; unresolvable: error, nothing written; connect or handshake failure: logged ProxyError; otherwise the target is sent and the reply relayed verbatim |
| RevProxy.RelayWritesAtMostOneHeader | src/revproxy.rs:12-57 | the proxy writes either one header of its own or the upstream's bytes, never both |
| RevProxy.Proxy | src/revproxy.rs:12-57 | the client stream grows by exactly what the relay writes, and the log holds exactly its lines |
| Agena.QueryVar | cgi-scripts/agena-cgi/src/main.rs:7-13 | the query is present exactly when QUERY_STRING is set and is valid UTF-8 |
| Agena.PromptWithoutQuery | cgi-scripts/agena-cgi/src/main.rs:7-12 | without a query, the script asks for input with prompt "Gopher url:" |
| Agena.RedirectWithQuery | cgi-scripts/agena-cgi/src/main.rs:14 | with a query, the script redirects to the gateway base followed by the query |
| Agena.OutputPassesCheck | cgi-scripts/agena-cgi/src/main.rs:7-14 | the script's output always passes the gateway's status check, logged as Input when it prompts |
| Agena.QueryFromGateway | cgi-scripts/agena-cgi/src/main.rs:7-14 | under the gateway's environment, the script sees the request's query exactly when the URL has one |
| Paths.Push | src/main.rs:167-176 | pushing an absolute path replaces the base; a relative one is appended after it |
| Paths.Parent | src/main.rs:216 | there is no parent exactly for a path made only of "/" bytes; otherwise it is a shorter prefix |
| Paths.ParentOfChild | src/main.rs:216 | the parent of "dir/name" is dir |
| Paths.Pop | src/main.rs:206-207 | popping yields a prefix of the path |
| Paths.Extension | src/main.rs:43-46 | an extension is the part of the file name after its last dot, dot-free and shorter than the name |
| Paths.ExtensionOf | src/main.rs:43-46 | "dir/stem.ext" has extension ext |
| Paths.NoDotNoExtension | src/main.rs:43-46 | a file name without a dot has no extension |
| Fs.Lookup | src/main.rs:181-186 | the empty path names nothing; a path with a trailing "/" names only a directory |
| Fs.TrailingSlashNamesDirectory | src/main.rs:181-186 | "d/" names d exactly when d is a directory |
| Fs.ReadableNeedsEveryClass | src/main.rs:205 | the 0o444 test needs owner, group and other read bits all set |
| Router.Padded | src/main.rs:104-106 | the request buffer is always 1024 bytes: what was read, then NUL bytes |
| Router.NormaliseLeadingSlashes | src/main.rs:114-116 | a request starting with "//" gets "gemini:" in front of it; any other request is unchanged |
| Router.BuildPath | src/main.rs:162-179 | builds the local path of the URL path |
| Router.UserDirectory | src/main.rs:164-170 | "/~user/rest" maps to /home/user/public_gemini/rest when user directories are on |
| Router.UserDirectoryBare | src/main.rs:164-172 | "/~user" maps to /home/user/public_gemini/ |
| Router.DocumentRoot | src/main.rs:173-178 | any other path is appended to the document root |
| Router.Resolve | src/main.rs:201-212 | the resolved path names the entry found; a file resolves to itself |
| Router.ReadableIndexServed | src/main.rs:201-205 | a readable index.gemini replaces its directory |
| Router.UnreadableIndexFallsBack | src/main.rs:205-211 | under an absolute root, an unreadable index falls back to its directory |
| Router.UnreadableIndexUnderRelativeRoot | src/main.rs:205-211 | under a relative root the fallback path names nothing, and the handler panics |
| Router.SubstituteIndex | src/main.rs:201-212 | the index substitution resolves as the resolution function says, and panics when that fails |
| Router.GeminiFilesAreGemtext | src/main.rs:47-51 | ".gemini" files are text/gemini whatever the MIME table says |
| Router.NoExtensionIsGemtext | src/main.rs:43-46 | files without an extension are text/gemini |
| Router.OtherExtensionsAreGuessed | src/main.rs:47-50 | any other extension takes the MIME table's first guess |
| Router.GemtextIsText | src/main.rs:233-234 | text/gemini goes through the text path |
| Router.EntriesOne | src/main.rs:82-94 | a readable child yields one link line; an unreadable one is skipped |
| Router.EntriesSnoc | src/main.rs:81-96 | the listing grows by one line per directory entry, in read order |
| Router.EntriesAppend | src/main.rs:81-96 | the listing of two runs of entries is the two listings, one after the other |
| Router.EntriesFailFromPrefix | src/main.rs:83 | once an entry's metadata fails, the whole listing fails |
| Router.GetContent | src/main.rs:72-98 | returns the file's text, or the directory listing, or the error or panic that stops it |
| Router.Binary | src/main.rs:54-70 | anything written starts with the Success header for the MIME type |
| Router.GetBinary | src/main.rs:54-70 | writes the header and then the file's bytes, and ends as the binary reply says |
| Router.BinaryFileReadsBack | src/main.rs:54-70 | for a file, the client reads back a Success status line, the MIME type, then exactly the file's bytes |
| Router.Deliver | src/main.rs:216-245 | a CGI hand-off only ever happens for the resolved path, with nothing written, and only when it is executable by all |
| Router.PermissionChecks | src/main.rs:216-231 | in the CGI directory, non-executable gets CGIError; elsewhere, a file not readable by all gets NotFound; no other case produces those replies |
| Router.DeliverPath | src/main.rs:216-246 | writes and ends as the delivery function says |
| Router.Dispatch | src/main.rs:233-245 | a dispatched file never logs, proxies or hands off to CGI |
| Router.SendFile | src/main.rs:233-246 | writes and ends as the dispatch function says |
| Router.DeliversGemtext | src/main.rs:216-245 | a readable UTF-8 .gemini file outside the CGI directory is sent with a Success text/gemini header and its contents |
| Router.ListsDirectory | src/main.rs:201-245 | a readable directory without an index is answered by its listing |
| Router.Existing | src/main.rs:186-246 | an existing path never logs or proxies |
| Router.ServeExisting | src/main.rs:186-246 | writes and ends as the existing-path function says |
| Router.Serve | src/main.rs:162-246 | the local half never logs or proxies |
| Router.ServePath | src/main.rs:162-246 | writes, hands off and ends as the local-half function says |
| Router.MissingIsNotFound | src/main.rs:181-184 | a path that does not exist gets NotFound "Not found!" |
| Router.DirectoryRedirect | src/main.rs:191-200 | a directory URL without a trailing "/" is redirected permanently to the URL with "/" added |
| Router.GemtextUnderRoot | src/main.rs:173-179 | "/stem.gemini" maps to the file of that name directly under the document root |
| Router.ServesGemtextFile | src/main.rs:162-246 | such a file, readable and valid UTF-8, is served in full with a text/gemini header |
| Router.FindRoute | src/main.rs:147-160 | the upstream is the proxy entry for the URL's first path segment, if any |
| Router.ProxyRoutesBypassFilesystem | src/main.rs:147-160 | a URL whose first segment is a proxy route is relayed without touching the filesystem; any other goes to the filesystem |
| Router.RouteRequest | src/main.rs:147-246 | writes, logs and ends as the routing function says |
| Router.WrongPortThenRoute | src/main.rs:131-136 | a wrong port gets a ProxyRequestRefused header, and then routing goes on anyway |
| Router.RightPortRoutesDirectly | src/main.rs:131-136 | a matching or missing port routes with no warning |
| Router.CheckAndRoute | src/main.rs:126-246 | writes, logs and ends as the host, port and scheme checks say |
| Router.EarlyRejections | src/main.rs:106-145 | non-UTF-8 and unparsable requests get BadRequest; a wrong host or scheme gets ProxyRequestRefused; none of these depends on the filesystem or any upstream |
| Router.ReadFailureIsSilent | src/main.rs:104-105 | a failed read writes nothing and ends in an I/O error |
| Router.HandleConnection | src/main.rs:101-247 | writes, logs, hands off and ends exactly as the handler function says |

## Left out

- `main` (src/main.rs:249-316): argument handling, config loading, the listener and the task spawned per connection. Concurrency is not modelled. Each handler is modelled on its own connection.
- `Config::new` (src/config.rs:44-51): reading and parsing the TOML file. A `Config` is an input.
- TLS objects: `SslAcceptor`, `SslContext`, the Mozilla intermediate profile and the TLS 1.2 minimum are not modelled. A context is the index of its server, and whether each key and certificate file loads is an input.
- `Connection::send_stream` (src/conn.rs:46-49): it is not reached from the modelled core.
- The Python SCGI example (cgi-scripts/scgi/scgi.py): it is a client of the framing, not part of the server.
- Console output (`println!`) and timestamps: these are not modelled. The access log is modelled as a list of `Logger.Line` values.
- `Url::parse`, `mime_guess` and the certificate fingerprint are not modelled. They are oracles or inputs.
- Process spawning, `env_clear`, child timeouts, DNS resolution and TCP/TLS connects are not modelled. They are outcome inputs (`Child`, `Backend`, `Upstream`).
- `set_current_dir` (src/cgi.rs:104-109): the working directory of the child is not modelled.
- Cgi.Cgi: the early exit when `set_current_dir` fails (src/cgi.rs:106) is not modelled. The source then returns an I/O error with nothing written and nothing logged; the model takes the change of directory to succeed.
- Symbolic links and path normalisation (".", "..", repeated "/") are not modelled. Only the textual `PathBuf` operations are.
- Errors from a `read_dir` entry itself, which the source skips, are not modelled. The directory's listed names are an input.
- Conn.Connection: writes to the client are taken to succeed. In the source every `write_all` and `flush` can fail (src/conn.rs:41-42, src/util.rs:15-21), and the failure ends the handler with an I/O error at once. The model therefore does not capture that early exit: for example, a failed "Wrong Port!" write (src/main.rs:133) stops routing, and a failed chunk write in `get_binary` (src/main.rs:61) stops the copy. The same assumption holds for Util.Send and every method that writes through a connection.
- Router.GetMime and Router.DeliverPath: the `to_str().unwrap()` calls on the extension (src/main.rs:44) and on the parent path (src/main.rs:216) are not modelled as panics. Every path the handler builds comes from UTF-8 strings (the configured directory and the parsed URL path), so these conversions cannot fail.
- Short reads: the client's first `read` is modelled as returning one byte string or failing.
- Router.HandleConnection: the handler's call `cgi::cgi(con, path, url)` does not match the signature of `cgi` in src/cgi.rs. The router therefore reports the hand-off (`cgiPath`) and does not run the CGI model. `Cgi.Cgi` models src/cgi.rs as written. The handler's `send_status` calls with a string meta are modelled as a present meta.
- Router.HandleConnection: gemserv's documentation describes a read timeout answered with BadRequest. The code has no timeout, and a failed read propagates with no reply (src/main.rs:105). The model follows the code.
- Cgi.ServerVariables: SERVER_SOFTWARE is the package name, taken as "gemserv". The package manifest is not part of this model.
- Cgi.Cgi and Cgi.Scgi: empty output is modelled as `Panicked`, because the first byte is indexed without a check.
- Status.Code: the contract gives the range only. The individual codes are the table in the function itself, and CodeInjective and CodeCategory state its structure.
- Router.Binary: the contract gives only the header prefix. BinaryFileReadsBack states the whole reply for a file. The 1 MiB read chunking is not modelled, since the concatenated output is the same.
