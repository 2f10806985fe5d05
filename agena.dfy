/**
 * agena-cgi (cgi-scripts/agena-cgi/src/main.rs): a CGI script that prompts for
 * a Gopher URL and, once it has one in `QUERY_STRING`, redirects to the agena
 * proxy with that URL appended. Its output is a function of its environment.
 */
module Agena {
  import opened Wrappers
  import opened Bytes
  import opened Utf8
  import opened Net
  import opened Status
  import opened Conn
  import opened Cgi

  /** The base URL of the agena proxy. */
  const BASE: Str := Ascii("gemini://example.com/")

  /** `env::var("QUERY_STRING")`: the value when it is set and valid Unicode. */
  function QueryVar(env: map<Str, Str>): (q: Option<Str>)
    ensures q.Some? <==> QUERY_STRING in env && Valid(env[QUERY_STRING])
    ensures q.Some? ==> q.value == env[QUERY_STRING]
  {
    if QUERY_STRING in env && Valid(env[QUERY_STRING]) then Some(env[QUERY_STRING]) else None
  }

  /**
   * What `main` prints: the prompt without a query, else a redirect to BASE
   * followed by the query, unescaped. Each format ends in "\r\n", to which
   * `println!` adds "\n".
   */
  function Output(query: Option<Str>): Str {
    match query
    case None => Ascii("10") + [TAB] + Ascii("Gopher url:") + CRLF + [LF]
    case Some(q) => Ascii("30") + [TAB] + BASE + q + CRLF + [LF]
  }

  /** The whole script: its output given the environment it runs in. */
  function Run(env: map<Str, Str>): Str {
    Output(QueryVar(env))
  }

  /** Without a usable query the script prints an input prompt, then a stray line feed. */
  lemma PromptWithoutQuery(env: map<Str, Str>)
    requires QueryVar(env).None?
    ensures ParseStatusLine(Run(env)) == Some(Parsed(Code(Input), TAB, Ascii("Gopher url:"), [LF]))
  {
    DecimalTwoDigits(10);
    assert Ascii("10") == Decimal(10);
    AsciiOfPrintable("Gopher url:");
    StatusLineRoundTrip(TAB, Input, Ascii("Gopher url:"), [LF]);
  }

  /** With a query free of CR the script prints a temporary redirect to BASE plus the query. */
  lemma RedirectWithQuery(env: map<Str, Str>)
    requires QueryVar(env).Some? && CR !in QueryVar(env).value
    ensures ParseStatusLine(Run(env))
            == Some(Parsed(Code(RedirectTemporary), TAB, BASE + QueryVar(env).value, [LF]))
  {
    var q := QueryVar(env).value;
    DecimalTwoDigits(30);
    assert Ascii("30") == Decimal(30);
    AsciiOfPrintable("gemini://example.com/");
    assert CR !in BASE + q by {
      forall i | 0 <= i < |BASE + q| ensures (BASE + q)[i] != CR {
        if i < |BASE| {
          assert (BASE + q)[i] == BASE[i];
        } else {
          assert (BASE + q)[i] == q[i - |BASE|];
        }
      }
    }
    assert Run(env) == StatusLine(TAB, RedirectTemporary, BASE + q) + [LF];
    StatusLineRoundTrip(TAB, RedirectTemporary, BASE + q, [LF]);
  }

  /**
   * The first byte is '1' or '3', so the gateway's check always lets the output
   * through, logging the prompt as Input and the redirect not at all.
   */
  lemma OutputPassesCheck(env: map<Str, Str>, peer: PeerAddr, u: Url)
    ensures |Run(env)| > 0
    ensures Run(env)[0] == 49 || Run(env)[0] == 51
    ensures Check(Run(env)[0], peer, u).accepted
    ensures QueryVar(env).None? ==> Check(Run(env)[0], peer, u).logged == Some(Logger.Log(peer, Input, u.text))
    ensures QueryVar(env).Some? ==> Check(Run(env)[0], peer, u).logged == None
  {
  }

  /**
   * Run behind the gateway, the script sees the request's query: it redirects
   * with a query that is valid UTF-8 and prompts when the URL has none, unless
   * `cgienv` sets `QUERY_STRING` itself.
   */
  lemma QueryFromGateway(peer: PeerAddr, cert: Option<Certificate>, extra: map<Str, Str>, url: Url,
                         scriptName: Str, pathInfo: Str)
    requires url.host.Some? && QUERY_STRING !in extra
    ensures var env := Environment(peer, cert, extra, url)[SCRIPT_NAME := scriptName][PATH_INFO := pathInfo];
      && (url.query.None? ==> Run(env) == Output(None))
      && (url.query.Some? && Valid(url.query.value) ==> Run(env) == Output(url.query))
  {
    QueryVariable(peer, cert, extra, url);
    NameLengths();
  }
}
