/**
 * The tab-separated response writer of src/util.rs. It formats the header into
 * a mutable string `s`, writes it, replaces `s` by the body when there is one,
 * and writes `s` again: without a body the header goes out twice.
 */
module Util {
  import opened Wrappers
  import opened Bytes
  import opened Status
  import opened Conn

  /** The TLS stream `send` takes ownership of, as the bytes written to it. */
  class TlsStream {
    var written: Str

    constructor ()
      ensures written == []
    {
      written := [];
    }
  }

  /** The bytes one call of `send` writes: a tab-separated header, then the body or the header again. */
  function SendOutput(stat: Status, meta: Str, body: Option<Str>): Str {
    var header := StatusLine(TAB, stat, meta);
    header + body.GetOr(header)
  }

  /** `send(stream, stat, meta, body)`: two writes, of `s` before and after its reassignment. */
  method Send(stream: TlsStream, stat: Status, meta: Str, body: Option<Str>)
    modifies stream
    ensures stream.written == old(stream.written) + SendOutput(stat, meta, body)
  {
    var s := StatusLine(TAB, stat, meta);
    stream.written := stream.written + s;
    if body.Some? {
      s := body.value;
    }
    stream.written := stream.written + s;
  }

  /** The header is the first thing written, tab-separated, and what follows is the body when one is given. */
  lemma HeaderComesFirst(stat: Status, meta: Str, b: Str)
    requires CR !in meta
    ensures ParseStatusLine(SendOutput(stat, meta, Some(b))) == Some(Parsed(Code(stat), TAB, meta, b))
  {
    StatusLineRoundTrip(TAB, stat, meta, b);
  }

  /** Without a body the output is two identical headers and nothing more. */
  lemma NoBodyRepeatsHeader(stat: Status, meta: Str)
    requires CR !in meta
    ensures var header := StatusLine(TAB, stat, meta);
            && ParseStatusLine(SendOutput(stat, meta, None)) == Some(Parsed(Code(stat), TAB, meta, header))
            && ParseStatusLine(header) == Some(Parsed(Code(stat), TAB, meta, []))
  {
    var header := StatusLine(TAB, stat, meta);
    StatusLineRoundTrip(TAB, stat, meta, header);
    StatusLineRoundTrip(TAB, stat, meta, []);
    assert header + [] == header;
  }
}
