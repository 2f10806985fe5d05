/**
 * Response framing on a client connection (src/conn.rs). The TLS stream is
 * modelled by the bytes written to it so far; every send appends and flushes.
 * A response header is `<STATUS><SEP><META>\r\n` (section 3.1 of the Gemini
 * protocol specification); this writer separates with a space.
 */
module Conn {
  import opened Wrappers
  import opened Bytes
  import opened Net
  import opened Status

  /** A status line: the two-digit code, a separator, the meta, CRLF. */
  function StatusLine(sep: byte, stat: Status, meta: Str): Str {
    Decimal(Code(stat)) + [sep] + meta + CRLF
  }

  /** What a client reads from the front of a response. */
  datatype Parsed = Parsed(code: nat, sep: byte, meta: Str, rest: Str)

  /**
   * A reader for one status line: two digits, a separator byte, the meta up to
   * the first CR, which must be followed by LF; the remainder is `rest`.
   */
  function ParseStatusLine(s: Str): Option<Parsed> {
    if |s| < 3 || !IsDigit(s[0]) || !IsDigit(s[1]) then None
    else
      match Find(s[3..], CR)
      case None => None
      case Some(k) =>
        if 3 + k + 1 < |s| && s[3 + k + 1] == LF
        then Some(Parsed(DigitsValue(s[..2]), s[2], s[3..3 + k], s[3 + k + 2..]))
        else None
  }

  /** A status line whose meta holds no CR is read back as its code, separator and meta. */
  lemma StatusLineRoundTrip(sep: byte, stat: Status, meta: Str, rest: Str)
    requires CR !in meta
    ensures ParseStatusLine(StatusLine(sep, stat, meta) + rest) == Some(Parsed(Code(stat), sep, meta, rest))
  {
    var code := Code(stat);
    var s := StatusLine(sep, stat, meta) + rest;
    DecimalTwoDigits(code);
    DecimalRoundTrip(code);
    assert s[..2] == Decimal(code);
    assert s[3..] == meta + [CR] + ([LF] + rest);
    FindAfter(meta, CR, [LF] + rest);
    assert s[3..3 + |meta|] == meta;
    assert s[3 + |meta| + 2..] == rest;
  }

  /** The meta `send_body` uses: the given one, else the status's reason string. */
  function MetaOrReason(stat: Status, meta: Option<Str>): Str {
    meta.GetOr(Reason(stat))
  }

  /** The header `send_body` and `send_status` write: space-separated. */
  function Header(stat: Status, meta: Option<Str>): Str {
    StatusLine(SPACE, stat, MetaOrReason(stat, meta))
  }

  /** Without a meta, the header carries the reason and is read back as code and reason. */
  lemma DefaultHeaderReadsBack(stat: Status, rest: Str)
    ensures ParseStatusLine(Header(stat, None) + rest) == Some(Parsed(Code(stat), SPACE, Reason(stat), rest))
  {
    ReasonIsPrintable(stat);
    StatusLineRoundTrip(SPACE, stat, Reason(stat), rest);
  }

  /** How a connection handler ends: `Ok(())`, an `io::Error` returned with `?`, or a panic. */
  datatype Outcome = Done | IoError | Panicked

  class Connection {
    /** Everything written to the client so far. */
    var stream: Str
    const peer: PeerAddr

    constructor (peer: PeerAddr)
      ensures stream == [] && this.peer == peer
    {
      stream := [];
      this.peer := peer;
    }

    /** `send_raw`: the bytes unchanged, and nothing else. */
    method SendRaw(body: Str)
      modifies this
      ensures stream == old(stream) + body
    {
      stream := stream + body;
    }

    /** `send_body`: the header first, then the body if there is one. */
    method SendBody(stat: Status, meta: Option<Str>, body: Option<Str>)
      modifies this
      ensures stream == old(stream) + Header(stat, meta) + body.GetOr([])
    {
      var m := MetaOrReason(stat, meta);
      SendRaw(StatusLine(SPACE, stat, m));
      if body.Some? {
        SendRaw(body.value);
      }
    }

    /** `send_status`: the header alone, never a body. */
    method SendStatus(stat: Status, meta: Option<Str>)
      modifies this
      ensures stream == old(stream) + Header(stat, meta)
    {
      SendBody(stat, meta, None);
    }
  }
}
