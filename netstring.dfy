/**
 * The SCGI request framing `scgi` in src/cgi.rs writes: the headers as
 * NUL-terminated name and value strings, wrapped in a netstring
 * `<length>:<payload>,` (section 2 of the SCGI protocol). Decoders for both
 * layers are given here as the reference a backend applies.
 */
module Netstrings {
  import opened Wrappers
  import opened Bytes

  /** `len.to_string() + ":" + payload + ","`. */
  function Netstring(payload: Str): Str {
    Decimal(|payload|) + [COLON] + payload + [COMMA]
  }

  /** Reads one netstring off the front of `s`: the payload and what follows the comma. */
  function DecodeNetstring(s: Str): Option<(Str, Str)> {
    match Find(s, COLON)
    case None => None
    case Some(k) =>
      var digits := s[..k];
      if k == 0 || !AllDigits(digits) then None
      else
        var n := DigitsValue(digits);
        if k + 1 + n < |s| && s[k + 1 + n] == COMMA && digits == Decimal(n)
        then Some((s[k + 1..k + 1 + n], s[k + 2 + n..]))
        else None
  }

  /** Whatever the decoder accepts is a netstring followed by the rest of the input. */
  lemma DecodeNetstringSound(s: Str)
    ensures DecodeNetstring(s).Some? ==>
      COLON in s && Netstring(DecodeNetstring(s).value.0) + DecodeNetstring(s).value.1 == s
  {
    match Find(s, COLON)
    case None =>
    case Some(k) =>
      var digits := s[..k];
      if k > 0 && AllDigits(digits) {
        var n := DigitsValue(digits);
        if k + 1 + n < |s| && s[k + 1 + n] == COMMA && digits == Decimal(n) {
          var payload, rest := s[k + 1..k + 1 + n], s[k + 2 + n..];
          DecodeAt(s, k, n, payload, rest);
          assert |payload| == n;
          assert Netstring(payload) == digits + [COLON] + payload + [COMMA];
          Reassemble(s, k, n);
        }
      }
  }

  /** A string cut around a colon at `k` and a comma `n` bytes after it is the concatenation of its pieces. */
  lemma Reassemble(s: Str, k: nat, n: nat)
    requires k + 1 + n < |s| && s[k] == COLON && s[k + 1 + n] == COMMA
    ensures s == s[..k] + [COLON] + s[k + 1..k + 1 + n] + [COMMA] + s[k + 2 + n..]
  {
    var t := s[..k] + [COLON] + s[k + 1..k + 1 + n] + [COMMA] + s[k + 2 + n..];
    assert |t| == |s|;
    forall i | 0 <= i < |s| ensures t[i] == s[i] {
      if i < k {
      } else if i == k {
      } else if i < k + 1 + n {
        assert t[i] == s[k + 1..k + 1 + n][i - k - 1];
      } else if i == k + 1 + n {
      } else {
        assert t[i] == s[k + 2 + n..][i - k - 2 - n];
      }
    }
  }

  /** A netstring is read back as its payload, whatever follows it. */
  lemma NetstringRoundTrip(payload: Str, rest: Str)
    ensures DecodeNetstring(Netstring(payload) + rest) == Some((payload, rest))
  {
    var d := Decimal(|payload|);
    var s := Netstring(payload) + rest;
    assert COLON !in d by {
      forall i | 0 <= i < |d| ensures d[i] != COLON {
        assert IsDigit(d[i]);
      }
    }
    assert s == d + [COLON] + payload + [COMMA] + rest;
    FrameLayout(d, payload, rest);
    DecimalRoundTrip(|payload|);
    DecodeAt(s, |d|, |payload|, payload, rest);
  }

  /** Where the colon, the payload, the comma and the rest sit in a framed string. */
  lemma FrameLayout(d: Str, payload: Str, rest: Str)
    requires COLON !in d
    ensures var s, n := d + [COLON] + payload + [COMMA] + rest, |payload|;
      && Find(s, COLON) == Some(|d|) && s[..|d|] == d
      && |d| + 1 + n < |s| && s[|d| + 1 + n] == COMMA
      && s[|d| + 1..|d| + 1 + n] == payload && s[|d| + 2 + n..] == rest
  {
    var n := |payload|;
    var tail := payload + [COMMA] + rest;
    var s := d + [COLON] + payload + [COMMA] + rest;
    assert s == d + [COLON] + tail by {
      ConcatAssoc(d + [COLON], payload, [COMMA]);
      ConcatAssoc(d + [COLON], payload + [COMMA], rest);
    }
    FindAfter(d, COLON, tail);
    assert s[..|d|] == d;
    assert s[|d| + 1..] == tail;
    assert tail[n] == COMMA && tail[..n] == payload && tail[n + 1..] == rest;
    assert s[|d| + 1 + n] == COMMA;
    assert s[|d| + 1..|d| + 1 + n] == payload;
    assert s[|d| + 2 + n..] == rest;
  }

  /** The decoder's accepting branch, for a colon at `k` and a declared length `n`. */
  lemma DecodeAt(s: Str, k: nat, n: nat, payload: Str, rest: Str)
    requires Find(s, COLON) == Some(k) && 0 < k
    requires AllDigits(s[..k]) && s[..k] == Decimal(n) && DigitsValue(s[..k]) == n
    requires k + 1 + n < |s| && s[k + 1 + n] == COMMA
    requires s[k + 1..k + 1 + n] == payload && s[k + 2 + n..] == rest
    ensures DecodeNetstring(s) == Some((payload, rest))
  {
  }

  /** One header: its name and its value, each followed by NUL. */
  function Field(name: Str, value: Str): Str {
    name + [NUL] + value + [NUL]
  }

  /** `format!("{}\x00{}\x00", k, v)` for each pair in turn. */
  function EncodePairs(ps: seq<(Str, Str)>): Str
    decreases |ps|
  {
    if ps == [] then [] else Field(ps[0].0, ps[0].1) + EncodePairs(ps[1..])
  }

  /** Neither the names nor the values contain NUL. */
  predicate NulFree(ps: seq<(Str, Str)>) {
    forall i :: 0 <= i < |ps| ==> NUL !in ps[i].0 && NUL !in ps[i].1
  }

  /** Reads name/value pairs, each string ending at the next NUL, until the input is used up. */
  function DecodePairs(s: Str): (r: Option<seq<(Str, Str)>>)
    ensures r.Some? ==> NulFree(r.value)
    decreases |s|
  {
    if s == [] then Some([])
    else
      match Find(s, NUL)
      case None => None
      case Some(i) =>
        var rest := s[i + 1..];
        match Find(rest, NUL)
        case None => None
        case Some(j) =>
          match DecodePairs(rest[j + 1..])
          case None => None
          case Some(tail) => Some([(s[..i], rest[..j])] + tail)
  }

  /** Pairs free of NUL are read back exactly, in order. */
  lemma {:induction false} PairsRoundTrip(ps: seq<(Str, Str)>)
    requires NulFree(ps)
    ensures DecodePairs(EncodePairs(ps)) == Some(ps)
    decreases |ps|
  {
    if ps != [] {
      var (k, v) := ps[0];
      var tail := EncodePairs(ps[1..]);
      var s := EncodePairs(ps);
      assert s == k + [NUL] + (v + [NUL] + tail);
      FindAfter(k, NUL, v + [NUL] + tail);
      assert s[..|k|] == k;
      var rest := s[|k| + 1..];
      assert rest == v + [NUL] + tail;
      FindAfter(v, NUL, tail);
      assert rest[..|v|] == v;
      assert rest[|v| + 1..] == tail;
      assert NulFree(ps[1..]) by {
        forall i | 0 <= i < |ps[1..]| ensures NUL !in ps[1..][i].0 && NUL !in ps[1..][i].1 {
          assert ps[1..][i] == ps[i + 1];
        }
      }
      PairsRoundTrip(ps[1..]);
      assert [(k, v)] + ps[1..] == ps;
    }
  }

  /** Encoding distributes over concatenation of pair lists. */
  lemma {:induction false} EncodePairsAppend(a: seq<(Str, Str)>, b: seq<(Str, Str)>)
    ensures EncodePairs(a + b) == EncodePairs(a) + EncodePairs(b)
    decreases |a|
  {
    if a == [] {
      assert a + b == b;
    } else {
      assert (a + b)[0] == a[0];
      assert (a + b)[1..] == a[1..] + b;
      EncodePairsAppend(a[1..], b);
    }
  }
}
