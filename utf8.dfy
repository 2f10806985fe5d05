/**
 * UTF-8 as Rust's standard library applies it: the well-formedness test behind
 * `String::from_utf8`, `fs::read_to_string` and `env::var`, and the repair done by
 * `String::from_utf8_lossy`, which replaces each maximal ill-formed subpart by
 * U+FFFD. The well-formed byte sequences are those of the table in section 4 of
 * RFC 3629.
 */
module Utf8 {
  import opened Bytes

  /** Length of the sequence a lead byte announces; 0 for a byte that cannot start one. */
  function Width(lead: byte): (w: nat)
    ensures w <= 4
  {
    if lead < 0x80 then 1
    else if 0xC2 <= lead <= 0xDF then 2
    else if 0xE0 <= lead <= 0xEF then 3
    else if 0xF0 <= lead <= 0xF4 then 4
    else 0
  }

  /** Bounds of the second byte after a lead byte (narrower after E0, ED, F0 and F4). */
  function SecondLow(lead: byte): byte {
    if lead == 0xE0 then 0xA0 else if lead == 0xF0 then 0x90 else 0x80
  }

  function SecondHigh(lead: byte): byte {
    if lead == 0xED then 0x9F else if lead == 0xF4 then 0x8F else 0xBF
  }

  predicate IsContinuation(b: byte) {
    0x80 <= b <= 0xBF
  }

  /**
   * How many leading bytes of `s` agree with some well-formed sequence: the whole
   * sequence when `s` starts with a character, else the maximal ill-formed subpart
   * (0 when even the first byte cannot start a sequence).
   */
  function Matched(s: Str): (k: nat)
    requires |s| > 0
    ensures k <= |s| && k <= Width(s[0])
    ensures Width(s[0]) > 0 ==> k >= 1
  {
    var w := Width(s[0]);
    if w == 0 then 0
    else if w == 1 || |s| < 2 || !(SecondLow(s[0]) <= s[1] <= SecondHigh(s[0])) then 1
    else if w == 2 || |s| < 3 || !IsContinuation(s[2]) then 2
    else if w == 3 || |s| < 4 || !IsContinuation(s[3]) then 3
    else 4
  }

  /** `s` starts with one complete, well-formed character. */
  predicate StartsWithChar(s: Str) {
    |s| > 0 && Width(s[0]) > 0 && Matched(s) == Width(s[0])
  }

  /** Well-formed UTF-8: a sequence of complete characters. */
  predicate Valid(s: Str)
    decreases |s|
  {
    s == [] || (StartsWithChar(s) && Valid(s[Width(s[0])..]))
  }

  /** U+FFFD REPLACEMENT CHARACTER. */
  const REPLACEMENT: Str := [0xEF, 0xBF, 0xBD]

  /** Length of the ill-formed run `from_utf8_lossy` replaces by one U+FFFD. */
  function BadRun(s: Str): (n: nat)
    requires |s| > 0
    ensures 1 <= n <= |s|
  {
    if Matched(s) == 0 then 1 else Matched(s)
  }

  /** `String::from_utf8_lossy(s).as_bytes()`. */
  function Lossy(s: Str): (r: Str)
    ensures r == [] <==> s == []
    decreases |s|
  {
    if s == [] then []
    else if StartsWithChar(s) then s[..Width(s[0])] + Lossy(s[Width(s[0])..])
    else REPLACEMENT + Lossy(s[BadRun(s)..])
  }

  /** On well-formed input the lossy conversion changes nothing. */
  lemma {:induction false} LossyOfValid(s: Str)
    requires Valid(s)
    ensures Lossy(s) == s
    decreases |s|
  {
    if s != [] {
      var w := Width(s[0]);
      LossyOfValid(s[w..]);
      assert s == s[..w] + s[w..];
    }
  }

  /** Prefixing one complete character to well-formed text keeps it well-formed. */
  lemma {:induction false} ValidCons(c: Str, t: Str)
    requires StartsWithChar(c) && |c| == Width(c[0])
    requires Valid(t)
    ensures Valid(c + t)
  {
    var s := c + t;
    assert s[0] == c[0];
    assert forall i :: 0 <= i < |c| ==> s[i] == c[i];
    assert Matched(s) == Matched(c);
    assert s[|c|..] == t;
  }

  /** The lossy conversion always yields well-formed UTF-8. */
  lemma {:induction false} LossyIsValid(s: Str)
    ensures Valid(Lossy(s))
    decreases |s|
  {
    if s != [] {
      if StartsWithChar(s) {
        var w := Width(s[0]);
        LossyIsValid(s[w..]);
        assert s[..w][0] == s[0];
        assert forall i :: 0 <= i < w ==> s[..w][i] == s[i];
        assert Matched(s[..w]) == Matched(s);
        ValidCons(s[..w], Lossy(s[w..]));
      } else {
        LossyIsValid(s[BadRun(s)..]);
        ValidCons(REPLACEMENT, Lossy(s[BadRun(s)..]));
      }
    }
  }

  /** Every ASCII string is well-formed. */
  lemma {:induction false} AsciiValid(s: Str)
    requires forall i :: 0 <= i < |s| ==> s[i] < 0x80
    ensures Valid(s)
    decreases |s|
  {
    if s != [] {
      AsciiValid(s[1..]);
    }
  }

  /** Lossy output starts with the input's first byte when that byte is ASCII. */
  lemma LossyFirstAscii(s: Str)
    requires |s| > 0 && s[0] < 0x80
    ensures |Lossy(s)| > 0 && Lossy(s)[0] == s[0]
  {
  }
}
