/**
 * Byte strings. Rust's `String`, `&str` and `[u8]` are all modelled by the
 * bytes they hold (a `String` is UTF-8 bytes), together with the handful of
 * `str` operations the server uses: prefix and suffix tests, trimming,
 * splitting, and the decimal rendering of unsigned integers.
 */
module Bytes {
  import opened Wrappers

  newtype byte = x: int | 0 <= x < 256

  type Str = seq<byte>

  /** The bytes of an ASCII literal. */
  function Ascii(s: string): (r: Str)
    ensures |r| == |s|
    ensures forall i :: 0 <= i < |s| ==> r[i] as int == s[i] as int % 256
  {
    seq(|s|, i requires 0 <= i < |s| => (s[i] as int % 256) as byte)
  }

  predicate Printable(t: string) {
    forall i :: 0 <= i < |t| ==> ' ' <= t[i] <= '~'
  }

  /** A printable ASCII literal becomes bytes in 32..126, so in particular no CR or LF. */
  lemma AsciiOfPrintable(t: string)
    requires Printable(t)
    ensures forall i :: 0 <= i < |Ascii(t)| ==> 32 <= Ascii(t)[i] < 127
  {
    forall i | 0 <= i < |t|
      ensures 32 <= Ascii(t)[i] < 127
    {
      assert ' ' as int <= t[i] as int <= '~' as int;
    }
  }

  const NUL: byte := 0
  const TAB: byte := 9
  const LF: byte := 10
  const CR: byte := 13
  const SPACE: byte := 32
  const COMMA: byte := 44
  const DOT: byte := 46
  const SLASH: byte := 47
  const COLON: byte := 58
  const CRLF: Str := [CR, LF]

  predicate IsDigit(b: byte) {
    48 <= b <= 57
  }

  predicate AllDigits(s: Str) {
    forall i :: 0 <= i < |s| ==> IsDigit(s[i])
  }

  /** `n.to_string()` for an unsigned integer: decimal digits, no sign, no leading zero. */
  function Decimal(n: nat): (r: Str)
    ensures 1 <= |r| && AllDigits(r)
    ensures r[0] == 48 ==> n == 0
    decreases n
  {
    if n < 10 then [(48 + n) as byte] else Decimal(n / 10) + [(48 + n % 10) as byte]
  }

  /** The number a string of decimal digits denotes. */
  function DigitsValue(s: Str): nat
    requires AllDigits(s)
    decreases |s|
  {
    if s == [] then 0 else 10 * DigitsValue(s[..|s| - 1]) + (s[|s| - 1] - 48) as int
  }

  /** Reading back a rendered number gives the number. */
  lemma {:induction false} DecimalRoundTrip(n: nat)
    ensures DigitsValue(Decimal(n)) == n
  {
    if n >= 10 {
      var d := Decimal(n);
      assert d[..|d| - 1] == Decimal(n / 10);
      DecimalRoundTrip(n / 10);
    }
  }

  /** Rendering is injective: two numbers with the same text are equal. */
  lemma DecimalInjective(m: nat, n: nat)
    requires Decimal(m) == Decimal(n)
    ensures m == n
  {
    DecimalRoundTrip(m);
    DecimalRoundTrip(n);
  }

  /** Every two-digit number is rendered as exactly its two digits. */
  lemma DecimalTwoDigits(n: nat)
    requires 10 <= n <= 99
    ensures Decimal(n) == [(48 + n / 10) as byte, (48 + n % 10) as byte]
  {
  }

  predicate StartsWith(s: Str, p: Str) {
    |p| <= |s| && s[..|p|] == p
  }

  predicate EndsWith(s: Str, p: Str) {
    |p| <= |s| && s[|s| - |p|..] == p
  }

  /** `s.trim_start_matches(p)` for a non-empty pattern: strips every leading repetition of `p`. */
  function TrimStartMatches(s: Str, p: Str): (r: Str)
    requires |p| > 0
    ensures |r| <= |s| && r == s[|s| - |r|..]
    ensures !StartsWith(r, p)
    ensures !StartsWith(s, p) ==> r == s
    decreases |s|
  {
    if StartsWith(s, p) then TrimStartMatches(s[|p|..], p) else s
  }

  /** `s.trim_end_matches(b)` for a single byte: strips every trailing `b`. */
  function TrimEnd(s: Str, b: byte): (r: Str)
    ensures |r| <= |s| && r == s[..|r|]
    ensures |r| == 0 || r[|r| - 1] != b
    ensures forall i :: |r| <= i < |s| ==> s[i] == b
    decreases |s|
  {
    if |s| > 0 && s[|s| - 1] == b then TrimEnd(s[..|s| - 1], b) else s
  }

  /** Position of the first occurrence of `b` in `s`. */
  function Find(s: Str, b: byte): (r: Option<nat>)
    ensures r.None? <==> b !in s
    ensures r.Some? ==> r.value < |s| && s[r.value] == b && b !in s[..r.value]
    decreases |s|
  {
    if |s| == 0 then None
    else if s[0] == b then Some(0)
    else
      var k := Find(s[1..], b);
      if k.None? then None
      else
        assert s[1..][..k.value] == s[1..k.value + 1];
        Some(k.value + 1)
  }

  /** Position of the last occurrence of `b` in `s`. */
  function FindLast(s: Str, b: byte): (r: Option<nat>)
    ensures r.None? <==> b !in s
    ensures r.Some? ==> r.value < |s| && s[r.value] == b && b !in s[r.value + 1..]
    decreases |s|
  {
    if |s| == 0 then None
    else if s[|s| - 1] == b then Some(|s| - 1)
    else
      var k := FindLast(s[..|s| - 1], b);
      if k.None? then None
      else
        assert s[k.value + 1..] == s[..|s| - 1][k.value + 1..] + [s[|s| - 1]];
        k
  }

  /** `pat` occurs in `s` at position `j`. */
  predicate OccursAt(s: Str, pat: Str, j: nat) {
    j + |pat| <= |s| && s[j..j + |pat|] == pat
  }

  /** A byte absent from `rest` is last found right before `rest`. */
  lemma {:induction false} FindLastBefore(a: Str, b: byte, rest: Str)
    requires b !in rest
    ensures FindLast(a + [b] + rest, b) == Some(|a|)
    decreases |rest|
  {
    var s := a + [b] + rest;
    if rest != [] {
      assert s[|s| - 1] == rest[|rest| - 1];
      assert rest[|rest| - 1] in rest;
      var init := rest[..|rest| - 1];
      assert b !in init by {
        forall i | 0 <= i < |init| ensures init[i] != b {
          assert init[i] == rest[i];
          assert rest[i] in rest;
        }
      }
      assert s[..|s| - 1] == a + [b] + rest[..|rest| - 1];
      FindLastBefore(a, b, rest[..|rest| - 1]);
    }
  }

  /** Position of the first occurrence of the non-empty pattern `pat` in `s`. */
  function FindSub(s: Str, pat: Str): (r: Option<nat>)
    requires |pat| > 0
    ensures r.Some? ==> OccursAt(s, pat, r.value)
    ensures r.Some? ==> forall j: nat :: j < r.value ==> !OccursAt(s, pat, j)
    ensures r.None? ==> forall j: nat :: !OccursAt(s, pat, j)
    decreases |s|
  {
    if |s| < |pat| then None
    else if s[..|pat|] == pat then Some(0)
    else
      var k := FindSub(s[1..], pat);
      forall j: nat | 1 <= j
        ensures OccursAt(s, pat, j) <==> OccursAt(s[1..], pat, j - 1)
      {
        if j + |pat| <= |s| {
          var t := s[1..];
          assert forall k :: j - 1 <= k < j - 1 + |pat| ==> t[k] == s[k + 1];
          assert s[j..j + |pat|] == t[j - 1..j - 1 + |pat|];
        }
      }
      if k.None? then None else Some(k.value + 1)
  }

  /** `s.replacen(pat, rep, 1)`: the first occurrence of `pat` replaced, the rest untouched. */
  function ReplaceFirst(s: Str, pat: Str, rep: Str): (r: Str)
    requires |pat| > 0
    ensures FindSub(s, pat).None? ==> r == s
  {
    match FindSub(s, pat)
    case None => s
    case Some(i) => s[..i] + rep + s[i + |pat|..]
  }

  /** When `s` starts with `pat`, `replacen` replaces exactly that prefix. */
  lemma ReplaceFirstOfPrefix(s: Str, pat: Str, rep: Str)
    requires |pat| > 0 && StartsWith(s, pat)
    ensures ReplaceFirst(s, pat, rep) == rep + s[|pat|..]
  {
    assert OccursAt(s, pat, 0);
  }

  /** A byte absent from `a` is first found right after `a`. */
  lemma FindAfter(a: Str, b: byte, rest: Str)
    requires b !in a
    ensures Find(a + [b] + rest, b) == Some(|a|)
  {
    var s := a + [b] + rest;
    assert s[|a|] == b;
    assert s[..|a|] == a;
  }

  /** `s.splitn(2, sep)`: the whole string when `sep` does not occur, else the parts around its first occurrence. */
  function SplitOnce(s: Str, sep: byte): (r: seq<Str>)
    ensures |r| == 1 || |r| == 2
    ensures |r| == 1 <==> sep !in s
    ensures |r| == 1 ==> r[0] == s
    ensures |r| == 2 ==> s == r[0] + [sep] + r[1] && sep !in r[0]
  {
    match Find(s, sep)
    case None => [s]
    case Some(k) =>
      assert s == s[..k] + [sep] + s[k + 1..];
      [s[..k], s[k + 1..]]
  }
  /** Concatenation regroups freely; stated once so that crowded proofs need not rediscover it. */
  lemma ConcatAssoc(x: Str, y: Str, z: Str)
    ensures x + (y + z) == (x + y) + z
  {
  }

  /** `splitn(2, sep)` cuts at the first separator. */
  lemma SplitOnceAt(a: Str, sep: byte, rest: Str)
    requires sep !in a
    ensures SplitOnce(a + [sep] + rest, sep) == [a, rest]
  {
    FindAfter(a, sep, rest);
    var s := a + [sep] + rest;
    assert s[..|a|] == a;
    assert s[|a| + 1..] == rest;
  }


  /** `parts.join(sep)`. */
  function Join(parts: seq<Str>, sep: byte): Str
    requires |parts| >= 1
    decreases |parts|
  {
    if |parts| == 1 then parts[0] else parts[0] + [sep] + Join(parts[1..], sep)
  }

  /** `s.split(sep)`: the maximal pieces of `s` free of `sep`; joining them back gives `s`. */
  function Split(s: Str, sep: byte): (r: seq<Str>)
    ensures |r| >= 1 && r[0] == SplitOnce(s, sep)[0]
    ensures forall i :: 0 <= i < |r| ==> sep !in r[i]
    ensures Join(r, sep) == s
    decreases |s|
  {
    var parts := SplitOnce(s, sep);
    if |parts| == 1 then [s]
    else
      var rest := Split(parts[1], sep);
      var r := [parts[0]] + rest;
      assert r[1..] == rest;
      r
  }
}
