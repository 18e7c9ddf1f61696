/**
 * The pieces of Python's string and bytes library that the core relies on:
 * `str.split`, `str.splitlines`, `int(str)`, `str(int)`, `bytes.hex`,
 * `bytes.fromhex`, `str.upper` on hex digests and UTF-8 encoding.
 */
module Text {
  import opened Common

  predicate IsAsciiUpper(c: char) { 'A' <= c <= 'Z' }
  predicate IsAsciiLower(c: char) { 'a' <= c <= 'z' }
  predicate IsAsciiDigit(c: char) { '0' <= c <= '9' }

  /** The characters Python's `bytes.fromhex` skips between digit pairs. */
  predicate IsAsciiSpace(c: char)
  {
    c == ' ' || c == '\t' || c == '\n' || c == '\r' || c == '\U{0B}' || c == '\U{0C}'
  }

  /** The line boundaries recognised by `str.splitlines`. */
  predicate IsLineBreak(c: char)
  {
    c == '\n' || c == '\r' || c == '\U{0B}' || c == '\U{0C}' || c == '\U{1C}' || c == '\U{1D}'
    || c == '\U{1E}' || c == '\U{85}' || c == '\U{2028}' || c == '\U{2029}'
  }

  // ---------------------------------------------------------------- str.split

  /** Index of the first `sep` at or after `from`, or `|s|` when there is none. */
  function IndexOf(s: string, sep: char, from: nat): (i: nat)
    requires from <= |s|
    ensures from <= i <= |s|
    ensures i < |s| ==> s[i] == sep
    ensures forall k :: from <= k < i ==> s[k] != sep
    decreases |s| - from
  {
    if from == |s| || s[from] == sep then from else IndexOf(s, sep, from + 1)
  }

  /** `s.split(sep)` for a one-character separator: never empty, `"".split(":") == [""]`. */
  function Split(s: string, sep: char): (parts: seq<string>)
    ensures |parts| >= 1
    decreases |s|
  {
    var i := IndexOf(s, sep, 0);
    if i == |s| then [s] else [s[..i]] + Split(s[i + 1..], sep)
  }

  /** `sep.join(parts)` */
  function Join(parts: seq<string>, sep: char): string
  {
    if |parts| == 0 then ""
    else if |parts| == 1 then parts[0]
    else parts[0] + [sep] + Join(parts[1..], sep)
  }

  /** Splitting and re-joining on the same separator gives back the string, and no part holds the separator. */
  lemma {:induction false} SplitJoin(s: string, sep: char)
    ensures Join(Split(s, sep), sep) == s
    ensures forall k, j :: 0 <= k < |Split(s, sep)| && 0 <= j < |Split(s, sep)[k]| ==> Split(s, sep)[k][j] != sep
    decreases |s|
  {
    var i := IndexOf(s, sep, 0);
    if i < |s| {
      SplitJoin(s[i + 1..], sep);
      var rest := Split(s[i + 1..], sep);
      assert Split(s, sep) == [s[..i]] + rest;
      assert Join(Split(s, sep), sep) == s[..i] + [sep] + Join(rest, sep);
      assert s == s[..i] + [sep] + s[i + 1..];
    }
  }

  /** A line written as `a:b`, with no separator inside either field, splits into exactly those two fields. */
  lemma SplitTwoFields(a: string, b: string, sep: char)
    requires sep !in a && sep !in b
    ensures Split(a + [sep] + b, sep) == [a, b]
  {
    var s := a + [sep] + b;
    var i := IndexOf(s, sep, 0);
    assert s[|a|] == sep;
    assert forall k :: 0 <= k < |a| ==> s[k] == a[k];
    assert s[..i] == a;
    assert s[i + 1..] == b;
  }

  // ----------------------------------------------------------- str.splitlines

  /** Index of the first line boundary at or after `from`, or `|s|`. */
  function LineEnd(s: string, from: nat): (i: nat)
    requires from <= |s|
    ensures from <= i <= |s|
    ensures i < |s| ==> IsLineBreak(s[i])
    ensures forall k :: from <= k < i ==> !IsLineBreak(s[k])
    decreases |s| - from
  {
    if from == |s| || IsLineBreak(s[from]) then from else LineEnd(s, from + 1)
  }

  /**
   * `s.splitlines()`: the text between line boundaries, `"\r\n"` counting as one
   * boundary and a final boundary not starting an extra empty line.
   */
  function SplitLines(s: string): (lines: seq<string>)
    decreases |s|
  {
    if s == [] then []
    else
      var i := LineEnd(s, 0);
      if i == |s| then [s]
      else
        var next := if s[i] == '\r' && i + 1 < |s| && s[i + 1] == '\n' then i + 2 else i + 1;
        [s[..i]] + SplitLines(s[next..])
  }

  /** No line that `splitlines` returns contains a line boundary. */
  lemma {:induction false} SplitLinesHaveNoBreaks(s: string)
    ensures forall k, j :: 0 <= k < |SplitLines(s)| && 0 <= j < |SplitLines(s)[k]| ==> !IsLineBreak(SplitLines(s)[k][j])
    decreases |s|
  {
    if s != [] {
      var i := LineEnd(s, 0);
      if i < |s| {
        var next := if s[i] == '\r' && i + 1 < |s| && s[i + 1] == '\n' then i + 2 else i + 1;
        SplitLinesHaveNoBreaks(s[next..]);
      }
    }
  }

  /** Lines terminated by `"\n"`, the shape of a range-API reply. */
  function NewlineTerminated(lines: seq<string>): string
  {
    if lines == [] then "" else lines[0] + "\n" + NewlineTerminated(lines[1..])
  }

  /** `splitlines` recovers lines that were each written with a trailing `"\n"`. */
  lemma {:induction false} SplitLinesOfTerminated(lines: seq<string>)
    requires forall k, j :: 0 <= k < |lines| && 0 <= j < |lines[k]| ==> !IsLineBreak(lines[k][j])
    ensures SplitLines(NewlineTerminated(lines)) == lines
  {
    if lines != [] {
      var s := NewlineTerminated(lines);
      var rest := NewlineTerminated(lines[1..]);
      assert s == lines[0] + "\n" + rest;
      var n := |lines[0]|;
      assert s[n] == '\n';
      assert forall k :: 0 <= k < n ==> s[k] == lines[0][k];
      assert LineEnd(s, 0) == n by {
        LineEndAt(s, 0, n);
      }
      assert s[..n] == lines[0];
      assert s[n + 1..] == rest;
      SplitLinesOfTerminated(lines[1..]);
    }
  }

  lemma LineEndAt(s: string, from: nat, n: nat)
    requires from <= n < |s| && IsLineBreak(s[n])
    requires forall k :: from <= k < n ==> !IsLineBreak(s[k])
    ensures LineEnd(s, from) == n
    decreases n - from
  {
    if from < n {
      LineEndAt(s, from + 1, n);
    }
  }

  // ------------------------------------------------------ decimal integers

  function DigitValue(c: char): (d: nat)
    requires IsAsciiDigit(c)
    ensures d < 10
  {
    (c as int - '0' as int) as nat
  }

  function DigitChar(d: nat): (c: char)
    requires d < 10
    ensures IsAsciiDigit(c) && DigitValue(c) == d
  {
    ('0' as int + d) as char
  }

  predicate AllDigits(s: string)
  {
    forall k :: 0 <= k < |s| ==> IsAsciiDigit(s[k])
  }

  /** The number a string of decimal digits denotes. */
  function DigitsValue(s: string): nat
    requires AllDigits(s)
  {
    if s == [] then 0 else DigitsValue(s[..|s| - 1]) * 10 + DigitValue(s[|s| - 1])
  }

  /** `str(n)` for a natural number. */
  function NatToString(n: nat): (s: string)
    ensures |s| >= 1 && AllDigits(s)
  {
    if n < 10 then [DigitChar(n)] else NatToString(n / 10) + [DigitChar(n % 10)]
  }

  /**
   * `int(s)` on an optional sign followed by decimal digits; `None` where Python
   * raises `ValueError`.
   */
  function ParseInt(s: string): (r: Option<int>)
    ensures r.Some? ==> |s| >= 1
  {
    if |s| >= 2 && (s[0] == '-' || s[0] == '+') && AllDigits(s[1..]) then
      Some(if s[0] == '-' then -(DigitsValue(s[1..]) as int) else DigitsValue(s[1..]))
    else if |s| >= 1 && AllDigits(s) then Some(DigitsValue(s))
    else None
  }

  /** Reading back what `str(n)` wrote gives `n`. */
  lemma {:induction false} ParseNatToString(n: nat)
    ensures ParseInt(NatToString(n)) == Some(n)
  {
    DigitsOfNatToString(n);
  }

  lemma {:induction false} DigitsOfNatToString(n: nat)
    ensures DigitsValue(NatToString(n)) == n
  {
    if n >= 10 {
      DigitsOfNatToString(n / 10);
      var s := NatToString(n);
      assert s[..|s| - 1] == NatToString(n / 10);
    }
  }

  // ------------------------------------------------------------- hex digits

  predicate IsHexDigit(c: char)
  {
    IsAsciiDigit(c) || 'a' <= c <= 'f' || 'A' <= c <= 'F'
  }

  function HexValue(c: char): (v: nat)
    requires IsHexDigit(c)
    ensures v < 16
  {
    if IsAsciiDigit(c) then DigitValue(c)
    else if 'a' <= c <= 'f' then (c as int - 'a' as int + 10) as nat
    else (c as int - 'A' as int + 10) as nat
  }

  /** The lower-case hex digit that `bytes.hex` writes. */
  function LowerHexChar(v: nat): (c: char)
    requires v < 16
    ensures IsHexDigit(c) && HexValue(c) == v && !IsAsciiSpace(c)
  {
    if v < 10 then DigitChar(v) else ('a' as int + v - 10) as char
  }

  /** `b.hex()`: two lower-case hex digits per byte. */
  function HexEncode(b: seq<byte>): (s: string)
    ensures |s| == 2 * |b|
    ensures forall k :: 0 <= k < |s| ==> IsHexDigit(s[k]) && !IsAsciiUpper(s[k])
  {
    if b == [] then "" else [LowerHexChar(b[0] as nat / 16), LowerHexChar(b[0] as nat % 16)] + HexEncode(b[1..])
  }

  /**
   * `bytes.fromhex(s)`: pairs of hex digits, ASCII whitespace allowed between
   * pairs; `None` where Python raises `ValueError`.
   */
  function FromHex(s: string): (r: Option<seq<byte>>)
    decreases |s|
  {
    if s == [] then Some([])
    else if IsAsciiSpace(s[0]) then FromHex(s[1..])
    else if |s| >= 2 && IsHexDigit(s[0]) && IsHexDigit(s[1]) then
      match FromHex(s[2..])
      case None => None
      case Some(rest) => Some([(HexValue(s[0]) * 16 + HexValue(s[1])) as byte] + rest)
    else None
  }

  /** `bytes.fromhex` undoes `bytes.hex`. */
  lemma {:induction false} FromHexOfHexEncode(b: seq<byte>)
    ensures FromHex(HexEncode(b)) == Some(b)
  {
    if b != [] {
      var s := HexEncode(b);
      assert s[2..] == HexEncode(b[1..]);
      FromHexOfHexEncode(b[1..]);
      assert [b[0]] + b[1..] == b;
    }
  }

  /** A character that is neither a hex digit nor whitespace makes `bytes.fromhex` raise. */
  lemma {:induction false} FromHexRejectsForeign(s: string, k: nat)
    requires k < |s| && !IsHexDigit(s[k]) && !IsAsciiSpace(s[k])
    ensures FromHex(s) == None
    decreases |s|
  {
    if IsAsciiSpace(s[0]) {
      FromHexRejectsForeign(s[1..], k - 1);
    } else if |s| >= 2 && IsHexDigit(s[0]) && IsHexDigit(s[1]) {
      FromHexRejectsForeign(s[2..], k - 2);
    }
  }

  /** `s.upper()` on ASCII letters (hex digests hold no other letters). */
  function AsciiUpper(s: string): (u: string)
    ensures |u| == |s|
    ensures forall k :: 0 <= k < |s| ==> u[k] == (if IsAsciiLower(s[k]) then (s[k] as int - 32) as char else s[k])
  {
    if s == [] then "" else [if IsAsciiLower(s[0]) then (s[0] as int - 32) as char else s[0]] + AsciiUpper(s[1..])
  }

  // ------------------------------------------------------------------ UTF-8

  /** The UTF-8 bytes of one Unicode scalar value. */
  function Utf8Char(c: char): (bs: seq<byte>)
    ensures 1 <= |bs| <= 4
  {
    var v := c as int;
    if v < 0x80 then [v as byte]
    else if v < 0x800 then [(0xC0 + v / 0x40) as byte, (0x80 + v % 0x40) as byte]
    else if v < 0x1_0000 then
      [(0xE0 + v / 0x1000) as byte, (0x80 + (v / 0x40) % 0x40) as byte, (0x80 + v % 0x40) as byte]
    else
      [(0xF0 + v / 0x4_0000) as byte, (0x80 + (v / 0x1000) % 0x40) as byte,
       (0x80 + (v / 0x40) % 0x40) as byte, (0x80 + v % 0x40) as byte]
  }

  /** `s.encode('utf-8')` */
  function Utf8Encode(s: string): (bs: seq<byte>)
    ensures |s| <= |bs| <= 4 * |s|
  {
    if s == [] then [] else Utf8Char(s[0]) + Utf8Encode(s[1..])
  }
}
