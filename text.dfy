/** Character classes, UTF-8 bytes and the textual renderings the Rust code relies on. */
module Text {
  type byte = x: int | 0 <= x < 256
  type u64 = x: int | 0 <= x < 0x1_0000_0000_0000_0000

  const U64_LIMIT: int := 0x1_0000_0000_0000_0000

  predicate IsAsciiAlpha(c: char) { 'a' <= c <= 'z' || 'A' <= c <= 'Z' }
  predicate IsAsciiDigit(c: char) { '0' <= c <= '9' }
  predicate IsAsciiAlphanumeric(c: char) { IsAsciiAlpha(c) || IsAsciiDigit(c) }
  /** nom's `multispace0` skips spaces, tabs, carriage returns and line feeds. */
  predicate IsMultispace(c: char) { c == ' ' || c == '\t' || c == '\r' || c == '\n' }

  /** ASCII lower-casing, the folding nom's `tag_no_case` applies to the keywords. */
  function Lower(c: char): (r: char)
    ensures IsAsciiAlpha(c) ==> 'a' <= r <= 'z' && r as int - c as int in {0, 32}
    ensures !IsAsciiAlpha(c) ==> r == c
    ensures 'a' <= c <= 'z' ==> r == c
  {
    if 'A' <= c <= 'Z' then (c as int + 32) as char else c
  }

  function LowerText(s: string): (r: string)
    ensures |r| == |s| && forall i | 0 <= i < |s| :: r[i] == Lower(s[i])
  {
    seq(|s|, i requires 0 <= i < |s| => Lower(s[i]))
  }

  /** Rust `str::as_bytes`: the UTF-8 encoding of one scalar value. */
  function CharBytes(c: char): (r: seq<byte>)
    ensures 1 <= |r| <= 4
    ensures |r| == 1 <==> c as int < 0x80
    ensures |r| == 1 ==> r[0] == c as int
    ensures r[0] != 0 || c == '\0'
  {
    var n := c as int;
    if n < 0x80 then [n]
    else if n < 0x800 then [0xC0 + n / 64, 0x80 + n % 64]
    else if n < 0x10000 then [0xE0 + n / 4096, 0x80 + (n / 64) % 64, 0x80 + n % 64]
    else [0xF0 + n / 262144, 0x80 + (n / 4096) % 64, 0x80 + (n / 64) % 64, 0x80 + n % 64]
  }

  function Utf8(s: string): (r: seq<byte>)
    ensures |r| >= |s|
    ensures s != [] ==> r != []
  {
    if s == [] then [] else CharBytes(s[0]) + Utf8(s[1..])
  }

  predicate IsAscii(s: string) { forall i | 0 <= i < |s| :: s[i] as int < 0x80 }

  /** An ASCII string is its own byte string. */
  lemma {:induction false} Utf8OfAscii(s: string)
    requires IsAscii(s)
    ensures |Utf8(s)| == |s|
    ensures forall i | 0 <= i < |s| :: Utf8(s)[i] == s[i] as int
  {
    if s != [] {
      Utf8OfAscii(s[1..]);
      forall i | 0 <= i < |s| ensures Utf8(s)[i] == s[i] as int {
        if i > 0 { assert Utf8(s)[i] == Utf8(s[1..])[i - 1]; }
      }
    }
  }

  lemma Utf8Concat(a: string, b: string)
    ensures Utf8(a + b) == Utf8(a) + Utf8(b)
  {
    if a != [] {
      assert (a + b)[1..] == a[1..] + b;
      Utf8Concat(a[1..], b);
    } else {
      assert a + b == b;
    }
  }

  function DigitChar(d: nat): (c: char)
    requires d < 10
    ensures IsAsciiDigit(c) && c as int - '0' as int == d
  {
    ('0' as int + d) as char
  }

  /** Rust `{}` of an unsigned integer: its shortest decimal numeral. */
  function DecimalText(n: nat): (r: string)
    ensures r != [] && forall i | 0 <= i < |r| :: IsAsciiDigit(r[i])
    ensures r[0] == '0' ==> n == 0
  {
    if n < 10 then [DigitChar(n)] else DecimalText(n / 10) + [DigitChar(n % 10)]
  }

  /** How Rust's `{:?}` escapes one character of a string (for the characters
      the parsers can produce and the usual control characters). */
  function DebugEscape(c: char): (r: string)
    ensures r != []
  {
    match c
    case '"' => "\\\""
    case '\\' => "\\\\"
    case '\n' => "\\n"
    case '\r' => "\\r"
    case '\t' => "\\t"
    case '\0' => "\\0"
    case _ => [c]
  }

  function DebugBody(s: string): string
  {
    if s == [] then [] else DebugEscape(s[0]) + DebugBody(s[1..])
  }

  /** Rust `{:?}` of a string: the escaped text between double quotes. */
  function DebugQuoted(s: string): (r: string)
    ensures |r| >= 2 && r[0] == '"' && r[|r| - 1] == '"'
  {
    "\"" + DebugBody(s) + "\""
  }

  /** `Vec<String>::join(sep)`. */
  function Join(parts: seq<string>, sep: string): (r: string)
    ensures |parts| == 1 ==> r == parts[0]
  {
    if parts == [] then [] else if |parts| == 1 then parts[0] else parts[0] + sep + Join(parts[1..], sep)
  }
}
