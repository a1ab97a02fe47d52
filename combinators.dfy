/** The nom 7 parsers the two rule grammars are built from, on `&str` input in
    "complete" mode: a parser either succeeds with a value and the rest of the
    input, or fails recoverably (nom's `Err::Error`: an `alt` goes on to its next
    branch, a fold stops), or fails irrecoverably (`Err::Failure`, made by `cut`). */
module Combinators {
  import opened Wrappers
  import opened Text

  datatype Parsed<T> = Done(value: T, rest: string) | Backtrack | Fatal

  /** `multispace0`: skips every leading space, tab, carriage return and line feed. */
  function Multispace0(s: string): (r: string)
    ensures |r| <= |s| && r == s[|s| - |r|..]
    ensures r == [] || !IsMultispace(r[0])
    ensures forall i | 0 <= i < |s| - |r| :: IsMultispace(s[i])
  {
    if s != [] && IsMultispace(s[0]) then Multispace0(s[1..]) else s
  }

  /** `take_while(p)`: the longest prefix whose characters all satisfy `p`; never fails. */
  function TakeWhile(s: string, p: char -> bool): (r: Parsed<string>)
    ensures r.Done? && r.value + r.rest == s
    ensures forall i | 0 <= i < |r.value| :: p(r.value[i])
    ensures r.rest == [] || !p(r.rest[0])
  {
    if s != [] && p(s[0]) then
      var t := TakeWhile(s[1..], p);
      Done([s[0]] + t.value, t.rest)
    else Done([], s)
  }

  /** A maximal run of `p` characters followed by anything that does not start with one is split there. */
  lemma {:induction false} TakeWhileExact(t: string, rest: string, p: char -> bool)
    requires forall i | 0 <= i < |t| :: p(t[i])
    requires rest == [] || !p(rest[0])
    ensures TakeWhile(t + rest, p) == Done(t, rest)
  {
    if t != [] {
      assert (t + rest)[1..] == t[1..] + rest;
      TakeWhileExact(t[1..], rest, p);
      assert [t[0]] + t[1..] == t;
    } else {
      assert t + rest == rest;
    }
  }

  /** `tag(t)`: the exact text `t`. */
  function Tag(s: string, t: string): (r: Parsed<()>)
    ensures r.Done? <==> |t| <= |s| && s[..|t|] == t
    ensures r.Done? ==> r.rest == s[|t|..]
    ensures !r.Fatal?
  {
    if |t| <= |s| && s[..|t|] == t then Done((), s[|t|..]) else Backtrack
  }

  /** `tag_no_case(t)`: the text `t` in any mixture of (ASCII) letter cases. */
  function TagNoCase(s: string, t: string): (r: Parsed<()>)
    ensures r.Done? <==> |t| <= |s| && forall i | 0 <= i < |t| :: Lower(s[i]) == Lower(t[i])
    ensures r.Done? ==> r.rest == s[|t|..]
    ensures !r.Fatal?
  {
    if |t| <= |s| && LowerText(s[..|t|]) == LowerText(t) then Done((), s[|t|..]) else Backtrack
  }

  /** The keyword in any casing followed by anything is accepted and consumed. */
  lemma TagNoCaseAccepts(word: string, t: string, rest: string)
    requires |word| == |t| && LowerText(word) == LowerText(t)
    ensures TagNoCase(word + rest, t) == Done((), rest)
  {
    assert (word + rest)[..|t|] == word;
    assert (word + rest)[|t|..] == rest;
  }

  /** `char(c)`. */
  function Char(s: string, c: char): (r: Parsed<char>)
    ensures r.Done? <==> s != [] && s[0] == c
    ensures r.Done? ==> r.rest == s[1..]
  {
    if s != [] && s[0] == c then Done(c, s[1..]) else Backtrack
  }

  /** `digit1`: one or more ASCII digits. */
  function Digit1(s: string): (r: Parsed<string>)
    ensures !r.Fatal?
    ensures r.Done? ==> r.value != [] && r.value + r.rest == s && (r.rest == [] || !IsAsciiDigit(r.rest[0]))
    ensures r.Done? ==> forall i | 0 <= i < |r.value| :: IsAsciiDigit(r.value[i])
    ensures r.Backtrack? <==> s == [] || !IsAsciiDigit(s[0])
  {
    var t := TakeWhile(s, IsAsciiDigit);
    if t.value == [] then Backtrack else t
  }

  /** The number a string of decimal digits denotes (what `str::parse` computes
      before its range check); leading zeros are allowed. */
  function DigitsValue(ds: string): nat
    requires forall i | 0 <= i < |ds| :: IsAsciiDigit(ds[i])
  {
    if ds == [] then 0
    else
      var last := ds[|ds| - 1];
      assert IsAsciiDigit(last);
      DigitsValue(ds[..|ds| - 1]) * 10 + (last as int - '0' as int)
  }

  /** Reading back the numeral Rust prints gives the same number. */
  lemma {:induction false} DigitsValueOfDecimal(n: nat)
    ensures DigitsValue(DecimalText(n)) == n
  {
    if n >= 10 {
      var d := DecimalText(n);
      assert d[..|d| - 1] == DecimalText(n / 10);
      DigitsValueOfDecimal(n / 10);
    }
  }

  /** `escaped_transform(normal, '\\', transform)` with `normal` matching one or
      more characters of the class `isNormal` and `transform` mapping the
      character after the backslash (None: not a known escape). The output is
      the normal text with every escape replaced by its transform. Empty input
      gives the empty output; otherwise the first character must start a normal
      run or an escape. A trailing backslash or an unknown escape fails. */
  function EscapedTransform(s: string, isNormal: char -> bool, transform: char -> Option<char>): (r: Parsed<string>)
    ensures !r.Fatal?
    ensures r.Done? ==> |r.rest| <= |s|
  {
    Escaped(s, isNormal, transform, [], false)
  }

  function Escaped(s: string, isNormal: char -> bool, transform: char -> Option<char>, acc: string, started: bool): (r: Parsed<string>)
    ensures !r.Fatal?
    ensures r.Done? ==> |r.rest| <= |s|
    decreases |s|
  {
    if s == [] then Done(acc, [])
    else if isNormal(s[0]) then Escaped(s[1..], isNormal, transform, acc + [s[0]], true)
    else if s[0] == '\\' then
      if |s| < 2 then Backtrack
      else match transform(s[1])
        case None => Backtrack
        case Some(c) => Escaped(s[2..], isNormal, transform, acc + [c], true)
    else if started then Done(acc, s)
    else Backtrack
  }
}
