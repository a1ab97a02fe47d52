/** Properties of the rule compiler's grammar (rule-compiler/src/lib.rs):
    printing and re-reading literals, keywords in any case, and the parses the
    compiler's own tests expect. */
module RuleParserProperties {
  import opened Wrappers
  import opened Text
  import opened Combinators
  import opened RuleAst
  import opened RuleSimplifier
  import opened RuleParser

  /** The characters a parsed string can contain: payload characters, plus the
      quote and backslash that escapes produce. */
  predicate IsLiteralChar(c: char) { IsPayloadChar(c) || c == '"' || c == '\\' }

  predicate IsLiteralText(s: string) { forall i | 0 <= i < |s| :: IsLiteralChar(s[i]) }

  lemma EscapedNormalStep(s: string, acc: string, started: bool)
    requires s != [] && IsPayloadChar(s[0])
    ensures Escaped(s, IsPayloadChar, Unescape, acc, started) == Escaped(s[1..], IsPayloadChar, Unescape, acc + [s[0]], true)
  {
  }

  lemma EscapedEscapeStep(s: string, acc: string, started: bool)
    requires |s| >= 2 && s[0] == '\\' && Unescape(s[1]).Some?
    ensures Escaped(s, IsPayloadChar, Unescape, acc, started) == Escaped(s[2..], IsPayloadChar, Unescape, acc + [Unescape(s[1]).value], true)
  {
  }

  lemma EscapedStop(s: string, acc: string)
    requires s != [] && !IsPayloadChar(s[0]) && s[0] != '\\'
    ensures Escaped(s, IsPayloadChar, Unescape, acc, true) == Done(acc, s)
  {
  }

  lemma {:induction false} EscapedReadsDebugBody(s: string, tail: string, acc: string, started: bool)
    requires IsLiteralText(s)
    ensures Escaped(DebugBody(s) + tail, IsPayloadChar, Unescape, acc, started)
         == Escaped(tail, IsPayloadChar, Unescape, acc + s, started || s != [])
  {
    if s == [] {
      assert acc + s == acc;
      assert DebugBody(s) + tail == tail;
    } else {
      var c := s[0];
      var more := DebugBody(s[1..]) + tail;
      assert DebugBody(s) + tail == DebugEscape(c) + more;
      assert IsLiteralText(s[1..]) by {
        forall i | 0 <= i < |s[1..]| ensures IsLiteralChar(s[1..][i]) {
          assert s[1..][i] == s[i + 1];
        }
      }
      assert acc + [c] + s[1..] == acc + s;
      if IsPayloadChar(c) {
        assert DebugEscape(c) == [c];
        EscapedNormalStep([c] + more, acc, started);
        assert ([c] + more)[1..] == more;
      } else {
        assert DebugEscape(c) == ['\\', c];
        EscapedEscapeStep(['\\', c] + more, acc, started);
        assert (['\\', c] + more)[2..] == more;
      }
      EscapedReadsDebugBody(s[1..], tail, acc + [c], true);
    }
  }

  /** The escape parser reads a printed body back and stops at the closing quote. */
  lemma EscapeOfDebugBody(s: string, rest: string)
    requires s != [] && IsLiteralText(s)
    ensures ParseEscape(DebugBody(s) + ("\"" + rest)) == Done(s, "\"" + rest)
  {
    EscapedReadsDebugBody(s, "\"" + rest, [], false);
    assert [] + s == s;
    EscapedStop("\"" + rest, s);
  }

  /** `ParseString` is its opening quote, its body and its closing quote. */
  lemma StringSteps(text: string, body: string, v: string, r2: string, r3: string)
    requires Char(text, '"').Done? && Char(text, '"').rest == body
    requires ParseEscape(body) == Done(v, r2)
    requires Char(r2, '"').Done? && Char(r2, '"').rest == r3
    ensures ParseString(text) == Done(String(v), r3)
  {
  }

  lemma OpeningQuote(s: string, rest: string)
    ensures Char(DebugQuoted(s) + rest, '"').Done?
    ensures Char(DebugQuoted(s) + rest, '"').rest == DebugBody(s) + ("\"" + rest)
  {
    var text := DebugQuoted(s) + rest;
    assert text == "\"" + (DebugBody(s) + ("\"" + rest));
    assert text[1..] == DebugBody(s) + ("\"" + rest);
  }

  /** A non-empty string of literal characters, printed with `{:?}` as `Display`
      does, reads back as the same string atom, whatever follows it. */
  lemma StringLiteralRoundTrip(s: string, rest: string)
    requires s != [] && IsLiteralText(s)
    ensures ParseString(DebugQuoted(s) + rest) == Done(String(s), rest)
  {
    OpeningQuote(s, rest);
    EscapeOfDebugBody(s, rest);
    assert ("\"" + rest)[1..] == rest;
    StringSteps(DebugQuoted(s) + rest, DebugBody(s) + ("\"" + rest), s, "\"" + rest, rest);
  }

  lemma {:induction false} EscapedOutput(s: string, acc: string, started: bool, v: string, r: string)
    requires Escaped(s, IsPayloadChar, Unescape, acc, started) == Done(v, r)
    ensures |v| >= |acc| && v[..|acc|] == acc && IsLiteralText(v[|acc|..])
    ensures !started && v == acc ==> r == []
    decreases |s|
  {
    if s == [] {
      assert v == acc;
    } else if IsPayloadChar(s[0]) {
      EscapedNormalStep(s, acc, started);
      EscapedOutput(s[1..], acc + [s[0]], true, v, r);
      assert v[..|acc|] == (v[..|acc| + 1])[..|acc|];
      assert v[|acc|..] == [s[0]] + v[|acc| + 1..];
    } else if s[0] == '\\' && |s| >= 2 && Unescape(s[1]).Some? {
      EscapedEscapeStep(s, acc, started);
      var c := Unescape(s[1]).value;
      EscapedOutput(s[2..], acc + [c], true, v, r);
      assert v[..|acc|] == (v[..|acc| + 1])[..|acc|];
      assert v[|acc|..] == [c] + v[|acc| + 1..];
    } else {
      assert v == acc;
    }
  }

  /** Every parsed string is non-empty and made only of literal characters. */
  lemma ParsedStringShape(s: string)
    requires ParseString(s).Done?
    ensures ParseString(s).value.text != [] && IsLiteralText(ParseString(s).value.text)
  {
    var e := Escaped(s[1..], IsPayloadChar, Unescape, [], false);
    EscapedOutput(s[1..], [], false, e.value, e.rest);
    assert e.value[0..] == e.value;
  }

  /** Printing a parsed string atom and parsing the print gives it back. */
  lemma ReprintedStringReparses(s: string)
    requires ParseString(s).Done?
    ensures ParseString(ParseString(s).value.Display() + ParseString(s).rest) == ParseString(s)
  {
    ParsedStringShape(s);
    StringLiteralRoundTrip(ParseString(s).value.text, ParseString(s).rest);
  }

  /** A number printed in decimal reads back as the same number atom. */
  lemma NumberRoundTrip(n: u64, rest: string)
    requires rest == [] || !IsAsciiDigit(rest[0])
    ensures ParseNumber(DecimalText(n) + rest) == Done(Number(n), rest)
  {
    TakeWhileExact(DecimalText(n), rest, IsAsciiDigit);
    DigitsValueOfDecimal(n);
  }

  /** Every atom `Display` prints (a string of literal characters, any number)
      parses back to itself. */
  lemma AtomRoundTrip(a: Atom, rest: string)
    requires a.String? ==> a.text != [] && IsLiteralText(a.text)
    requires a.Number? ==> rest == [] || !IsAsciiDigit(rest[0])
    ensures ParseAtom(a.Display() + rest) == Done(a, rest)
  {
    match a
    case Number(n) => NumberRoundTrip(n, rest);
    case String(s) => StringLiteralRoundTrip(s, rest);
  }

  /** A digit run whose value does not fit in a u64 is no atom. */
  lemma OversizedNumberRejected(s: string)
    requires Digit1(s).Done? && DigitsValue(Digit1(s).value) >= U64_LIMIT
    ensures ParseAtom(s).Backtrack?
  {
  }

  lemma KeywordsDiffer()
    ensures LowerText("REJECT") == "reject" && LowerText("FILTER") == "filter"
  {
    assert LowerText("REJECT")[0] == Lower('R');
  }

  /** The operation keywords are read in any letter case. */
  lemma OperationAnyCase(word: string, op: Operation, rest: string)
    requires |word| == 6 && LowerText(word) == LowerText(op.Display())
    ensures ParseOperation(word + rest) == Done(op, rest)
  {
    assert (word + rest)[..6] == word;
    KeywordsDiffer();
    TagNoCaseAccepts(word, op.Display(), rest);
  }

  /** The printed operators read back. */
  lemma OperatorRoundTrip(op: Operator, rest: string)
    ensures ParseOperator(op.Display() + rest) == Done(op, rest)
  {
    assert (op.Display() + rest)[..2] == op.Display();
  }

  lemma SkipOneSpace(s: string)
    requires s == [] || !IsMultispace(s[0])
    ensures Multispace0(" " + s) == s
  {
    assert (" " + s)[1..] == s;
  }

  /** Leading white space is all `multispace0` skips. */
  lemma NoSpaceToSkip(s: string)
    requires s == [] || !IsMultispace(s[0])
    ensures Multispace0(s) == s
  {
  }

  lemma FieldThen(f: string, rest: string)
    requires forall i | 0 <= i < |f| :: IsFieldChar(f[i])
    requires rest == [] || !IsFieldChar(rest[0])
    ensures ParseField(f + rest) == Done(f, rest)
  {
    TakeWhileExact(f, rest, IsFieldChar);
  }

  /** The statements the parser can print back. */
  predicate Printable(e: Expression)
  {
    e.Statement? && e.field != [] && (forall i | 0 <= i < |e.field| :: IsFieldChar(e.field[i])) &&
    (e.atom.String? ==> e.atom.text != [] && IsLiteralText(e.atom.text))
  }

  lemma SkipOptionalSpace(sp: string, s: string)
    requires sp == "" || sp == " "
    requires s == [] || !IsMultispace(s[0])
    ensures Multispace0(sp + s) == s
  {
    if sp == "" {
      assert sp + s == s;
      NoSpaceToSkip(s);
    } else {
      SkipOneSpace(s);
    }
  }

  /** `ParseStatement` step by step. */
  lemma StatementSteps(s: string, e: Expression, r1: string, r2: string, r4: string)
    requires e.Statement?
    requires ParseField(s) == Done(e.field, r1)
    requires ParseOperator(Multispace0(r1)) == Done(e.operator, r2)
    requires ParseAtom(Multispace0(r2)) == Done(e.atom, r4)
    ensures ParseStatement(s) == Done(e, Multispace0(r4))
  {
  }

  lemma OperatorSpaced(op: Operator, sp1: string, tail: string)
    requires sp1 == "" || sp1 == " "
    ensures ParseOperator(Multispace0(sp1 + (op.Display() + tail))) == Done(op, tail)
  {
    assert (op.Display() + tail)[0] == op.Display()[0];
    SkipOptionalSpace(sp1, op.Display() + tail);
    OperatorRoundTrip(op, tail);
  }

  lemma AtomSpaced(a: Atom, sp2: string, rest: string)
    requires sp2 == "" || sp2 == " "
    requires a.String? ==> a.text != [] && IsLiteralText(a.text)
    requires a.Number? ==> rest == [] || !IsAsciiDigit(rest[0])
    ensures ParseAtom(Multispace0(sp2 + (a.Display() + rest))) == Done(a, rest)
  {
    assert (a.Display() + rest)[0] == a.Display()[0];
    SkipOptionalSpace(sp2, a.Display() + rest);
    AtomRoundTrip(a, rest);
  }

  lemma OperatorEndsField(op: Operator, sp1: string, tail: string)
    requires sp1 == "" || sp1 == " "
    ensures !IsFieldChar((sp1 + (op.Display() + tail))[0])
  {
    if sp1 == "" {
      assert (sp1 + (op.Display() + tail))[0] == op.Display()[0];
    } else {
      assert (sp1 + (op.Display() + tail))[0] == ' ';
    }
  }

  /** A statement reads back with or without a space on either side of its
      operator, followed by anything that is neither white space nor, after a
      number, a digit. */
  lemma StatementSpaced(e: Expression, sp1: string, sp2: string, rest: string)
    requires Printable(e)
    requires sp1 == "" || sp1 == " "
    requires sp2 == "" || sp2 == " "
    requires rest == [] || !IsMultispace(rest[0])
    requires e.atom.Number? ==> rest == [] || !IsAsciiDigit(rest[0])
    ensures ParseStatement(e.field + (sp1 + (e.operator.Display() + (sp2 + (e.atom.Display() + rest))))) == Done(e, rest)
  {
    var r2 := sp2 + (e.atom.Display() + rest);
    var r1 := sp1 + (e.operator.Display() + r2);
    OperatorEndsField(e.operator, sp1, r2);
    FieldThen(e.field, r1);
    OperatorSpaced(e.operator, sp1, r2);
    AtomSpaced(e.atom, sp2, rest);
    StatementSteps(e.field + r1, e, r1, r2, rest);
    NoSpaceToSkip(rest);
  }

  lemma DisplayNested(e: Expression, rest: string)
    requires e.Statement?
    ensures e.Display() + rest == e.field + (" " + (e.operator.Display() + (" " + (e.atom.Display() + rest))))
  {
  }

  /** A printed statement reads back. */
  lemma StatementRoundTrip(e: Expression, rest: string)
    requires Printable(e)
    requires rest == [] || !IsMultispace(rest[0])
    requires e.atom.Number? ==> rest == [] || !IsAsciiDigit(rest[0])
    ensures ParseStatement(e.Display() + rest) == Done(e, rest)
  {
    DisplayNested(e, rest);
    StatementSpaced(e, " ", " ", rest);
  }

  /** A spaced table name ends at the space after it. */
  lemma SpacedTable(table: string, tail: string)
    requires table != [] && forall i | 0 <= i < |table| :: IsTableChar(table[i])
    requires tail != [] && tail[0] == ' '
    ensures ParseTable(Multispace0(" " + (table + tail))) == Done(table, tail)
  {
    assert !IsMultispace((table + tail)[0]) by { assert (table + tail)[0] == table[0]; }
    SkipOneSpace(table + tail);
    TakeWhileExact(table, tail, IsTableChar);
  }

  /** A spaced `WHEN` in any case is consumed. */
  lemma SpacedWhen(whenWord: string, body: string)
    requires |whenWord| == 4 && LowerText(whenWord) == "when"
    ensures TagNoCase(Multispace0(" " + (whenWord + body)), "WHEN") == Done((), body)
  {
    assert Lower(whenWord[0]) == 'w' by { assert LowerText(whenWord)[0] == Lower(whenWord[0]); }
    assert (whenWord + body)[0] == whenWord[0];
    SkipOneSpace(whenWord + body);
    TagNoCaseAccepts(whenWord, "WHEN", body);
  }

  /** The part of a rule after its operation keyword. */
  lemma TableAndWhen(table: string, whenWord: string, body: string)
    requires table != [] && forall i | 0 <= i < |table| :: IsTableChar(table[i])
    requires |whenWord| == 4 && LowerText(whenWord) == "when"
    ensures var t := ParseTable(Multispace0(" " + table + " " + whenWord + body));
            t.value == table && TagNoCase(Multispace0(t.rest), "WHEN") == Done((), body)
  {
    var tail := " " + (whenWord + body);
    assert " " + table + " " + whenWord + body == " " + (table + tail);
    SpacedTable(table, tail);
    SpacedWhen(whenWord, body);
  }

  /** The rule header: an operation keyword and `WHEN` in any case, a non-empty
      table name, single spaces between them; the rest is decided by the conditions. */
  lemma RuleHeader(opWord: string, op: Operation, table: string, whenWord: string, body: string)
    requires |opWord| == 6 && LowerText(opWord) == LowerText(op.Display())
    requires table != [] && forall i | 0 <= i < |table| :: IsTableChar(table[i])
    requires |whenWord| == 4 && LowerText(whenWord) == "when"
    ensures ParseRule(opWord + " " + table + " " + whenWord + body) ==
      match Conditions(body)
      case Done(c, _) => Done(Rule(op, table, c), [])
      case Backtrack => Backtrack
      case Fatal => Fatal
  {
    var afterOp := " " + table + " " + whenWord + body;
    assert opWord + " " + table + " " + whenWord + body == opWord + afterOp;
    OperationAnyCase(opWord, op, afterOp);
    TableAndWhen(table, whenWord, body);
  }

  lemma TrueExpression()
    ensures ParseExpression("true") == Done(Boolean(true), "")
  {
    TakeWhileExact("true", "", IsFieldChar);
    assert "true" + "" == "true";
    assert ParseField("true") == Done("true", "");
    assert ParseStatement("true") == Backtrack;
  }

  lemma TrueAndClause()
    ensures ParseAndClause("true") == Done(AndClause(true, true, []), "")
  {
    TrueExpression();
    var t := AndClause(true, true, []);
    assert NewAnd(Boolean(true)) == t;
    assert TagNoCase("", "AND") == Backtrack;
    assert AndFold("", t) == Done(t, "");
  }

  lemma TrueOrClause()
    ensures ParseOrClause("true") == Done(OrClause(true, true, []), "")
  {
    TrueAndClause();
    assert NewOr(AndClause(true, true, [])) == OrClause(true, true, []);
    assert TagNoCase("", "OR") == Backtrack;
    assert OrFold("", OrClause(true, true, [])) == Done(OrClause(true, true, []), "");
  }

  lemma TrueConditions()
    ensures Conditions(" true") == Done(OrClause(true, true, []), [])
  {
    assert " true" == " " + "true";
    SkipOneSpace("true");
    TrueOrClause();
  }

  /** `reject foo_bar_baz when true` compiles to the constant-true rule (and
      prints as `REJECT foo_bar_baz WHEN true`), for any casing of the keywords
      and any table name. */
  lemma TrueRuleAnyCase(opWord: string, op: Operation, table: string, whenWord: string)
    requires |opWord| == 6 && LowerText(opWord) == LowerText(op.Display())
    requires table != [] && forall i | 0 <= i < |table| :: IsTableChar(table[i])
    requires |whenWord| == 4 && LowerText(whenWord) == "when"
    ensures Compile(opWord + " " + table + " " + whenWord + " true") == Ok(Rule(op, table, OrClause(true, true, [])))
    ensures Rule(op, table, OrClause(true, true, [])).Display() == op.Display() + " " + table + " WHEN " + "true"
  {
    RuleHeader(opWord, op, table, whenWord, " true");
    TrueConditions();
    assert OrClause(true, true, []).Display() == "true";
  }
}
