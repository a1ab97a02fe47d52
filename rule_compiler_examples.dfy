/** The accepted and rejected rules of the rule compiler's tests
    (rule-compiler/src/lib.rs:583-603), for any casing of the keywords and any
    table name: what follows `WHEN` decides. */
module RuleCompilerExamples {
  import opened Wrappers
  import opened Text
  import opened Combinators
  import opened RuleAst
  import opened RuleSimplifier
  import opened RuleParser
  import opened RuleParserProperties

  predicate Header(opWord: string, op: Operation, table: string, whenWord: string)
  {
    |opWord| == 6 && LowerText(opWord) == LowerText(op.Display()) &&
    table != [] && (forall i | 0 <= i < |table| :: IsTableChar(table[i])) &&
    |whenWord| == 4 && LowerText(whenWord) == "when"
  }

  /** Conditions that cannot start with an expression are rejected. */
  lemma NoConditionsWithoutExpression(body: string)
    requires ParseExpression(Multispace0(body)).Backtrack?
    ensures Conditions(body) == Backtrack
  {
  }

  lemma NoExpression(s: string)
    requires ParseStatement(s).Backtrack? && ParseBoolean(s).Backtrack?
    ensures ParseExpression(s).Backtrack?
  {
  }

  lemma NoStatementWithoutOperator(s: string)
    requires ParseOperator(Multispace0(ParseField(s).rest)).Backtrack?
    ensures ParseStatement(s).Backtrack?
  {
  }

  lemma NoBoolean(s: string)
    requires s == [] || (s[0] != 't' && s[0] != 'f')
    ensures ParseBoolean(s).Backtrack?
  {
  }

  lemma CondsEmptyField() ensures ParseField("") == Done("", "") {}
  lemma CondsEmptySpace() ensures Multispace0("") == "" {}
  lemma CondsEmptyOperator() ensures ParseOperator("") == Backtrack {}
  lemma CondsEmptyStatement() ensures ParseStatement("") == Backtrack
  {
    CondsEmptyField();
    CondsEmptySpace();
    CondsEmptyOperator();
  }

  /** Nothing after `WHEN`. */
  lemma EmptyBody()
    ensures Conditions("") == Backtrack
  {
    CondsEmptyStatement();
    NoBoolean("");
    NoExpression("");
    CondsEmptySpace();
    NoConditionsWithoutExpression("");
  }

  /** A field name with no operator after it. */
  lemma BareFieldBody(f: string)
    requires f != [] && (forall i | 0 <= i < |f| :: IsFieldChar(f[i])) && f[0] != 't' && f[0] != 'f'
    ensures Conditions(" " + f) == Backtrack
  {
    SkipOneSpace(f);
    FieldThen(f, "");
    assert f + "" == f;
    CondsEmptySpace();
    CondsEmptyOperator();
    NoStatementWithoutOperator(f);
    NoBoolean(f);
    NoExpression(f);
    NoConditionsWithoutExpression(" " + f);
  }

  /** `ParseStatement` fails when no atom follows the operator. */
  lemma StatementStepsFail(s: string, f: string, r1: string, op: Operator, r2: string)
    requires ParseField(s) == Done(f, r1)
    requires ParseOperator(Multispace0(r1)) == Done(op, r2)
    requires ParseAtom(Multispace0(r2)).Backtrack?
    ensures ParseStatement(s).Backtrack?
  {
    assert ParseField(s).rest == r1;
  }

  lemma LetterIsNoAtom(v: string)
    requires v != [] && IsAsciiAlpha(v[0])
    ensures ParseAtom(v).Backtrack?
  {
    assert ParseNumber(v) == Backtrack;
  }

  /** A field name ends where the (optionally spaced) operator starts. */
  lemma FieldBeforeOperator(f: string, op: Operator, sp1: string, rest: string)
    requires forall i | 0 <= i < |f| :: IsFieldChar(f[i])
    requires sp1 == "" || sp1 == " "
    ensures ParseField(f + (sp1 + (op.Display() + rest))) == Done(f, sp1 + (op.Display() + rest))
  {
    OperatorEndsField(op, sp1, rest);
    FieldThen(f, sp1 + (op.Display() + rest));
  }

  lemma NoAtomAfterSpace(sp2: string, v: string)
    requires sp2 == "" || sp2 == " "
    requires v != [] && IsAsciiAlpha(v[0])
    ensures ParseAtom(Multispace0(sp2 + v)).Backtrack?
  {
    SkipOptionalSpace(sp2, v);
    LetterIsNoAtom(v);
  }

  lemma UnquotedStatement(f: string, op: Operator, sp1: string, sp2: string, v: string)
    requires forall i | 0 <= i < |f| :: IsFieldChar(f[i])
    requires sp1 == "" || sp1 == " "
    requires sp2 == "" || sp2 == " "
    requires v != [] && IsAsciiAlpha(v[0])
    ensures ParseStatement(f + (sp1 + (op.Display() + (sp2 + v)))).Backtrack?
  {
    FieldBeforeOperator(f, op, sp1, sp2 + v);
    OperatorSpaced(op, sp1, sp2 + v);
    NoAtomAfterSpace(sp2, v);
    StatementStepsFail(f + (sp1 + (op.Display() + (sp2 + v))), f, sp1 + (op.Display() + (sp2 + v)), op, sp2 + v);
  }

  lemma FirstOfField(f: string, tail: string)
    requires f != [] && forall i | 0 <= i < |f| :: IsFieldChar(f[i])
    ensures (f + tail)[0] == f[0] && !IsMultispace((f + tail)[0])
  {
    assert IsFieldChar(f[0]);
  }

  /** A value that is neither a number nor a quoted string. */
  lemma UnquotedValueBody(f: string, op: Operator, sp1: string, sp2: string, v: string)
    requires f != [] && (forall i | 0 <= i < |f| :: IsFieldChar(f[i])) && f[0] != 't' && f[0] != 'f'
    requires sp1 == "" || sp1 == " "
    requires sp2 == "" || sp2 == " "
    requires v != [] && IsAsciiAlpha(v[0])
    ensures Conditions(" " + (f + (sp1 + (op.Display() + (sp2 + v))))) == Backtrack
  {
    var s := f + (sp1 + (op.Display() + (sp2 + v)));
    FirstOfField(f, sp1 + (op.Display() + (sp2 + v)));
    SkipOneSpace(s);
    UnquotedStatement(f, op, sp1, sp2, v);
    NoBoolean(s);
    NoExpression(s);
    NoConditionsWithoutExpression(" " + s);
  }

  lemma QuotedNoStatement(s: string)
    requires s != [] && s[0] == '"'
    ensures ParseStatement(s).Backtrack?
  {
    FieldThen("", s);
    assert "" + s == s;
    NoSpaceToSkip(s);
    assert ParseOperator(s) == Backtrack;
    NoStatementWithoutOperator(s);
  }

  lemma QuotedNoExpression(s: string)
    requires s != [] && s[0] == '"'
    ensures ParseExpression(s).Backtrack?
  {
    QuotedNoStatement(s);
    NoBoolean(s);
    NoExpression(s);
  }

  /** Conditions cannot start with a quote: field names are not quoted. */
  lemma QuotedStartBody(s: string)
    requires s != [] && s[0] == '"'
    ensures Conditions(" " + s) == Backtrack
  {
    SkipOneSpace(s);
    QuotedNoExpression(s);
    NoConditionsWithoutExpression(" " + s);
  }

  /** One expression and no `AND` after it. */
  lemma SingleExpressionClause(s: string, e: Expression, r1: string)
    requires ParseExpression(s) == Done(e, r1)
    requires TagNoCase(Multispace0(r1), "AND").Backtrack?
    ensures ParseAndClause(s) == Done(NewAnd(e), Multispace0(r1))
  {
  }

  /** One AND clause and no `OR` after it. */
  lemma SingleAndClause(s: string, c: AndClause, r1: string)
    requires ParseAndClause(s) == Done(c, r1)
    requires TagNoCase(r1, "OR").Backtrack?
    ensures ParseOrClause(s) == Done(NewOr(c), r1)
  {
  }

  lemma ExpressionOfStatement(s: string, e: Expression, r1: string)
    requires ParseStatement(s) == Done(e, r1)
    ensures ParseExpression(s) == Done(e, r1)
  {
  }

  /** What may follow a lone statement: nothing, or a quote. */
  lemma QuietEnd(rest: string)
    requires rest == [] || rest[0] == '"'
    ensures Multispace0(rest) == rest
    ensures TagNoCase(rest, "AND").Backtrack? && TagNoCase(rest, "OR").Backtrack?
  {
    NoSpaceToSkip(rest);
    if rest != [] {
      assert Lower(rest[0]) == '"' != Lower("AND"[0]);
      assert Lower(rest[0]) != Lower("OR"[0]);
    }
  }

  lemma NewAndOfStatement(e: Expression)
    requires e.Statement?
    ensures NewAnd(e) == AndClause(false, false, [e])
  {
  }

  lemma NewOrOfSingle(e: Expression)
    requires e.Statement?
    ensures NewOr(AndClause(false, false, [e])) == OrClause(false, false, [AndClause(false, false, [e])])
  {
  }

  /** A lone statement is an OR clause of one disjunct of one statement. */
  lemma SingleStatementParse(s: string, e: Expression, rest: string)
    requires e.Statement? && ParseStatement(s) == Done(e, rest)
    requires rest == [] || rest[0] == '"'
    ensures ParseOrClause(s) == Done(OrClause(false, false, [AndClause(false, false, [e])]), rest)
  {
    ExpressionOfStatement(s, e, rest);
    QuietEnd(rest);
    SingleExpressionClause(s, e, rest);
    NewAndOfStatement(e);
    SingleAndClause(s, AndClause(false, false, [e]), rest);
    NewOrOfSingle(e);
  }

  /** The conditions are the OR clause after the leading space, then nothing but white space. */
  lemma ConditionsOf(s: string, c: OrClause, r1: string)
    requires s == [] || !IsMultispace(s[0])
    requires ParseOrClause(s) == Done(c, r1)
    ensures Conditions(" " + s) == if Multispace0(r1) == [] then Done(c, []) else Backtrack
  {
    SkipOneSpace(s);
  }

  /** The conditions of a lone statement, and of one followed by a stray quote. */
  lemma LoneStatementConditions(s: string, e: Expression, rest: string)
    requires s != [] && !IsMultispace(s[0])
    requires e.Statement? && ParseStatement(s) == Done(e, rest)
    requires rest == [] || rest == "\""
    ensures Conditions(" " + s) ==
            if rest == [] then Done(OrClause(false, false, [AndClause(false, false, [e])]), []) else Backtrack
  {
    SingleStatementParse(s, e, rest);
    ConditionsOf(s, OrClause(false, false, [AndClause(false, false, [e])]), rest);
    if rest == [] {
      CondsEmptySpace();
    } else {
      NoSpaceToSkip(rest);
    }
  }

  /** A one-statement condition. */
  lemma SingleStatementBody(e: Expression, sp1: string, sp2: string)
    requires Printable(e)
    requires sp1 == "" || sp1 == " "
    requires sp2 == "" || sp2 == " "
    ensures Conditions(" " + (e.field + (sp1 + (e.operator.Display() + (sp2 + (e.atom.Display() + "")))))) ==
            Done(OrClause(false, false, [AndClause(false, false, [e])]), [])
  {
    var s := e.field + (sp1 + (e.operator.Display() + (sp2 + (e.atom.Display() + ""))));
    StatementSpaced(e, sp1, sp2, "");
    FirstOfField(e.field, sp1 + (e.operator.Display() + (sp2 + (e.atom.Display() + ""))));
    LoneStatementConditions(s, e, []);
  }

  /** A stray quote after a string value is left over, so the rule is rejected. */
  lemma StrayQuoteBody(e: Expression, sp1: string, sp2: string)
    requires Printable(e) && e.atom.String?
    requires sp1 == "" || sp1 == " "
    requires sp2 == "" || sp2 == " "
    ensures Conditions(" " + (e.field + (sp1 + (e.operator.Display() + (sp2 + (e.atom.Display() + "\"")))))) == Backtrack
  {
    var s := e.field + (sp1 + (e.operator.Display() + (sp2 + (e.atom.Display() + "\""))));
    StatementSpaced(e, sp1, sp2, "\"");
    FirstOfField(e.field, sp1 + (e.operator.Display() + (sp2 + (e.atom.Display() + "\""))));
    LoneStatementConditions(s, e, "\"");
  }

  lemma RejectedAfterHeader(opWord: string, op: Operation, table: string, whenWord: string, body: string)
    requires Header(opWord, op, table, whenWord)
    requires !Conditions(body).Done?
    ensures Compile(opWord + " " + table + " " + whenWord + body) == Err(ParseFailure)
  {
    RuleHeader(opWord, op, table, whenWord, body);
  }

  lemma BackslashDisplay()
    ensures String("1\\").Display() == "\"1\\\\\""
  {
    assert "1\\"[1..] == "\\";
    assert DebugBody("\\") == "\\\\";
    assert DebugBody("1\\") == "1\\\\";
  }

  lemma QuoteDisplay()
    ensures String("1\"").Display() == "\"1\\\"\""
  {
    assert "1\""[1..] == "\"";
    assert DebugBody("\"") == "\\\"";
    assert DebugBody("1\"") == "1\\\"";
  }

  lemma SpellUnquoted()
    ensures " " + ("x" + ("" + (Equal.Display() + ("" + "a")))) == " x==a"
  {
  }

  lemma SpellStrayQuote()
    ensures " " + ("x" + ("" + (Equal.Display() + ("" + (String("1\\").Display() + "\""))))) == " x==\"1\\\\\"\""
    ensures IsLiteralText("1\\")
  {
    BackslashDisplay();
  }

  lemma SpellQuote()
    ensures " " + ("x" + ("" + (Equal.Display() + ("" + (String("1\"").Display() + ""))))) == " x==\"1\\\"\""
    ensures IsLiteralText("1\"")
  {
    QuoteDisplay();
  }

  lemma SpellNumber()
    ensures " " + ("x" + ("" + (Equal.Display() + ("" + (Number(1).Display() + ""))))) == " x==1"
  {
    assert Number(1).Display() == "1";
  }

  lemma RejectedEmpty(opWord: string, op: Operation, table: string, whenWord: string)
    requires Header(opWord, op, table, whenWord)
    ensures Compile(opWord + " " + table + " " + whenWord).Err?
  {
    EmptyBody();
    RejectedAfterHeader(opWord, op, table, whenWord, "");
    assert opWord + " " + table + " " + whenWord + "" == opWord + " " + table + " " + whenWord;
  }

  lemma RejectedBareFieldOf(opWord: string, op: Operation, table: string, whenWord: string, body: string)
    requires Header(opWord, op, table, whenWord)
    requires |body| >= 2 && body[0] == ' ' && (forall i | 1 <= i < |body| :: IsFieldChar(body[i]))
    requires body[1] != 't' && body[1] != 'f'
    ensures Compile(opWord + " " + table + " " + whenWord + body).Err?
  {
    assert body == " " + body[1..];
    BareFieldBody(body[1..]);
    RejectedAfterHeader(opWord, op, table, whenWord, body);
  }

  lemma RejectedBareField(opWord: string, op: Operation, table: string, whenWord: string)
    requires Header(opWord, op, table, whenWord)
    ensures Compile(opWord + " " + table + " " + whenWord + " x").Err?
  {
    RejectedBareFieldOf(opWord, op, table, whenWord, " x");
  }

  lemma RejectedUnquoted(opWord: string, op: Operation, table: string, whenWord: string)
    requires Header(opWord, op, table, whenWord)
    ensures Compile(opWord + " " + table + " " + whenWord + " x==a").Err?
  {
    UnquotedValueBody("x", Equal, "", "", "a");
    SpellUnquoted();
    RejectedAfterHeader(opWord, op, table, whenWord, " x==a");
  }

  lemma RejectedQuotedOf(opWord: string, op: Operation, table: string, whenWord: string, body: string)
    requires Header(opWord, op, table, whenWord)
    requires |body| >= 2 && body[0] == ' ' && body[1] == '"'
    ensures Compile(opWord + " " + table + " " + whenWord + body).Err?
  {
    assert body == " " + body[1..];
    QuotedStartBody(body[1..]);
    RejectedAfterHeader(opWord, op, table, whenWord, body);
  }

  lemma RejectedQuotedField(opWord: string, op: Operation, table: string, whenWord: string)
    requires Header(opWord, op, table, whenWord)
    ensures Compile(opWord + " " + table + " " + whenWord + " \"x\"==a").Err?
  {
    RejectedQuotedOf(opWord, op, table, whenWord, " \"x\"==a");
  }

  lemma RejectedQuotedAlone(opWord: string, op: Operation, table: string, whenWord: string)
    requires Header(opWord, op, table, whenWord)
    ensures Compile(opWord + " " + table + " " + whenWord + " \"x\"").Err?
  {
    RejectedQuotedOf(opWord, op, table, whenWord, " \"x\"");
  }

  lemma RejectedStrayQuote(opWord: string, op: Operation, table: string, whenWord: string)
    requires Header(opWord, op, table, whenWord)
    ensures Compile(opWord + " " + table + " " + whenWord + " x==\"1\\\\\"\"").Err?
  {
    SpellStrayQuote();
    StrayQuoteBody(Statement("x", Equal, String("1\\")), "", "");
    RejectedAfterHeader(opWord, op, table, whenWord, " x==\"1\\\\\"\"");
  }

  /** The rejected rules: a missing condition, a bare field, a value that is
      neither a number nor a string, a quoted field name, a stray quote. */
  lemma RejectedRules(opWord: string, op: Operation, table: string, whenWord: string)
    requires Header(opWord, op, table, whenWord)
    ensures Compile(opWord + " " + table + " " + whenWord).Err?
    ensures Compile(opWord + " " + table + " " + whenWord + " x").Err?
    ensures Compile(opWord + " " + table + " " + whenWord + " x==a").Err?
    ensures Compile(opWord + " " + table + " " + whenWord + " \"x\"==a").Err?
    ensures Compile(opWord + " " + table + " " + whenWord + " \"x\"").Err?
    ensures Compile(opWord + " " + table + " " + whenWord + " x==\"1\\\\\"\"").Err?
  {
    RejectedEmpty(opWord, op, table, whenWord);
    RejectedBareField(opWord, op, table, whenWord);
    RejectedUnquoted(opWord, op, table, whenWord);
    RejectedQuotedField(opWord, op, table, whenWord);
    RejectedQuotedAlone(opWord, op, table, whenWord);
    RejectedStrayQuote(opWord, op, table, whenWord);
  }

  /** A word that starts neither like REJECT nor like FILTER is no operation. */
  lemma NotAnOperation(w: string)
    requires |w| >= 2 && Lower(w[0]) != 'r' && Lower(w[1]) != 'i'
    ensures ParseOperation(w) == Backtrack
  {
    assert Lower("REJECT"[0]) == 'r';
    assert Lower("FILTER"[1]) == 'i';
  }

  /** An operation keyword other than REJECT and FILTER is rejected. */
  lemma UnknownOperationRejected(rest: string)
    ensures Compile("FOO" + rest).Err?
  {
    assert ("FOO" + rest)[0] == 'F' && ("FOO" + rest)[1] == 'O';
    NotAnOperation("FOO" + rest);
  }

  lemma AcceptedQuote(opWord: string, op: Operation, table: string, whenWord: string)
    requires Header(opWord, op, table, whenWord)
    ensures Compile(opWord + " " + table + " " + whenWord + " x==\"1\\\"\"") ==
            Ok(Rule(op, table, OrClause(false, false, [AndClause(false, false, [Statement("x", Equal, String("1\""))])])))
    ensures Rule(op, table, OrClause(false, false, [AndClause(false, false, [Statement("x", Equal, String("1\""))])])).Display() ==
            op.Display() + " " + table + " WHEN " + "x == \"1\\\"\""
  {
    QuotedRulePrint();
    SpellQuote();
    SingleStatementBody(Statement("x", Equal, String("1\"")), "", "");
    RuleHeader(opWord, op, table, whenWord, " x==\"1\\\"\"");
  }

  lemma AcceptedNumber(opWord: string, op: Operation, table: string, whenWord: string)
    requires Header(opWord, op, table, whenWord)
    ensures Compile(opWord + " " + table + " " + whenWord + " x==1") ==
            Ok(Rule(op, table, OrClause(false, false, [AndClause(false, false, [Statement("x", Equal, Number(1))])])))
    ensures Rule(op, table, OrClause(false, false, [AndClause(false, false, [Statement("x", Equal, Number(1))])])).Display() ==
            op.Display() + " " + table + " WHEN " + "x == 1"
  {
    NumberRulePrint();
    SpellNumber();
    SingleStatementBody(Statement("x", Equal, Number(1)), "", "");
    RuleHeader(opWord, op, table, whenWord, " x==1");
  }

  lemma QuotedRulePrint()
    ensures OrClause(false, false, [AndClause(false, false, [Statement("x", Equal, String("1\""))])]).Display() == "x == \"1\\\"\""
  {
    var e := Statement("x", Equal, String("1\""));
    QuoteDisplay();
    assert e.Display() == "x == \"1\\\"\"";
    assert AndClause(false, false, [e]).Display() == e.Display();
  }

  lemma NumberRulePrint()
    ensures OrClause(false, false, [AndClause(false, false, [Statement("x", Equal, Number(1))])]).Display() == "x == 1"
  {
    var e := Statement("x", Equal, Number(1));
    assert Number(1).Display() == "1";
    assert e.Display() == "x == 1";
    assert AndClause(false, false, [e]).Display() == e.Display();
  }

  /** The printed forms of the two accepted rules. */
  lemma AcceptedRulesPrint()
    ensures OrClause(false, false, [AndClause(false, false, [Statement("x", Equal, String("1\""))])]).Display() == "x == \"1\\\"\""
    ensures OrClause(false, false, [AndClause(false, false, [Statement("x", Equal, Number(1))])]).Display() == "x == 1"
  {
    QuotedRulePrint();
    NumberRulePrint();
  }
}
