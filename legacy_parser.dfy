/** The rule grammar of the older in-tree compiler (src/rules.rs):

      rule      := operation ws table ws WHEN ws or_clause ws          (the whole input)
      or_clause := and_clause ( OR ws and_clause )*
      and_clause:= expression ws ( AND ws expression ws )*
      expression:= field ws operator ws atom ws | true | false
      atom      := digits | true | false | '"' escaped '"'

    The operation, table, field and operator parsers are the rule compiler's
    (the two files define them alike). It differs in its atoms: a statement
    may compare a field against `true` or `false`, and a string literal holds
    ASCII letters and digits only. */
module LegacyParser {
  import opened Wrappers
  import opened Text
  import opened Combinators
  import opened LegacyAst
  import opened LegacySimplifier
  import RuleParser

  /** The characters a string literal may hold without escaping. */
  predicate IsPayloadChar(c: char) { IsAsciiAlphanumeric(c) }

  /** A number: one or more digits whose value fits in a u64. */
  function ParseNumber(s: string): (r: Parsed<Atom>)
    ensures !r.Fatal?
    ensures r.Done? ==> |r.rest| < |s| && r.value.Number?
    ensures r.Done? <==> Digit1(s).Done? && DigitsValue(Digit1(s).value) < U64_LIMIT
    ensures r.Done? ==> r.value.number == DigitsValue(Digit1(s).value)
  {
    match Digit1(s)
    case Done(ds, rest) =>
      var v := DigitsValue(ds);
      assert s[|ds|..] == rest;
      if v < U64_LIMIT then Done(Number(v), rest) else Backtrack
    case _ => Backtrack
  }

  /** `true` or `false`, in lower case only. */
  function ParseBoolean(s: string): (r: Parsed<Atom>)
    ensures !r.Fatal?
    ensures r.Done? ==> |r.rest| < |s| && r.value.Boolean?
    ensures r.Done? <==> (|s| >= 4 && s[..4] == "true") || (|s| >= 5 && s[..5] == "false")
  {
    match Tag(s, "true")
    case Done(_, rest) => Done(Boolean(true), rest)
    case _ =>
      (match Tag(s, "false")
       case Done(_, rest) => Done(Boolean(false), rest)
       case _ => Backtrack)
  }

  function ParseEscape(s: string): (r: Parsed<string>)
    ensures !r.Fatal?
    ensures r.Done? ==> |r.rest| <= |s|
  {
    EscapedTransform(s, IsPayloadChar, RuleParser.Unescape)
  }

  /** A string literal; after the opening quote a malformed body or a missing
      closing quote is a hard failure (`cut`). */
  function ParseString(s: string): (r: Parsed<Atom>)
    ensures r.Done? ==> |r.rest| < |s| && r.value.String?
    ensures r.Backtrack? <==> s == [] || s[0] != '"'
  {
    match Char(s, '"')
    case Done(_, r1) =>
      (match ParseEscape(r1)
       case Done(v, r2) =>
         (match Char(r2, '"')
          case Done(_, r3) => Done(String(v), r3)
          case _ => Fatal)
       case _ => Fatal)
    case _ => Backtrack
  }

  /** A number, else a boolean, else a string. */
  function ParseAtom(s: string): (r: Parsed<Atom>)
    ensures r.Done? ==> |r.rest| < |s|
  {
    match ParseNumber(s)
    case Backtrack =>
      (match ParseBoolean(s)
       case Backtrack => ParseString(s)
       case other => other)
    case other => other
  }

  /** `parse_constant`: a boolean as a constant expression. */
  function ParseConstant(s: string): (r: Parsed<Expression>)
    ensures !r.Fatal?
    ensures r.Done? ==> |r.rest| < |s| && IsBoolean(r.value)
  {
    match ParseBoolean(s)
    case Done(a, rest) => Done(Constant(a), rest)
    case _ => Backtrack
  }

  function ParseStatement(s: string): (r: Parsed<Expression>)
    ensures r.Done? ==> |r.rest| < |s| && r.value.Statement?
  {
    var f := RuleParser.ParseField(s);
    var r1 := Multispace0(f.rest);
    match RuleParser.ParseOperator(r1)
    case Done(op, r2) =>
      var r3 := Multispace0(r2);
      (match ParseAtom(r3)
       case Done(a, r4) =>
         var r5 := Multispace0(r4);
         Done(Statement(f.value, op, a), r5)
       case Backtrack => Backtrack
       case Fatal => Fatal)
    case _ => Backtrack
  }

  /** A statement, else a boolean constant: never a number or string constant. */
  function ParseExpression(s: string): (r: Parsed<Expression>)
    ensures r.Done? ==> |r.rest| < |s| && (r.value.Statement? || IsBoolean(r.value))
  {
    match ParseStatement(s)
    case Backtrack => ParseConstant(s)
    case other => other
  }

  function ParseAndClause(s: string): (r: Parsed<AndClause>)
    ensures r.Done? ==> |r.rest| <= |s| && r.value.Wf() && r.value.Settled()
  {
    match ParseExpression(s)
    case Done(e, r1) =>
      var r2 := Multispace0(r1);
      AndAddKeepsWf(EmptyAnd, e);
      AndFold(r2, NewAnd(e))
    case Backtrack => Backtrack
    case Fatal => Fatal
  }

  /** `fold_many0(preceded(AND ws, expression ws))`. */
  function AndFold(s: string, acc: AndClause): (r: Parsed<AndClause>)
    requires acc.Wf() && acc.Settled()
    ensures r.Done? ==> |r.rest| <= |s| && r.value.Wf() && r.value.Settled()
    decreases |s|
  {
    match TagNoCase(s, "AND")
    case Done(_, r1) =>
      var r2 := Multispace0(r1);
      (match ParseExpression(r2)
       case Done(e, r3) =>
         var r4 := Multispace0(r3);
         AndAddKeepsWf(acc, e);
         AndFold(r4, acc.Add(e))
       case Backtrack => Done(acc, s)
       case Fatal => Fatal)
    case _ => Done(acc, s)
  }

  function ParseOrClause(s: string): (r: Parsed<OrClause>)
    ensures r.Done? ==> |r.rest| <= |s| && r.value.Wf()
  {
    match ParseAndClause(s)
    case Done(c, r1) =>
      OrAddKeepsWf(EmptyOr, c);
      OrFold(r1, NewOr(c))
    case Backtrack => Backtrack
    case Fatal => Fatal
  }

  /** `fold_many0(preceded(OR ws, and_clause))`. */
  function OrFold(s: string, acc: OrClause): (r: Parsed<OrClause>)
    requires acc.Wf()
    ensures r.Done? ==> |r.rest| <= |s| && r.value.Wf()
    decreases |s|
  {
    match TagNoCase(s, "OR")
    case Done(_, r1) =>
      var r2 := Multispace0(r1);
      (match ParseAndClause(r2)
       case Done(c, r3) =>
         OrAddKeepsWf(acc, c);
         OrFold(r3, acc.Add(c))
       case Backtrack => Done(acc, s)
       case Fatal => Fatal)
    case _ => Done(acc, s)
  }

  datatype Rule = Rule(operation: Operation, table: string, clause: OrClause)
  {
    function Display(): string
    {
      operation.Display() + " " + table + " WHEN " + clause.Display()
    }
  }

  function Conditions(s: string): (r: Parsed<OrClause>)
    ensures r.Done? ==> r.rest == [] && r.value.Wf()
  {
    match ParseOrClause(Multispace0(s))
    case Done(c, r1) => if Multispace0(r1) == [] then Done(c, []) else Backtrack
    case Backtrack => Backtrack
    case Fatal => Fatal
  }

  function ParseRule(s: string): (r: Parsed<Rule>)
    ensures r.Done? ==> r.rest == [] && r.value.clause.Wf()
  {
    match RuleParser.ParseOperation(s)
    case Done(op, r1) =>
      var t := RuleParser.ParseTable(Multispace0(r1));
      (match TagNoCase(Multispace0(t.rest), "WHEN")
       case Done(_, r2) =>
         (match Conditions(r2)
          case Done(c, _) => Done(Rule(op, t.value, c), [])
          case Backtrack => Backtrack
          case Fatal => Fatal)
       case _ => Backtrack)
    case _ => Backtrack
  }

  /** `compile`: a rule for the whole text, or the parse error. */
  function Compile(s: string): (r: Result<Rule>)
    ensures r.Ok? ==> r.value.clause.Wf()
    ensures r.Err? ==> r.error == ParseFailure
  {
    match ParseRule(s)
    case Done(rule, _) => Ok(rule)
    case _ => Err(ParseFailure)
  }
}
