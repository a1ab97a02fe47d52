/** The rule grammar of the rule compiler (rule-compiler/src/lib.rs), parser by parser:

      rule      := operation ws table ws WHEN ws or_clause ws          (the whole input)
      or_clause := and_clause ( OR ws and_clause )*
      and_clause:= expression ws ( AND ws expression ws )*
      expression:= field ws operator ws atom ws | true | false
      atom      := digits | '"' escaped '"'

    with the keywords in any letter case. The folds add each expression or
    disjunct to the clause built so far, so the simplifier runs while parsing. */
module RuleParser {
  import opened Wrappers
  import opened Text
  import opened Combinators
  import opened RuleAst
  import opened RuleSimplifier

  predicate IsTableChar(c: char) { c == '_' || IsAsciiAlpha(c) }
  predicate IsFieldChar(c: char) { c == '_' || c == '.' || IsAsciiAlpha(c) }
  /** The characters a string literal may hold without escaping (ASCII letters
      and digits, `_` and `/`). */
  predicate IsPayloadChar(c: char) { c == '_' || c == '/' || IsAsciiAlphanumeric(c) }

  /** The escapes: `\\` is a backslash, `\"` a quote, and a backslash before a
      line feed stands for the letter `n`. */
  function Unescape(c: char): Option<char>
  {
    if c == '\\' then Some('\\') else if c == '"' then Some('"') else if c == '\n' then Some('n') else None
  }

  function ParseOperation(s: string): (r: Parsed<Operation>)
    ensures !r.Fatal?
    ensures r.Done? ==> |r.rest| + 6 == |s| && r.rest == s[6..]
  {
    match TagNoCase(s, "REJECT")
    case Done(_, rest) => Done(Reject, rest)
    case _ =>
      (match TagNoCase(s, "FILTER")
       case Done(_, rest) => Done(Filter, rest)
       case _ => Backtrack)
  }

  /** The table name: the longest run of letters and underscores, possibly empty. */
  function ParseTable(s: string): (r: Parsed<string>)
    ensures r.Done? && r.value + r.rest == s
    ensures forall i | 0 <= i < |r.value| :: IsTableChar(r.value[i])
    ensures r.rest == [] || !IsTableChar(r.rest[0])
  {
    TakeWhile(s, IsTableChar)
  }

  /** The field name: the longest run of letters, underscores and dots, possibly empty. */
  function ParseField(s: string): (r: Parsed<string>)
    ensures r.Done? && r.value + r.rest == s
    ensures forall i | 0 <= i < |r.value| :: IsFieldChar(r.value[i])
    ensures r.rest == [] || !IsFieldChar(r.rest[0])
  {
    TakeWhile(s, IsFieldChar)
  }

  function ParseOperator(s: string): (r: Parsed<Operator>)
    ensures !r.Fatal?
    ensures r.Done? ==> |r.rest| + 2 == |s| && r.rest == s[2..]
  {
    match Tag(s, "==")
    case Done(_, rest) => Done(Equal, rest)
    case _ =>
      (match Tag(s, "!=")
       case Done(_, rest) => Done(NotEqual, rest)
       case _ => Backtrack)
  }

  /** A number: one or more digits whose value fits in a u64; a larger value
      fails recoverably, like a missing number. */
  function ParseNumber(s: string): (r: Parsed<Atom>)
    ensures !r.Fatal?
    ensures r.Done? ==> |r.rest| < |s| && r.value.Number?
    ensures r.Done? <==> Digit1(s).Done? && DigitsValue(Digit1(s).value) < U64_LIMIT
    ensures r.Done? ==> r.value.number == DigitsValue(Digit1(s).value)
  {
    match Digit1(s)
    case Done(ds, rest) =>
      var v := DigitsValue(ds);
      assert s[|ds|..] == rest;
      if v < U64_LIMIT then Done(Number(v), rest) else Backtrack
    case _ => Backtrack
  }

  function ParseEscape(s: string): (r: Parsed<string>)
    ensures !r.Fatal?
    ensures r.Done? ==> |r.rest| <= |s|
  {
    EscapedTransform(s, IsPayloadChar, Unescape)
  }

  /** A string literal. Once the opening quote is read, a malformed body or a
      missing closing quote is a hard failure (`cut`). */
  function ParseString(s: string): (r: Parsed<Atom>)
    ensures r.Done? ==> |r.rest| < |s| && r.value.String?
    ensures r.Backtrack? <==> s == [] || s[0] != '"'
  {
    match Char(s, '"')
    case Done(_, r1) =>
      (match ParseEscape(r1)
       case Done(v, r2) =>
         (match Char(r2, '"')
          case Done(_, r3) =>
            Done(String(v), r3)
          case _ => Fatal)
       case _ => Fatal)
    case _ => Backtrack
  }

  /** A number, else a string. */
  function ParseAtom(s: string): (r: Parsed<Atom>)
    ensures r.Done? ==> |r.rest| < |s|
  {
    match ParseNumber(s)
    case Backtrack => ParseString(s)
    case other => other
  }

  /** `true` or `false`, in lower case only. */
  function ParseBoolean(s: string): (r: Parsed<Expression>)
    ensures !r.Fatal?
    ensures r.Done? ==> |r.rest| < |s| && r.value.Boolean?
  {
    match Tag(s, "true")
    case Done(_, rest) => Done(Boolean(true), rest)
    case _ =>
      (match Tag(s, "false")
       case Done(_, rest) => Done(Boolean(false), rest)
       case _ => Backtrack)
  }

  function ParseStatement(s: string): (r: Parsed<Expression>)
    ensures r.Done? ==> |r.rest| < |s| && r.value.Statement?
  {
    var f := ParseField(s);
    var r1 := Multispace0(f.rest);
    match ParseOperator(r1)
    case Done(op, r2) =>
      var r3 := Multispace0(r2);
      (match ParseAtom(r3)
       case Done(a, r4) =>
         var r5 := Multispace0(r4);
         Done(Statement(f.value, op, a), r5)
       case Backtrack => Backtrack
       case Fatal => Fatal)
    case _ => Backtrack
  }

  /** A statement, else a boolean constant. */
  function ParseExpression(s: string): (r: Parsed<Expression>)
    ensures r.Done? ==> |r.rest| < |s|
  {
    match ParseStatement(s)
    case Backtrack => ParseBoolean(s)
    case other => other
  }

  /** An AND clause: every clause it returns is well formed and settled. */
  function ParseAndClause(s: string): (r: Parsed<AndClause>)
    ensures r.Done? ==> |r.rest| <= |s| && r.value.Wf() && r.value.Settled()
  {
    match ParseExpression(s)
    case Done(e, r1) =>
      var r2 := Multispace0(r1);
      NewAndWf(e);
      AndFold(r2, NewAnd(e))
    case Backtrack => Backtrack
    case Fatal => Fatal
  }

  /** `fold_many0(preceded(AND ws, expression ws))`: stops before an `AND` that is
      not followed by an expression; a hard failure inside is passed on. */
  function AndFold(s: string, acc: AndClause): (r: Parsed<AndClause>)
    requires acc.Wf() && acc.Settled()
    ensures r.Done? ==> |r.rest| <= |s| && r.value.Wf() && r.value.Settled()
    decreases |s|
  {
    match TagNoCase(s, "AND")
    case Done(_, r1) =>
      var r2 := Multispace0(r1);
      (match ParseExpression(r2)
       case Done(e, r3) =>
         var r4 := Multispace0(r3);
         AndAddKeepsWf(acc, e);
         AndFold(r4, acc.Add(e))
       case Backtrack => Done(acc, s)
       case Fatal => Fatal)
    case _ => Done(acc, s)
  }

  /** An OR clause: every clause it returns is well formed. */
  function ParseOrClause(s: string): (r: Parsed<OrClause>)
    ensures r.Done? ==> |r.rest| <= |s| && r.value.Wf()
  {
    match ParseAndClause(s)
    case Done(c, r1) =>
      OrAddKeepsWf(EmptyOr, c);
      OrFold(r1, NewOr(c))
    case Backtrack => Backtrack
    case Fatal => Fatal
  }

  /** `fold_many0(preceded(OR ws, and_clause))`. */
  function OrFold(s: string, acc: OrClause): (r: Parsed<OrClause>)
    requires acc.Wf()
    ensures r.Done? ==> |r.rest| <= |s| && r.value.Wf()
    decreases |s|
  {
    match TagNoCase(s, "OR")
    case Done(_, r1) =>
      var r2 := Multispace0(r1);
      (match ParseAndClause(r2)
       case Done(c, r3) =>
         OrAddKeepsWf(acc, c);
         OrFold(r3, acc.Add(c))
       case Backtrack => Done(acc, s)
       case Fatal => Fatal)
    case _ => Done(acc, s)
  }

  datatype Rule = Rule(operation: Operation, table: string, clause: OrClause)
  {
    /** `Display for Rule`: the six-letter keyword in upper case comes first
        and the printed clause last. */
    function Display(): (r: string)
      ensures |r| >= 6 && r[..6] == operation.Display() && (r[..6] == "REJECT" || r[..6] == "FILTER")
      ensures |r| >= |clause.Display()| && r[|r| - |clause.Display()|..] == clause.Display()
    {
      operation.Display() + " " + table + " WHEN " + clause.Display()
    }
  }

  /** What follows the `WHEN` keyword: the conditions, then nothing but white space. */
  function Conditions(s: string): (r: Parsed<OrClause>)
    ensures r.Done? ==> r.rest == [] && r.value.Wf()
  {
    match ParseOrClause(Multispace0(s))
    case Done(c, r1) => if Multispace0(r1) == [] then Done(c, []) else Backtrack
    case Backtrack => Backtrack
    case Fatal => Fatal
  }

  function ParseRule(s: string): (r: Parsed<Rule>)
    ensures r.Done? ==> r.rest == [] && r.value.clause.Wf()
  {
    match ParseOperation(s)
    case Done(op, r1) =>
      var t := ParseTable(Multispace0(r1));
      (match TagNoCase(Multispace0(t.rest), "WHEN")
       case Done(_, r2) =>
         (match Conditions(r2)
          case Done(c, _) => Done(Rule(op, t.value, c), [])
          case Backtrack => Backtrack
          case Fatal => Fatal)
       case _ => Backtrack)
    case _ => Backtrack
  }

  /** `compile`: a rule for the whole text, or the parse error. Every compiled
      rule's clause is well formed, so all its disjuncts are non-empty lists of
      distinct, non-clashing statements. */
  function Compile(s: string): (r: Result<Rule>)
    ensures r.Ok? ==> r.value.clause.Wf()
    ensures r.Err? ==> r.error == ParseFailure
  {
    match ParseRule(s)
    case Done(rule, _) => Ok(rule)
    case _ => Err(ParseFailure)
  }
}
