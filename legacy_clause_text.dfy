/** The older in-tree compiler (src/rules.rs:396-411 and 545-552) reading the
    written conditions of `RuleClauseText`: terms joined by `AND`, conjunctions
    joined by `OR`, each keyword in any letter case between spaces.

    Its grammar differs from the rule compiler's only in its atoms, so on
    every such text whose string literals hold only letters, digits, quotes
    and backslashes, the two parsers agree: the older one builds the `add` chain of the same
    terms, and that chain lifts to the rule compiler's clause and prints the
    same way. */
module LegacyClauseText {
  import opened Wrappers
  import opened Text
  import opened Combinators
  import opened LegacyAst
  import opened LegacySimplifier
  import RA = RuleAst
  import RS = RuleSimplifier
  import RP = RuleParser
  import RPP = RuleParserProperties
  import RCT = RuleClauseText
  import LP = LegacyParser

  // ---------------------------------------------------------- the terms the older grammar reads

  /** What the older string literal can hold: letters and digits, and the quote and backslash it escapes. */
  predicate LiteralChar(c: char) { IsAsciiAlphanumeric(c) || c == '"' || c == '\\' }

  predicate LiteralText(s: string) { forall i | 0 <= i < |s| :: LiteralChar(s[i]) }

  predicate PlainString(e: RA.Expression) { e.Statement? && e.atom.String? ==> LiteralText(e.atom.text) }

  predicate PlainJoints(js: seq<RCT.Joint<RA.Expression>>) { forall i | 0 <= i < |js| :: PlainString(js[i].item) }

  predicate PlainConjunction(c: RCT.Conjunction) { PlainString(c.first) && PlainJoints(c.joints) }

  predicate PlainOrJoints(js: seq<RCT.Joint<RCT.Conjunction>>) { forall i | 0 <= i < |js| :: PlainConjunction(js[i].item) }

  predicate PlainDisjunction(d: RCT.Disjunction) { PlainConjunction(d.first) && PlainOrJoints(d.joints) }

  /** The older grammar's expression for a rule compiler's term. */
  function Legacy(e: RA.Expression): (r: Expression)
    ensures Liftable(r) && Lift(r) == e
  {
    match e
    case Boolean(b) => Constant(Boolean(b))
    case Statement(f, op, a) =>
      Statement(f, op, match a case String(s) => String(s) case Number(n) => Number(n))
  }

  // ---------------------------------------------------------- the values the older folds build

  function AndChain(acc: AndClause, js: seq<RCT.Joint<RA.Expression>>): AndClause
    decreases |js|
  {
    if js == [] then acc else AndChain(acc.Add(Legacy(js[0].item)), js[1..])
  }

  function ConjunctionValue(c: RCT.Conjunction): AndClause
  {
    AndChain(NewAnd(Legacy(c.first)), c.joints)
  }

  function OrChain(acc: OrClause, js: seq<RCT.Joint<RCT.Conjunction>>): OrClause
    decreases |js|
  {
    if js == [] then acc else OrChain(acc.Add(ConjunctionValue(js[0].item)), js[1..])
  }

  function DisjunctionValue(d: RCT.Disjunction): OrClause
  {
    OrChain(NewOr(ConjunctionValue(d.first)), d.joints)
  }

  /** The AND chain of the older simplifier lifts to the rule compiler's. */
  lemma {:induction false} AndChainLifts(acc: AndClause, js: seq<RCT.Joint<RA.Expression>>)
    requires AllLiftable(acc.expressions)
    ensures AllLiftable(AndChain(acc, js).expressions)
    ensures LiftAnd(AndChain(acc, js)) == RCT.AndChain(LiftAnd(acc), js)
    decreases |js|
  {
    if js != [] {
      AndAddAgrees(acc, Legacy(js[0].item));
      AndChainLifts(acc.Add(Legacy(js[0].item)), js[1..]);
    }
  }

  lemma ConjunctionLifts(c: RCT.Conjunction)
    ensures AllLiftable(ConjunctionValue(c).expressions)
    ensures LiftAnd(ConjunctionValue(c)) == RCT.ConjunctionValue(c)
  {
    AndAddAgrees(EmptyAnd, Legacy(c.first));
    assert LiftAnd(EmptyAnd) == RS.EmptyAnd;
    AndChainLifts(NewAnd(Legacy(c.first)), c.joints);
  }

  lemma {:induction false} OrChainLifts(acc: OrClause, js: seq<RCT.Joint<RCT.Conjunction>>)
    requires OrLiftable(acc)
    ensures OrLiftable(OrChain(acc, js))
    ensures LiftOr(OrChain(acc, js)) == RCT.OrChain(LiftOr(acc), js)
    decreases |js|
  {
    if js != [] {
      var c := ConjunctionValue(js[0].item);
      ConjunctionLifts(js[0].item);
      OrAddAgrees(acc, c);
      OrChainLifts(acc.Add(c), js[1..]);
    }
  }

  /** The disjunction the older compiler builds lifts to the rule compiler's. */
  lemma DisjunctionLifts(d: RCT.Disjunction)
    ensures OrLiftable(DisjunctionValue(d))
    ensures LiftOr(DisjunctionValue(d)) == RCT.DisjunctionValue(d)
  {
    var c := ConjunctionValue(d.first);
    ConjunctionLifts(d.first);
    OrAddAgrees(EmptyOr, c);
    assert LiftOr(EmptyOr) == RS.EmptyOr;
    OrChainLifts(NewOr(c), d.joints);
  }

  // ---------------------------------------------------------- reading one term

  lemma PlainJointsTail(js: seq<RCT.Joint<RA.Expression>>)
    requires js != [] && PlainJoints(js)
    ensures PlainString(js[0].item) && PlainJoints(js[1..])
  {
    assert forall i | 0 <= i < |js[1..]| :: js[1..][i] == js[i + 1];
  }

  lemma PlainOrJointsTail(js: seq<RCT.Joint<RCT.Conjunction>>)
    requires js != [] && PlainOrJoints(js)
    ensures PlainConjunction(js[0].item) && PlainOrJoints(js[1..])
  {
    assert forall i | 0 <= i < |js[1..]| :: js[1..][i] == js[i + 1];
  }

  lemma EscapedNormalStep(s: string, acc: string, started: bool)
    requires s != [] && LP.IsPayloadChar(s[0])
    ensures Escaped(s, LP.IsPayloadChar, RP.Unescape, acc, started) ==
      Escaped(s[1..], LP.IsPayloadChar, RP.Unescape, acc + [s[0]], true)
  {
  }

  lemma EscapedStop(s: string, acc: string)
    requires s != [] && !LP.IsPayloadChar(s[0]) && s[0] != '\\'
    ensures Escaped(s, LP.IsPayloadChar, RP.Unescape, acc, true) == Done(acc, s)
  {
  }

  lemma EscapedEscapeStep(s: string, acc: string, started: bool)
    requires |s| >= 2 && s[0] == '\\' && RP.Unescape(s[1]).Some?
    ensures Escaped(s, LP.IsPayloadChar, RP.Unescape, acc, started) ==
      Escaped(s[2..], LP.IsPayloadChar, RP.Unescape, acc + [RP.Unescape(s[1]).value], true)
  {
  }

  lemma LiteralTail(s: string)
    requires s != [] && LiteralText(s)
    ensures LiteralChar(s[0]) && LiteralText(s[1..])
  {
    assert forall i | 0 <= i < |s[1..]| :: s[1..][i] == s[i + 1];
  }

  /** One character of a printed literal, as the escape loop reads it. */
  lemma EscapedChar(c: char, more: string, acc: string, started: bool)
    requires LiteralChar(c)
    ensures Escaped(DebugEscape(c) + more, LP.IsPayloadChar, RP.Unescape, acc, started) ==
      Escaped(more, LP.IsPayloadChar, RP.Unescape, acc + [c], true)
  {
    if IsAsciiAlphanumeric(c) {
      assert DebugEscape(c) == [c];
      EscapedNormalStep([c] + more, acc, started);
      assert ([c] + more)[1..] == more;
    } else {
      assert DebugEscape(c) == ['\\', c];
      EscapedEscapeStep(['\\', c] + more, acc, started);
      assert (['\\', c] + more)[2..] == more;
    }
  }

  /** The escape loop reads a printed literal back. */
  lemma {:induction false} EscapedPlain(s: string, tail: string, acc: string, started: bool)
    requires LiteralText(s)
    ensures Escaped(DebugBody(s) + tail, LP.IsPayloadChar, RP.Unescape, acc, started) ==
      Escaped(tail, LP.IsPayloadChar, RP.Unescape, acc + s, started || s != [])
    decreases |s|
  {
    if s == [] {
      assert acc + s == acc;
      assert DebugBody(s) + tail == tail;
    } else {
      var c := s[0];
      var more := DebugBody(s[1..]) + tail;
      LiteralTail(s);
      assert DebugBody(s) + tail == DebugEscape(c) + more;
      EscapedChar(c, more, acc, started);
      assert acc + [c] + s[1..] == acc + s;
      EscapedPlain(s[1..], tail, acc + [c], true);
    }
  }

  lemma EscapeOfPlain(s: string, rest: string)
    requires s != [] && LiteralText(s)
    ensures LP.ParseEscape(DebugBody(s) + ("\"" + rest)) == Done(s, "\"" + rest)
  {
    EscapedPlain(s, "\"" + rest, [], false);
    assert [] + s == s;
    EscapedStop("\"" + rest, s);
  }

  lemma StringSteps(text: string, body: string, v: string, r2: string, r3: string)
    requires Char(text, '"').Done? && Char(text, '"').rest == body
    requires LP.ParseEscape(body) == Done(v, r2)
    requires Char(r2, '"').Done? && Char(r2, '"').rest == r3
    ensures LP.ParseString(text) == Done(String(v), r3)
  {
  }

  /** A printed literal reads back as that string. */
  lemma PlainStringParse(s: string, rest: string)
    requires s != [] && LiteralText(s)
    ensures LP.ParseString(DebugQuoted(s) + rest) == Done(String(s), rest)
  {
    RPP.OpeningQuote(s, rest);
    EscapeOfPlain(s, rest);
    assert ("\"" + rest)[1..] == rest;
    StringSteps(DebugQuoted(s) + rest, DebugBody(s) + ("\"" + rest), s, "\"" + rest, rest);
  }

  lemma NumberParse(n: u64, rest: string)
    requires rest == [] || rest[0] == ' '
    ensures LP.ParseNumber(DecimalText(n) + rest) == Done(Number(n), rest)
  {
    RPP.NumberRoundTrip(n, rest);
  }

  /** Text opening with a quote is neither a number nor a boolean. */
  lemma QuoteNotNumberOrBoolean(text: string)
    requires text != [] && text[0] == '"'
    ensures LP.ParseNumber(text) == Backtrack && LP.ParseBoolean(text) == Backtrack
  {
    assert |text| >= 4 ==> text[..4][0] == '"';
    assert |text| >= 5 ==> text[..5][0] == '"';
  }

  lemma StringAtomSteps(text: string, a: Atom, rest: string)
    requires LP.ParseNumber(text) == Backtrack && LP.ParseBoolean(text) == Backtrack
    requires LP.ParseString(text) == Done(a, rest)
    ensures LP.ParseAtom(text) == Done(a, rest)
  {
  }

  lemma NumberAtomSteps(text: string, a: Atom, rest: string)
    requires LP.ParseNumber(text) == Done(a, rest)
    ensures LP.ParseAtom(text) == Done(a, rest)
  {
  }

  /** The atom a statement term compares against reads back in the older grammar. */
  lemma AtomParse(e: RA.Expression, rest: string)
    requires RPP.Printable(e) && PlainString(e) && (rest == [] || rest[0] == ' ')
    ensures LP.ParseAtom(e.atom.Display() + rest) == Done(Legacy(e).atom, rest)
  {
    match e.atom
    case Number(n) =>
      NumberParse(n, rest);
      NumberAtomSteps(DecimalText(n) + rest, Number(n), rest);
    case String(s) =>
      var text := DebugQuoted(s) + rest;
      QuoteNotNumberOrBoolean(text);
      PlainStringParse(s, rest);
      StringAtomSteps(text, String(s), rest);
  }

  lemma StatementSteps(s: string, e: Expression, r1: string, r2: string, r4: string)
    requires e.Statement?
    requires RP.ParseField(s) == Done(e.field, r1)
    requires RP.ParseOperator(Multispace0(r1)) == Done(e.operator, r2)
    requires LP.ParseAtom(Multispace0(r2)) == Done(e.atom, r4)
    ensures LP.ParseStatement(s) == Done(e, Multispace0(r4))
  {
  }

  /** The field and the operator of a statement written without spaces. */
  lemma FieldAndOperator(e: RA.Expression, r2: string)
    requires RPP.Printable(e) && r2 != [] && !IsMultispace(r2[0])
    ensures RP.ParseField(e.field + (e.operator.Display() + r2)) == Done(e.field, e.operator.Display() + r2)
    ensures RP.ParseOperator(Multispace0(e.operator.Display() + r2)) == Done(e.operator, r2)
  {
    var r1 := e.operator.Display() + r2;
    assert "" + r1 == r1 && "" + r2 == r2;
    RPP.OperatorEndsField(e.operator, "", r2);
    RPP.FieldThen(e.field, r1);
    RPP.OperatorSpaced(e.operator, "", r2);
  }

  lemma AtomUnspaced(e: RA.Expression, rest: string)
    requires RPP.Printable(e) && PlainString(e) && (rest == [] || rest[0] == ' ')
    ensures e.atom.Display() + rest != [] && !IsMultispace((e.atom.Display() + rest)[0])
    ensures LP.ParseAtom(Multispace0(e.atom.Display() + rest)) == Done(Legacy(e).atom, rest)
  {
    var r2 := e.atom.Display() + rest;
    assert r2[0] == e.atom.Display()[0];
    RPP.NoSpaceToSkip(r2);
    AtomParse(e, rest);
  }

  /** A statement written without spaces, followed by nothing or a space. */
  lemma StatementCompact(e: RA.Expression, rest: string)
    requires RPP.Printable(e) && PlainString(e) && (rest == [] || rest[0] == ' ')
    ensures LP.ParseStatement(e.field + (e.operator.Display() + (e.atom.Display() + rest))) == Done(Legacy(e), Multispace0(rest))
  {
    var r2 := e.atom.Display() + rest;
    AtomUnspaced(e, rest);
    FieldAndOperator(e, r2);
    StatementSteps(e.field + (e.operator.Display() + r2), Legacy(e), e.operator.Display() + r2, r2, rest);
  }

  lemma StatementParse(e: RA.Expression, rest: string)
    requires RPP.Printable(e) && PlainString(e) && (rest == [] || rest[0] == ' ')
    ensures LP.ParseExpression(RCT.TermText(e) + rest) == Done(Legacy(e), Multispace0(rest))
  {
    assert RCT.TermText(e) + rest == e.field + (e.operator.Display() + (e.atom.Display() + rest));
    StatementCompact(e, rest);
  }

  lemma BooleanTag(e: RA.Expression, rest: string)
    requires e.Boolean?
    ensures LP.ParseBoolean(RCT.TermText(e) + rest) == Done(Boolean(e.b), rest)
  {
    var w := RCT.TermText(e);
    var s := w + rest;
    assert s[..|w|] == w && s[|w|..] == rest;
    if !e.b {
      assert s[0] == 'f';
      assert |s| >= 4 ==> s[..4][0] == 'f';
    }
  }

  lemma NoOperatorNoStatement(s: string)
    requires !RP.ParseOperator(Multispace0(RP.ParseField(s).rest)).Done?
    ensures LP.ParseStatement(s) == Backtrack
  {
  }

  /** A word of field characters and no operator after it is no statement. */
  lemma WordNotStatement(w: string, rest: string)
    requires forall i | 0 <= i < |w| :: RP.IsFieldChar(w[i])
    requires RCT.EndsTerm(rest)
    ensures LP.ParseStatement(w + rest) == Backtrack
  {
    RPP.FieldThen(w, rest);
    NoOperatorNoStatement(w + rest);
  }

  lemma ConstantSteps(s: string, b: bool, rest: string)
    requires LP.ParseStatement(s) == Backtrack && LP.ParseBoolean(s) == Done(Boolean(b), rest)
    ensures LP.ParseExpression(s) == Done(Constant(Boolean(b)), rest)
  {
  }

  lemma BooleanNotStatement(e: RA.Expression, rest: string)
    requires e.Boolean? && RCT.EndsTerm(rest)
    ensures LP.ParseStatement(RCT.TermText(e) + rest) == Backtrack
  {
    RCT.BooleanWordIsField(e);
    WordNotStatement(RCT.TermText(e), rest);
  }

  /** `true` or `false` before the end of a term is the boolean constant, not a field. */
  lemma BooleanParse(e: RA.Expression, rest: string)
    requires e.Boolean? && RCT.EndsTerm(rest)
    ensures LP.ParseExpression(RCT.TermText(e) + rest) == Done(Legacy(e), rest)
  {
    BooleanNotStatement(e, rest);
    BooleanTag(e, rest);
    ConstantSteps(RCT.TermText(e) + rest, e.b, rest);
  }

  /** A term reads back as its older expression; what is left is the rest, up to white space. */
  lemma TermParse(e: RA.Expression, rest: string) returns (r: string)
    requires RCT.Term(e) && PlainString(e) && RCT.EndsTerm(rest)
    ensures LP.ParseExpression(RCT.TermText(e) + rest) == Done(Legacy(e), r)
    ensures Multispace0(r) == Multispace0(rest)
  {
    if e.Boolean? {
      BooleanParse(e, rest);
      r := rest;
    } else {
      StatementParse(e, rest);
      RCT.MultispaceTwice(rest);
      r := Multispace0(rest);
    }
  }

  // ---------------------------------------------------------- the AND fold

  lemma AndJoint(j: RCT.Joint<RA.Expression>, w: string, t: string, acc: AndClause, r: string)
    requires acc.Wf() && acc.Settled() && RCT.Spelled(j, "AND")
    requires w != [] && !IsMultispace(w[0])
    requires LP.ParseExpression(w + t) == Done(Legacy(j.item), r)
    ensures acc.Add(Legacy(j.item)).Wf() && acc.Add(Legacy(j.item)).Settled()
    ensures LP.AndFold(Multispace0(j.before + (j.word + (j.after + (w + t)))), acc) ==
      LP.AndFold(Multispace0(r), acc.Add(Legacy(j.item)))
  {
    RCT.JointText(j, "AND", w, t);
    AndAddKeepsWf(acc, Legacy(j.item));
  }

  lemma AndFoldStep(js: seq<RCT.Joint<RA.Expression>>, acc: AndClause, rest: string)
    requires acc.Wf() && acc.Settled()
    requires js != [] && RCT.AndJointOk(js[0]) && PlainString(js[0].item)
    requires RCT.EndsTerm(RCT.AndTail(js[1..]) + rest)
    ensures acc.Add(Legacy(js[0].item)).Wf() && acc.Add(Legacy(js[0].item)).Settled()
    ensures LP.AndFold(Multispace0(RCT.AndTail(js) + rest), acc) ==
      LP.AndFold(Multispace0(RCT.AndTail(js[1..]) + rest), acc.Add(Legacy(js[0].item)))
  {
    var T := RCT.AndTail(js[1..]) + rest;
    RCT.AndTailHead(js, rest);
    RCT.TermStart(js[0].item);
    var r := TermParse(js[0].item, T);
    AndJoint(js[0], RCT.TermText(js[0].item), T, acc, r);
  }

  /** The older AND fold over written joints builds the older `add` chain. */
  lemma {:induction false} AndFoldText(js: seq<RCT.Joint<RA.Expression>>, acc: AndClause, rest: string)
    requires acc.Wf() && acc.Settled()
    requires RCT.AndJoints(js) && PlainJoints(js)
    requires RCT.EndsConjunction(rest)
    ensures LP.AndFold(Multispace0(RCT.AndTail(js) + rest), acc) == Done(AndChain(acc, js), Multispace0(rest))
    decreases |js|
  {
    if js == [] {
      assert RCT.AndTail(js) + rest == rest;
    } else {
      RCT.AndJointsTail(js);
      PlainJointsTail(js);
      if js[1..] != [] {
        RCT.AndJointsTail(js[1..]);
        RCT.AndTailEnds(js[1..], rest);
      } else {
        assert RCT.AndTail(js[1..]) + rest == rest;
      }
      AndFoldStep(js, acc, rest);
      AndFoldText(js[1..], acc.Add(Legacy(js[0].item)), rest);
    }
  }

  /** A written conjunction parses, in the older grammar, to the older `add` chain of its terms. */
  lemma ConjunctionParse(c: RCT.Conjunction, rest: string)
    requires RCT.ConjunctionOk(c) && PlainConjunction(c) && RCT.EndsConjunction(rest)
    ensures LP.ParseAndClause(RCT.ConjunctionText(c) + rest) == Done(ConjunctionValue(c), Multispace0(rest))
  {
    var T := RCT.AndTail(c.joints) + rest;
    RCT.Regroup(RCT.TermText(c.first), RCT.AndTail(c.joints), rest);
    RCT.AndTailEndsTerm(c.joints, rest);
    var r := TermParse(c.first, T);
    AndAddKeepsWf(EmptyAnd, Legacy(c.first));
    AndFoldText(c.joints, NewAnd(Legacy(c.first)), rest);
  }

  // ---------------------------------------------------------- the OR fold

  lemma OrJoint(j: RCT.Joint<RCT.Conjunction>, w: string, t: string, acc: OrClause, c: AndClause, r: string)
    requires acc.Wf() && RCT.Spelled(j, "OR")
    requires w + t != [] && !IsMultispace((w + t)[0])
    requires LP.ParseAndClause(w + t) == Done(c, r)
    ensures acc.Add(c).Wf()
    ensures LP.OrFold(Multispace0(j.before + (j.word + (j.after + (w + t)))), acc) == LP.OrFold(r, acc.Add(c))
  {
    RCT.JointSkip(j, "OR", j.after + (w + t));
    RCT.JointKeyword(j, "OR", w + t);
    OrAddKeepsWf(acc, c);
  }

  lemma OrFoldStep(js: seq<RCT.Joint<RCT.Conjunction>>, acc: OrClause, rest: string)
    requires acc.Wf()
    requires js != [] && RCT.OrJointOk(js[0]) && PlainConjunction(js[0].item)
    requires RCT.EndsConjunction(RCT.OrTail(js[1..]) + rest)
    ensures acc.Add(ConjunctionValue(js[0].item)).Wf()
    ensures LP.OrFold(Multispace0(RCT.OrTail(js) + rest), acc) ==
      LP.OrFold(Multispace0(RCT.OrTail(js[1..]) + rest), acc.Add(ConjunctionValue(js[0].item)))
  {
    var T := RCT.OrTail(js[1..]) + rest;
    RCT.OrTailHead(js, rest);
    RCT.ConjunctionStart(js[0].item, T);
    ConjunctionParse(js[0].item, T);
    OrJoint(js[0], RCT.ConjunctionText(js[0].item), T, acc, ConjunctionValue(js[0].item), Multispace0(T));
  }

  /** The older OR fold over written joints builds the older `add` chain of the conjunctions. */
  lemma {:induction false} OrFoldText(js: seq<RCT.Joint<RCT.Conjunction>>, acc: OrClause, rest: string)
    requires acc.Wf()
    requires RCT.OrJoints(js) && PlainOrJoints(js)
    requires RCT.EndsDisjunction(rest)
    ensures LP.OrFold(Multispace0(RCT.OrTail(js) + rest), acc) == Done(OrChain(acc, js), Multispace0(rest))
    decreases |js|
  {
    if js == [] {
      assert RCT.OrTail(js) + rest == rest;
    } else {
      RCT.OrJointsTail(js);
      PlainOrJointsTail(js);
      if js[1..] != [] {
        RCT.OrJointsTail(js[1..]);
        RCT.OrTailEnds(js[1..], rest);
      } else {
        assert RCT.OrTail(js[1..]) + rest == rest;
      }
      OrFoldStep(js, acc, rest);
      OrFoldText(js[1..], acc.Add(ConjunctionValue(js[0].item)), rest);
    }
  }

  /** A written disjunction parses, in the older grammar, to the older `add`
      chain of its conjunctions: AND binds tighter than OR here too. */
  lemma DisjunctionParse(d: RCT.Disjunction, rest: string)
    requires RCT.DisjunctionOk(d) && PlainDisjunction(d) && RCT.EndsDisjunction(rest)
    ensures LP.ParseOrClause(RCT.DisjunctionText(d) + rest) == Done(DisjunctionValue(d), Multispace0(rest))
  {
    var T := RCT.OrTail(d.joints) + rest;
    RCT.Regroup(RCT.ConjunctionText(d.first), RCT.OrTail(d.joints), rest);
    RCT.OrTailEndsConjunction(d.joints, rest);
    ConjunctionParse(d.first, T);
    OrAddKeepsWf(EmptyOr, ConjunctionValue(d.first));
    OrFoldText(d.joints, NewOr(ConjunctionValue(d.first)), rest);
  }

  // ---------------------------------------------------------- whole rules

  lemma ConditionsText(d: RCT.Disjunction)
    requires RCT.DisjunctionOk(d) && PlainDisjunction(d)
    ensures LP.Conditions(" " + RCT.DisjunctionText(d)) == Done(DisjunctionValue(d), [])
  {
    var t := RCT.DisjunctionText(d);
    RCT.ConjunctionStart(d.first, RCT.OrTail(d.joints));
    RCT.SkipGap(" ", t);
    RCT.SpacesEnd([]);
    assert t + [] == t;
    DisjunctionParse(d, []);
    ConditionsUnfold(" " + t, DisjunctionValue(d), Multispace0([]));
  }

  lemma ConditionsUnfold(s: string, c: OrClause, r: string)
    requires LP.ParseOrClause(Multispace0(s)) == Done(c, r) && Multispace0(r) == []
    ensures LP.Conditions(s) == Done(c, [])
  {
  }

  lemma RuleHeader(opWord: string, op: Operation, table: string, whenWord: string, body: string)
    requires |opWord| == 6 && LowerText(opWord) == LowerText(op.Display())
    requires table != [] && forall i | 0 <= i < |table| :: RP.IsTableChar(table[i])
    requires |whenWord| == 4 && LowerText(whenWord) == "when"
    ensures LP.ParseRule(opWord + " " + table + " " + whenWord + body) ==
      match LP.Conditions(body)
      case Done(c, _) => Done(LP.Rule(op, table, c), [])
      case Backtrack => Backtrack
      case Fatal => Fatal
  {
    var afterOp := " " + table + " " + whenWord + body;
    assert opWord + " " + table + " " + whenWord + body == opWord + afterOp;
    RPP.OperationAnyCase(opWord, op, afterOp);
    RPP.TableAndWhen(table, whenWord, body);
  }

  /** A rule with a well-spelled header and written conditions compiles, in
      the older grammar, to its operation, its table and the older value of
      its conditions. */
  lemma CompileText(opWord: string, op: Operation, table: string, whenWord: string, d: RCT.Disjunction)
    requires |opWord| == 6 && LowerText(opWord) == LowerText(op.Display())
    requires table != [] && forall i | 0 <= i < |table| :: RP.IsTableChar(table[i])
    requires |whenWord| == 4 && LowerText(whenWord) == "when"
    requires RCT.DisjunctionOk(d) && PlainDisjunction(d)
    ensures LP.Compile(opWord + " " + table + " " + whenWord + " " + RCT.DisjunctionText(d)) ==
      Ok(LP.Rule(op, table, DisjunctionValue(d)))
  {
    var body := " " + RCT.DisjunctionText(d);
    assert opWord + " " + table + " " + whenWord + " " + RCT.DisjunctionText(d) == opWord + " " + table + " " + whenWord + body;
    ConditionsText(d);
    RuleHeader(opWord, op, table, whenWord, body);
  }

  /** On such a rule the two compilers agree: both accept it, the older
      clause lifts to the rule compiler's, and both print the same text. */
  lemma CompileAgrees(opWord: string, op: Operation, table: string, whenWord: string, d: RCT.Disjunction)
    requires |opWord| == 6 && LowerText(opWord) == LowerText(op.Display())
    requires table != [] && forall i | 0 <= i < |table| :: RP.IsTableChar(table[i])
    requires |whenWord| == 4 && LowerText(whenWord) == "when"
    requires RCT.DisjunctionOk(d) && PlainDisjunction(d)
    ensures var text := opWord + " " + table + " " + whenWord + " " + RCT.DisjunctionText(d);
      LP.Compile(text).Ok? && RP.Compile(text).Ok? &&
      OrLiftable(LP.Compile(text).value.clause) &&
      LiftOr(LP.Compile(text).value.clause) == RP.Compile(text).value.clause &&
      LP.Compile(text).value.Display() == RP.Compile(text).value.Display()
  {
    CompileText(opWord, op, table, whenWord, d);
    RCT.CompileText(opWord, op, table, whenWord, d);
    DisjunctionLifts(d);
    OrDisplayAgrees(DisjunctionValue(d));
  }
}
