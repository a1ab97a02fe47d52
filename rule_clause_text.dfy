/** The text of a rule's conditions as its authors write it
    (rule-compiler/src/lib.rs:336-379 and 497-525): terms joined by `AND`, and
    conjunctions joined by `OR`, each keyword in any letter case with one or
    more spaces around it. A term is `true`, `false` or a statement written
    without spaces around its operator (`x==1`, `a=="b"`).

    The lemmas here read such a text with the parser and show that the AND
    fold and the OR fold build exactly the chain of `add` calls over the
    terms in the order they are written, so that the simplifier runs while
    parsing and AND binds tighter than OR. */
module RuleClauseText {
  import opened Wrappers
  import opened Text
  import opened Combinators
  import opened RuleAst
  import opened RuleSimplifier
  import opened RuleParser
  import opened RuleParserProperties

  /** A keyword between two items: the spaces before it, its spelling, the
      spaces after it, and the item it introduces. */
  datatype Joint<T> = Joint(before: string, word: string, after: string, item: T)

  /** A first item followed by the items joined to it. */
  datatype Chain<T> = Chain(first: T, joints: seq<Joint<T>>)

  type Conjunction = Chain<Expression>
  type Disjunction = Chain<Conjunction>

  predicate Gap(g: string) { g != [] && forall i | 0 <= i < |g| :: g[i] == ' ' }

  /** The keyword `kw` in some letter case between two gaps. */
  predicate Spelled<T>(j: Joint<T>, kw: string)
  {
    Gap(j.before) && Gap(j.after) && |j.word| == |kw| && LowerText(j.word) == LowerText(kw)
  }

  /** The terms this text form covers: a boolean, or a statement the parser reads back. */
  predicate Term(e: Expression) { e.Boolean? || Printable(e) }

  predicate AndJointOk(j: Joint<Expression>) { Spelled(j, "AND") && Term(j.item) }

  predicate AndJoints(js: seq<Joint<Expression>>) { forall i | 0 <= i < |js| :: AndJointOk(js[i]) }

  predicate ConjunctionOk(c: Conjunction) { Term(c.first) && AndJoints(c.joints) }

  predicate OrJointOk(j: Joint<Conjunction>) { Spelled(j, "OR") && ConjunctionOk(j.item) }

  predicate OrJoints(js: seq<Joint<Conjunction>>) { forall i | 0 <= i < |js| :: OrJointOk(js[i]) }

  predicate DisjunctionOk(d: Disjunction) { ConjunctionOk(d.first) && OrJoints(d.joints) }

  lemma AndJointsTail(js: seq<Joint<Expression>>)
    requires js != [] && AndJoints(js)
    ensures AndJointOk(js[0]) && AndJoints(js[1..])
  {
    assert forall i | 0 <= i < |js[1..]| :: js[1..][i] == js[i + 1];
  }

  lemma OrJointsTail(js: seq<Joint<Conjunction>>)
    requires js != [] && OrJoints(js)
    ensures OrJointOk(js[0]) && OrJoints(js[1..])
  {
    assert forall i | 0 <= i < |js[1..]| :: js[1..][i] == js[i + 1];
  }

  function TermText(e: Expression): string
  {
    match e
    case Boolean(b) => if b then "true" else "false"
    case Statement(f, op, a) => f + (op.Display() + a.Display())
  }

  function AndTail(js: seq<Joint<Expression>>): string
  {
    if js == [] then []
    else js[0].before + (js[0].word + (js[0].after + (TermText(js[0].item) + AndTail(js[1..]))))
  }

  function ConjunctionText(c: Conjunction): string
  {
    TermText(c.first) + AndTail(c.joints)
  }

  function OrTail(js: seq<Joint<Conjunction>>): string
  {
    if js == [] then []
    else js[0].before + (js[0].word + (js[0].after + (ConjunctionText(js[0].item) + OrTail(js[1..]))))
  }

  function DisjunctionText(d: Disjunction): string
  {
    ConjunctionText(d.first) + OrTail(d.joints)
  }

  /** The clause the `add` calls build, one term after the other. */
  function AndChain(acc: AndClause, js: seq<Joint<Expression>>): AndClause
    decreases |js|
  {
    if js == [] then acc else AndChain(acc.Add(js[0].item), js[1..])
  }

  function ConjunctionValue(c: Conjunction): AndClause
  {
    AndChain(NewAnd(c.first), c.joints)
  }

  function OrChain(acc: OrClause, js: seq<Joint<Conjunction>>): OrClause
    decreases |js|
  {
    if js == [] then acc else OrChain(acc.Add(ConjunctionValue(js[0].item)), js[1..])
  }

  function DisjunctionValue(d: Disjunction): OrClause
  {
    OrChain(NewOr(ConjunctionValue(d.first)), d.joints)
  }

  /** What may follow a term: nothing, or a space, and then no operator. */
  predicate EndsTerm(rest: string)
  {
    (rest == [] || rest[0] == ' ') && !ParseOperator(Multispace0(rest)).Done?
  }

  /** What may follow a conjunction: the end of a term that is not an `AND`. */
  predicate EndsConjunction(rest: string)
  {
    EndsTerm(rest) && !TagNoCase(Multispace0(rest), "AND").Done?
  }

  /** What may follow a disjunction: the end of a conjunction that is not an `OR`. */
  predicate EndsDisjunction(rest: string)
  {
    EndsConjunction(rest) && !TagNoCase(Multispace0(rest), "OR").Done?
  }

  lemma Regroup(a: string, b: string, c: string)
    ensures (a + b) + c == a + (b + c)
  {
  }

  lemma {:induction false} SkipGap(g: string, s: string)
    requires forall i | 0 <= i < |g| :: g[i] == ' '
    requires s == [] || !IsMultispace(s[0])
    ensures Multispace0(g + s) == s
    decreases |g|
  {
    if g == [] {
      assert g + s == s;
      NoSpaceToSkip(s);
    } else {
      assert (g + s)[0] == ' ';
      assert (g + s)[1..] == g[1..] + s;
      SkipGap(g[1..], s);
    }
  }

  lemma MultispaceTwice(s: string)
    ensures Multispace0(Multispace0(s)) == Multispace0(s)
  {
    NoSpaceToSkip(Multispace0(s));
  }

  /** A keyword starts with a letter, so it is neither white space nor an operator. */
  lemma WordStart(word: string, kw: string)
    requires |word| == |kw| > 0 && LowerText(word) == LowerText(kw) && 'a' <= Lower(kw[0]) <= 'z'
    ensures Lower(word[0]) == Lower(kw[0]) && IsAsciiAlpha(word[0])
  {
    assert LowerText(word)[0] == Lower(word[0]);
    assert LowerText(kw)[0] == Lower(kw[0]);
  }

  /** No operator starts with a letter. */
  lemma LetterNoOperator(s: string)
    requires s != [] && IsAsciiAlpha(s[0])
    ensures !ParseOperator(s).Done?
  {
    if 2 <= |s| {
      assert s[..2][0] == s[0];
    }
  }

  lemma TermStart(e: Expression)
    requires Term(e)
    ensures TermText(e) != [] && (IsFieldChar(TermText(e)[0]) || IsAsciiAlpha(TermText(e)[0]))
    ensures !IsMultispace(TermText(e)[0])
  {
    match e
    case Boolean(b) =>
    case Statement(f, op, a) =>
      assert TermText(e)[0] == f[0];
  }

  /** Without an operator after the field there is no statement. */
  lemma NoOperatorNoStatement(s: string)
    requires !ParseOperator(Multispace0(ParseField(s).rest)).Done?
    ensures ParseStatement(s) == Backtrack
  {
  }

  lemma BooleanTag(e: Expression, rest: string)
    requires e.Boolean?
    ensures ParseBoolean(TermText(e) + rest) == Done(e, rest)
  {
    var w := TermText(e);
    var s := w + rest;
    assert s[..|w|] == w && s[|w|..] == rest;
    if !e.b {
      assert s[0] == 'f';
      assert |s| >= 4 ==> s[..4][0] == 'f';
    }
  }

  lemma BooleanWordIsField(e: Expression)
    requires e.Boolean?
    ensures forall i | 0 <= i < |TermText(e)| :: IsFieldChar(TermText(e)[i])
  {
    if e.b {
      var w := "true";
      assert w[0] == 't' && w[1] == 'r' && w[2] == 'u' && w[3] == 'e';
    } else {
      var w := "false";
      assert w[0] == 'f' && w[1] == 'a' && w[2] == 'l' && w[3] == 's' && w[4] == 'e';
    }
  }

  /** `true` or `false` before the end of a term is the boolean, not a field. */
  lemma BooleanTermParse(e: Expression, rest: string)
    requires e.Boolean? && EndsTerm(rest)
    ensures ParseExpression(TermText(e) + rest) == Done(e, rest)
  {
    BooleanWordIsField(e);
    WordNotStatement(TermText(e), rest);
    BooleanTag(e, rest);
    BooleanExpression(TermText(e) + rest, e, rest);
  }

  /** A word of field characters and no operator after it is no statement. */
  lemma WordNotStatement(w: string, rest: string)
    requires forall i | 0 <= i < |w| :: IsFieldChar(w[i])
    requires EndsTerm(rest)
    ensures ParseStatement(w + rest) == Backtrack
  {
    FieldThen(w, rest);
    NoOperatorNoStatement(w + rest);
  }

  lemma BooleanExpression(s: string, e: Expression, rest: string)
    requires ParseStatement(s) == Backtrack && ParseBoolean(s) == Done(e, rest)
    ensures ParseExpression(s) == Done(e, rest)
  {
  }

  /** A statement written without spaces, followed by nothing or a space. */
  lemma StatementCompact(e: Expression, rest: string)
    requires Printable(e) && (rest == [] || rest[0] == ' ')
    ensures ParseStatement(e.field + (e.operator.Display() + (e.atom.Display() + rest))) == Done(e, Multispace0(rest))
  {
    var r2 := e.atom.Display() + rest;
    var r1 := e.operator.Display() + r2;
    assert "" + r1 == r1 && "" + r2 == r2;
    OperatorEndsField(e.operator, "", r2);
    FieldThen(e.field, r1);
    OperatorSpaced(e.operator, "", r2);
    AtomSpaced(e.atom, "", rest);
    StatementSteps(e.field + r1, e, r1, r2, rest);
  }

  lemma StatementTermParse(e: Expression, rest: string)
    requires Printable(e) && (rest == [] || rest[0] == ' ')
    ensures ParseExpression(TermText(e) + rest) == Done(e, Multispace0(rest))
  {
    assert TermText(e) + rest == e.field + (e.operator.Display() + (e.atom.Display() + rest));
    StatementCompact(e, rest);
  }

  /** A term reads back as itself; what is left over is the rest, up to white space. */
  lemma TermParse(e: Expression, rest: string) returns (r: string)
    requires Term(e) && EndsTerm(rest)
    ensures ParseExpression(TermText(e) + rest) == Done(e, r)
    ensures Multispace0(r) == Multispace0(rest)
  {
    if e.Boolean? {
      BooleanTermParse(e, rest);
      r := rest;
    } else {
      StatementTermParse(e, rest);
      MultispaceTwice(rest);
      r := Multispace0(rest);
    }
  }

  /** A keyword begins after the gap in front of it. */
  lemma JointSkip<T>(j: Joint<T>, kw: string, tail: string)
    requires Spelled(j, kw) && |kw| > 0 && 'a' <= Lower(kw[0]) <= 'z'
    ensures Multispace0(j.before + (j.word + tail)) == j.word + tail
    ensures (j.before + (j.word + tail))[0] == ' '
    ensures IsAsciiAlpha((j.word + tail)[0]) && Lower((j.word + tail)[0]) == Lower(kw[0])
  {
    WordStart(j.word, kw);
    assert (j.word + tail)[0] == j.word[0];
    SkipGap(j.before, j.word + tail);
  }

  /** The keyword, the gap after it and what follows it. */
  lemma JointKeyword<T>(j: Joint<T>, kw: string, body: string)
    requires Spelled(j, kw)
    requires body != [] && !IsMultispace(body[0])
    ensures TagNoCase(j.word + (j.after + body), kw) == Done((), j.after + body)
    ensures Multispace0(j.after + body) == body
  {
    TagNoCaseAccepts(j.word, kw, j.after + body);
    SkipGap(j.after, body);
  }

  /** Joined text starts with a space and, after it, with the keyword's letter. */
  lemma AndTailStart(js: seq<Joint<Expression>>, rest: string)
    requires js != [] && AndJointOk(js[0])
    ensures (AndTail(js) + rest)[0] == ' '
    ensures var m := Multispace0(AndTail(js) + rest); m != [] && IsAsciiAlpha(m[0]) && Lower(m[0]) == 'a'
  {
    var j := js[0];
    var tail := j.after + (TermText(j.item) + AndTail(js[1..])) + rest;
    assert AndTail(js) + rest == j.before + (j.word + tail);
    JointSkip(j, "AND", tail);
  }

  lemma AndTailEnds(js: seq<Joint<Expression>>, rest: string)
    requires js != [] && AndJointOk(js[0])
    ensures EndsTerm(AndTail(js) + rest)
  {
    AndTailStart(js, rest);
    LetterNoOperator(Multispace0(AndTail(js) + rest));
  }

  lemma OrTailStart(js: seq<Joint<Conjunction>>, rest: string)
    requires js != [] && OrJointOk(js[0])
    ensures (OrTail(js) + rest)[0] == ' '
    ensures var m := Multispace0(OrTail(js) + rest); m != [] && IsAsciiAlpha(m[0]) && Lower(m[0]) == 'o'
  {
    var j := js[0];
    var tail := j.after + (ConjunctionText(j.item) + OrTail(js[1..])) + rest;
    assert OrTail(js) + rest == j.before + (j.word + tail);
    JointSkip(j, "OR", tail);
  }

  /** Before an `OR`, a conjunction has ended. */
  lemma OrTailEnds(js: seq<Joint<Conjunction>>, rest: string)
    requires js != [] && OrJointOk(js[0])
    ensures EndsConjunction(OrTail(js) + rest)
  {
    OrTailStart(js, rest);
    var m := Multispace0(OrTail(js) + rest);
    LetterNoOperator(m);
    assert Lower(m[0]) != Lower("AND"[0]);
  }

  /** A keyword with its gaps, then the text `item` it introduces. */
  lemma JointText<T>(j: Joint<T>, kw: string, item: string, tail: string)
    requires Spelled(j, kw) && |kw| > 0 && 'a' <= Lower(kw[0]) <= 'z'
    requires item != [] && !IsMultispace(item[0])
    ensures TagNoCase(Multispace0(j.before + (j.word + (j.after + (item + tail)))), kw) ==
      Done((), j.after + (item + tail))
    ensures Multispace0(j.after + (item + tail)) == item + tail
  {
    assert (item + tail)[0] == item[0];
    JointSkip(j, kw, j.after + (item + tail));
    JointKeyword(j, kw, item + tail);
  }

  lemma AndTailHead(js: seq<Joint<Expression>>, rest: string)
    requires js != []
    ensures AndTail(js) + rest ==
      js[0].before + (js[0].word + (js[0].after + (TermText(js[0].item) + (AndTail(js[1..]) + rest))))
  {
  }

  /** `AndFold` after one `AND` and one expression. */
  lemma AndFoldUnfold(s: string, acc: AndClause, r1: string, e: Expression, r3: string)
    requires acc.Wf() && acc.Settled()
    requires TagNoCase(s, "AND") == Done((), r1)
    requires ParseExpression(Multispace0(r1)) == Done(e, r3)
    ensures acc.Add(e).Wf() && acc.Add(e).Settled()
    ensures AndFold(s, acc) == AndFold(Multispace0(r3), acc.Add(e))
  {
    AndAddKeepsWf(acc, e);
  }

  /** An `AND` with its gaps before the text `w` of an expression. */
  lemma AndJoint(j: Joint<Expression>, w: string, t: string, acc: AndClause, r: string)
    requires acc.Wf() && acc.Settled() && Spelled(j, "AND")
    requires w != [] && !IsMultispace(w[0])
    requires ParseExpression(w + t) == Done(j.item, r)
    ensures acc.Add(j.item).Wf() && acc.Add(j.item).Settled()
    ensures AndFold(Multispace0(j.before + (j.word + (j.after + (w + t)))), acc) ==
      AndFold(Multispace0(r), acc.Add(j.item))
  {
    JointText(j, "AND", w, t);
    AndFoldUnfold(Multispace0(j.before + (j.word + (j.after + (w + t)))), acc, j.after + (w + t), j.item, r);
  }

  /** One `AND` and its term, then the rest of the fold. */
  lemma AndFoldStep(js: seq<Joint<Expression>>, acc: AndClause, rest: string)
    requires acc.Wf() && acc.Settled()
    requires js != [] && AndJointOk(js[0])
    requires EndsTerm(AndTail(js[1..]) + rest)
    ensures acc.Add(js[0].item).Wf() && acc.Add(js[0].item).Settled()
    ensures AndFold(Multispace0(AndTail(js) + rest), acc) ==
      AndFold(Multispace0(AndTail(js[1..]) + rest), acc.Add(js[0].item))
  {
    var T := AndTail(js[1..]) + rest;
    AndTailHead(js, rest);
    TermStart(js[0].item);
    var r := TermParse(js[0].item, T);
    AndJoint(js[0], TermText(js[0].item), T, acc, r);
  }

  /** The AND fold over written joints builds the `add` chain. */
  lemma {:induction false} AndFoldText(js: seq<Joint<Expression>>, acc: AndClause, rest: string)
    requires acc.Wf() && acc.Settled()
    requires AndJoints(js)
    requires EndsConjunction(rest)
    ensures AndFold(Multispace0(AndTail(js) + rest), acc) == Done(AndChain(acc, js), Multispace0(rest))
    decreases |js|
  {
    if js == [] {
      assert AndTail(js) + rest == rest;
    } else {
      AndJointsTail(js);
      if js[1..] != [] {
        AndJointsTail(js[1..]);
        AndTailEnds(js[1..], rest);
      } else {
        assert AndTail(js[1..]) + rest == rest;
      }
      AndFoldStep(js, acc, rest);
      AndFoldText(js[1..], acc.Add(js[0].item), rest);
    }
  }

  /** What follows a term inside a conjunction ends that term. */
  lemma AndTailEndsTerm(js: seq<Joint<Expression>>, rest: string)
    requires AndJoints(js) && EndsConjunction(rest)
    ensures EndsTerm(AndTail(js) + rest)
  {
    if js != [] {
      AndJointsTail(js);
      AndTailEnds(js, rest);
    } else {
      assert AndTail(js) + rest == rest;
    }
  }

  /** `ParseAndClause` after its first expression. */
  lemma AndClauseUnfold(s: string, e: Expression, r: string)
    requires ParseExpression(s) == Done(e, r)
    ensures NewAnd(e).Wf() && NewAnd(e).Settled()
    ensures ParseAndClause(s) == AndFold(Multispace0(r), NewAnd(e))
  {
    NewAndWf(e);
  }

  /** A written conjunction parses to the `add` chain of its terms. */
  lemma ConjunctionParse(c: Conjunction, rest: string)
    requires ConjunctionOk(c) && EndsConjunction(rest)
    ensures ParseAndClause(ConjunctionText(c) + rest) == Done(ConjunctionValue(c), Multispace0(rest))
  {
    var T := AndTail(c.joints) + rest;
    Regroup(TermText(c.first), AndTail(c.joints), rest);
    AndTailEndsTerm(c.joints, rest);
    var r := TermParse(c.first, T);
    AndClauseUnfold(TermText(c.first) + T, c.first, r);
    AndFoldText(c.joints, NewAnd(c.first), rest);
  }

  lemma ConjunctionStart(c: Conjunction, tail: string)
    requires ConjunctionOk(c)
    ensures (ConjunctionText(c) + tail) != [] && !IsMultispace((ConjunctionText(c) + tail)[0])
  {
    TermStart(c.first);
    assert (ConjunctionText(c) + tail)[0] == TermText(c.first)[0];
  }

  lemma OrTailHead(js: seq<Joint<Conjunction>>, rest: string)
    requires js != []
    ensures OrTail(js) + rest ==
      js[0].before + (js[0].word + (js[0].after + (ConjunctionText(js[0].item) + (OrTail(js[1..]) + rest))))
  {
  }

  /** `OrFold` after one `OR` and one conjunction. */
  lemma OrFoldUnfold(s: string, acc: OrClause, r1: string, c: AndClause, r3: string)
    requires acc.Wf()
    requires TagNoCase(s, "OR") == Done((), r1)
    requires ParseAndClause(Multispace0(r1)) == Done(c, r3)
    ensures acc.Add(c).Wf()
    ensures OrFold(s, acc) == OrFold(r3, acc.Add(c))
  {
    OrAddKeepsWf(acc, c);
  }

  /** An `OR` with its gaps before the text `w` of a conjunction. */
  lemma OrJoint(j: Joint<Conjunction>, w: string, t: string, acc: OrClause, c: AndClause, r: string)
    requires acc.Wf() && Spelled(j, "OR")
    requires w + t != [] && !IsMultispace((w + t)[0])
    requires ParseAndClause(w + t) == Done(c, r)
    ensures acc.Add(c).Wf()
    ensures OrFold(Multispace0(j.before + (j.word + (j.after + (w + t)))), acc) == OrFold(r, acc.Add(c))
  {
    JointSkip(j, "OR", j.after + (w + t));
    JointKeyword(j, "OR", w + t);
    OrFoldUnfold(Multispace0(j.before + (j.word + (j.after + (w + t)))), acc, j.after + (w + t), c, r);
  }

  /** One `OR` and its conjunction, then the rest of the fold. */
  lemma OrFoldStep(js: seq<Joint<Conjunction>>, acc: OrClause, rest: string)
    requires acc.Wf()
    requires js != [] && OrJointOk(js[0])
    requires EndsConjunction(OrTail(js[1..]) + rest)
    ensures acc.Add(ConjunctionValue(js[0].item)).Wf()
    ensures OrFold(Multispace0(OrTail(js) + rest), acc) ==
      OrFold(Multispace0(OrTail(js[1..]) + rest), acc.Add(ConjunctionValue(js[0].item)))
  {
    var T := OrTail(js[1..]) + rest;
    OrTailHead(js, rest);
    ConjunctionStart(js[0].item, T);
    ConjunctionParse(js[0].item, T);
    OrJoint(js[0], ConjunctionText(js[0].item), T, acc, ConjunctionValue(js[0].item), Multispace0(T));
  }

  /** The OR fold over written joints builds the `add` chain of the conjunctions. */
  lemma {:induction false} OrFoldText(js: seq<Joint<Conjunction>>, acc: OrClause, rest: string)
    requires acc.Wf()
    requires OrJoints(js)
    requires EndsDisjunction(rest)
    ensures OrFold(Multispace0(OrTail(js) + rest), acc) == Done(OrChain(acc, js), Multispace0(rest))
    decreases |js|
  {
    if js == [] {
      assert OrTail(js) + rest == rest;
    } else {
      OrJointsTail(js);
      if js[1..] != [] {
        OrJointsTail(js[1..]);
        OrTailEnds(js[1..], rest);
      } else {
        assert OrTail(js[1..]) + rest == rest;
      }
      OrFoldStep(js, acc, rest);
      OrFoldText(js[1..], acc.Add(ConjunctionValue(js[0].item)), rest);
    }
  }

  /** What follows a conjunction inside a disjunction ends that conjunction. */
  lemma OrTailEndsConjunction(js: seq<Joint<Conjunction>>, rest: string)
    requires OrJoints(js) && EndsDisjunction(rest)
    ensures EndsConjunction(OrTail(js) + rest)
  {
    if js != [] {
      OrJointsTail(js);
      OrTailEnds(js, rest);
    } else {
      assert OrTail(js) + rest == rest;
    }
  }

  /** `ParseOrClause` after its first conjunction. */
  lemma OrClauseUnfold(s: string, c: AndClause, r: string)
    requires ParseAndClause(s) == Done(c, r)
    ensures NewOr(c).Wf()
    ensures ParseOrClause(s) == OrFold(r, NewOr(c))
  {
    OrAddKeepsWf(EmptyOr, c);
  }

  /** A written disjunction parses to the `add` chain of its conjunctions:
      AND binds tighter than OR, and each clause is simplified as it is read. */
  lemma DisjunctionParse(d: Disjunction, rest: string)
    requires DisjunctionOk(d) && EndsDisjunction(rest)
    ensures ParseOrClause(DisjunctionText(d) + rest) == Done(DisjunctionValue(d), Multispace0(rest))
  {
    var T := OrTail(d.joints) + rest;
    Regroup(ConjunctionText(d.first), OrTail(d.joints), rest);
    OrTailEndsConjunction(d.joints, rest);
    ConjunctionParse(d.first, T);
    OrClauseUnfold(ConjunctionText(d.first) + T, ConjunctionValue(d.first), Multispace0(T));
    OrFoldText(d.joints, NewOr(ConjunctionValue(d.first)), rest);
  }

  /** Trailing white space ends a disjunction. */
  lemma SpacesEnd(trail: string)
    requires forall i | 0 <= i < |trail| :: trail[i] == ' '
    ensures EndsDisjunction(trail) && Multispace0(trail) == []
  {
    SkipGap(trail, []);
    assert trail + [] == trail;
  }

  /** The conditions after `WHEN`: a gap, the disjunction and trailing spaces. */
  lemma ConditionsText(gap: string, d: Disjunction, trail: string)
    requires Gap(gap) && DisjunctionOk(d)
    requires forall i | 0 <= i < |trail| :: trail[i] == ' '
    ensures Conditions(gap + DisjunctionText(d) + trail) == Done(DisjunctionValue(d), [])
  {
    ConjunctionStart(d.first, OrTail(d.joints) + trail);
    Regroup(gap, DisjunctionText(d), trail);
    Regroup(ConjunctionText(d.first), OrTail(d.joints), trail);
    SkipGap(gap, DisjunctionText(d) + trail);
    SpacesEnd(trail);
    DisjunctionParse(d, trail);
    ConditionsUnfold(gap + DisjunctionText(d) + trail, DisjunctionValue(d), Multispace0(trail));
  }

  lemma ConditionsUnfold(s: string, c: OrClause, r: string)
    requires ParseOrClause(Multispace0(s)) == Done(c, r) && Multispace0(r) == []
    ensures Conditions(s) == Done(c, [])
  {
  }

  /** A rule with a well-spelled header and written conditions compiles to
      the operation, the table and the `add` chain of the conditions. */
  lemma CompileText(opWord: string, op: Operation, table: string, whenWord: string, d: Disjunction)
    requires |opWord| == 6 && LowerText(opWord) == LowerText(op.Display())
    requires table != [] && forall i | 0 <= i < |table| :: IsTableChar(table[i])
    requires |whenWord| == 4 && LowerText(whenWord) == "when"
    requires DisjunctionOk(d)
    ensures Compile(opWord + " " + table + " " + whenWord + " " + DisjunctionText(d)) ==
      Ok(Rule(op, table, DisjunctionValue(d)))
  {
    var body := " " + DisjunctionText(d);
    assert opWord + " " + table + " " + whenWord + " " + DisjunctionText(d) == opWord + " " + table + " " + whenWord + body;
    ConditionsText(" ", d, []);
    assert " " + DisjunctionText(d) + [] == body;
    RuleHeader(opWord, op, table, whenWord, body);
  }

  /** A compiled rule prints its operation in upper case, the table, `WHEN`
      and the printed clause. */
  lemma CompiledRulePrint(opWord: string, op: Operation, table: string, whenWord: string, d: Disjunction)
    requires |opWord| == 6 && LowerText(opWord) == LowerText(op.Display())
    requires table != [] && forall i | 0 <= i < |table| :: IsTableChar(table[i])
    requires |whenWord| == 4 && LowerText(whenWord) == "when"
    requires DisjunctionOk(d)
    ensures Compile(opWord + " " + table + " " + whenWord + " " + DisjunctionText(d)).Ok?
    ensures Compile(opWord + " " + table + " " + whenWord + " " + DisjunctionText(d)).value.Display() ==
      op.Display() + " " + table + " WHEN " + DisjunctionValue(d).Display()
  {
    CompileText(opWord, op, table, whenWord, d);
  }
}
