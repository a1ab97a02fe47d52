/** The `test_compile` cases of the older in-tree compiler
    (src/rules.rs:651-750), stated on the whole rule text through its
    `Compile`, for any casing of the header keywords and any table name.

    The accepted texts are the rule compiler's own test texts, so each of
    those cases follows from the rule compiler's case and
    `LegacyClauseText.CompileAgrees`: on these texts both compilers accept the
    rule and print it alike. The rejected texts are taken through the older
    grammar step by step. */
module LegacyCompileTests {
  import opened Wrappers
  import opened Text
  import opened Combinators
  import opened RuleAst
  import opened RuleClauseText
  import opened RuleClauseWords
  import SE = RuleSimplifierExamples
  import RCE = RuleCompilerExamples
  import RPP = RuleParserProperties
  import CT = RuleCompileTests
  import RP = RuleParser
  import LP = LegacyParser
  import LCT = LegacyClauseText
  import LA = LegacyAst

  // ---------------------------------------------------------- the terms are ones the older grammar reads

  lemma PlainSingle(e: Expression)
    requires LCT.PlainString(e)
    ensures LCT.PlainConjunction(CT.Single(e))
  {
  }

  lemma PlainAndThen(e: Expression, w: string, c: Conjunction)
    requires LCT.PlainString(e) && LCT.PlainConjunction(c)
    ensures LCT.PlainConjunction(CT.AndThen(e, w, c))
  {
    var js := CT.AndThen(e, w, c).joints;
    assert forall i | 1 <= i < |js| :: js[i] == c.joints[i - 1];
  }

  lemma PlainOrSingle(c: Conjunction)
    requires LCT.PlainConjunction(c)
    ensures LCT.PlainDisjunction(CT.Single(c))
  {
  }

  lemma PlainOrAfter(c: Conjunction, w: string, gap: string, d: Disjunction)
    requires LCT.PlainConjunction(c) && LCT.PlainDisjunction(d)
    ensures LCT.PlainDisjunction(CT.OrAfter(c, w, gap, d))
  {
    var js := CT.OrAfter(c, w, gap, d).joints;
    assert forall i | 1 <= i < |js| :: js[i] == d.joints[i - 1];
  }

  lemma PlainTwo(x: Expression, w: string, y: Expression)
    requires LCT.PlainString(x) && LCT.PlainString(y)
    ensures LCT.PlainConjunction(CT.AndThen(x, w, CT.Single(y)))
  {
    PlainSingle(y);
    PlainAndThen(x, w, CT.Single(y));
  }

  lemma PlainThree(x: Expression, w1: string, y: Expression, w2: string, z: Expression)
    requires LCT.PlainString(x) && LCT.PlainString(y) && LCT.PlainString(z)
    ensures LCT.PlainConjunction(CT.Three(x, w1, y, w2, z))
  {
    PlainTwo(y, w2, z);
    PlainAndThen(x, w1, CT.AndThen(y, w2, CT.Single(z)));
  }

  // ---------------------------------------------------------- the older compiler agrees on written rules

  /** A condition of one disjunct. */
  lemma AgreesOne(opWord: string, op: Operation, table: string, whenWord: string, a: Conjunction, words: seq<string>)
    requires RCE.Header(opWord, op, table, whenWord) && ConjunctionOk(a) && SingleLead(a.joints)
    requires LCT.PlainConjunction(a) && words == ConjunctionWords(a)
    ensures LP.Compile(CT.RuleText(opWord, table, whenWord, words)).Ok?
    ensures RP.Compile(CT.RuleText(opWord, table, whenWord, words)).Ok?
    ensures LP.Compile(CT.RuleText(opWord, table, whenWord, words)).value.Display() ==
      RP.Compile(CT.RuleText(opWord, table, whenWord, words)).value.Display()
  {
    CT.SingleOrFacts(a);
    PlainOrSingle(a);
    DisjunctionTextWords(CT.Single(a));
    LCT.CompileAgrees(opWord, op, table, whenWord, CT.Single(a));
  }

  /** Two disjuncts, with `gap` after the keyword `w`. */
  lemma AgreesTwo(opWord: string, op: Operation, table: string, whenWord: string,
                  a: Conjunction, w: string, gap: string, b: Conjunction, words: seq<string>)
    requires RCE.Header(opWord, op, table, whenWord)
    requires ConjunctionOk(a) && SingleLead(a.joints) && ConjunctionOk(b) && SingleLead(b.joints)
    requires LCT.PlainConjunction(a) && LCT.PlainConjunction(b)
    requires (w == "OR" || w == "or") && Gap(gap)
    requires words == ConjunctionWords(a) + ([w] + Blanks(|gap| - 1)) + ConjunctionWords(b)
    ensures LP.Compile(CT.RuleText(opWord, table, whenWord, words)).Ok?
    ensures RP.Compile(CT.RuleText(opWord, table, whenWord, words)).Ok?
    ensures LP.Compile(CT.RuleText(opWord, table, whenWord, words)).value.Display() ==
      RP.Compile(CT.RuleText(opWord, table, whenWord, words)).value.Display()
  {
    var d := CT.OrAfter(a, w, gap, CT.Single(b));
    CT.SingleOrFacts(b);
    CT.OrAfterOk(a, w, gap, CT.Single(b));
    CT.OrAfterWords(a, w, gap, CT.Single(b));
    PlainOrSingle(b);
    PlainOrAfter(a, w, gap, CT.Single(b));
    DisjunctionTextWords(d);
    LCT.CompileAgrees(opWord, op, table, whenWord, d);
  }

  /** Three disjuncts, each after a single-spaced `OR`. */
  lemma AgreesThree(opWord: string, op: Operation, table: string, whenWord: string,
                    a: Conjunction, b: Conjunction, c: Conjunction, words: seq<string>)
    requires RCE.Header(opWord, op, table, whenWord)
    requires ConjunctionOk(a) && SingleLead(a.joints) && ConjunctionOk(b) && SingleLead(b.joints)
    requires ConjunctionOk(c) && SingleLead(c.joints)
    requires LCT.PlainConjunction(a) && LCT.PlainConjunction(b) && LCT.PlainConjunction(c)
    requires words == ConjunctionWords(a) + ["OR"] + ConjunctionWords(b) + ["OR"] + ConjunctionWords(c)
    ensures LP.Compile(CT.RuleText(opWord, table, whenWord, words)).Ok?
    ensures RP.Compile(CT.RuleText(opWord, table, whenWord, words)).Ok?
    ensures LP.Compile(CT.RuleText(opWord, table, whenWord, words)).value.Display() ==
      RP.Compile(CT.RuleText(opWord, table, whenWord, words)).value.Display()
  {
    var d := CT.OrThen(a, "OR", CT.OrThen(b, "OR", CT.Single(c)));
    CT.ThreeOk(a, b, c);
    CT.ThreeWords(a, b, c);
    PlainOrSingle(c);
    PlainOrAfter(b, "OR", " ", CT.Single(c));
    PlainOrAfter(a, "OR", " ", CT.OrThen(b, "OR", CT.Single(c)));
    DisjunctionTextWords(d);
    LCT.CompileAgrees(opWord, op, table, whenWord, d);
  }

  // ---------------------------------------------------------- the shapes of the test conditions

  /** `x AND y`. */
  lemma Pair(opWord: string, op: Operation, table: string, whenWord: string, x: Expression, y: Expression)
    requires RCE.Header(opWord, op, table, whenWord) && Term(x) && Term(y)
    requires LCT.PlainString(x) && LCT.PlainString(y)
    ensures LP.Compile(CT.RuleText(opWord, table, whenWord, [TermText(x), "AND", TermText(y)])).Ok?
    ensures RP.Compile(CT.RuleText(opWord, table, whenWord, [TermText(x), "AND", TermText(y)])).Ok?
    ensures LP.Compile(CT.RuleText(opWord, table, whenWord, [TermText(x), "AND", TermText(y)])).value.Display() ==
      RP.Compile(CT.RuleText(opWord, table, whenWord, [TermText(x), "AND", TermText(y)])).value.Display()
  {
    CT.ConjTwo(x, "AND", y);
    PlainTwo(x, "AND", y);
    AgreesOne(opWord, op, table, whenWord, CT.AndThen(x, "AND", CT.Single(y)), [TermText(x), "AND", TermText(y)]);
  }

  /** `x OR y`. */
  lemma OneOrOne(opWord: string, op: Operation, table: string, whenWord: string, x: Expression, y: Expression)
    requires RCE.Header(opWord, op, table, whenWord) && Term(x) && Term(y)
    requires LCT.PlainString(x) && LCT.PlainString(y)
    ensures LP.Compile(CT.RuleText(opWord, table, whenWord, [TermText(x)] + ["OR"] + [TermText(y)])).Ok?
    ensures RP.Compile(CT.RuleText(opWord, table, whenWord, [TermText(x)] + ["OR"] + [TermText(y)])).Ok?
    ensures LP.Compile(CT.RuleText(opWord, table, whenWord, [TermText(x)] + ["OR"] + [TermText(y)])).value.Display() ==
      RP.Compile(CT.RuleText(opWord, table, whenWord, [TermText(x)] + ["OR"] + [TermText(y)])).value.Display()
  {
    CT.SingleFacts(x);
    CT.SingleFacts(y);
    PlainSingle(x);
    PlainSingle(y);
    CT.OneSpace();
    CT.KeywordWords("OR");
    AgreesTwo(opWord, op, table, whenWord, CT.Single(x), "OR", " ", CT.Single(y), [TermText(x)] + ["OR"] + [TermText(y)]);
  }

  /** `x AND y OR z`. */
  lemma PairOrOne(opWord: string, op: Operation, table: string, whenWord: string, x: Expression, y: Expression, z: Expression)
    requires RCE.Header(opWord, op, table, whenWord) && Term(x) && Term(y) && Term(z)
    requires LCT.PlainString(x) && LCT.PlainString(y) && LCT.PlainString(z)
    ensures LP.Compile(CT.RuleText(opWord, table, whenWord, [TermText(x), "AND", TermText(y)] + ["OR"] + [TermText(z)])).Ok?
    ensures RP.Compile(CT.RuleText(opWord, table, whenWord, [TermText(x), "AND", TermText(y)] + ["OR"] + [TermText(z)])).Ok?
    ensures LP.Compile(CT.RuleText(opWord, table, whenWord, [TermText(x), "AND", TermText(y)] + ["OR"] + [TermText(z)])).value.Display() ==
      RP.Compile(CT.RuleText(opWord, table, whenWord, [TermText(x), "AND", TermText(y)] + ["OR"] + [TermText(z)])).value.Display()
  {
    CT.ConjTwo(x, "AND", y);
    CT.SingleFacts(z);
    PlainTwo(x, "AND", y);
    PlainSingle(z);
    CT.OneSpace();
    CT.KeywordWords("OR");
    AgreesTwo(opWord, op, table, whenWord, CT.AndThen(x, "AND", CT.Single(y)), "OR", " ", CT.Single(z),
              [TermText(x), "AND", TermText(y)] + ["OR"] + [TermText(z)]);
  }

  /** `x AND y AND z OR t`. */
  lemma TripleOrOne(opWord: string, op: Operation, table: string, whenWord: string,
      x: Expression, y: Expression, z: Expression, t: Expression)
    requires RCE.Header(opWord, op, table, whenWord) && Term(x) && Term(y) && Term(z) && Term(t)
    requires LCT.PlainString(x) && LCT.PlainString(y) && LCT.PlainString(z) && LCT.PlainString(t)
    ensures LP.Compile(CT.RuleText(opWord, table, whenWord, [TermText(x), "AND", TermText(y), "AND", TermText(z)] + ["OR"] + [TermText(t)])).Ok?
    ensures RP.Compile(CT.RuleText(opWord, table, whenWord, [TermText(x), "AND", TermText(y), "AND", TermText(z)] + ["OR"] + [TermText(t)])).Ok?
    ensures LP.Compile(CT.RuleText(opWord, table, whenWord, [TermText(x), "AND", TermText(y), "AND", TermText(z)] + ["OR"] + [TermText(t)])).value.Display() ==
      RP.Compile(CT.RuleText(opWord, table, whenWord, [TermText(x), "AND", TermText(y), "AND", TermText(z)] + ["OR"] + [TermText(t)])).value.Display()
  {
    CT.ConjThree(x, "AND", y, "AND", z);
    CT.SingleFacts(t);
    PlainThree(x, "AND", y, "AND", z);
    PlainSingle(t);
    CT.OneSpace();
    CT.KeywordWords("OR");
    AgreesTwo(opWord, op, table, whenWord, CT.Three(x, "AND", y, "AND", z), "OR", " ", CT.Single(t),
              [TermText(x), "AND", TermText(y), "AND", TermText(z)] + ["OR"] + [TermText(t)]);
  }

  /** `x AND y AND z OR t AND u`. */
  lemma TripleOrPair(opWord: string, op: Operation, table: string, whenWord: string,
      x: Expression, y: Expression, z: Expression, t: Expression, u: Expression)
    requires RCE.Header(opWord, op, table, whenWord) && Term(x) && Term(y) && Term(z) && Term(t) && Term(u)
    requires LCT.PlainString(x) && LCT.PlainString(y) && LCT.PlainString(z) && LCT.PlainString(t) && LCT.PlainString(u)
    ensures LP.Compile(CT.RuleText(opWord, table, whenWord, [TermText(x), "AND", TermText(y), "AND", TermText(z)] + ["OR"] + [TermText(t), "AND", TermText(u)])).Ok?
    ensures RP.Compile(CT.RuleText(opWord, table, whenWord, [TermText(x), "AND", TermText(y), "AND", TermText(z)] + ["OR"] + [TermText(t), "AND", TermText(u)])).Ok?
    ensures LP.Compile(CT.RuleText(opWord, table, whenWord, [TermText(x), "AND", TermText(y), "AND", TermText(z)] + ["OR"] + [TermText(t), "AND", TermText(u)])).value.Display() ==
      RP.Compile(CT.RuleText(opWord, table, whenWord, [TermText(x), "AND", TermText(y), "AND", TermText(z)] + ["OR"] + [TermText(t), "AND", TermText(u)])).value.Display()
  {
    CT.ConjThree(x, "AND", y, "AND", z);
    CT.ConjTwo(t, "AND", u);
    PlainThree(x, "AND", y, "AND", z);
    PlainTwo(t, "AND", u);
    CT.OneSpace();
    CT.KeywordWords("OR");
    AgreesTwo(opWord, op, table, whenWord, CT.Three(x, "AND", y, "AND", z), "OR", " ", CT.AndThen(t, "AND", CT.Single(u)),
              [TermText(x), "AND", TermText(y), "AND", TermText(z)] + ["OR"] + [TermText(t), "AND", TermText(u)]);
  }

  /** `x AND y AND z or t AND u AND v`. */
  lemma TripleOrTriple(opWord: string, op: Operation, table: string, whenWord: string,
      x: Expression, y: Expression, z: Expression, t: Expression, u: Expression, v: Expression)
    requires RCE.Header(opWord, op, table, whenWord) && Term(x) && Term(y) && Term(z) && Term(t) && Term(u) && Term(v)
    requires LCT.PlainString(x) && LCT.PlainString(y) && LCT.PlainString(z)
    requires LCT.PlainString(t) && LCT.PlainString(u) && LCT.PlainString(v)
    ensures LP.Compile(CT.RuleText(opWord, table, whenWord, [TermText(x), "AND", TermText(y), "AND", TermText(z)] + ["or"] + [TermText(t), "AND", TermText(u), "AND", TermText(v)])).Ok?
    ensures RP.Compile(CT.RuleText(opWord, table, whenWord, [TermText(x), "AND", TermText(y), "AND", TermText(z)] + ["or"] + [TermText(t), "AND", TermText(u), "AND", TermText(v)])).Ok?
    ensures LP.Compile(CT.RuleText(opWord, table, whenWord, [TermText(x), "AND", TermText(y), "AND", TermText(z)] + ["or"] + [TermText(t), "AND", TermText(u), "AND", TermText(v)])).value.Display() ==
      RP.Compile(CT.RuleText(opWord, table, whenWord, [TermText(x), "AND", TermText(y), "AND", TermText(z)] + ["or"] + [TermText(t), "AND", TermText(u), "AND", TermText(v)])).value.Display()
  {
    CT.ConjThree(x, "AND", y, "AND", z);
    CT.ConjThree(t, "AND", u, "AND", v);
    PlainThree(x, "AND", y, "AND", z);
    PlainThree(t, "AND", u, "AND", v);
    CT.OneSpace();
    CT.KeywordWords("or");
    AgreesTwo(opWord, op, table, whenWord, CT.Three(x, "AND", y, "AND", z), "or", " ", CT.Three(t, "AND", u, "AND", v),
              [TermText(x), "AND", TermText(y), "AND", TermText(z)] + ["or"] + [TermText(t), "AND", TermText(u), "AND", TermText(v)]);
  }

  /** `x AND y OR z AND t`. */
  lemma PairOrPair(opWord: string, op: Operation, table: string, whenWord: string,
      x: Expression, y: Expression, z: Expression, t: Expression)
    requires RCE.Header(opWord, op, table, whenWord) && Term(x) && Term(y) && Term(z) && Term(t)
    requires LCT.PlainString(x) && LCT.PlainString(y) && LCT.PlainString(z) && LCT.PlainString(t)
    ensures LP.Compile(CT.RuleText(opWord, table, whenWord, [TermText(x), "AND", TermText(y)] + ["OR"] + [TermText(z), "AND", TermText(t)])).Ok?
    ensures RP.Compile(CT.RuleText(opWord, table, whenWord, [TermText(x), "AND", TermText(y)] + ["OR"] + [TermText(z), "AND", TermText(t)])).Ok?
    ensures LP.Compile(CT.RuleText(opWord, table, whenWord, [TermText(x), "AND", TermText(y)] + ["OR"] + [TermText(z), "AND", TermText(t)])).value.Display() ==
      RP.Compile(CT.RuleText(opWord, table, whenWord, [TermText(x), "AND", TermText(y)] + ["OR"] + [TermText(z), "AND", TermText(t)])).value.Display()
  {
    CT.ConjTwo(x, "AND", y);
    CT.ConjTwo(z, "AND", t);
    PlainTwo(x, "AND", y);
    PlainTwo(z, "AND", t);
    CT.OneSpace();
    CT.KeywordWords("OR");
    AgreesTwo(opWord, op, table, whenWord, CT.AndThen(x, "AND", CT.Single(y)), "OR", " ", CT.AndThen(z, "AND", CT.Single(t)),
              [TermText(x), "AND", TermText(y)] + ["OR"] + [TermText(z), "AND", TermText(t)]);
  }

  /** `x AND y OR` and two spaces, then `z and t AND u`. */
  lemma PairOrWide(opWord: string, op: Operation, table: string, whenWord: string,
      x: Expression, y: Expression, z: Expression, t: Expression, u: Expression)
    requires RCE.Header(opWord, op, table, whenWord) && Term(x) && Term(y) && Term(z) && Term(t) && Term(u)
    requires LCT.PlainString(x) && LCT.PlainString(y) && LCT.PlainString(z) && LCT.PlainString(t) && LCT.PlainString(u)
    ensures LP.Compile(CT.RuleText(opWord, table, whenWord, [TermText(x), "AND", TermText(y)] + ["OR", ""] + [TermText(z), "and", TermText(t), "AND", TermText(u)])).Ok?
    ensures RP.Compile(CT.RuleText(opWord, table, whenWord, [TermText(x), "AND", TermText(y)] + ["OR", ""] + [TermText(z), "and", TermText(t), "AND", TermText(u)])).Ok?
    ensures LP.Compile(CT.RuleText(opWord, table, whenWord, [TermText(x), "AND", TermText(y)] + ["OR", ""] + [TermText(z), "and", TermText(t), "AND", TermText(u)])).value.Display() ==
      RP.Compile(CT.RuleText(opWord, table, whenWord, [TermText(x), "AND", TermText(y)] + ["OR", ""] + [TermText(z), "and", TermText(t), "AND", TermText(u)])).value.Display()
  {
    CT.ConjTwo(x, "AND", y);
    CT.ConjThree(z, "and", t, "AND", u);
    PlainTwo(x, "AND", y);
    PlainThree(z, "and", t, "AND", u);
    CT.TwoSpaces();
    CT.KeywordWords("OR");
    AgreesTwo(opWord, op, table, whenWord, CT.AndThen(x, "AND", CT.Single(y)), "OR", "  ", CT.Three(z, "and", t, "AND", u),
              [TermText(x), "AND", TermText(y)] + ["OR", ""] + [TermText(z), "and", TermText(t), "AND", TermText(u)]);
  }

  /** `a and b AND c OR d AND e OR f and g and h and i`. */
  lemma TripleOrPairOrFour(opWord: string, op: Operation, table: string, whenWord: string,
      a: Expression, b: Expression, c: Expression, d: Expression, e: Expression, f: Expression, g: Expression, h: Expression, i: Expression)
    requires RCE.Header(opWord, op, table, whenWord) && Term(a) && Term(b) && Term(c) && Term(d) && Term(e) && Term(f) && Term(g) && Term(h) && Term(i)
    requires LCT.PlainString(a) && LCT.PlainString(b) && LCT.PlainString(c) && LCT.PlainString(d) && LCT.PlainString(e)
    requires LCT.PlainString(f) && LCT.PlainString(g) && LCT.PlainString(h) && LCT.PlainString(i)
    ensures LP.Compile(CT.RuleText(opWord, table, whenWord, [TermText(a), "and", TermText(b), "AND", TermText(c)] + ["OR"] + [TermText(d), "AND", TermText(e)] + ["OR"] + [TermText(f), "and", TermText(g), "and", TermText(h), "and", TermText(i)])).Ok?
    ensures RP.Compile(CT.RuleText(opWord, table, whenWord, [TermText(a), "and", TermText(b), "AND", TermText(c)] + ["OR"] + [TermText(d), "AND", TermText(e)] + ["OR"] + [TermText(f), "and", TermText(g), "and", TermText(h), "and", TermText(i)])).Ok?
    ensures LP.Compile(CT.RuleText(opWord, table, whenWord, [TermText(a), "and", TermText(b), "AND", TermText(c)] + ["OR"] + [TermText(d), "AND", TermText(e)] + ["OR"] + [TermText(f), "and", TermText(g), "and", TermText(h), "and", TermText(i)])).value.Display() ==
      RP.Compile(CT.RuleText(opWord, table, whenWord, [TermText(a), "and", TermText(b), "AND", TermText(c)] + ["OR"] + [TermText(d), "AND", TermText(e)] + ["OR"] + [TermText(f), "and", TermText(g), "and", TermText(h), "and", TermText(i)])).value.Display()
  {
    CT.ConjThree(a, "and", b, "AND", c);
    CT.ConjTwo(d, "AND", e);
    CT.ConjFour(f, g, h, i);
    PlainThree(a, "and", b, "AND", c);
    PlainTwo(d, "AND", e);
    PlainThree(g, "and", h, "and", i);
    PlainAndThen(f, "and", CT.Three(g, "and", h, "and", i));
    AgreesThree(opWord, op, table, whenWord, CT.Three(a, "and", b, "AND", c), CT.AndThen(d, "AND", CT.Single(e)), CT.Four(f, g, h, i),
                [TermText(a), "and", TermText(b), "AND", TermText(c)] + ["OR"] + [TermText(d), "AND", TermText(e)] + ["OR"] + [TermText(f), "and", TermText(g), "and", TermText(h), "and", TermText(i)]);
  }

  // ---------------------------------------------------------- the cases

  /** A condition of one word. */
  lemma OneWord(opWord: string, table: string, whenWord: string, w: string, tail: string)
    requires tail == " " + w
    ensures CT.RuleText(opWord, table, whenWord, [w]) == opWord + " " + table + " " + whenWord + tail
  {
  }

  /** `reject foo_bar_baz when true`, in any case, prints as `... WHEN true` (src/rules.rs:659-662). */
  lemma TrueRule(opWord: string, op: Operation, table: string, whenWord: string)
    requires RCE.Header(opWord, op, table, whenWord)
    ensures LP.Compile(opWord + " " + table + " " + whenWord + " true").Ok?
    ensures LP.Compile(opWord + " " + table + " " + whenWord + " true").value.Display() ==
      op.Display() + " " + table + " WHEN " + "true"
  {
    CT.BooleanTerms();
    OneWord(opWord, table, whenWord, TermText(CT.Yes), " true");
    CT.SingleFacts(CT.Yes);
    PlainSingle(CT.Yes);
    AgreesOne(opWord, op, table, whenWord, CT.Single(CT.Yes), [TermText(CT.Yes)]);
    RPP.TrueRuleAnyCase(opWord, op, table, whenWord);
  }

  lemma QuoteTerm()
    ensures Term(Statement("x", Equal, String("1\""))) && LCT.PlainString(Statement("x", Equal, String("1\"")))
    ensures TermText(Statement("x", Equal, String("1\""))) == "x==\"1\\\"\""
  {
    RCE.SpellQuote();
    RCE.QuoteDisplay();
    assert LCT.LiteralChar("1\""[0]) && LCT.LiteralChar("1\""[1]);
  }

  /** `x=="1\""` reads the escaped quote in the older grammar too, and prints
      as `x == "1\""` (src/rules.rs:663-666). */
  lemma AcceptedQuote(opWord: string, op: Operation, table: string, whenWord: string)
    requires RCE.Header(opWord, op, table, whenWord)
    ensures LP.Compile(opWord + " " + table + " " + whenWord + " x==\"1\\\"\"").Ok?
    ensures LP.Compile(opWord + " " + table + " " + whenWord + " x==\"1\\\"\"").value.Display() ==
      op.Display() + " " + table + " WHEN " + "x == \"1\\\"\""
  {
    var q := Statement("x", Equal, String("1\""));
    QuoteTerm();
    OneWord(opWord, table, whenWord, TermText(q), " x==\"1\\\"\"");
    CT.SingleFacts(q);
    PlainSingle(q);
    AgreesOne(opWord, op, table, whenWord, CT.Single(q), [TermText(q)]);
    RCE.AcceptedQuote(opWord, op, table, whenWord);
  }

  /** `x==1` prints as `x == 1` (src/rules.rs:667-670). */
  lemma AcceptedNumber(opWord: string, op: Operation, table: string, whenWord: string)
    requires RCE.Header(opWord, op, table, whenWord)
    ensures LP.Compile(opWord + " " + table + " " + whenWord + " x==1").Ok?
    ensures LP.Compile(opWord + " " + table + " " + whenWord + " x==1").value.Display() ==
      op.Display() + " " + table + " WHEN " + "x == 1"
  {
    CT.XTerms();
    OneWord(opWord, table, whenWord, TermText(SE.Is("x", 1)), " x==1");
    CT.SingleFacts(SE.Is("x", 1));
    PlainSingle(SE.Is("x", 1));
    AgreesOne(opWord, op, table, whenWord, CT.Single(SE.Is("x", 1)), [TermText(SE.Is("x", 1))]);
    RCE.AcceptedNumber(opWord, op, table, whenWord);
  }

  /** `x==1 AND false OR true` prints as `true` (src/rules.rs:672-675). */
  lemma FalseConjunctThenTrue(opWord: string, op: Operation, table: string, whenWord: string)
    requires RCE.Header(opWord, op, table, whenWord)
    ensures LP.Compile(CT.RuleText(opWord, table, whenWord, ["x==1", "AND", "false"] + ["OR"] + ["true"])).Ok?
    ensures LP.Compile(CT.RuleText(opWord, table, whenWord, ["x==1", "AND", "false"] + ["OR"] + ["true"])).value.Display() ==
      op.Display() + " " + table + " WHEN " + "true"
  {
    CT.XTerms();
    CT.BooleanTerms();
    PairOrOne(opWord, op, table, whenWord, SE.Is("x", 1), CT.No, CT.Yes);
    CT.FalseConjunctThenTrue(opWord, op, table, whenWord);
  }

  /** `false AND false AND false OR true` prints as `true` (src/rules.rs:676-680). */
  lemma FalseConjunctionThenTrue(opWord: string, op: Operation, table: string, whenWord: string)
    requires RCE.Header(opWord, op, table, whenWord)
    ensures LP.Compile(CT.RuleText(opWord, table, whenWord, ["false", "AND", "false", "AND", "false"] + ["OR"] + ["true"])).Ok?
    ensures LP.Compile(CT.RuleText(opWord, table, whenWord, ["false", "AND", "false", "AND", "false"] + ["OR"] + ["true"])).value.Display() ==
      op.Display() + " " + table + " WHEN " + "true"
  {
    CT.BooleanTerms();
    TripleOrOne(opWord, op, table, whenWord, CT.No, CT.No, CT.No, CT.Yes);
    CT.FalseConjunctionThenTrue(opWord, op, table, whenWord);
  }

  /** `true AND false OR x==1` prints as `x == 1` (src/rules.rs:681-684). */
  lemma FalseDisjunctThenStatement(opWord: string, op: Operation, table: string, whenWord: string)
    requires RCE.Header(opWord, op, table, whenWord)
    ensures LP.Compile(CT.RuleText(opWord, table, whenWord, ["true", "AND", "false"] + ["OR"] + ["x==1"])).Ok?
    ensures LP.Compile(CT.RuleText(opWord, table, whenWord, ["true", "AND", "false"] + ["OR"] + ["x==1"])).value.Display() ==
      op.Display() + " " + table + " WHEN " + "x == 1"
  {
    CT.XTerms();
    CT.BooleanTerms();
    PairOrOne(opWord, op, table, whenWord, CT.Yes, CT.No, SE.Is("x", 1));
    CT.FalseDisjunctThenStatement(opWord, op, table, whenWord);
  }

  /** `false AND x==1 AND true OR true AND x==2` prints as `x == 2`: AND binds tighter than OR (src/rules.rs:686-690). */
  lemma FalseFirstPrecedence(opWord: string, op: Operation, table: string, whenWord: string)
    requires RCE.Header(opWord, op, table, whenWord)
    ensures LP.Compile(CT.RuleText(opWord, table, whenWord, ["false", "AND", "x==1", "AND", "true"] + ["OR"] + ["true", "AND", "x==2"])).Ok?
    ensures LP.Compile(CT.RuleText(opWord, table, whenWord, ["false", "AND", "x==1", "AND", "true"] + ["OR"] + ["true", "AND", "x==2"])).value.Display() ==
      op.Display() + " " + table + " WHEN " + "x == 2"
  {
    CT.XTerms();
    CT.BooleanTerms();
    TripleOrPair(opWord, op, table, whenWord, CT.No, SE.Is("x", 1), CT.Yes, CT.Yes, SE.Is("x", 2));
    CT.FalseFirstPrecedence(opWord, op, table, whenWord);
  }

  /** `true AND x==1 AND true or true AND x==2 AND true` prints as `x == 1 OR x == 2` (src/rules.rs:691-695). */
  lemma TrueFlagsPrecedence(opWord: string, op: Operation, table: string, whenWord: string)
    requires RCE.Header(opWord, op, table, whenWord)
    ensures LP.Compile(CT.RuleText(opWord, table, whenWord, ["true", "AND", "x==1", "AND", "true"] + ["or"] + ["true", "AND", "x==2", "AND", "true"])).Ok?
    ensures LP.Compile(CT.RuleText(opWord, table, whenWord, ["true", "AND", "x==1", "AND", "true"] + ["or"] + ["true", "AND", "x==2", "AND", "true"])).value.Display() ==
      op.Display() + " " + table + " WHEN " + Join(["x == 1", "x == 2"], " OR ")
  {
    CT.XTerms();
    CT.BooleanTerms();
    TripleOrTriple(opWord, op, table, whenWord, CT.Yes, SE.Is("x", 1), CT.Yes, CT.Yes, SE.Is("x", 2), CT.Yes);
    CT.TrueFlagsPrecedence(opWord, op, table, whenWord);
  }

  /** `x==1 AND x==1` prints as `x == 1` (src/rules.rs:697-700). */
  lemma EquivalentCondition(opWord: string, op: Operation, table: string, whenWord: string)
    requires RCE.Header(opWord, op, table, whenWord)
    ensures LP.Compile(CT.RuleText(opWord, table, whenWord, ["x==1", "AND", "x==1"])).Ok?
    ensures LP.Compile(CT.RuleText(opWord, table, whenWord, ["x==1", "AND", "x==1"])).value.Display() ==
      op.Display() + " " + table + " WHEN " + "x == 1"
  {
    CT.XTerms();
    Pair(opWord, op, table, whenWord, SE.Is("x", 1), SE.Is("x", 1));
    CT.EquivalentCondition(opWord, op, table, whenWord);
  }

  /** `x==1 AND x==2` prints as `false` (src/rules.rs:702-705). */
  lemma EquivalentField(opWord: string, op: Operation, table: string, whenWord: string)
    requires RCE.Header(opWord, op, table, whenWord)
    ensures LP.Compile(CT.RuleText(opWord, table, whenWord, ["x==1", "AND", "x==2"])).Ok?
    ensures LP.Compile(CT.RuleText(opWord, table, whenWord, ["x==1", "AND", "x==2"])).value.Display() ==
      op.Display() + " " + table + " WHEN " + "false"
  {
    CT.XTerms();
    Pair(opWord, op, table, whenWord, SE.Is("x", 1), SE.Is("x", 2));
    CT.EquivalentField(opWord, op, table, whenWord);
  }

  /** `x==1 AND x!=1` prints as `false` (src/rules.rs:707-710). */
  lemma ExclusiveField(opWord: string, op: Operation, table: string, whenWord: string)
    requires RCE.Header(opWord, op, table, whenWord)
    ensures LP.Compile(CT.RuleText(opWord, table, whenWord, ["x==1", "AND", "x!=1"])).Ok?
    ensures LP.Compile(CT.RuleText(opWord, table, whenWord, ["x==1", "AND", "x!=1"])).value.Display() ==
      op.Display() + " " + table + " WHEN " + "false"
  {
    CT.XTerms();
    Pair(opWord, op, table, whenWord, SE.Is("x", 1), SE.IsNot("x", 1));
    CT.ExclusiveField(opWord, op, table, whenWord);
  }

  /** `x==1 OR x!=1` prints as `true` (src/rules.rs:712-715). */
  lemma InclusiveField(opWord: string, op: Operation, table: string, whenWord: string)
    requires RCE.Header(opWord, op, table, whenWord)
    ensures LP.Compile(CT.RuleText(opWord, table, whenWord, ["x==1"] + ["OR"] + ["x!=1"])).Ok?
    ensures LP.Compile(CT.RuleText(opWord, table, whenWord, ["x==1"] + ["OR"] + ["x!=1"])).value.Display() ==
      op.Display() + " " + table + " WHEN " + "true"
  {
    CT.XTerms();
    OneOrOne(opWord, op, table, whenWord, SE.Is("x", 1), SE.IsNot("x", 1));
    CT.InclusiveField(opWord, op, table, whenWord);
  }

  /** `true AND x==1 AND true or true AND x!=1 AND true` prints as `true` (src/rules.rs:717-721). */
  lemma ComplexComplement(opWord: string, op: Operation, table: string, whenWord: string)
    requires RCE.Header(opWord, op, table, whenWord)
    ensures LP.Compile(CT.RuleText(opWord, table, whenWord, ["true", "AND", "x==1", "AND", "true"] + ["or"] + ["true", "AND", "x!=1", "AND", "true"])).Ok?
    ensures LP.Compile(CT.RuleText(opWord, table, whenWord, ["true", "AND", "x==1", "AND", "true"] + ["or"] + ["true", "AND", "x!=1", "AND", "true"])).value.Display() ==
      op.Display() + " " + table + " WHEN " + "true"
  {
    CT.XTerms();
    CT.BooleanTerms();
    TripleOrTriple(opWord, op, table, whenWord, CT.Yes, SE.Is("x", 1), CT.Yes, CT.Yes, SE.IsNot("x", 1), CT.Yes);
    CT.ComplexComplement(opWord, op, table, whenWord);
  }

  /** `x==1 AND y==2 OR y==2 AND x==1` prints as `x == 1 AND y == 2` (src/rules.rs:723-727). */
  lemma Reordered(opWord: string, op: Operation, table: string, whenWord: string)
    requires RCE.Header(opWord, op, table, whenWord)
    ensures LP.Compile(CT.RuleText(opWord, table, whenWord, ["x==1", "AND", "y==2"] + ["OR"] + ["y==2", "AND", "x==1"])).Ok?
    ensures LP.Compile(CT.RuleText(opWord, table, whenWord, ["x==1", "AND", "y==2"] + ["OR"] + ["y==2", "AND", "x==1"])).value.Display() ==
      op.Display() + " " + table + " WHEN " + Join(["x == 1", "y == 2"], " AND ")
  {
    CT.XTerms();
    CT.OtherTerms();
    PairOrPair(opWord, op, table, whenWord, SE.Is("x", 1), SE.Is("y", 2), SE.Is("y", 2), SE.Is("x", 1));
    CT.Reordered(opWord, op, table, whenWord);
  }

  /** `x==1 AND y==2 OR  x==1 and y==2 AND z==3`, two spaces after the `OR`, prints as `x == 1 AND y == 2 AND z == 3` (src/rules.rs:729-735). */
  lemma SubsetAfterTwoSpaces(opWord: string, op: Operation, table: string, whenWord: string)
    requires RCE.Header(opWord, op, table, whenWord)
    ensures LP.Compile(CT.RuleText(opWord, table, whenWord, ["x==1", "AND", "y==2"] + ["OR", ""] + ["x==1", "and", "y==2", "AND", "z==3"])).Ok?
    ensures LP.Compile(CT.RuleText(opWord, table, whenWord, ["x==1", "AND", "y==2"] + ["OR", ""] + ["x==1", "and", "y==2", "AND", "z==3"])).value.Display() ==
      op.Display() + " " + table + " WHEN " + Join(["x == 1", "y == 2", "z == 3"], " AND ")
  {
    CT.XTerms();
    CT.OtherTerms();
    PairOrWide(opWord, op, table, whenWord, SE.Is("x", 1), SE.Is("y", 2), SE.Is("x", 1), SE.Is("y", 2), SE.Is("z", 3));
    CT.SubsetAfterTwoSpaces(opWord, op, table, whenWord);
  }

  /** `x==1 and y==2 AND z==3 OR x==1 AND y==2 OR x==1 and y==2 and z==3 and v==4` prints as `x == 1 AND y == 2 AND z == 3 AND v == 4` (src/rules.rs:736-742). */
  lemma SubsetWidened(opWord: string, op: Operation, table: string, whenWord: string)
    requires RCE.Header(opWord, op, table, whenWord)
    ensures LP.Compile(CT.RuleText(opWord, table, whenWord, ["x==1", "and", "y==2", "AND", "z==3"] + ["OR"] + ["x==1", "AND", "y==2"] + ["OR"] +
                             ["x==1", "and", "y==2", "and", "z==3", "and", "v==4"])).Ok?
    ensures LP.Compile(CT.RuleText(opWord, table, whenWord, ["x==1", "and", "y==2", "AND", "z==3"] + ["OR"] + ["x==1", "AND", "y==2"] + ["OR"] +
                             ["x==1", "and", "y==2", "and", "z==3", "and", "v==4"])).value.Display() ==
      op.Display() + " " + table + " WHEN " + Join(["x == 1", "y == 2", "z == 3", "v == 4"], " AND ")
  {
    CT.XTerms();
    CT.OtherTerms();
    TripleOrPairOrFour(opWord, op, table, whenWord, SE.Is("x", 1), SE.Is("y", 2), SE.Is("z", 3), SE.Is("x", 1), SE.Is("y", 2),
                       SE.Is("x", 1), SE.Is("y", 2), SE.Is("z", 3), SE.Is("v", 4));
    CT.SubsetWidened(opWord, op, table, whenWord);
  }

  /** The same with `x==2` as the last statement prints as `x == 1 AND y == 2 AND z == 3` (src/rules.rs:743-749). */
  lemma SubsetConflict(opWord: string, op: Operation, table: string, whenWord: string)
    requires RCE.Header(opWord, op, table, whenWord)
    ensures LP.Compile(CT.RuleText(opWord, table, whenWord, ["x==1", "and", "y==2", "AND", "z==3"] + ["OR"] + ["x==1", "AND", "y==2"] + ["OR"] +
                             ["x==1", "and", "y==2", "and", "z==3", "and", "x==2"])).Ok?
    ensures LP.Compile(CT.RuleText(opWord, table, whenWord, ["x==1", "and", "y==2", "AND", "z==3"] + ["OR"] + ["x==1", "AND", "y==2"] + ["OR"] +
                             ["x==1", "and", "y==2", "and", "z==3", "and", "x==2"])).value.Display() ==
      op.Display() + " " + table + " WHEN " + Join(["x == 1", "y == 2", "z == 3"], " AND ")
  {
    CT.XTerms();
    CT.OtherTerms();
    TripleOrPairOrFour(opWord, op, table, whenWord, SE.Is("x", 1), SE.Is("y", 2), SE.Is("z", 3), SE.Is("x", 1), SE.Is("y", 2),
                       SE.Is("x", 1), SE.Is("y", 2), SE.Is("z", 3), SE.Is("x", 2));
    CT.SubsetConflict(opWord, op, table, whenWord);
  }

  // ---------------------------------------------------------- the rejected rules

  /** With a good header, conditions that do not parse reject the rule. */
  lemma RejectedAfterHeader(opWord: string, op: Operation, table: string, whenWord: string, body: string)
    requires RCE.Header(opWord, op, table, whenWord)
    requires !LP.Conditions(body).Done?
    ensures LP.Compile(opWord + " " + table + " " + whenWord + body) == Err(ParseFailure)
  {
    LCT.RuleHeader(opWord, op, table, whenWord, body);
  }

  lemma NoConditionsWithoutExpression(body: string)
    requires LP.ParseExpression(Multispace0(body)).Backtrack?
    ensures LP.Conditions(body) == Backtrack
  {
  }

  lemma NoExpression(s: string)
    requires LP.ParseStatement(s).Backtrack? && LP.ParseBoolean(s).Backtrack?
    ensures LP.ParseExpression(s).Backtrack?
  {
  }

  lemma NoBoolean(s: string)
    requires s == [] || (s[0] != 't' && s[0] != 'f')
    ensures LP.ParseBoolean(s).Backtrack?
  {
  }

  lemma EmptyStatement()
    ensures LP.ParseStatement("") == Backtrack
  {
    RCE.CondsEmptyField();
    RCE.CondsEmptySpace();
    RCE.CondsEmptyOperator();
  }

  /** Nothing after `WHEN`. */
  lemma EmptyBody()
    ensures LP.Conditions("") == Backtrack
  {
    EmptyStatement();
    NoBoolean("");
    NoExpression("");
    RCE.CondsEmptySpace();
    NoConditionsWithoutExpression("");
  }

  /** A field name with no operator after it. */
  lemma BareFieldBody(f: string)
    requires f != [] && (forall i | 0 <= i < |f| :: RP.IsFieldChar(f[i])) && f[0] != 't' && f[0] != 'f'
    ensures LP.Conditions(" " + f) == Backtrack
  {
    RPP.SkipOneSpace(f);
    RPP.FieldThen(f, "");
    assert f + "" == f;
    RCE.CondsEmptySpace();
    RCE.CondsEmptyOperator();
    LCT.NoOperatorNoStatement(f);
    NoBoolean(f);
    NoExpression(f);
    NoConditionsWithoutExpression(" " + f);
  }

  lemma StatementStepsFail(s: string, f: string, r1: string, op: Operator, r2: string)
    requires RP.ParseField(s) == Done(f, r1)
    requires RP.ParseOperator(Multispace0(r1)) == Done(op, r2)
    requires LP.ParseAtom(Multispace0(r2)).Backtrack?
    ensures LP.ParseStatement(s).Backtrack?
  {
    assert RP.ParseField(s).rest == r1;
  }

  /** A word that is not `true` or `false` and not quoted is no atom of the older grammar. */
  lemma LetterIsNoAtom(v: string)
    requires v != [] && IsAsciiAlpha(v[0]) && v[0] != 't' && v[0] != 'f'
    ensures LP.ParseAtom(v).Backtrack?
  {
    assert LP.ParseNumber(v) == Backtrack;
    NoBoolean(v);
  }

  /** A field name, then an operator right after it, then `tail`. */
  lemma FieldWithOperator(f: string, op: Operator, tail: string)
    requires forall i | 0 <= i < |f| :: RP.IsFieldChar(f[i])
    requires tail != [] && !IsMultispace(tail[0])
    ensures RP.ParseField(f + ("" + (op.Display() + ("" + tail)))) == Done(f, "" + (op.Display() + ("" + tail)))
    ensures RP.ParseOperator(Multispace0("" + (op.Display() + ("" + tail)))) == Done(op, "" + tail)
    ensures Multispace0("" + tail) == tail
  {
    RCE.FieldBeforeOperator(f, op, "", "" + tail);
    RPP.OperatorSpaced(op, "", "" + tail);
    RPP.SkipOptionalSpace("", tail);
  }

  lemma UnquotedStatement(f: string, op: Operator, v: string)
    requires forall i | 0 <= i < |f| :: RP.IsFieldChar(f[i])
    requires v != [] && IsAsciiAlpha(v[0]) && v[0] != 't' && v[0] != 'f'
    ensures LP.ParseStatement(f + ("" + (op.Display() + ("" + v)))).Backtrack?
  {
    FieldWithOperator(f, op, v);
    LetterIsNoAtom(v);
    StatementStepsFail(f + ("" + (op.Display() + ("" + v))), f, "" + (op.Display() + ("" + v)), op, "" + v);
  }

  /** A field name, an operator and an atom, unspaced. */
  lemma StatementOf(f: string, op: Operator, tail: string, a: LA.Atom, r4: string)
    requires forall i | 0 <= i < |f| :: RP.IsFieldChar(f[i])
    requires tail != [] && !IsMultispace(tail[0])
    requires LP.ParseAtom(tail) == Done(a, r4)
    ensures LP.ParseStatement(f + ("" + (op.Display() + ("" + tail)))) == Done(LA.Statement(f, op, a), Multispace0(r4))
  {
    FieldWithOperator(f, op, tail);
    LCT.StatementSteps(f + ("" + (op.Display() + ("" + tail))), LA.Statement(f, op, a),
                       "" + (op.Display() + ("" + tail)), "" + tail, r4);
  }

  /** A value that is neither a number, nor `true` or `false`, nor a quoted string. */
  lemma UnquotedValueBody(f: string, op: Operator, v: string)
    requires f != [] && (forall i | 0 <= i < |f| :: RP.IsFieldChar(f[i])) && f[0] != 't' && f[0] != 'f'
    requires v != [] && IsAsciiAlpha(v[0]) && v[0] != 't' && v[0] != 'f'
    ensures LP.Conditions(" " + (f + ("" + (op.Display() + ("" + v))))) == Backtrack
  {
    var s := f + ("" + (op.Display() + ("" + v)));
    RCE.FirstOfField(f, "" + (op.Display() + ("" + v)));
    RPP.SkipOneSpace(s);
    UnquotedStatement(f, op, v);
    NoBoolean(s);
    NoExpression(s);
    NoConditionsWithoutExpression(" " + s);
  }

  lemma QuotedNoStatement(s: string)
    requires s != [] && s[0] == '"'
    ensures LP.ParseStatement(s).Backtrack?
  {
    RPP.FieldThen("", s);
    assert "" + s == s;
    RPP.NoSpaceToSkip(s);
    assert RP.ParseOperator(s) == Backtrack;
    LCT.NoOperatorNoStatement(s);
  }

  lemma QuotedNoExpression(s: string)
    requires s != [] && s[0] == '"'
    ensures LP.ParseExpression(s).Backtrack?
  {
    QuotedNoStatement(s);
    NoBoolean(s);
    NoExpression(s);
  }

  /** Field names are not quoted. */
  lemma QuotedStartBody(s: string)
    requires s != [] && s[0] == '"'
    ensures LP.Conditions(" " + s) == Backtrack
  {
    RPP.SkipOneSpace(s);
    QuotedNoExpression(s);
    NoConditionsWithoutExpression(" " + s);
  }

  /** `"1\\"` and then a quote: the string `1\` is read and the quote is left. */
  lemma StrayQuoteAtom()
    ensures LP.ParseAtom(String("1\\").Display() + "\"") == Done(LA.String("1\\"), "\"")
  {
    var r2 := String("1\\").Display() + "\"";
    RCE.BackslashDisplay();
    assert LCT.LiteralChar("1\\"[0]) && LCT.LiteralChar("1\\"[1]);
    LCT.PlainStringParse("1\\", "\"");
    LCT.QuoteNotNumberOrBoolean(r2);
    LCT.StringAtomSteps(r2, LA.String("1\\"), "\"");
  }

  lemma StatementExpression(s: string, e: LA.Expression, r: string)
    requires LP.ParseStatement(s) == Done(e, r)
    ensures LP.ParseExpression(s) == Done(e, r)
  {
  }

  /** One expression and no `AND` after it is a whole AND clause. */
  lemma LoneExpression(s: string, e: LA.Expression, r: string)
    requires LP.ParseExpression(s) == Done(e, r)
    requires Multispace0(r) == r && TagNoCase(r, "AND").Backtrack?
    ensures LP.ParseAndClause(s).Done? && LP.ParseAndClause(s).rest == r
  {
  }

  /** An AND clause with no `OR` after it is a whole OR clause. */
  lemma LoneAndClause(s: string, r: string)
    requires LP.ParseAndClause(s).Done? && LP.ParseAndClause(s).rest == r
    requires TagNoCase(r, "OR").Backtrack?
    ensures LP.ParseOrClause(s).Done? && LP.ParseOrClause(s).rest == r
  {
  }

  /** An expression followed by nothing or by a quote is a whole OR clause
      that leaves what follows unread. */
  lemma LoneExpressionClause(s: string, e: LA.Expression, r: string)
    requires LP.ParseExpression(s) == Done(e, r)
    requires r == [] || r[0] == '"'
    ensures LP.ParseOrClause(s).Done? && LP.ParseOrClause(s).rest == r
  {
    RCE.QuietEnd(r);
    LoneExpression(s, e, r);
    LoneAndClause(s, r);
  }

  /** An OR clause with text left over that is not spacing rejects the conditions. */
  lemma LeftoverConditions(s: string, r: string)
    requires s != [] && !IsMultispace(s[0])
    requires LP.ParseOrClause(s).Done? && LP.ParseOrClause(s).rest == r
    requires r != [] && Multispace0(r) == r
    ensures LP.Conditions(" " + s) == Backtrack
  {
    RPP.SkipOneSpace(s);
  }

  lemma StrayQuoteConditions(s: string, e: LA.Expression, r: string)
    requires s != [] && !IsMultispace(s[0])
    requires LP.ParseStatement(s) == Done(e, r)
    requires r != [] && r[0] == '"'
    ensures LP.Conditions(" " + s) == Backtrack
  {
    StatementExpression(s, e, r);
    LoneExpressionClause(s, e, r);
    RPP.NoSpaceToSkip(r);
    LeftoverConditions(s, r);
  }

  /** A statement whose atom is followed by a quote. */
  lemma StatementThenQuote(f: string, op: Operator, tail: string, a: LA.Atom, r: string)
    requires f != [] && forall i | 0 <= i < |f| :: RP.IsFieldChar(f[i])
    requires tail != [] && !IsMultispace(tail[0])
    requires LP.ParseAtom(tail) == Done(a, r)
    requires r != [] && r[0] == '"'
    ensures LP.Conditions(" " + (f + ("" + (op.Display() + ("" + tail))))) == Backtrack
  {
    StatementOf(f, op, tail, a, r);
    RPP.NoSpaceToSkip(r);
    RCE.FirstOfField(f, "" + (op.Display() + ("" + tail)));
    StrayQuoteConditions(f + ("" + (op.Display() + ("" + tail))), LA.Statement(f, op, a), r);
  }

  /** `x=="1\\""`: the older grammar reads the string `1\`, and the quote
      after it is left over, so the rule is rejected. */
  lemma StrayQuoteBody()
    ensures LP.Conditions(" " + ("x" + ("" + (Equal.Display() + ("" + (String("1\\").Display() + "\"")))))) == Backtrack
  {
    StrayQuoteAtom();
    RCE.BackslashDisplay();
    StatementThenQuote("x", Equal, String("1\\").Display() + "\"", LA.String("1\\"), "\"");
  }

  lemma RejectedEmpty(opWord: string, op: Operation, table: string, whenWord: string)
    requires RCE.Header(opWord, op, table, whenWord)
    ensures LP.Compile(opWord + " " + table + " " + whenWord).Err?
  {
    EmptyBody();
    RejectedAfterHeader(opWord, op, table, whenWord, "");
    assert opWord + " " + table + " " + whenWord + "" == opWord + " " + table + " " + whenWord;
  }

  lemma RejectedBareFieldOf(opWord: string, op: Operation, table: string, whenWord: string, body: string)
    requires RCE.Header(opWord, op, table, whenWord)
    requires |body| >= 2 && body[0] == ' ' && (forall i | 1 <= i < |body| :: RP.IsFieldChar(body[i]))
    requires body[1] != 't' && body[1] != 'f'
    ensures LP.Compile(opWord + " " + table + " " + whenWord + body).Err?
  {
    assert body == " " + body[1..];
    BareFieldBody(body[1..]);
    RejectedAfterHeader(opWord, op, table, whenWord, body);
  }

  lemma RejectedBareField(opWord: string, op: Operation, table: string, whenWord: string)
    requires RCE.Header(opWord, op, table, whenWord)
    ensures LP.Compile(opWord + " " + table + " " + whenWord + " x").Err?
  {
    RejectedBareFieldOf(opWord, op, table, whenWord, " x");
  }

  lemma RejectedUnquoted(opWord: string, op: Operation, table: string, whenWord: string)
    requires RCE.Header(opWord, op, table, whenWord)
    ensures LP.Compile(opWord + " " + table + " " + whenWord + " x==a").Err?
  {
    UnquotedValueBody("x", Equal, "a");
    RCE.SpellUnquoted();
    RejectedAfterHeader(opWord, op, table, whenWord, " x==a");
  }

  lemma RejectedQuotedOf(opWord: string, op: Operation, table: string, whenWord: string, body: string)
    requires RCE.Header(opWord, op, table, whenWord)
    requires |body| >= 2 && body[0] == ' ' && body[1] == '"'
    ensures LP.Compile(opWord + " " + table + " " + whenWord + body).Err?
  {
    assert body == " " + body[1..];
    QuotedStartBody(body[1..]);
    RejectedAfterHeader(opWord, op, table, whenWord, body);
  }

  lemma RejectedStrayQuote(opWord: string, op: Operation, table: string, whenWord: string)
    requires RCE.Header(opWord, op, table, whenWord)
    ensures LP.Compile(opWord + " " + table + " " + whenWord + " x==\"1\\\\\"\"").Err?
  {
    RCE.SpellStrayQuote();
    StrayQuoteBody();
    RejectedAfterHeader(opWord, op, table, whenWord, " x==\"1\\\\\"\"");
  }

  lemma RejectedQuotedField(opWord: string, op: Operation, table: string, whenWord: string)
    requires RCE.Header(opWord, op, table, whenWord)
    ensures LP.Compile(opWord + " " + table + " " + whenWord + " \"x\"==a").Err?
  {
    RejectedQuotedOf(opWord, op, table, whenWord, " \"x\"==a");
  }

  lemma RejectedQuotedAlone(opWord: string, op: Operation, table: string, whenWord: string)
    requires RCE.Header(opWord, op, table, whenWord)
    ensures LP.Compile(opWord + " " + table + " " + whenWord + " \"x\"").Err?
  {
    RejectedQuotedOf(opWord, op, table, whenWord, " \"x\"");
  }

  /** The rejected rules of the test: a missing condition, a bare field, a
      value that is no atom, a quoted field name, a lone quoted string, a
      stray quote (src/rules.rs:653-658). */
  lemma RejectedRules(opWord: string, op: Operation, table: string, whenWord: string)
    requires RCE.Header(opWord, op, table, whenWord)
    ensures LP.Compile(opWord + " " + table + " " + whenWord).Err?
    ensures LP.Compile(opWord + " " + table + " " + whenWord + " x").Err?
    ensures LP.Compile(opWord + " " + table + " " + whenWord + " x==a").Err?
    ensures LP.Compile(opWord + " " + table + " " + whenWord + " \"x\"==a").Err?
    ensures LP.Compile(opWord + " " + table + " " + whenWord + " \"x\"").Err?
    ensures LP.Compile(opWord + " " + table + " " + whenWord + " x==\"1\\\\\"\"").Err?
  {
    RejectedEmpty(opWord, op, table, whenWord);
    RejectedBareField(opWord, op, table, whenWord);
    RejectedUnquoted(opWord, op, table, whenWord);
    RejectedQuotedField(opWord, op, table, whenWord);
    RejectedQuotedAlone(opWord, op, table, whenWord);
    RejectedStrayQuote(opWord, op, table, whenWord);
  }

  /** An operation keyword other than REJECT and FILTER is rejected (src/rules.rs:652). */
  lemma UnknownOperationRejected(rest: string)
    ensures LP.Compile("FOO" + rest).Err?
  {
    assert ("FOO" + rest)[0] == 'F' && ("FOO" + rest)[1] == 'O';
    RCE.NotAnOperation("FOO" + rest);
  }
}
