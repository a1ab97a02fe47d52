/** The rule compiler's `test_compile` cases that compile
    (rule-compiler/src/lib.rs:601-678), stated on the whole rule text through
    `Compile` and on the printed rule, for any casing of the header keywords
    and any table name. Each condition text is written as its words joined by
    single spaces (an empty word stands for a second space); the rule printer
    joins the printed statements the same way.

    The shapes of the conditions are proved once for any terms; each case then
    names its terms and works out the simplified clause. */
module RuleCompileTests {
  import opened Wrappers
  import opened Text
  import opened RuleAst
  import opened RuleSimplifier
  import opened RuleParser
  import opened RuleClauseText
  import opened RuleClauseWords
  import opened RuleSimplifierExamples
  import opened RuleCompilerExamples
  import RuleParserProperties

  // ---------------------------------------------------------- building conditions

  /** A keyword with one space on either side. */
  function J<T>(word: string, item: T): Joint<T> { Joint(" ", word, " ", item) }

  function Single<T>(t: T): Chain<T> { Chain(t, []) }

  /** `e w c`: the term `e`, the keyword `w`, then the conjunction `c`. */
  function AndThen(e: Expression, w: string, c: Conjunction): Conjunction
  {
    Chain(e, [J(w, c.first)] + c.joints)
  }

  /** `c w d`, with the spaces `gap` after the keyword `w`. */
  function OrAfter(c: Conjunction, w: string, gap: string, d: Disjunction): Disjunction
  {
    Chain(c, [Joint(" ", w, gap, d.first)] + d.joints)
  }

  function OrThen(c: Conjunction, w: string, d: Disjunction): Disjunction
  {
    OrAfter(c, w, " ", d)
  }

  /** The value the left fold reaches from `acc` over all of `c`. */
  function AndFrom(acc: AndClause, c: Conjunction): AndClause
  {
    AndChain(acc.Add(c.first), c.joints)
  }

  function OrFrom(acc: OrClause, d: Disjunction): OrClause
  {
    OrChain(acc.Add(ConjunctionValue(d.first)), d.joints)
  }

  lemma OneSpace()
    ensures Gap(" ")
  {
    assert " "[0] == ' ';
  }

  lemma SpacedKeywords<T>(t: T)
    ensures Spelled(J("AND", t), "AND") && Spelled(J("and", t), "AND")
    ensures Spelled(J("OR", t), "OR") && Spelled(J("or", t), "OR")
  {
    assert Gap(" ") by { assert " "[0] == ' '; }
  }

  lemma AndThenFacts(e: Expression, w: string, c: Conjunction)
    requires Term(e) && (w == "AND" || w == "and") && ConjunctionOk(c) && SingleLead(c.joints)
    ensures ConjunctionOk(AndThen(e, w, c)) && SingleLead(AndThen(e, w, c).joints)
    ensures ConjunctionWords(AndThen(e, w, c)) == [TermText(e), w] + ConjunctionWords(c)
    ensures ConjunctionValue(AndThen(e, w, c)) == AndFrom(NewAnd(e), c)
  {
    var js := AndThen(e, w, c).joints;
    assert js[1..] == c.joints;
    SpacedKeywords(c.first);
    assert AndJointOk(js[0]);
    assert forall i | 1 <= i < |js| :: js[i] == c.joints[i - 1];
    assert JointWords(js[0]) == [w];
  }

  lemma SingleFacts(e: Expression)
    requires Term(e)
    ensures ConjunctionOk(Single(e)) && SingleLead(Single(e).joints)
    ensures ConjunctionWords(Single(e)) == [TermText(e)]
    ensures ConjunctionValue(Single(e)) == NewAnd(e)
  {
  }

  /** Folding from `acc` over `e w c` is folding from `acc.Add(e)` over `c`. */
  lemma AndFromThen(acc: AndClause, e: Expression, w: string, c: Conjunction)
    ensures AndFrom(acc, AndThen(e, w, c)) == AndFrom(acc.Add(e), c)
  {
    assert AndThen(e, w, c).joints[1..] == c.joints;
  }

  lemma AndFromSingle(acc: AndClause, e: Expression)
    ensures AndFrom(acc, Single(e)) == acc.Add(e)
  {
  }

  lemma OrAfterOk(c: Conjunction, w: string, gap: string, d: Disjunction)
    requires ConjunctionOk(c) && SingleLead(c.joints) && (w == "OR" || w == "or") && Gap(gap)
    requires DisjunctionOk(d) && SingleLeads(d)
    ensures DisjunctionOk(OrAfter(c, w, gap, d)) && SingleLeads(OrAfter(c, w, gap, d))
  {
    var js := OrAfter(c, w, gap, d).joints;
    assert Gap(" ") by { assert " "[0] == ' '; }
    assert OrJointOk(js[0]);
    assert forall i | 1 <= i < |js| :: js[i] == d.joints[i - 1];
  }

  lemma OrAfterWords(c: Conjunction, w: string, gap: string, d: Disjunction)
    requires gap != []
    ensures DisjunctionWords(OrAfter(c, w, gap, d)) == ConjunctionWords(c) + ([w] + Blanks(|gap| - 1)) + DisjunctionWords(d)
  {
    var js := OrAfter(c, w, gap, d).joints;
    assert js[1..] == d.joints;
  }

  lemma OrAfterValue(c: Conjunction, w: string, gap: string, d: Disjunction)
    ensures DisjunctionValue(OrAfter(c, w, gap, d)) == OrFrom(NewOr(ConjunctionValue(c)), d)
    ensures forall acc :: OrFrom(acc, OrAfter(c, w, gap, d)) == OrFrom(acc.Add(ConjunctionValue(c)), d)
  {
    var js := OrAfter(c, w, gap, d).joints;
    assert js[1..] == d.joints;
  }

  lemma SingleOrFacts(c: Conjunction)
    requires ConjunctionOk(c) && SingleLead(c.joints)
    ensures DisjunctionOk(Single(c)) && SingleLeads(Single(c))
    ensures DisjunctionWords(Single(c)) == ConjunctionWords(c)
    ensures DisjunctionValue(Single(c)) == NewOr(ConjunctionValue(c))
    ensures forall acc :: OrFrom(acc, Single(c)) == acc.Add(ConjunctionValue(c))
  {
    assert OrWords([]) == [];
  }

  lemma NoBlanks()
    ensures Blanks(0) == [] && Blanks(1) == [""]
  {
  }

  /** Regrouping the words of three disjuncts. */
  lemma Glue(a: seq<string>, b: seq<string>, c: seq<string>, w: seq<string>)
    ensures a + w + (b + w + c) == a + w + b + w + c
  {
  }

  // ---------------------------------------------------------- conjunction shapes

  predicate AndWord(w: string) { w == "AND" || w == "and" }

  lemma ConjTwo(x: Expression, w: string, y: Expression)
    requires Term(x) && Term(y) && AndWord(w)
    ensures ConjunctionOk(AndThen(x, w, Single(y))) && SingleLead(AndThen(x, w, Single(y)).joints)
    ensures ConjunctionWords(AndThen(x, w, Single(y))) == [TermText(x), w, TermText(y)]
    ensures ConjunctionValue(AndThen(x, w, Single(y))) == NewAnd(x).Add(y)
  {
    SingleFacts(y);
    AndThenFacts(x, w, Single(y));
    AndFromSingle(NewAnd(x), y);
  }

  function Three(x: Expression, w1: string, y: Expression, w2: string, z: Expression): Conjunction
  {
    AndThen(x, w1, AndThen(y, w2, Single(z)))
  }

  lemma ConjThree(x: Expression, w1: string, y: Expression, w2: string, z: Expression)
    requires Term(x) && Term(y) && Term(z) && AndWord(w1) && AndWord(w2)
    ensures ConjunctionOk(Three(x, w1, y, w2, z)) && SingleLead(Three(x, w1, y, w2, z).joints)
    ensures ConjunctionWords(Three(x, w1, y, w2, z)) == [TermText(x), w1, TermText(y), w2, TermText(z)]
    ensures ConjunctionValue(Three(x, w1, y, w2, z)) == NewAnd(x).Add(y).Add(z)
  {
    SingleFacts(z);
    AndThenFacts(y, w2, Single(z));
    AndThenFacts(x, w1, AndThen(y, w2, Single(z)));
    AndFromThen(NewAnd(x), y, w2, Single(z));
    AndFromSingle(NewAnd(x).Add(y), z);
  }

  /** `x and y and z and v`. */
  function Four(x: Expression, y: Expression, z: Expression, v: Expression): Conjunction
  {
    AndThen(x, "and", Three(y, "and", z, "and", v))
  }

  lemma ConjFour(x: Expression, y: Expression, z: Expression, v: Expression)
    requires Term(x) && Term(y) && Term(z) && Term(v)
    ensures ConjunctionOk(Four(x, y, z, v)) && SingleLead(Four(x, y, z, v).joints)
    ensures ConjunctionWords(Four(x, y, z, v)) ==
      [TermText(x), "and", TermText(y), "and", TermText(z), "and", TermText(v)]
  {
    ConjThree(y, "and", z, "and", v);
    AndThenFacts(x, "and", Three(y, "and", z, "and", v));
    TwoThenFive(TermText(x), "and", TermText(y), "and", TermText(z), "and", TermText(v));
  }

  lemma TwoThenFive<T>(a: T, b: T, c: T, d: T, e: T, f: T, g: T)
    ensures [a, b] + [c, d, e, f, g] == [a, b, c, d, e, f, g]
  {
  }

  lemma FourValue(x: Expression, y: Expression, z: Expression, v: Expression)
    requires Term(x) && Term(y) && Term(z) && Term(v)
    ensures ConjunctionValue(Four(x, y, z, v)) == NewAnd(x).Add(y).Add(z).Add(v)
  {
    ConjThree(y, "and", z, "and", v);
    AndThenFacts(x, "and", Three(y, "and", z, "and", v));
    AndFromThen(NewAnd(x), y, "and", AndThen(z, "and", Single(v)));
    AndFromThen(NewAnd(x).Add(y), z, "and", Single(v));
    AndFromSingle(NewAnd(x).Add(y).Add(z), v);
  }

  // ---------------------------------------------------------- whole rules

  /** The text of a rule: the header words, then the condition's words. */
  function RuleText(opWord: string, table: string, whenWord: string, words: seq<string>): string
  {
    opWord + " " + table + " " + whenWord + " " + Join(words, " ")
  }

  /** A condition of one disjunct. */
  lemma CompilesOne(opWord: string, op: Operation, table: string, whenWord: string, a: Conjunction, words: seq<string>)
    requires Header(opWord, op, table, whenWord) && ConjunctionOk(a) && SingleLead(a.joints)
    requires words == ConjunctionWords(a)
    ensures Compile(RuleText(opWord, table, whenWord, words)) ==
      Ok(Rule(op, table, NewOr(ConjunctionValue(a))))
  {
    SingleOrFacts(a);
    DisjunctionTextWords(Single(a));
    CompileText(opWord, op, table, whenWord, Single(a));
  }

  /** Two disjuncts, with `gap` after the keyword `w`. */
  lemma CompilesTwo(opWord: string, op: Operation, table: string, whenWord: string,
                    a: Conjunction, w: string, gap: string, b: Conjunction, words: seq<string>)
    requires Header(opWord, op, table, whenWord)
    requires ConjunctionOk(a) && SingleLead(a.joints) && ConjunctionOk(b) && SingleLead(b.joints)
    requires (w == "OR" || w == "or") && Gap(gap)
    requires words == ConjunctionWords(a) + ([w] + Blanks(|gap| - 1)) + ConjunctionWords(b)
    ensures Compile(RuleText(opWord, table, whenWord, words)) ==
      Ok(Rule(op, table, NewOr(ConjunctionValue(a)).Add(ConjunctionValue(b))))
  {
    var d := OrAfter(a, w, gap, Single(b));
    SingleOrFacts(b);
    OrAfterOk(a, w, gap, Single(b));
    OrAfterWords(a, w, gap, Single(b));
    OrAfterValue(a, w, gap, Single(b));
    DisjunctionTextWords(d);
    CompileText(opWord, op, table, whenWord, d);
  }

  lemma ThreeOk(a: Conjunction, b: Conjunction, c: Conjunction)
    requires ConjunctionOk(a) && SingleLead(a.joints) && ConjunctionOk(b) && SingleLead(b.joints)
    requires ConjunctionOk(c) && SingleLead(c.joints)
    ensures DisjunctionOk(OrThen(a, "OR", OrThen(b, "OR", Single(c))))
    ensures SingleLeads(OrThen(a, "OR", OrThen(b, "OR", Single(c))))
  {
    assert Gap(" ") by { assert " "[0] == ' '; }
    SingleOrFacts(c);
    OrAfterOk(b, "OR", " ", Single(c));
    OrAfterOk(a, "OR", " ", OrThen(b, "OR", Single(c)));
  }

  lemma ThreeWords(a: Conjunction, b: Conjunction, c: Conjunction)
    ensures DisjunctionWords(OrThen(a, "OR", OrThen(b, "OR", Single(c)))) ==
      ConjunctionWords(a) + ["OR"] + ConjunctionWords(b) + ["OR"] + ConjunctionWords(c)
  {
    NoBlanks();
    assert DisjunctionWords(Single(c)) == ConjunctionWords(c) by { assert OrWords([]) == []; }
    OrAfterWords(b, "OR", " ", Single(c));
    OrAfterWords(a, "OR", " ", OrThen(b, "OR", Single(c)));
    Glue(ConjunctionWords(a), ConjunctionWords(b), ConjunctionWords(c), ["OR"]);
  }

  lemma ThreeValue(a: Conjunction, b: Conjunction, c: Conjunction)
    ensures DisjunctionValue(OrThen(a, "OR", OrThen(b, "OR", Single(c)))) ==
      NewOr(ConjunctionValue(a)).Add(ConjunctionValue(b)).Add(ConjunctionValue(c))
  {
    OrAfterValue(b, "OR", " ", Single(c));
    OrAfterValue(a, "OR", " ", OrThen(b, "OR", Single(c)));
  }

  /** Three disjuncts, each after a single-spaced `OR`. */
  lemma CompilesThree(opWord: string, op: Operation, table: string, whenWord: string,
                      a: Conjunction, b: Conjunction, c: Conjunction, words: seq<string>)
    requires Header(opWord, op, table, whenWord)
    requires ConjunctionOk(a) && SingleLead(a.joints) && ConjunctionOk(b) && SingleLead(b.joints)
    requires ConjunctionOk(c) && SingleLead(c.joints)
    requires words == ConjunctionWords(a) + ["OR"] + ConjunctionWords(b) + ["OR"] + ConjunctionWords(c)
    ensures Compile(RuleText(opWord, table, whenWord, words)) ==
      Ok(Rule(op, table, NewOr(ConjunctionValue(a)).Add(ConjunctionValue(b)).Add(ConjunctionValue(c))))
  {
    var d := OrThen(a, "OR", OrThen(b, "OR", Single(c)));
    ThreeOk(a, b, c);
    ThreeWords(a, b, c);
    ThreeValue(a, b, c);
    DisjunctionTextWords(d);
    CompileText(opWord, op, table, whenWord, d);
  }

  // ---------------------------------------------------------- terms and prints

  lemma TermIs(f: string, n: u64)
    requires |f| == 1 && IsAsciiAlpha(f[0])
    ensures Term(Is(f, n)) && Term(IsNot(f, n))
  {
  }

  lemma IsWord(f: string, n: u64, digits: string, word: string)
    requires DecimalText(n) == digits && f + ("==" + digits) == word
    ensures TermText(Is(f, n)) == word
  {
  }

  lemma IsNotWord(f: string, n: u64, digits: string, word: string)
    requires DecimalText(n) == digits && f + ("!=" + digits) == word
    ensures TermText(IsNot(f, n)) == word
  {
  }

  lemma IsShown(f: string, n: u64, digits: string, shown: string)
    requires DecimalText(n) == digits && f + " " + "==" + " " + digits == shown
    ensures Is(f, n).Display() == shown
  {
  }

  /** A clause of statements prints them joined by ` AND `. */
  lemma AndShown(value: bool, es: seq<Expression>, shown: seq<string>)
    requires |shown| == |es| && forall i | 0 <= i < |es| :: es[i].Display() == shown[i]
    ensures AndClause(false, value, es).Display() == Join(shown, " AND ")
  {
    assert AndClause(false, value, es).Shown() == shown;
  }

  /** A clause of disjuncts prints them joined by ` OR `. */
  lemma OrShown(cs: seq<AndClause>, shown: seq<string>)
    requires |shown| == |cs| && forall i | 0 <= i < |cs| :: cs[i].Display() == shown[i]
    ensures OrClause(false, false, cs).Display() == Join(shown, " OR ")
  {
    assert OrClause(false, false, cs).Shown() == shown;
  }

  lemma ConstantShown()
    ensures OrClause(true, true, []).Display() == "true"
    ensures OrClause(true, false, []).Display() == "false"
  {
  }

  /** A rule keeps the header and prints the clause after `WHEN`. */
  lemma RulePrint(op: Operation, table: string, c: OrClause, shown: string)
    requires c.Display() == shown
    ensures Rule(op, table, c).Display() == op.Display() + " " + table + " WHEN " + shown
  {
  }

  // ---------------------------------------------------------- condition shapes

  lemma TwoSpaces()
    ensures Gap("  ")
  {
    assert "  "[0] == ' ' && "  "[1] == ' ';
  }

  /** A keyword followed by one space is one word; by two spaces, a word and an empty word. */
  lemma KeywordWords(w: string)
    ensures [w] + Blanks(0) == [w] && [w] + Blanks(1) == [w, ""]
  {
    NoBlanks();
  }

  /** `x AND y`. */
  lemma Pair(opWord: string, op: Operation, table: string, whenWord: string,
      x: Expression, y: Expression)
    requires Header(opWord, op, table, whenWord) && Term(x) && Term(y)
    ensures Compile(RuleText(opWord, table, whenWord, [TermText(x), "AND", TermText(y)])) ==
      Ok(Rule(op, table, NewOr(NewAnd(x).Add(y))))
  {
    ConjTwo(x, "AND", y);
    CompilesOne(opWord, op, table, whenWord, AndThen(x, "AND", Single(y)), [TermText(x), "AND", TermText(y)]);
  }

  /** `x OR y`. */
  lemma OneOrOne(opWord: string, op: Operation, table: string, whenWord: string,
      x: Expression, y: Expression)
    requires Header(opWord, op, table, whenWord) && Term(x) && Term(y)
    ensures Compile(RuleText(opWord, table, whenWord, [TermText(x)] + ["OR"] + [TermText(y)])) ==
      Ok(Rule(op, table, NewOr(NewAnd(x)).Add(NewAnd(y))))
  {
    SingleFacts(x);
    SingleFacts(y);
    OneSpace();
    KeywordWords("OR");
    CompilesTwo(opWord, op, table, whenWord, Single(x), "OR", " ", Single(y), [TermText(x)] + ["OR"] + [TermText(y)]);
  }

  /** `x AND y OR z`. */
  lemma PairOrOne(opWord: string, op: Operation, table: string, whenWord: string,
      x: Expression, y: Expression, z: Expression)
    requires Header(opWord, op, table, whenWord) && Term(x) && Term(y) && Term(z)
    ensures Compile(RuleText(opWord, table, whenWord, [TermText(x), "AND", TermText(y)] + ["OR"] + [TermText(z)])) ==
      Ok(Rule(op, table, NewOr(NewAnd(x).Add(y)).Add(NewAnd(z))))
  {
    ConjTwo(x, "AND", y);
    SingleFacts(z);
    OneSpace();
    KeywordWords("OR");
    CompilesTwo(opWord, op, table, whenWord, AndThen(x, "AND", Single(y)), "OR", " ", Single(z), [TermText(x), "AND", TermText(y)] + ["OR"] + [TermText(z)]);
  }

  /** `x AND y AND z OR t`. */
  lemma TripleOrOne(opWord: string, op: Operation, table: string, whenWord: string,
      x: Expression, y: Expression, z: Expression, t: Expression)
    requires Header(opWord, op, table, whenWord) && Term(x) && Term(y) && Term(z) && Term(t)
    ensures Compile(RuleText(opWord, table, whenWord, [TermText(x), "AND", TermText(y), "AND", TermText(z)] + ["OR"] + [TermText(t)])) ==
      Ok(Rule(op, table, NewOr(NewAnd(x).Add(y).Add(z)).Add(NewAnd(t))))
  {
    ConjThree(x, "AND", y, "AND", z);
    SingleFacts(t);
    OneSpace();
    KeywordWords("OR");
    CompilesTwo(opWord, op, table, whenWord, Three(x, "AND", y, "AND", z), "OR", " ", Single(t), [TermText(x), "AND", TermText(y), "AND", TermText(z)] + ["OR"] + [TermText(t)]);
  }

  /** `x AND y AND z OR t AND u`. */
  lemma TripleOrPair(opWord: string, op: Operation, table: string, whenWord: string,
      x: Expression, y: Expression, z: Expression, t: Expression, u: Expression)
    requires Header(opWord, op, table, whenWord) && Term(x) && Term(y) && Term(z) && Term(t) && Term(u)
    ensures Compile(RuleText(opWord, table, whenWord, [TermText(x), "AND", TermText(y), "AND", TermText(z)] + ["OR"] + [TermText(t), "AND", TermText(u)])) ==
      Ok(Rule(op, table, NewOr(NewAnd(x).Add(y).Add(z)).Add(NewAnd(t).Add(u))))
  {
    ConjThree(x, "AND", y, "AND", z);
    ConjTwo(t, "AND", u);
    OneSpace();
    KeywordWords("OR");
    CompilesTwo(opWord, op, table, whenWord, Three(x, "AND", y, "AND", z), "OR", " ", AndThen(t, "AND", Single(u)), [TermText(x), "AND", TermText(y), "AND", TermText(z)] + ["OR"] + [TermText(t), "AND", TermText(u)]);
  }

  /** `x AND y AND z or t AND u AND v`. */
  lemma TripleOrTriple(opWord: string, op: Operation, table: string, whenWord: string,
      x: Expression, y: Expression, z: Expression, t: Expression, u: Expression, v: Expression)
    requires Header(opWord, op, table, whenWord) && Term(x) && Term(y) && Term(z) && Term(t) && Term(u) && Term(v)
    ensures Compile(RuleText(opWord, table, whenWord, [TermText(x), "AND", TermText(y), "AND", TermText(z)] + ["or"] + [TermText(t), "AND", TermText(u), "AND", TermText(v)])) ==
      Ok(Rule(op, table, NewOr(NewAnd(x).Add(y).Add(z)).Add(NewAnd(t).Add(u).Add(v))))
  {
    ConjThree(x, "AND", y, "AND", z);
    ConjThree(t, "AND", u, "AND", v);
    OneSpace();
    KeywordWords("or");
    CompilesTwo(opWord, op, table, whenWord, Three(x, "AND", y, "AND", z), "or", " ", Three(t, "AND", u, "AND", v), [TermText(x), "AND", TermText(y), "AND", TermText(z)] + ["or"] + [TermText(t), "AND", TermText(u), "AND", TermText(v)]);
  }

  /** `x AND y OR z AND t`. */
  lemma PairOrPair(opWord: string, op: Operation, table: string, whenWord: string,
      x: Expression, y: Expression, z: Expression, t: Expression)
    requires Header(opWord, op, table, whenWord) && Term(x) && Term(y) && Term(z) && Term(t)
    ensures Compile(RuleText(opWord, table, whenWord, [TermText(x), "AND", TermText(y)] + ["OR"] + [TermText(z), "AND", TermText(t)])) ==
      Ok(Rule(op, table, NewOr(NewAnd(x).Add(y)).Add(NewAnd(z).Add(t))))
  {
    ConjTwo(x, "AND", y);
    ConjTwo(z, "AND", t);
    OneSpace();
    KeywordWords("OR");
    CompilesTwo(opWord, op, table, whenWord, AndThen(x, "AND", Single(y)), "OR", " ", AndThen(z, "AND", Single(t)), [TermText(x), "AND", TermText(y)] + ["OR"] + [TermText(z), "AND", TermText(t)]);
  }

  /** `x AND y OR` and two spaces, then `z and t AND u`. */
  lemma PairOrWide(opWord: string, op: Operation, table: string, whenWord: string,
      x: Expression, y: Expression, z: Expression, t: Expression, u: Expression)
    requires Header(opWord, op, table, whenWord) && Term(x) && Term(y) && Term(z) && Term(t) && Term(u)
    ensures Compile(RuleText(opWord, table, whenWord, [TermText(x), "AND", TermText(y)] + ["OR", ""] + [TermText(z), "and", TermText(t), "AND", TermText(u)])) ==
      Ok(Rule(op, table, NewOr(NewAnd(x).Add(y)).Add(NewAnd(z).Add(t).Add(u))))
  {
    ConjTwo(x, "AND", y);
    ConjThree(z, "and", t, "AND", u);
    TwoSpaces();
    KeywordWords("OR");
    CompilesTwo(opWord, op, table, whenWord, AndThen(x, "AND", Single(y)), "OR", "  ", Three(z, "and", t, "AND", u), [TermText(x), "AND", TermText(y)] + ["OR", ""] + [TermText(z), "and", TermText(t), "AND", TermText(u)]);
  }

  /** `a and b AND c OR d AND e OR f and g and h and i`. */
  lemma TripleOrPairOrFour(opWord: string, op: Operation, table: string, whenWord: string,
      a: Expression, b: Expression, c: Expression, d: Expression, e: Expression, f: Expression, g: Expression, h: Expression, i: Expression)
    requires Header(opWord, op, table, whenWord) && Term(a) && Term(b) && Term(c) && Term(d) && Term(e) && Term(f) && Term(g) && Term(h) && Term(i)
    ensures Compile(RuleText(opWord, table, whenWord, [TermText(a), "and", TermText(b), "AND", TermText(c)] + ["OR"] + [TermText(d), "AND", TermText(e)] + ["OR"] + [TermText(f), "and", TermText(g), "and", TermText(h), "and", TermText(i)])) ==
      Ok(Rule(op, table, NewOr(NewAnd(a).Add(b).Add(c)).Add(NewAnd(d).Add(e)).Add(NewAnd(f).Add(g).Add(h).Add(i))))
  {
    ConjThree(a, "and", b, "AND", c);
    ConjTwo(d, "AND", e);
    ConjFour(f, g, h, i);
    FourValue(f, g, h, i);
    CompilesThree(opWord, op, table, whenWord, Three(a, "and", b, "AND", c), AndThen(d, "AND", Single(e)), Four(f, g, h, i), [TermText(a), "and", TermText(b), "AND", TermText(c)] + ["OR"] + [TermText(d), "AND", TermText(e)] + ["OR"] + [TermText(f), "and", TermText(g), "and", TermText(h), "and", TermText(i)]);
  }

  // ---------------------------------------------------------- the cases

  const Yes: Expression := Boolean(true)
  const No: Expression := Boolean(false)

  lemma BooleanTerms()
    ensures Term(Yes) && Term(No) && TermText(Yes) == "true" && TermText(No) == "false"
  {
  }

  lemma XTerms()
    ensures Term(Is("x", 1)) && Term(Is("x", 2)) && Term(IsNot("x", 1))
    ensures TermText(Is("x", 1)) == "x==1" && TermText(Is("x", 2)) == "x==2" && TermText(IsNot("x", 1)) == "x!=1"
  {
    TermIs("x", 1);
    TermIs("x", 2);
    IsWord("x", 1, "1", "x==1");
    IsWord("x", 2, "2", "x==2");
    IsNotWord("x", 1, "1", "x!=1");
  }

  lemma OtherTerms()
    ensures Term(Is("y", 2)) && Term(Is("z", 3)) && Term(Is("v", 4))
    ensures TermText(Is("y", 2)) == "y==2" && TermText(Is("z", 3)) == "z==3" && TermText(Is("v", 4)) == "v==4"
  {
    TermIs("y", 2);
    TermIs("z", 3);
    TermIs("v", 4);
    IsWord("y", 2, "2", "y==2");
    IsWord("z", 3, "3", "z==3");
    IsWord("v", 4, "4", "v==4");
  }

  lemma Shows()
    ensures Is("x", 1).Display() == "x == 1" && Is("x", 2).Display() == "x == 2"
    ensures Is("y", 2).Display() == "y == 2" && Is("z", 3).Display() == "z == 3" && Is("v", 4).Display() == "v == 4"
  {
    IsShown("x", 1, "1", "x == 1");
    IsShown("x", 2, "2", "x == 2");
    IsShown("y", 2, "2", "y == 2");
    IsShown("z", 3, "3", "z == 3");
    IsShown("v", 4, "4", "v == 4");
  }

  /** A lone disjunct prints as its statements joined by ` AND `. */
  lemma LoneShown(value: bool, es: seq<Expression>, shown: seq<string>)
    requires |shown| == |es| && forall i | 0 <= i < |es| :: es[i].Display() == shown[i]
    ensures OrClause(false, false, [AndClause(false, value, es)]).Display() == Join(shown, " AND ")
  {
    AndShown(value, es, shown);
    OrShown([AndClause(false, value, es)], [Join(shown, " AND ")]);
  }

  // ---------------------------------------------------------- printed results

  lemma ConstantPrint(op: Operation, table: string)
    ensures Rule(op, table, OrClause(true, true, [])).Display() == op.Display() + " " + table + " WHEN " + "true"
    ensures Rule(op, table, OrClause(true, false, [])).Display() == op.Display() + " " + table + " WHEN " + "false"
  {
    ConstantShown();
    RulePrint(op, table, OrClause(true, true, []), "true");
    RulePrint(op, table, OrClause(true, false, []), "false");
  }

  lemma XOnePrint(op: Operation, table: string)
    ensures Rule(op, table, OrClause(false, false, [AndClause(false, false, [Is("x", 1)])])).Display() == op.Display() + " " + table + " WHEN " + "x == 1"
  {
    Shows();
    LoneShown(false, [Is("x", 1)], ["x == 1"]);
    RulePrint(op, table, OrClause(false, false, [AndClause(false, false, [Is("x", 1)])]), "x == 1");
  }

  lemma XTwoPrint(op: Operation, table: string)
    ensures Rule(op, table, OrClause(false, false, [AndClause(false, true, [Is("x", 2)])])).Display() == op.Display() + " " + table + " WHEN " + "x == 2"
  {
    FalseDisjunctDropped();
    RulePrint(op, table, OrClause(false, false, [AndClause(false, true, [Is("x", 2)])]), "x == 2");
  }

  lemma TrueFlagsPrint(op: Operation, table: string)
    ensures Rule(op, table, OrClause(false, false, [AndClause(false, true, [Is("x", 1)]), AndClause(false, true, [Is("x", 2)])])).Display() == op.Display() + " " + table + " WHEN " + Join(["x == 1", "x == 2"], " OR ")
  {
    Shows();
    AndShown(true, [Is("x", 1)], ["x == 1"]);
    AndShown(true, [Is("x", 2)], ["x == 2"]);
    OrShown([AndClause(false, true, [Is("x", 1)]), AndClause(false, true, [Is("x", 2)])], ["x == 1", "x == 2"]);
    RulePrint(op, table, OrClause(false, false, [AndClause(false, true, [Is("x", 1)]), AndClause(false, true, [Is("x", 2)])]), Join(["x == 1", "x == 2"], " OR "));
  }

  lemma PairPrint(op: Operation, table: string)
    ensures Rule(op, table, OrClause(false, false, [AndClause(false, false, [Is("x", 1), Is("y", 2)])])).Display() == op.Display() + " " + table + " WHEN " + Join(["x == 1", "y == 2"], " AND ")
  {
    Shows();
    LoneShown(false, [Is("x", 1), Is("y", 2)], ["x == 1", "y == 2"]);
    RulePrint(op, table, OrClause(false, false, [AndClause(false, false, [Is("x", 1), Is("y", 2)])]), Join(["x == 1", "y == 2"], " AND "));
  }

  lemma TriplePrint(op: Operation, table: string)
    ensures Rule(op, table, OrClause(false, false, [AndClause(false, false, [Is("x", 1), Is("y", 2), Is("z", 3)])])).Display() == op.Display() + " " + table + " WHEN " + Join(["x == 1", "y == 2", "z == 3"], " AND ")
  {
    Shows();
    LoneShown(false, [Is("x", 1), Is("y", 2), Is("z", 3)], ["x == 1", "y == 2", "z == 3"]);
    RulePrint(op, table, OrClause(false, false, [AndClause(false, false, [Is("x", 1), Is("y", 2), Is("z", 3)])]), Join(["x == 1", "y == 2", "z == 3"], " AND "));
  }

  lemma QuadruplePrint(op: Operation, table: string)
    ensures Rule(op, table, OrClause(false, false, [AndClause(false, false, [Is("x", 1), Is("y", 2), Is("z", 3), Is("v", 4)])])).Display() == op.Display() + " " + table + " WHEN " + Join(["x == 1", "y == 2", "z == 3", "v == 4"], " AND ")
  {
    Shows();
    LoneShown(false, [Is("x", 1), Is("y", 2), Is("z", 3), Is("v", 4)], ["x == 1", "y == 2", "z == 3", "v == 4"]);
    RulePrint(op, table, OrClause(false, false, [AndClause(false, false, [Is("x", 1), Is("y", 2), Is("z", 3), Is("v", 4)])]), Join(["x == 1", "y == 2", "z == 3", "v == 4"], " AND "));
  }

  // ---------------------------------------------------------- simplified values

  lemma FalseConjunctValue()
    ensures NewOr(NewAnd(Is("x", 1)).Add(No)).Add(NewAnd(Yes)) == OrClause(true, true, [])
  {
    assert NewAnd(Is("x", 1)).Add(No) == AndClause(true, false, []);
    assert NewOr(AndClause(true, false, [])) == OrClause(true, false, []);
    assert NewAnd(Yes) == AndClause(true, true, []);
  }

  lemma FalseConjunctionValue()
    ensures NewOr(NewAnd(No).Add(No).Add(No)).Add(NewAnd(Yes)) == OrClause(true, true, [])
  {
    assert NewAnd(No).Add(No).Add(No) == AndClause(true, false, []);
    assert NewOr(AndClause(true, false, [])) == OrClause(true, false, []);
    assert NewAnd(Yes) == AndClause(true, true, []);
  }

  lemma FalseDisjunctValue()
    ensures NewOr(NewAnd(Yes).Add(No)).Add(NewAnd(Is("x", 1))) ==
      OrClause(false, false, [AndClause(false, false, [Is("x", 1)])])
  {
    assert NewAnd(Yes).Add(No) == AndClause(true, false, []);
    assert NewOr(AndClause(true, false, [])) == OrClause(true, false, []);
    assert NewAnd(Is("x", 1)) == AndClause(false, false, [Is("x", 1)]);
    assert OrScan([], NewAnd(Is("x", 1)), 0) == Fresh;
  }

  lemma TrueFlagsValue()
    ensures NewOr(NewAnd(Yes).Add(Is("x", 1)).Add(Yes)).Add(NewAnd(Yes).Add(Is("x", 2)).Add(Yes)) ==
      OrClause(false, false, [AndClause(false, true, [Is("x", 1)]), AndClause(false, true, [Is("x", 2)])])
  {
    var a := AndClause(false, true, [Is("x", 1)]);
    var b := AndClause(false, true, [Is("x", 2)]);
    assert NewAnd(Yes).Add(Is("x", 1)).Add(Yes) == a;
    assert NewAnd(Yes).Add(Is("x", 2)).Add(Yes) == b;
    assert NewOr(a) == OrClause(false, false, [a]);
    assert !a.Contains(b) by { assert Is("x", 2) !in a.expressions; }
    assert !b.Contains(a) by { assert Is("x", 1) !in b.expressions; }
    assert OrScan([a], b, 0) == Fresh;
  }

  lemma ContradictionValues()
    ensures NewOr(NewAnd(Is("x", 1)).Add(Is("x", 2))) == OrClause(true, false, [])
    ensures NewOr(NewAnd(Is("x", 1)).Add(IsNot("x", 1))) == OrClause(true, false, [])
  {
    ContradictionsAreFalse();
    assert NewOr(AndClause(true, false, [])) == OrClause(true, false, []);
  }

  lemma ComplexValue()
    ensures NewOr(NewAnd(Yes).Add(Is("x", 1)).Add(Yes)).Add(NewAnd(Yes).Add(IsNot("x", 1)).Add(Yes)) ==
      OrClause(true, true, [])
  {
    var a := AndClause(false, true, [Is("x", 1)]);
    var b := AndClause(false, true, [IsNot("x", 1)]);
    assert NewAnd(Yes).Add(Is("x", 1)).Add(Yes) == a;
    assert NewAnd(Yes).Add(IsNot("x", 1)).Add(Yes) == b;
    assert NewOr(a) == OrClause(false, false, [a]);
    assert !a.Contains(b) by { assert IsNot("x", 1) !in a.expressions; }
    assert !b.Contains(a) by { assert Is("x", 1) !in b.expressions; }
    assert Complementary(a, b);
    assert OrScan([a], b, 0) == Covers;
  }

  lemma SubsetFirstTwo()
    ensures NewOr(NewAnd(Is("x", 1)).Add(Is("y", 2)).Add(Is("z", 3))).Add(NewAnd(Is("x", 1)).Add(Is("y", 2))) ==
      OrClause(false, false, [AndClause(false, false, [Is("x", 1), Is("y", 2), Is("z", 3)])])
  {
    var a := AndClause(false, false, [Is("x", 1), Is("y", 2), Is("z", 3)]);
    var b := AndClause(false, false, [Is("x", 1), Is("y", 2)]);
    PairClause(Is("x", 1), Is("y", 2));
    assert Scan(b.expressions, Is("z", 3)) == Miss;
    assert b.Add(Is("z", 3)) == a;
    SingleDisjunct(a);
    assert a.Contains(b);
    assert OrScan([a], b, 0) == Redundant;
  }

  lemma WidenedClause(e: Expression)
    requires e.Statement? && e.field !in {"x", "y", "z"}
    ensures NewAnd(Is("x", 1)).Add(Is("y", 2)).Add(Is("z", 3)).Add(e) ==
      AndClause(false, false, [Is("x", 1), Is("y", 2), Is("z", 3), e])
  {
    PairClause(Is("x", 1), Is("y", 2));
    var a := AndClause(false, false, [Is("x", 1), Is("y", 2), Is("z", 3)]);
    assert Scan(AndClause(false, false, [Is("x", 1), Is("y", 2)]).expressions, Is("z", 3)) == Miss;
    assert Scan(a.expressions, e) == Miss;
  }

  /** A fourth statement on a new field widens `x==1 and y==2 and z==3`, and
      the widened disjunct then takes the place of the stored one. */
  lemma WidenedValue(e: Expression)
    requires e.Statement? && e.field !in {"x", "y", "z"}
    ensures NewOr(NewAnd(Is("x", 1)).Add(Is("y", 2)).Add(Is("z", 3))).Add(NewAnd(Is("x", 1)).Add(Is("y", 2)))
              .Add(NewAnd(Is("x", 1)).Add(Is("y", 2)).Add(Is("z", 3)).Add(e)) ==
      OrClause(false, false, [AndClause(false, false, [Is("x", 1), Is("y", 2), Is("z", 3), e])])
  {
    SubsetFirstTwo();
    WidenedClause(e);
    var a := AndClause(false, false, [Is("x", 1), Is("y", 2), Is("z", 3)]);
    var c := AndClause(false, false, [Is("x", 1), Is("y", 2), Is("z", 3), e]);
    assert !a.Contains(c) by { assert c.expressions[3] == e && e !in a.expressions; }
    assert c.Contains(a);
    assert OrScan([a], c, 0) == Absorbs(0);
  }

  lemma SubsetConflictValue()
    ensures NewOr(NewAnd(Is("x", 1)).Add(Is("y", 2)).Add(Is("z", 3))).Add(NewAnd(Is("x", 1)).Add(Is("y", 2)))
              .Add(NewAnd(Is("x", 1)).Add(Is("y", 2)).Add(Is("z", 3)).Add(Is("x", 2))) ==
      OrClause(false, false, [AndClause(false, false, [Is("x", 1), Is("y", 2), Is("z", 3)])])
  {
    SubsetFirstTwo();
    PairClause(Is("x", 1), Is("y", 2));
    var a := AndClause(false, false, [Is("x", 1), Is("y", 2), Is("z", 3)]);
    assert Scan(AndClause(false, false, [Is("x", 1), Is("y", 2)]).expressions, Is("z", 3)) == Miss;
    assert Scan(a.expressions, Is("x", 2)) == Conflict;
    assert a.Add(Is("x", 2)) == AndClause(true, false, []);
  }

  // ---------------------------------------------------------- the cases

  /** `x==1 AND false OR true` compiles to `true` (lib.rs:601-604). */
  lemma FalseConjunctThenTrue(opWord: string, op: Operation, table: string, whenWord: string)
    requires Header(opWord, op, table, whenWord)
    ensures Compile(RuleText(opWord, table, whenWord, ["x==1", "AND", "false"] + ["OR"] + ["true"])) ==
      Ok(Rule(op, table, OrClause(true, true, [])))
    ensures Rule(op, table, OrClause(true, true, [])).Display() == op.Display() + " " + table + " WHEN " + "true"
  {
    XTerms();
    BooleanTerms();
    PairOrOne(opWord, op, table, whenWord, Is("x", 1), No, Yes);
    FalseConjunctValue();
    ConstantPrint(op, table);
  }

  /** `false AND false AND false OR true` compiles to `true` (lib.rs:605-609). */
  lemma FalseConjunctionThenTrue(opWord: string, op: Operation, table: string, whenWord: string)
    requires Header(opWord, op, table, whenWord)
    ensures Compile(RuleText(opWord, table, whenWord, ["false", "AND", "false", "AND", "false"] + ["OR"] + ["true"])) ==
      Ok(Rule(op, table, OrClause(true, true, [])))
    ensures Rule(op, table, OrClause(true, true, [])).Display() == op.Display() + " " + table + " WHEN " + "true"
  {
    BooleanTerms();
    TripleOrOne(opWord, op, table, whenWord, No, No, No, Yes);
    FalseConjunctionValue();
    ConstantPrint(op, table);
  }

  /** `true AND false OR x==1` compiles to `x == 1`: the false first disjunct
      gives way to the statement (lib.rs:610-613). */
  lemma FalseDisjunctThenStatement(opWord: string, op: Operation, table: string, whenWord: string)
    requires Header(opWord, op, table, whenWord)
    ensures Compile(RuleText(opWord, table, whenWord, ["true", "AND", "false"] + ["OR"] + ["x==1"])) ==
      Ok(Rule(op, table, OrClause(false, false, [AndClause(false, false, [Is("x", 1)])])))
    ensures Rule(op, table, OrClause(false, false, [AndClause(false, false, [Is("x", 1)])])).Display() == op.Display() + " " + table + " WHEN " + "x == 1"
  {
    XTerms();
    BooleanTerms();
    PairOrOne(opWord, op, table, whenWord, Yes, No, Is("x", 1));
    FalseDisjunctValue();
    XOnePrint(op, table);
  }

  /** `false AND x==1 AND true OR true AND x==2` compiles to `x == 2`: AND binds
      tighter than OR (lib.rs:615-619). */
  lemma FalseFirstPrecedence(opWord: string, op: Operation, table: string, whenWord: string)
    requires Header(opWord, op, table, whenWord)
    ensures Compile(RuleText(opWord, table, whenWord, ["false", "AND", "x==1", "AND", "true"] + ["OR"] + ["true", "AND", "x==2"])) ==
      Ok(Rule(op, table, OrClause(false, false, [AndClause(false, true, [Is("x", 2)])])))
    ensures Rule(op, table, OrClause(false, false, [AndClause(false, true, [Is("x", 2)])])).Display() == op.Display() + " " + table + " WHEN " + "x == 2"
  {
    XTerms();
    BooleanTerms();
    TripleOrPair(opWord, op, table, whenWord, No, Is("x", 1), Yes, Yes, Is("x", 2));
    FalseDisjunctDropped();
    XTwoPrint(op, table);
  }

  /** `true AND x==1 AND true or true AND x==2 AND true` compiles to
      `x == 1 OR x == 2` (lib.rs:620-624). */
  lemma TrueFlagsPrecedence(opWord: string, op: Operation, table: string, whenWord: string)
    requires Header(opWord, op, table, whenWord)
    ensures Compile(RuleText(opWord, table, whenWord, ["true", "AND", "x==1", "AND", "true"] + ["or"] + ["true", "AND", "x==2", "AND", "true"])) ==
      Ok(Rule(op, table, OrClause(false, false, [AndClause(false, true, [Is("x", 1)]), AndClause(false, true, [Is("x", 2)])])))
    ensures Rule(op, table, OrClause(false, false, [AndClause(false, true, [Is("x", 1)]), AndClause(false, true, [Is("x", 2)])])).Display() == op.Display() + " " + table + " WHEN " + Join(["x == 1", "x == 2"], " OR ")
  {
    XTerms();
    BooleanTerms();
    TripleOrTriple(opWord, op, table, whenWord, Yes, Is("x", 1), Yes, Yes, Is("x", 2), Yes);
    TrueFlagsValue();
    TrueFlagsPrint(op, table);
  }

  /** `x==1 AND x==1` compiles to `x == 1` (lib.rs:626-629). */
  lemma EquivalentCondition(opWord: string, op: Operation, table: string, whenWord: string)
    requires Header(opWord, op, table, whenWord)
    ensures Compile(RuleText(opWord, table, whenWord, ["x==1", "AND", "x==1"])) ==
      Ok(Rule(op, table, OrClause(false, false, [AndClause(false, false, [Is("x", 1)])])))
    ensures Rule(op, table, OrClause(false, false, [AndClause(false, false, [Is("x", 1)])])).Display() == op.Display() + " " + table + " WHEN " + "x == 1"
  {
    XTerms();
    Pair(opWord, op, table, whenWord, Is("x", 1), Is("x", 1));
    RepeatedStatementKeptOnce();
    SingleDisjunct(AndClause(false, false, [Is("x", 1)]));
    XOnePrint(op, table);
  }

  /** `x==1 AND x==2` compiles to `false` (lib.rs:631-634). */
  lemma EquivalentField(opWord: string, op: Operation, table: string, whenWord: string)
    requires Header(opWord, op, table, whenWord)
    ensures Compile(RuleText(opWord, table, whenWord, ["x==1", "AND", "x==2"])) ==
      Ok(Rule(op, table, OrClause(true, false, [])))
    ensures Rule(op, table, OrClause(true, false, [])).Display() == op.Display() + " " + table + " WHEN " + "false"
  {
    XTerms();
    Pair(opWord, op, table, whenWord, Is("x", 1), Is("x", 2));
    ContradictionValues();
    ConstantPrint(op, table);
  }

  /** `x==1 AND x!=1` compiles to `false` (lib.rs:636-639). */
  lemma ExclusiveField(opWord: string, op: Operation, table: string, whenWord: string)
    requires Header(opWord, op, table, whenWord)
    ensures Compile(RuleText(opWord, table, whenWord, ["x==1", "AND", "x!=1"])) ==
      Ok(Rule(op, table, OrClause(true, false, [])))
    ensures Rule(op, table, OrClause(true, false, [])).Display() == op.Display() + " " + table + " WHEN " + "false"
  {
    XTerms();
    Pair(opWord, op, table, whenWord, Is("x", 1), IsNot("x", 1));
    ContradictionValues();
    ConstantPrint(op, table);
  }

  /** `x==1 OR x!=1` compiles to `true` (lib.rs:641-644). */
  lemma InclusiveField(opWord: string, op: Operation, table: string, whenWord: string)
    requires Header(opWord, op, table, whenWord)
    ensures Compile(RuleText(opWord, table, whenWord, ["x==1"] + ["OR"] + ["x!=1"])) ==
      Ok(Rule(op, table, OrClause(true, true, [])))
    ensures Rule(op, table, OrClause(true, true, [])).Display() == op.Display() + " " + table + " WHEN " + "true"
  {
    XTerms();
    OneOrOne(opWord, op, table, whenWord, Is("x", 1), IsNot("x", 1));
    ComplementIsTrue();
    ConstantPrint(op, table);
  }

  /** `true AND x==1 AND true or true AND x!=1 AND true` compiles to `true`
      (lib.rs:646-650). */
  lemma ComplexComplement(opWord: string, op: Operation, table: string, whenWord: string)
    requires Header(opWord, op, table, whenWord)
    ensures Compile(RuleText(opWord, table, whenWord, ["true", "AND", "x==1", "AND", "true"] + ["or"] + ["true", "AND", "x!=1", "AND", "true"])) ==
      Ok(Rule(op, table, OrClause(true, true, [])))
    ensures Rule(op, table, OrClause(true, true, [])).Display() == op.Display() + " " + table + " WHEN " + "true"
  {
    XTerms();
    BooleanTerms();
    TripleOrTriple(opWord, op, table, whenWord, Yes, Is("x", 1), Yes, Yes, IsNot("x", 1), Yes);
    ComplexValue();
    ConstantPrint(op, table);
  }

  /** `x==1 AND y==2 OR y==2 AND x==1` compiles to `x == 1 AND y == 2`
      (lib.rs:652-656). */
  lemma Reordered(opWord: string, op: Operation, table: string, whenWord: string)
    requires Header(opWord, op, table, whenWord)
    ensures Compile(RuleText(opWord, table, whenWord, ["x==1", "AND", "y==2"] + ["OR"] + ["y==2", "AND", "x==1"])) ==
      Ok(Rule(op, table, OrClause(false, false, [AndClause(false, false, [Is("x", 1), Is("y", 2)])])))
    ensures Rule(op, table, OrClause(false, false, [AndClause(false, false, [Is("x", 1), Is("y", 2)])])).Display() == op.Display() + " " + table + " WHEN " + Join(["x == 1", "y == 2"], " AND ")
  {
    XTerms();
    OtherTerms();
    PairOrPair(opWord, op, table, whenWord, Is("x", 1), Is("y", 2), Is("y", 2), Is("x", 1));
    ReorderedDisjunctDropped();
    PairPrint(op, table);
  }

  /** `x==1 AND y==2 OR  x==1 and y==2 AND z==3`, with two spaces after the
      `OR`, compiles to `x == 1 AND y == 2 AND z == 3` (lib.rs:658-664). */
  lemma SubsetAfterTwoSpaces(opWord: string, op: Operation, table: string, whenWord: string)
    requires Header(opWord, op, table, whenWord)
    ensures Compile(RuleText(opWord, table, whenWord, ["x==1", "AND", "y==2"] + ["OR", ""] + ["x==1", "and", "y==2", "AND", "z==3"])) ==
      Ok(Rule(op, table, OrClause(false, false, [AndClause(false, false, [Is("x", 1), Is("y", 2), Is("z", 3)])])))
    ensures Rule(op, table, OrClause(false, false, [AndClause(false, false, [Is("x", 1), Is("y", 2), Is("z", 3)])])).Display() == op.Display() + " " + table + " WHEN " + Join(["x == 1", "y == 2", "z == 3"], " AND ")
  {
    XTerms();
    OtherTerms();
    PairOrWide(opWord, op, table, whenWord, Is("x", 1), Is("y", 2), Is("x", 1), Is("y", 2), Is("z", 3));
    SupersetDisjunctKept();
    TriplePrint(op, table);
  }

  /** `x==1 and y==2 AND z==3 OR x==1 AND y==2 OR x==1 and y==2 and z==3 and v==4`
      compiles to `x == 1 AND y == 2 AND z == 3 AND v == 4` (lib.rs:665-671). */
  lemma SubsetWidened(opWord: string, op: Operation, table: string, whenWord: string)
    requires Header(opWord, op, table, whenWord)
    ensures Compile(RuleText(opWord, table, whenWord, ["x==1", "and", "y==2", "AND", "z==3"] + ["OR"] + ["x==1", "AND", "y==2"] + ["OR"] +
                             ["x==1", "and", "y==2", "and", "z==3", "and", "v==4"])) ==
      Ok(Rule(op, table, OrClause(false, false, [AndClause(false, false, [Is("x", 1), Is("y", 2), Is("z", 3), Is("v", 4)])])))
    ensures Rule(op, table, OrClause(false, false, [AndClause(false, false, [Is("x", 1), Is("y", 2), Is("z", 3), Is("v", 4)])])).Display() == op.Display() + " " + table + " WHEN " + Join(["x == 1", "y == 2", "z == 3", "v == 4"], " AND ")
  {
    XTerms();
    OtherTerms();
    TripleOrPairOrFour(opWord, op, table, whenWord, Is("x", 1), Is("y", 2), Is("z", 3), Is("x", 1), Is("y", 2),
                       Is("x", 1), Is("y", 2), Is("z", 3), Is("v", 4));
    WidenedValue(Is("v", 4));
    QuadruplePrint(op, table);
  }

  /** The same with `x==2` as the last statement: that disjunct is false and
      leaves the clause as it was, `x == 1 AND y == 2 AND z == 3` (lib.rs:672-678). */
  lemma SubsetConflict(opWord: string, op: Operation, table: string, whenWord: string)
    requires Header(opWord, op, table, whenWord)
    ensures Compile(RuleText(opWord, table, whenWord, ["x==1", "and", "y==2", "AND", "z==3"] + ["OR"] + ["x==1", "AND", "y==2"] + ["OR"] +
                             ["x==1", "and", "y==2", "and", "z==3", "and", "x==2"])) ==
      Ok(Rule(op, table, OrClause(false, false, [AndClause(false, false, [Is("x", 1), Is("y", 2), Is("z", 3)])])))
    ensures Rule(op, table, OrClause(false, false, [AndClause(false, false, [Is("x", 1), Is("y", 2), Is("z", 3)])])).Display() == op.Display() + " " + table + " WHEN " + Join(["x == 1", "y == 2", "z == 3"], " AND ")
  {
    XTerms();
    OtherTerms();
    TripleOrPairOrFour(opWord, op, table, whenWord, Is("x", 1), Is("y", 2), Is("z", 3), Is("x", 1), Is("y", 2),
                       Is("x", 1), Is("y", 2), Is("z", 3), Is("x", 2));
    SubsetConflictValue();
    TriplePrint(op, table);
  }

  // ---------------------------------------------------------- the sensor's encoding test

  lemma QuotedTerm()
    ensures Term(Statement("a", Equal, String("2"))) && TermText(Statement("a", Equal, String("2"))) == "a==\"2\""
  {
    assert String("2").Display() == "\"2\"";
    assert RuleParserProperties.IsLiteralText("2");
  }

  /** The rule of the sensor's `test_error_missing_fields`,
      `x==1 and y==2 AND z==3 OR x==1 AND y==2 OR x==1 and y==2 and z==3 and a=="2"`,
      compiles to the one disjunct `x == 1 AND y == 2 AND z == 3 AND a == "2"`
      (src/tests.rs:7). */
  lemma MissingFieldsCompiles(opWord: string, op: Operation, table: string, whenWord: string)
    requires Header(opWord, op, table, whenWord)
    ensures Compile(RuleText(opWord, table, whenWord,
                             ["x==1", "and", "y==2", "AND", "z==3"] + ["OR"] + ["x==1", "AND", "y==2"] + ["OR"] +
                             ["x==1", "and", "y==2", "and", "z==3", "and", "a==\"2\""])) ==
      Ok(Rule(op, table, OrClause(false, false, [AndClause(false, false, [Is("x", 1), Is("y", 2), Is("z", 3), Statement("a", Equal, String("2"))])])))
  {
    XTerms();
    OtherTerms();
    QuotedTerm();
    TripleOrPairOrFour(opWord, op, table, whenWord, Is("x", 1), Is("y", 2), Is("z", 3), Is("x", 1), Is("y", 2),
                       Is("x", 1), Is("y", 2), Is("z", 3), Statement("a", Equal, String("2")));
    WidenedValue(Statement("a", Equal, String("2")));
  }
}
