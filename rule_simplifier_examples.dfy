/** The simplifications the rule compiler's own tests expect (rule-compiler/src/lib.rs:579-679),
    stated on the clauses the parser builds, and three consequences of the
    simplifier as written. The subset test asserts the narrowing that
    `SupersetNarrowsDisjunction` exhibits on an event; no test shows that the
    complement collapse ignores values (`ComplementIgnoresValues`) or that a
    stale `value` flag keeps a duplicate (`StaleValueKeepsDuplicate`). */
module RuleSimplifierExamples {
  import opened Text
  import opened RuleAst
  import opened RuleSimplifier

  function Is(f: string, n: u64): Expression { Statement(f, Equal, Number(n)) }
  function IsNot(f: string, n: u64): Expression { Statement(f, NotEqual, Number(n)) }

  /** `x==1 AND x==1` keeps one statement. */
  lemma RepeatedStatementKeptOnce()
    ensures NewAnd(Is("x", 1)).Add(Is("x", 1)) == AndClause(false, false, [Is("x", 1)])
  {
  }

  /** `x==1 AND x==2` and `x==1 AND x!=1` are false. */
  lemma ContradictionsAreFalse()
    ensures NewAnd(Is("x", 1)).Add(Is("x", 2)) == AndClause(true, false, [])
    ensures NewAnd(Is("x", 1)).Add(IsNot("x", 1)) == AndClause(true, false, [])
  {
  }

  /** `x==1 OR x!=1` is true. */
  lemma ComplementIsTrue()
    ensures NewOr(NewAnd(Is("x", 1))).Add(NewAnd(IsNot("x", 1))) == OrClause(true, true, [])
  {
  }

  lemma PairClause(e1: Expression, e2: Expression)
    requires e1.Statement? && e2.Statement? && e1.field != e2.field
    ensures NewAnd(e1).Add(e2) == AndClause(false, false, [e1, e2])
  {
    assert NewAnd(e1) == AndClause(false, false, [e1]);
    assert Scan([e1], e2) == Miss;
  }

  lemma SingleDisjunct(c: AndClause)
    requires !c.truthy
    ensures NewOr(c) == OrClause(false, false, [c])
  {
  }

  /** `x==1 AND y==2 OR y==2 AND x==1` keeps the first disjunct only. */
  lemma ReorderedDisjunctDropped()
    ensures NewOr(NewAnd(Is("x", 1)).Add(Is("y", 2))).Add(NewAnd(Is("y", 2)).Add(Is("x", 1)))
         == OrClause(false, false, [AndClause(false, false, [Is("x", 1), Is("y", 2)])])
  {
    var a := AndClause(false, false, [Is("x", 1), Is("y", 2)]);
    var b := AndClause(false, false, [Is("y", 2), Is("x", 1)]);
    PairClause(Is("x", 1), Is("y", 2));
    PairClause(Is("y", 2), Is("x", 1));
    SingleDisjunct(a);
    assert a.Contains(b);
    assert OrScan([a], b, 0) == Redundant;
  }

  /** `x==1 AND y==2 OR x==1 AND y==2 AND z==3` keeps the larger disjunct. */
  lemma SupersetDisjunctKept()
    ensures NewOr(NewAnd(Is("x", 1)).Add(Is("y", 2))).Add(NewAnd(Is("x", 1)).Add(Is("y", 2)).Add(Is("z", 3)))
         == OrClause(false, false, [AndClause(false, false, [Is("x", 1), Is("y", 2), Is("z", 3)])])
  {
    var a := AndClause(false, false, [Is("x", 1), Is("y", 2)]);
    var b := AndClause(false, false, [Is("x", 1), Is("y", 2), Is("z", 3)]);
    PairClause(Is("x", 1), Is("y", 2));
    assert Scan(a.expressions, Is("z", 3)) == Miss;
    assert a.Add(Is("z", 3)) == b;
    SingleDisjunct(a);
    assert Is("z", 3) !in a.expressions;
    assert !a.Contains(b) by { assert b.expressions[2] == Is("z", 3); }
    assert b.Contains(a);
    assert OrScan([a], b, 0) == Absorbs(0);
  }

  /** `false AND x==1 AND true OR true AND x==2` is `x == 2`: AND binds tighter,
      a false disjunct is dropped. */
  lemma FalseDisjunctDropped()
    ensures NewOr(NewAnd(Boolean(false)).Add(Is("x", 1)).Add(Boolean(true)))
              .Add(NewAnd(Boolean(true)).Add(Is("x", 2)))
         == OrClause(false, false, [AndClause(false, true, [Is("x", 2)])])
    ensures OrClause(false, false, [AndClause(false, true, [Is("x", 2)])]).Display() == "x == 2"
  {
    assert NewAnd(Boolean(false)).Add(Is("x", 1)).Add(Boolean(true)) == AndClause(true, false, []);
    var o := NewOr(AndClause(true, false, []));
    assert o == OrClause(true, false, []);
    assert NewAnd(Boolean(true)) == AndClause(true, true, []);
    var b := AndClause(false, true, [Is("x", 2)]);
    assert NewAnd(Boolean(true)).Add(Is("x", 2)) == b;
    assert OrScan([], b, 0) == Fresh;
    assert Is("x", 2).Display() == "x == 2";
  }

  /** The complement collapse ignores the values: `x==1 OR x!=2` becomes true,
      although an event with x = 2 satisfies neither disjunct. */
  lemma ComplementIgnoresValues()
    ensures NewOr(NewAnd(Is("x", 1))).Add(NewAnd(IsNot("x", 2))) == OrClause(true, true, [])
    ensures var ev: Event := f => Number(2);
            !NewAnd(Is("x", 1)).Holds(ev) && !NewAnd(IsNot("x", 2)).Holds(ev)
  {
  }

  /** Absorbing keeps the stricter disjunct: `x==1 OR x==1 AND y==2` becomes
      `x == 1 AND y == 2`, which an event with x = 1 and y = 3 no longer satisfies. */
  lemma SupersetNarrowsDisjunction()
    ensures NewOr(NewAnd(Is("x", 1))).Add(NewAnd(Is("x", 1)).Add(Is("y", 2)))
         == OrClause(false, false, [AndClause(false, false, [Is("x", 1), Is("y", 2)])])
    ensures var ev: Event := f => if f == "x" then Number(1) else Number(3);
            NewOr(NewAnd(Is("x", 1))).Holds(ev) &&
            !OrClause(false, false, [AndClause(false, false, [Is("x", 1), Is("y", 2)])]).Holds(ev)
  {
    var a := AndClause(false, false, [Is("x", 1)]);
    var b := AndClause(false, false, [Is("x", 1), Is("y", 2)]);
    PairClause(Is("x", 1), Is("y", 2));
    SingleDisjunct(a);
    assert !a.Contains(b) by { assert b.expressions[1] == Is("y", 2); }
    assert b.Contains(a);
    assert OrScan([a], b, 0) == Absorbs(0);
    var ev: Event := f => if f == "x" then Number(1) else Number(3);
    assert NewAnd(Is("x", 1)).Holds(ev);
    assert NewOr(NewAnd(Is("x", 1))).subclauses[0] == NewAnd(Is("x", 1));
    assert !ExpressionHolds(Is("y", 2), ev);
  }

  /** The `value` flag left behind by a leading `true` makes two equal clauses
      differ: `x==1 OR true AND x==1` keeps both disjuncts. */
  lemma StaleValueKeepsDuplicate()
    ensures NewAnd(Boolean(true)).Add(Is("x", 1)) == AndClause(false, true, [Is("x", 1)])
    ensures NewOr(NewAnd(Is("x", 1))).Add(NewAnd(Boolean(true)).Add(Is("x", 1))).subclauses
         == [AndClause(false, false, [Is("x", 1)]), AndClause(false, true, [Is("x", 1)])]
  {
  }
}
