/** The clause simplifier of the older in-tree compiler (src/rules.rs):
    `AndClause::add` and `OrClause::add` run the same folding, duplicate and
    contradiction rules as the rule compiler's, over expressions whose atoms
    may also be booleans.

    `AndClause` and `OrClause` are the values and their `Add` functions the
    specification; the classes `AndAccumulator` and `OrAccumulator` carry the
    additions out in place. The second half of the module proves that, on
    every expression the rule compiler can also write, the two simplifiers
    give the same clauses and print them the same way. */
module LegacySimplifier {
  import opened Wrappers
  import opened Text
  import opened LegacyAst
  import RuleAst
  import RS = RuleSimplifier

  /** The contradictions `AndClause::add` detects: `==` twice on one field, or
      `==` and `!=` on one field with the same value. */
  predicate Clash(existing: Expression, added: Expression)
  {
    existing.Statement? && added.Statement? && existing.field == added.field &&
    ((existing.operator == RuleAst.Equal && added.operator == RuleAst.Equal) ||
     (existing.operator != added.operator && existing.atom == added.atom))
  }

  /** A constant `true` or `false`. */
  predicate IsBoolean(e: Expression)
  {
    e.Constant? && e.atom.Boolean?
  }

  /** The scan of `AndClause::add`: the first stored expression identical to
      the new one, or clashing with it. */
  function Scan(exprs: seq<Expression>, e: Expression): (h: RS.Hit)
    ensures h == RS.Miss <==> forall i | 0 <= i < |exprs| :: exprs[i] != e && !Clash(exprs[i], e)
    ensures h == RS.Duplicate ==> e in exprs
  {
    if exprs == [] then RS.Miss
    else if exprs[0] == e then RS.Duplicate
    else if Clash(exprs[0], e) then RS.Conflict
    else
      var h := Scan(exprs[1..], e);
      assert forall i | 1 <= i < |exprs| :: exprs[i] == exprs[1..][i - 1];
      h
  }

  function AllIn(xs: seq<Expression>, ys: seq<Expression>): (r: bool)
    ensures r <==> forall i | 0 <= i < |xs| :: xs[i] in ys
  {
    if xs == [] then true
    else
      var r := xs[0] in ys && AllIn(xs[1..], ys);
      assert forall i | 1 <= i < |xs| :: xs[i] == xs[1..][i - 1];
      r
  }

  datatype AndClause = AndClause(truthy: bool, value: bool, expressions: seq<Expression>)
  {
    function TryEvaluate(): Option<bool>
    {
      if truthy then Some(value) else None
    }

    function TryReduce(): Option<Expression>
    {
      if |expressions| == 1 then Some(expressions[0]) else None
    }

    /** `AndClause::add`. Only a boolean constant is folded; any other
        expression, a number or string constant included, goes through the
        scan. The expressions are kept, emptied or extended by `e`, and an
        added non-boolean expression is held unless the clause became constant. */
    function Add(e: Expression): (r: AndClause)
      ensures r.expressions == expressions || r.expressions == [] || r.expressions == expressions + [e]
      ensures !IsBoolean(e) && !r.truthy ==> e in r.expressions
    {
      if truthy && !value then this
      else if IsBoolean(e) then
        if !e.atom.b then AndClause(true, false, [])
        else if |expressions| == 0 then AndClause(true, true, expressions)
        else this
      else match Scan(expressions, e)
        case Duplicate => this.(truthy := false)
        case Conflict => AndClause(true, false, [])
        case Miss => AndClause(false, value, expressions + [e])
    }

    /** `AndClause::contains`. */
    function Contains(other: AndClause): (r: bool)
      ensures r <==> truthy == other.truthy && value == other.value &&
                     forall i | 0 <= i < |other.expressions| :: other.expressions[i] in expressions
    {
      truthy == other.truthy && value == other.value && AllIn(other.expressions, expressions)
    }

    /** `AndClause::take`. */
    function Take(other: AndClause): AndClause
    {
      this.(expressions := other.expressions)
    }

    function Display(): string
    {
      if truthy then (if value then "true" else "false")
      else Join(seq(|expressions|, i requires 0 <= i < |expressions| => expressions[i].Display()), " AND ")
    }

    /** A constant holds no expressions; none of the stored expressions is a
        boolean constant, and no two are equal or clash. */
    predicate Wf()
    {
      (truthy ==> expressions == []) &&
      (forall i | 0 <= i < |expressions| :: !IsBoolean(expressions[i])) &&
      (forall i, j | 0 <= i < j < |expressions| ::
         expressions[i] != expressions[j] && !Clash(expressions[i], expressions[j]))
    }

    predicate Settled()
    {
      truthy || expressions != []
    }
  }

  const EmptyAnd := AndClause(false, false, [])

  /** `AndClause::new`. */
  function NewAnd(e: Expression): AndClause
  {
    EmptyAnd.Add(e)
  }

  /** Adding keeps a clause well formed, and settles it. */
  lemma AndAddKeepsWf(c: AndClause, e: Expression)
    requires c.Wf()
    ensures c.Add(e).Wf() && c.Add(e).Settled()
  {
    if !(c.truthy && !c.value) && !IsBoolean(e) && Scan(c.expressions, e) == RS.Miss {
      var r := c.Add(e);
      assert r.expressions == c.expressions + [e];
      forall i, j | 0 <= i < j < |r.expressions|
        ensures r.expressions[i] != r.expressions[j] && !Clash(r.expressions[i], r.expressions[j])
      {
        if j == |c.expressions| {
          assert r.expressions[j] == e && r.expressions[i] == c.expressions[i];
        }
      }
    }
  }

  /** The pair `OrClause::add` collapses to true: one-statement clauses on the
      same field with different operators, whatever the values. */
  predicate Complementary(existing: AndClause, added: AndClause)
  {
    existing.TryReduce().Some? && added.TryReduce().Some? &&
    var e1, e2 := existing.TryReduce().value, added.TryReduce().value;
    e1.Statement? && e2.Statement? && e1.field == e2.field && e1.operator != e2.operator
  }

  /** The scan of `OrClause::add`. */
  function OrScan(subs: seq<AndClause>, sub: AndClause, from: nat): (h: RS.OrHit)
    requires from <= |subs|
    ensures h.Absorbs? ==> from <= h.index < |subs|
    decreases |subs| - from
  {
    if from == |subs| then RS.Fresh
    else if subs[from].Contains(sub) then RS.Redundant
    else if sub.Contains(subs[from]) then RS.Absorbs(from)
    else if Complementary(subs[from], sub) then RS.Covers
    else OrScan(subs, sub, from + 1)
  }

  datatype OrClause = OrClause(truthy: bool, value: bool, subclauses: seq<AndClause>)
  {
    /** `OrClause::add`: unless the result is constant, the disjuncts keep
        their number or gain `sub` at the end. */
    function Add(sub: AndClause): (r: OrClause)
      ensures r.truthy || |r.subclauses| == |subclauses| || r.subclauses == subclauses + [sub]
    {
      if truthy && value then this
      else match sub.TryEvaluate()
        case Some(b) =>
          if b then OrClause(true, true, [])
          else if |subclauses| == 0 then OrClause(true, false, subclauses)
          else this
        case None =>
          match OrScan(subclauses, sub, 0)
          case Redundant => this.(truthy := false)
          case Absorbs(j) => OrClause(false, value, subclauses[j := subclauses[j].Take(sub)])
          case Covers => OrClause(true, true, [])
          case Fresh => OrClause(false, value, subclauses + [sub])
    }

    function Display(): string
    {
      if truthy then (if value then "true" else "false")
      else Join(seq(|subclauses|, i requires 0 <= i < |subclauses| => subclauses[i].Display()), " OR ")
    }

    predicate Wf()
    {
      (truthy ==> subclauses == []) &&
      forall i | 0 <= i < |subclauses| ::
        !subclauses[i].truthy && subclauses[i].Wf() && subclauses[i].expressions != []
    }
  }

  const EmptyOr := OrClause(false, false, [])

  /** `OrClause::new`. */
  function NewOr(sub: AndClause): OrClause
  {
    EmptyOr.Add(sub)
  }

  lemma OrAddKeepsWf(o: OrClause, sub: AndClause)
    requires o.Wf() && sub.Wf() && sub.Settled()
    ensures o.Add(sub).Wf()
  {
  }

  // ------------------------------------------- agreement with the rule compiler

  /** The expressions the rule compiler can also write: boolean constants and
      statements on a string or a number. */
  predicate Liftable(e: Expression)
  {
    IsBoolean(e) || (e.Statement? && !e.atom.Boolean?)
  }

  predicate AllLiftable(exprs: seq<Expression>)
  {
    forall i | 0 <= i < |exprs| :: Liftable(exprs[i])
  }

  function LiftAtom(a: Atom): RuleAst.Atom
    requires !a.Boolean?
  {
    match a
    case String(s) => RuleAst.String(s)
    case Number(n) => RuleAst.Number(n)
  }

  /** The rule compiler's expression for a liftable one. */
  function Lift(e: Expression): RuleAst.Expression
    requires Liftable(e)
  {
    if IsBoolean(e) then RuleAst.Boolean(e.atom.b)
    else RuleAst.Statement(e.field, e.operator, LiftAtom(e.atom))
  }

  function LiftAll(exprs: seq<Expression>): (r: seq<RuleAst.Expression>)
    requires AllLiftable(exprs)
    ensures |r| == |exprs|
  {
    seq(|exprs|, i requires 0 <= i < |exprs| => Lift(exprs[i]))
  }

  function LiftAnd(c: AndClause): RS.AndClause
    requires AllLiftable(c.expressions)
  {
    RS.AndClause(c.truthy, c.value, LiftAll(c.expressions))
  }

  predicate OrLiftable(o: OrClause)
  {
    forall i | 0 <= i < |o.subclauses| :: AllLiftable(o.subclauses[i].expressions)
  }

  function LiftOr(o: OrClause): RS.OrClause
    requires OrLiftable(o)
  {
    RS.OrClause(o.truthy, o.value, seq(|o.subclauses|, i requires 0 <= i < |o.subclauses| => LiftAnd(o.subclauses[i])))
  }

  /** Lifting tells expressions apart, keeps clashes and keeps the printed text. */
  lemma LiftFaithful(a: Expression, b: Expression)
    requires Liftable(a) && Liftable(b)
    ensures Lift(a) == Lift(b) <==> a == b
    ensures RS.Clash(Lift(a), Lift(b)) <==> Clash(a, b)
    ensures Lift(a).Display() == a.Display()
  {
  }

  lemma {:induction false} ScanAgrees(exprs: seq<Expression>, e: Expression)
    requires AllLiftable(exprs) && Liftable(e)
    ensures RS.Scan(LiftAll(exprs), Lift(e)) == Scan(exprs, e)
  {
    if exprs != [] {
      LiftFaithful(exprs[0], e);
      assert LiftAll(exprs)[1..] == LiftAll(exprs[1..]);
      ScanAgrees(exprs[1..], e);
    }
  }

  lemma LiftAllAppend(exprs: seq<Expression>, e: Expression)
    requires AllLiftable(exprs) && Liftable(e)
    ensures AllLiftable(exprs + [e]) && LiftAll(exprs + [e]) == LiftAll(exprs) + [Lift(e)]
  {
  }

  /** On liftable input, `AndClause::add` of src/rules.rs gives the clause the
      rule compiler's `AndClause::add` gives. */
  lemma AndAddAgrees(c: AndClause, e: Expression)
    requires AllLiftable(c.expressions) && Liftable(e)
    ensures AllLiftable(c.Add(e).expressions)
    ensures LiftAnd(c.Add(e)) == LiftAnd(c).Add(Lift(e))
  {
    ScanAgrees(c.expressions, e);
    if !(c.truthy && !c.value) && !IsBoolean(e) && Scan(c.expressions, e) == RS.Miss {
      LiftAllAppend(c.expressions, e);
    }
  }

  lemma {:induction false} ContainsAgrees(a: AndClause, b: AndClause)
    requires AllLiftable(a.expressions) && AllLiftable(b.expressions)
    ensures LiftAnd(a).Contains(LiftAnd(b)) == a.Contains(b)
  {
    var la, lb := LiftAll(a.expressions), LiftAll(b.expressions);
    forall i | 0 <= i < |b.expressions|
      ensures lb[i] in la <==> b.expressions[i] in a.expressions
    {
      if b.expressions[i] in a.expressions {
        var k :| 0 <= k < |a.expressions| && a.expressions[k] == b.expressions[i];
        assert la[k] == lb[i];
      }
      if lb[i] in la {
        var k :| 0 <= k < |la| && la[k] == lb[i];
        LiftFaithful(a.expressions[k], b.expressions[i]);
      }
    }
  }

  lemma ComplementaryAgrees(a: AndClause, b: AndClause)
    requires AllLiftable(a.expressions) && AllLiftable(b.expressions)
    ensures RS.Complementary(LiftAnd(a), LiftAnd(b)) == Complementary(a, b)
  {
  }

  lemma {:induction false} OrScanAgrees(o: OrClause, sub: AndClause, from: nat)
    requires OrLiftable(o) && AllLiftable(sub.expressions) && from <= |o.subclauses|
    ensures RS.OrScan(LiftOr(o).subclauses, LiftAnd(sub), from) == OrScan(o.subclauses, sub, from)
    decreases |o.subclauses| - from
  {
    if from < |o.subclauses| {
      ContainsAgrees(o.subclauses[from], sub);
      ContainsAgrees(sub, o.subclauses[from]);
      ComplementaryAgrees(o.subclauses[from], sub);
      OrScanAgrees(o, sub, from + 1);
    }
  }

  /** On liftable input, `OrClause::add` of src/rules.rs gives the clause the
      rule compiler's `OrClause::add` gives. */
  lemma OrAddAgrees(o: OrClause, sub: AndClause)
    requires OrLiftable(o) && AllLiftable(sub.expressions)
    ensures OrLiftable(o.Add(sub))
    ensures LiftOr(o.Add(sub)) == LiftOr(o).Add(LiftAnd(sub))
  {
    OrScanAgrees(o, sub, 0);
    var r := o.Add(sub);
    var l := LiftOr(o).Add(LiftAnd(sub));
    if !(o.truthy && o.value) && !sub.truthy {
      match OrScan(o.subclauses, sub, 0)
      case Absorbs(j) =>
        assert LiftOr(r).subclauses == l.subclauses;
      case Fresh =>
        assert LiftOr(r).subclauses == l.subclauses;
      case _ =>
    }
  }

  /** The clauses print the same text as their rule-compiler counterparts. */
  lemma AndDisplayAgrees(c: AndClause)
    requires AllLiftable(c.expressions)
    ensures LiftAnd(c).Display() == c.Display()
  {
    var l := LiftAnd(c);
    forall i | 0 <= i < |c.expressions| ensures l.expressions[i].Display() == c.expressions[i].Display() {
      LiftFaithful(c.expressions[i], c.expressions[i]);
    }
    assert seq(|l.expressions|, i requires 0 <= i < |l.expressions| => l.expressions[i].Display()) ==
           seq(|c.expressions|, i requires 0 <= i < |c.expressions| => c.expressions[i].Display());
  }

  lemma OrDisplayAgrees(o: OrClause)
    requires OrLiftable(o)
    ensures LiftOr(o).Display() == o.Display()
  {
    var l := LiftOr(o);
    forall i | 0 <= i < |o.subclauses| ensures l.subclauses[i].Display() == o.subclauses[i].Display() {
      AndDisplayAgrees(o.subclauses[i]);
    }
    assert seq(|l.subclauses|, i requires 0 <= i < |l.subclauses| => l.subclauses[i].Display()) ==
           seq(|o.subclauses|, i requires 0 <= i < |o.subclauses| => o.subclauses[i].Display());
  }

  // ------------------------------------------------------- in-place versions

  /** `AndClause` as the object the parser's fold updates. */
  class AndAccumulator {
    var truthy: bool
    var value: bool
    var expressions: seq<Expression>

    function Snapshot(): AndClause
      reads this
    {
      AndClause(truthy, value, expressions)
    }

    /** `AndClause::new`. */
    constructor (e: Expression)
      ensures Snapshot() == NewAnd(e)
    {
      truthy, value, expressions := false, false, [];
      new;
      Add(e);
    }

    /** `AndClause::add`, with the scan over the stored expressions. */
    method Add(e: Expression)
      modifies this
      ensures Snapshot() == old(Snapshot()).Add(e)
    {
      if truthy && !value {
        return;
      }
      if e.Constant? && e.atom.Boolean? {
        if !e.atom.b {
          expressions, truthy, value := [], true, false;
          return;
        }
        if |expressions| == 0 {
          truthy, value := true, true;
        }
        return;
      }
      truthy := false;
      var conflicts := false;
      var i := 0;
      while i < |expressions|
        invariant 0 <= i <= |expressions|
        invariant Scan(expressions, e) == Scan(expressions[i..], e)
      {
        if expressions[i] == e {
          return;
        }
        match (expressions[i], e) {
          case (Statement(f1, Equal, _), Statement(f2, Equal, _)) =>
            if f1 == f2 {
              conflicts := true;
              break;
            }
          case (Statement(f1, Equal, v1), Statement(f2, NotEqual, v2)) =>
            if f1 == f2 && v1 == v2 {
              conflicts := true;
              break;
            }
          case (Statement(f1, NotEqual, v1), Statement(f2, Equal, v2)) =>
            if f1 == f2 && v1 == v2 {
              conflicts := true;
              break;
            }
          case _ =>
        }
        assert expressions[i..][1..] == expressions[i + 1..];
        i := i + 1;
      }
      if conflicts {
        expressions, truthy, value := [], true, false;
        return;
      }
      expressions := expressions + [e];
    }
  }

  /** `OrClause` as the object the parser's fold updates. */
  class OrAccumulator {
    var truthy: bool
    var value: bool
    var subclauses: seq<AndClause>

    function Snapshot(): OrClause
      reads this
    {
      OrClause(truthy, value, subclauses)
    }

    /** `OrClause::new`. */
    constructor (sub: AndClause)
      ensures Snapshot() == NewOr(sub)
    {
      truthy, value, subclauses := false, false, [];
      new;
      Add(sub);
    }

    /** `OrClause::add`; a disjunct the new clause contains is overwritten in place. */
    method Add(sub: AndClause)
      modifies this
      ensures Snapshot() == old(Snapshot()).Add(sub)
    {
      if truthy && value {
        return;
      }
      if sub.truthy {
        if sub.value {
          subclauses, truthy, value := [], true, true;
          return;
        }
        if |subclauses| == 0 {
          truthy, value := true, false;
        }
        return;
      }
      truthy := false;
      var reduced := false;
      var i := 0;
      while i < |subclauses|
        invariant 0 <= i <= |subclauses|
        invariant OrScan(subclauses, sub, 0) == OrScan(subclauses, sub, i)
      {
        var clause := subclauses[i];
        if clause.Contains(sub) {
          return;
        }
        if sub.Contains(clause) {
          subclauses := subclauses[i := clause.Take(sub)];
          return;
        }
        match (clause.TryReduce(), sub.TryReduce()) {
          case (Some(Statement(f1, Equal, _)), Some(Statement(f2, NotEqual, _))) =>
            if f1 == f2 {
              reduced := true;
              break;
            }
          case (Some(Statement(f1, NotEqual, _)), Some(Statement(f2, Equal, _))) =>
            if f1 == f2 {
              reduced := true;
              break;
            }
          case _ =>
        }
        i := i + 1;
      }
      if reduced {
        subclauses, truthy, value := [], true, true;
        return;
      }
      subclauses := subclauses + [sub];
    }
  }
}
