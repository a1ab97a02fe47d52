/** The clause simplifier of the rule compiler (rule-compiler/src/lib.rs):
    an AND clause and an OR clause that fold constants, drop duplicates and
    detect contradictions while the parser adds expressions to them.

    `AndClause` and `OrClause` are the values; their `Add` functions are the
    specification of `AndClause::add` and `OrClause::add`, which the classes
    `AndAccumulator` and `OrAccumulator` carry out in place, loop and all. */
module RuleSimplifier {
  import opened Wrappers
  import opened Text
  import opened RuleAst

  /** Two statements that `AndClause::add` treats as contradictory: `==` twice
      on one field (whatever the values), or `==` and `!=` on one field with the
      same value, in either order. */
  predicate Clash(existing: Expression, added: Expression)
  {
    existing.Statement? && added.Statement? && existing.field == added.field &&
    ((existing.operator == Equal && added.operator == Equal) ||
     (existing.operator != added.operator && existing.atom == added.atom))
  }

  datatype Hit = Miss | Duplicate | Conflict

  /** What the scan in `AndClause::add` finds: the first stored expression that
      is identical to the new one (a no-op) or clashes with it (a contradiction). */
  function Scan(exprs: seq<Expression>, e: Expression): (h: Hit)
    ensures h == Miss <==> forall i | 0 <= i < |exprs| :: exprs[i] != e && !Clash(exprs[i], e)
    ensures h == Duplicate ==> e in exprs
    ensures h == Conflict ==> exists i | 0 <= i < |exprs| :: exprs[i] != e && Clash(exprs[i], e)
  {
    if exprs == [] then Miss
    else if exprs[0] == e then Duplicate
    else if Clash(exprs[0], e) then Conflict
    else
      var h := Scan(exprs[1..], e);
      assert forall i | 1 <= i < |exprs| :: exprs[i] == exprs[1..][i - 1];
      h
  }

  /** One step of the scan. */
  lemma ScanHead(exprs: seq<Expression>, e: Expression)
    requires exprs != []
    ensures Scan(exprs, e) ==
      if exprs[0] == e then Duplicate else if Clash(exprs[0], e) then Conflict else Scan(exprs[1..], e)
  {
  }

  /** `xs.iter().find(|x| !ys.contains(x)).is_none()`. */
  function AllIn(xs: seq<Expression>, ys: seq<Expression>): (r: bool)
    ensures r <==> forall i | 0 <= i < |xs| :: xs[i] in ys
  {
    if xs == [] then true
    else
      var r := xs[0] in ys && AllIn(xs[1..], ys);
      assert forall i | 1 <= i < |xs| :: xs[i] == xs[1..][i - 1];
      r
  }

  /** An event gives each field a single value; the model's meaning of a condition. */
  type Event = string -> Atom

  predicate ExpressionHolds(e: Expression, ev: Event)
  {
    match e
    case Boolean(b) => b
    case Statement(f, Equal, a) => ev(f) == a
    case Statement(f, NotEqual, a) => ev(f) != a
  }

  predicate AllHold(exprs: seq<Expression>, ev: Event)
  {
    forall i | 0 <= i < |exprs| :: ExpressionHolds(exprs[i], ev)
  }

  /** `truthy` says the clause has been reduced to the constant `value`;
      otherwise it is the conjunction of `expressions`. */
  datatype AndClause = AndClause(truthy: bool, value: bool, expressions: seq<Expression>)
  {
    function TryEvaluate(): Option<bool>
    {
      if truthy then Some(value) else None
    }

    function TryReduce(): Option<Expression>
    {
      if |expressions| == 1 then Some(expressions[0]) else None
    }

    /** `AndClause::add`: the expressions are kept, emptied or extended by
        `e`, and an added statement is held unless the clause became constant. */
    function Add(e: Expression): (r: AndClause)
      ensures r.expressions == expressions || r.expressions == [] || r.expressions == expressions + [e]
      ensures e.Statement? && !r.truthy ==> e in r.expressions
    {
      if truthy && !value then this
      else match e
        case Boolean(b) =>
          if !b then AndClause(true, false, [])
          else if |expressions| == 0 then AndClause(true, true, expressions)
          else this
        case Statement(_, _, _) =>
          match Scan(expressions, e)
          case Duplicate => this.(truthy := false)
          case Conflict => AndClause(true, false, [])
          case Miss => AndClause(false, value, expressions + [e])
    }

    /** `AndClause::contains`: same constant flags, and every expression of
        `other` occurs here. */
    function Contains(other: AndClause): (r: bool)
      ensures r <==> truthy == other.truthy && value == other.value &&
                     forall i | 0 <= i < |other.expressions| :: other.expressions[i] in expressions
    {
      truthy == other.truthy && value == other.value && AllIn(other.expressions, expressions)
    }

    /** `AndClause::take`: adopt the expressions of `other`, keep the flags. */
    function Take(other: AndClause): AndClause
    {
      this.(expressions := other.expressions)
    }

    /** `PartialEq for AndClause`: same flags, same length, and every expression
        here occurs in `other` (order is not considered). */
    function Equals(other: AndClause): (r: bool)
      ensures r <==> truthy == other.truthy && value == other.value &&
                     |expressions| == |other.expressions| &&
                     forall i | 0 <= i < |expressions| :: expressions[i] in other.expressions
    {
      truthy == other.truthy && value == other.value &&
      |expressions| == |other.expressions| && AllIn(expressions, other.expressions)
    }

    /** A constant prints as `true` or `false`; a single statement prints alone. */
    function Display(): (r: string)
      ensures truthy ==> (r == "true" || r == "false") && (r == "true" <==> value)
      ensures !truthy && |expressions| == 1 ==> r == expressions[0].Display()
    {
      if truthy then (if value then "true" else "false")
      else Join(Shown(), " AND ")
    }

    /** The printed statements, in order. */
    function Shown(): seq<string>
    {
      seq(|expressions|, i requires 0 <= i < |expressions| => expressions[i].Display())
    }

    predicate Holds(ev: Event)
    {
      if truthy then value else AllHold(expressions, ev)
    }

    /** The shape every clause built by `Add` has: a constant has no expressions
        left, and the expressions are distinct, non-clashing statements. */
    predicate Wf()
    {
      (truthy ==> expressions == []) &&
      (forall i | 0 <= i < |expressions| :: expressions[i].Statement?) &&
      (forall i, j | 0 <= i < j < |expressions| ::
         expressions[i] != expressions[j] && !Clash(expressions[i], expressions[j]))
    }

    /** Once something has been added, a clause is a constant or has an expression. */
    predicate Settled()
    {
      truthy || expressions != []
    }
  }

  const EmptyAnd := AndClause(false, false, [])

  /** `AndClause::new`: the empty clause with one expression added. */
  function NewAnd(e: Expression): (r: AndClause)
    ensures e.Statement? ==> r == AndClause(false, false, [e])
    ensures e.Boolean? ==> r == AndClause(true, e.b, [])
  {
    EmptyAnd.Add(e)
  }

  lemma ClashSymmetric(a: Expression, b: Expression)
    ensures Clash(a, b) == Clash(b, a)
  {
  }

  /** Adding keeps the clause well formed, and afterwards it is settled. */
  lemma AndAddKeepsWf(c: AndClause, e: Expression)
    requires c.Wf()
    ensures c.Add(e).Wf() && c.Add(e).Settled()
  {
    if !(c.truthy && !c.value) && e.Statement? && Scan(c.expressions, e) == Miss {
      var r := c.Add(e);
      assert r.expressions == c.expressions + [e];
      forall i, j | 0 <= i < j < |r.expressions|
        ensures r.expressions[i] != r.expressions[j] && !Clash(r.expressions[i], r.expressions[j])
      {
        if j == |c.expressions| {
          assert r.expressions[j] == e && r.expressions[i] == c.expressions[i];
        }
      }
    }
  }

  lemma NewAndWf(e: Expression)
    ensures NewAnd(e).Wf() && NewAnd(e).Settled()
  {
    AndAddKeepsWf(EmptyAnd, e);
  }

  /** The simplification is exact: on every event the clause after `Add(e)`
      holds exactly when the clause before it and `e` both hold. */
  lemma AndAddExact(c: AndClause, e: Expression, ev: Event)
    requires c.Wf()
    ensures c.Add(e).Holds(ev) == (c.Holds(ev) && ExpressionHolds(e, ev))
  {
    if !(c.truthy && !c.value) && e.Statement? {
      match Scan(c.expressions, e)
      case Duplicate =>
        var k :| 0 <= k < |c.expressions| && c.expressions[k] == e;
      case Conflict =>
        var k :| 0 <= k < |c.expressions| && c.expressions[k] != e && Clash(c.expressions[k], e);
        assert !(ExpressionHolds(c.expressions[k], ev) && ExpressionHolds(e, ev));
      case Miss =>
        AllHoldAppend(c.expressions, e, ev);
    }
  }

  lemma AllHoldAppend(exprs: seq<Expression>, e: Expression, ev: Event)
    ensures AllHold(exprs + [e], ev) == (AllHold(exprs, ev) && ExpressionHolds(e, ev))
  {
    assert forall i | 0 <= i < |exprs| :: (exprs + [e])[i] == exprs[i];
    assert (exprs + [e])[|exprs|] == e;
  }

  /** The boolean cases of `AndClause::add`: a clause that is already false
      ignores everything; `false` makes the clause false and empties it; `true`
      makes an empty clause true and is otherwise a no-op. */
  lemma AndAddBoolean(c: AndClause, b: bool)
    ensures c.truthy && !c.value ==> c.Add(Boolean(b)) == c
    ensures !(c.truthy && !c.value) && !b ==> c.Add(Boolean(b)) == AndClause(true, false, [])
    ensures !(c.truthy && !c.value) && b && c.expressions == [] ==> c.Add(Boolean(b)) == AndClause(true, true, [])
    ensures !(c.truthy && !c.value) && b && c.expressions != [] ==> c.Add(Boolean(b)) == c
  {
  }

  /** The statement cases of `AndClause::add` on a well-formed clause that is
      not false: a statement already present changes nothing but the constant
      flag; a statement that clashes with a present one makes the clause false;
      any other statement is appended. The `value` flag is never reset. */
  lemma AndAddStatement(c: AndClause, e: Expression)
    requires c.Wf() && !(c.truthy && !c.value) && e.Statement?
    ensures e in c.expressions ==> c.Add(e) == c.(truthy := false)
    ensures e !in c.expressions && (exists i | 0 <= i < |c.expressions| :: Clash(c.expressions[i], e)) ==>
              c.Add(e) == AndClause(true, false, [])
    ensures e !in c.expressions && (forall i | 0 <= i < |c.expressions| :: !Clash(c.expressions[i], e)) ==>
              c.Add(e) == AndClause(false, c.value, c.expressions + [e])
  {
    if e in c.expressions {
      var k :| 0 <= k < |c.expressions| && c.expressions[k] == e;
      ScanFindsDuplicate(c.expressions, e, k);
    }
  }

  lemma {:induction false} ScanFindsDuplicate(exprs: seq<Expression>, e: Expression, k: nat)
    requires k < |exprs| && exprs[k] == e
    requires forall i | 0 <= i < k :: exprs[i] != e && !Clash(exprs[i], e)
    ensures Scan(exprs, e) == Duplicate
  {
    if k > 0 {
      ScanFindsDuplicate(exprs[1..], e, k - 1);
    }
  }

  /** Equality does not look at the order of the expressions. */
  lemma EqualsIgnoresOrder(a: AndClause, b: AndClause)
    requires a.truthy == b.truthy && a.value == b.value
    requires multiset(a.expressions) == multiset(b.expressions)
    ensures a.Equals(b) && b.Equals(a)
  {
    assert |a.expressions| == |multiset(a.expressions)| == |multiset(b.expressions)| == |b.expressions|;
    forall i | 0 <= i < |a.expressions| ensures a.expressions[i] in b.expressions {
      assert a.expressions[i] in multiset(a.expressions);
    }
    forall i | 0 <= i < |b.expressions| ensures b.expressions[i] in a.expressions {
      assert b.expressions[i] in multiset(b.expressions);
    }
  }

  predicate Distinct(s: seq<Expression>)
  {
    forall i, j | 0 <= i < j < |s| :: s[i] != s[j]
  }

  lemma {:induction false} DistinctCard(s: seq<Expression>)
    requires Distinct(s)
    ensures |set x | x in s| == |s|
  {
    if s != [] {
      DistinctCard(s[1..]);
      assert (set x | x in s) == (set x | x in s[1..]) + {s[0]};
      assert s[0] !in s[1..];
    }
  }

  lemma SubsetCard(a: set<Expression>, c: set<Expression>)
    requires a <= c
    ensures |a| <= |c|
  {
    assert c == a + (c - a);
  }

  lemma ProperSubsetSmaller(a: set<Expression>, b: set<Expression>)
    requires a <= b && a != b
    ensures |a| < |b|
  {
    assert b - a != {};
    var y :| y in b - a;
    SubsetCard(a, b - {y});
  }

  /** Between duplicate-free sequences of the same length, one-sided membership is two-sided. */
  lemma MembershipBothWays(a: seq<Expression>, b: seq<Expression>)
    requires Distinct(a) && Distinct(b) && |a| == |b|
    requires forall i | 0 <= i < |a| :: a[i] in b
    ensures forall i | 0 <= i < |b| :: b[i] in a
  {
    var sa := set x | x in a;
    var sb := set x | x in b;
    DistinctCard(a);
    DistinctCard(b);
    assert sa <= sb;
    if sa != sb {
      ProperSubsetSmaller(sa, sb);
    }
    forall i | 0 <= i < |b| ensures b[i] in a {
      assert b[i] in sb;
    }
  }

  /** On well-formed clauses (no duplicates) the one-sided membership test of
      `PartialEq` is symmetric. */
  lemma EqualsSymmetric(a: AndClause, b: AndClause)
    requires a.Wf() && b.Wf()
    ensures a.Equals(b) == b.Equals(a)
  {
    if a.Equals(b) {
      MembershipBothWays(a.expressions, b.expressions);
    }
    if b.Equals(a) {
      MembershipBothWays(b.expressions, a.expressions);
    }
  }

  /** The source's comment: `contains` is equality without the length check, reversed. */
  lemma EqualsIsContainsWithLength(a: AndClause, b: AndClause)
    ensures a.Equals(b) <==> b.Contains(a) && |a.expressions| == |b.expressions|
  {
  }

  // ---------------------------------------------------------------- OR clauses

  /** The pair `OrClause::add` treats as covering every event: two one-statement
      clauses on the same field, one with `==` and one with `!=`, whatever the values. */
  predicate Complementary(existing: AndClause, added: AndClause)
  {
    match (existing.TryReduce(), added.TryReduce())
    case (Some(Statement(f1, op1, _)), Some(Statement(f2, op2, _))) => f1 == f2 && op1 != op2
    case _ => false
  }

  predicate Related(existing: AndClause, added: AndClause)
  {
    existing.Contains(added) || added.Contains(existing) || Complementary(existing, added)
  }

  datatype OrHit = Fresh | Redundant | Absorbs(index: nat) | Covers

  /** What the scan in `OrClause::add` finds at the first stored clause related to the new one. */
  function OrScan(subs: seq<AndClause>, sub: AndClause, from: nat): (h: OrHit)
    requires from <= |subs|
    ensures h.Absorbs? ==> from <= h.index < |subs|
    decreases |subs| - from
  {
    if from == |subs| then Fresh
    else if subs[from].Contains(sub) then Redundant
    else if sub.Contains(subs[from]) then Absorbs(from)
    else if Complementary(subs[from], sub) then Covers
    else OrScan(subs, sub, from + 1)
  }

  datatype OrClause = OrClause(truthy: bool, value: bool, subclauses: seq<AndClause>)
  {
    /** `OrClause::add`: unless the result is constant, the disjuncts keep
        their number or gain `sub` at the end. */
    function Add(sub: AndClause): (r: OrClause)
      ensures r.truthy || |r.subclauses| == |subclauses| || r.subclauses == subclauses + [sub]
    {
      if truthy && value then this
      else match sub.TryEvaluate()
        case Some(b) =>
          if b then OrClause(true, true, [])
          else if |subclauses| == 0 then OrClause(true, false, subclauses)
          else this
        case None =>
          match OrScan(subclauses, sub, 0)
          case Redundant => this.(truthy := false)
          case Absorbs(j) => OrClause(false, value, subclauses[j := subclauses[j].Take(sub)])
          case Covers => OrClause(true, true, [])
          case Fresh => OrClause(false, value, subclauses + [sub])
    }

    /** A constant prints as `true` or `false`; a single disjunct prints alone. */
    function Display(): (r: string)
      ensures truthy ==> (r == "true" || r == "false") && (r == "true" <==> value)
      ensures !truthy && |subclauses| == 1 ==> r == subclauses[0].Display()
    {
      if truthy then (if value then "true" else "false")
      else Join(Shown(), " OR ")
    }

    /** The printed disjuncts, in order. */
    function Shown(): seq<string>
    {
      seq(|subclauses|, i requires 0 <= i < |subclauses| => subclauses[i].Display())
    }

    predicate Holds(ev: Event)
    {
      if truthy then value else exists i | 0 <= i < |subclauses| :: subclauses[i].Holds(ev)
    }

    /** The shape every clause built by `Add` has: a constant has no disjuncts,
        and every disjunct is a well-formed, non-constant, non-empty AND clause. */
    predicate Wf()
    {
      (truthy ==> subclauses == []) &&
      forall i | 0 <= i < |subclauses| ::
        !subclauses[i].truthy && subclauses[i].Wf() && subclauses[i].expressions != []
    }
  }

  const EmptyOr := OrClause(false, false, [])

  /** `OrClause::new`. */
  function NewOr(sub: AndClause): (r: OrClause)
    ensures sub.truthy ==> r == OrClause(true, sub.value, [])
    ensures !sub.truthy ==> r == OrClause(false, false, [sub])
  {
    EmptyOr.Add(sub)
  }

  lemma OrAddKeepsWf(o: OrClause, sub: AndClause)
    requires o.Wf() && sub.Wf() && sub.Settled()
    ensures o.Add(sub).Wf()
  {
  }

  /** The constant cases of `OrClause::add`: a clause already true ignores
      everything; a true disjunct makes the clause true and empties it; a false
      disjunct makes an empty clause false and is otherwise a no-op. */
  lemma OrAddConstant(o: OrClause, sub: AndClause)
    requires sub.truthy
    ensures o.truthy && o.value ==> o.Add(sub) == o
    ensures !(o.truthy && o.value) && sub.value ==> o.Add(sub) == OrClause(true, true, [])
    ensures !(o.truthy && o.value) && !sub.value && o.subclauses == [] ==> o.Add(sub) == OrClause(true, false, [])
    ensures !(o.truthy && o.value) && !sub.value && o.subclauses != [] ==> o.Add(sub) == o
  {
  }

  lemma {:induction false} OrScanFirstRelated(subs: seq<AndClause>, sub: AndClause, from: nat, j: nat)
    requires from <= j < |subs| && Related(subs[j], sub)
    requires forall i | from <= i < j :: !Related(subs[i], sub)
    ensures OrScan(subs, sub, from) ==
      if subs[j].Contains(sub) then Redundant
      else if sub.Contains(subs[j]) then Absorbs(j)
      else Covers
    decreases j - from
  {
    if from < j {
      OrScanFirstRelated(subs, sub, from + 1, j);
    }
  }

  lemma {:induction false} OrScanNoneRelated(subs: seq<AndClause>, sub: AndClause, from: nat)
    requires from <= |subs|
    requires forall i | from <= i < |subs| :: !Related(subs[i], sub)
    ensures OrScan(subs, sub, from) == Fresh
    decreases |subs| - from
  {
    if from < |subs| {
      OrScanNoneRelated(subs, sub, from + 1);
    }
  }

  /** The disjunct cases of `OrClause::add`, decided by the first stored clause
      related to the new one: if it contains the new clause, the new one is
      dropped; if the new clause contains it, it takes the new clause's
      expressions (the stricter clause is kept); if the two are one-statement
      clauses `f == _` and `f != _`, the whole clause becomes true. */
  lemma OrAddFirstRelated(o: OrClause, sub: AndClause, j: nat)
    requires !(o.truthy && o.value) && !sub.truthy
    requires j < |o.subclauses| && Related(o.subclauses[j], sub)
    requires forall i | 0 <= i < j :: !Related(o.subclauses[i], sub)
    ensures o.subclauses[j].Contains(sub) ==> o.Add(sub) == o.(truthy := false)
    ensures !o.subclauses[j].Contains(sub) && sub.Contains(o.subclauses[j]) ==>
              o.Add(sub) == OrClause(false, o.value, o.subclauses[j := o.subclauses[j].(expressions := sub.expressions)])
    ensures !o.subclauses[j].Contains(sub) && !sub.Contains(o.subclauses[j]) ==>
              o.Add(sub) == OrClause(true, true, [])
  {
    OrScanFirstRelated(o.subclauses, sub, 0, j);
  }

  /** A clause unrelated to every stored one is appended. */
  lemma OrAddUnrelated(o: OrClause, sub: AndClause)
    requires !(o.truthy && o.value) && !sub.truthy
    requires forall i | 0 <= i < |o.subclauses| :: !Related(o.subclauses[i], sub)
    ensures o.Add(sub) == OrClause(false, o.value, o.subclauses + [sub])
  {
    OrScanNoneRelated(o.subclauses, sub, 0);
  }

  /** When the new disjunct is unrelated to all stored ones, adding it is exact:
      the result holds exactly when the old clause or the new disjunct holds. */
  lemma OrAddExactWhenUnrelated(o: OrClause, sub: AndClause, ev: Event)
    requires o.Wf()
    requires forall i | 0 <= i < |o.subclauses| :: !Related(o.subclauses[i], sub)
    ensures o.Add(sub).Holds(ev) == (o.Holds(ev) || sub.Holds(ev))
  {
    if !(o.truthy && o.value) && !sub.truthy {
      OrAddUnrelated(o, sub);
      var r := o.Add(sub);
      assert forall i | 0 <= i < |o.subclauses| :: r.subclauses[i] == o.subclauses[i];
      assert r.subclauses[|o.subclauses|] == sub;
    }
  }

  /** Without a complementary pair, adding a disjunct never widens the clause:
      whatever the result accepts, the old clause or the new disjunct accepts. */
  lemma OrAddNeverWidens(o: OrClause, sub: AndClause, ev: Event)
    requires o.Wf()
    requires forall i | 0 <= i < |o.subclauses| :: !Complementary(o.subclauses[i], sub)
    requires o.Add(sub).Holds(ev)
    ensures o.Holds(ev) || sub.Holds(ev)
  {
    if !(o.truthy && o.value) && !sub.truthy {
      var r := o.Add(sub);
      var h := OrScan(o.subclauses, sub, 0);
      if h.Covers? {
        var j := CoversWitness(o.subclauses, sub, 0);
        assert false;
      }
      var k :| 0 <= k < |r.subclauses| && r.subclauses[k].Holds(ev);
      match h
      case Redundant =>
        assert o.subclauses[k].Holds(ev);
      case Fresh =>
        if k < |o.subclauses| { assert o.subclauses[k].Holds(ev); }
      case Absorbs(j) =>
        if k == j {
          var s := r.subclauses[j];
          assert s.expressions == sub.expressions;
          assert sub.Holds(ev);
        } else {
          assert o.subclauses[k].Holds(ev);
        }
    }
  }

  lemma {:induction false} CoversWitness(subs: seq<AndClause>, sub: AndClause, from: nat) returns (j: nat)
    requires from <= |subs| && OrScan(subs, sub, from) == Covers
    ensures from <= j < |subs| && Complementary(subs[j], sub)
    decreases |subs| - from
  {
    if Complementary(subs[from], sub) && !subs[from].Contains(sub) && !sub.Contains(subs[from]) {
      j := from;
    } else {
      j := CoversWitness(subs, sub, from + 1);
    }
  }

  // ------------------------------------------------------- in-place versions

  /** `AndClause` as the mutable object the parser's fold updates. */
  class AndAccumulator {
    var truthy: bool
    var value: bool
    var expressions: seq<Expression>

    function Snapshot(): AndClause
      reads this
    {
      AndClause(truthy, value, expressions)
    }

    /** `AndClause::new`. */
    constructor (e: Expression)
      ensures Snapshot() == NewAnd(e)
    {
      truthy, value, expressions := false, false, [];
      new;
      Add(e);
    }

    /** `AndClause::add`, with the scan over the stored expressions. */
    method Add(e: Expression)
      modifies this
      ensures Snapshot() == old(Snapshot()).Add(e)
    {
      if truthy && !value {
        return;
      }
      if e.Boolean? {
        if !e.b {
          expressions, truthy, value := [], true, false;
          return;
        }
        if |expressions| == 0 {
          truthy, value := true, true;
        }
        return;
      }
      truthy := false;
      var conflicts := false;
      var i := 0;
      while i < |expressions|
        invariant 0 <= i <= |expressions|
        invariant !conflicts && !truthy && value == old(value) && expressions == old(expressions)
        invariant Scan(expressions, e) == Scan(expressions[i..], e)
      {
        ScanHead(expressions[i..], e);
        assert expressions[i..][0] == expressions[i];
        if expressions[i] == e {
          return;
        }
        match (expressions[i], e) {
          case (Statement(f1, Equal, _), Statement(f2, Equal, _)) =>
            if f1 == f2 {
              assert Clash(expressions[i], e);
              conflicts := true;
              break;
            }
          case (Statement(f1, Equal, v1), Statement(f2, NotEqual, v2)) =>
            if f1 == f2 && v1 == v2 {
              assert Clash(expressions[i], e);
              conflicts := true;
              break;
            }
          case (Statement(f1, NotEqual, v1), Statement(f2, Equal, v2)) =>
            if f1 == f2 && v1 == v2 {
              assert Clash(expressions[i], e);
              conflicts := true;
              break;
            }
          case _ =>
        }
        assert !Clash(expressions[i], e);
        assert expressions[i..][1..] == expressions[i + 1..];
        i := i + 1;
      }
      if conflicts {
        expressions, truthy, value := [], true, false;
        return;
      }
      expressions := expressions + [e];
    }

    /** `AndClause::take`. */
    method Take(other: AndClause)
      modifies this
      ensures Snapshot() == old(Snapshot()).Take(other)
    {
      expressions := other.expressions;
    }
  }

  /** `OrClause` as the mutable object the parser's fold updates. */
  class OrAccumulator {
    var truthy: bool
    var value: bool
    var subclauses: seq<AndClause>

    function Snapshot(): OrClause
      reads this
    {
      OrClause(truthy, value, subclauses)
    }

    /** `OrClause::new`. */
    constructor (sub: AndClause)
      ensures Snapshot() == NewOr(sub)
    {
      truthy, value, subclauses := false, false, [];
      new;
      Add(sub);
    }

    /** `OrClause::add`, with the scan over the stored disjuncts; a disjunct the
        new clause contains is overwritten in place. */
    method Add(sub: AndClause)
      modifies this
      ensures Snapshot() == old(Snapshot()).Add(sub)
    {
      if truthy && value {
        return;
      }
      if sub.truthy {
        if sub.value {
          subclauses, truthy, value := [], true, true;
          return;
        }
        if |subclauses| == 0 {
          truthy, value := true, false;
        }
        return;
      }
      truthy := false;
      var reduced := false;
      var i := 0;
      while i < |subclauses|
        invariant 0 <= i <= |subclauses|
        invariant OrScan(subclauses, sub, 0) == OrScan(subclauses, sub, i)
      {
        var clause := subclauses[i];
        if clause.Contains(sub) {
          return;
        }
        if sub.Contains(clause) {
          subclauses := subclauses[i := clause.Take(sub)];
          return;
        }
        match (clause.TryReduce(), sub.TryReduce()) {
          case (Some(Statement(f1, Equal, _)), Some(Statement(f2, NotEqual, _))) =>
            if f1 == f2 {
              reduced := true;
              break;
            }
          case (Some(Statement(f1, NotEqual, _)), Some(Statement(f2, Equal, _))) =>
            if f1 == f2 {
              reduced := true;
              break;
            }
          case _ =>
        }
        i := i + 1;
      }
      if reduced {
        subclauses, truthy, value := [], true, true;
        return;
      }
      subclauses := subclauses + [sub];
    }
  }
}
