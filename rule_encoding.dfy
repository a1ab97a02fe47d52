/** `AndClause::encode`, `OrClause::encode` and `Rule::encode`
    (rule-compiler/src/lib.rs): a simplified rule is replayed against a
    `QueryWriter` as a fixed sequence of calls.

    The sequence is `Script`; `Play` runs a script against any writer, given as
    its state and the function that performs one call, and stops at the first
    error, as every `?` in the Rust code does. */
module RuleEncoding {
  import opened Wrappers
  import opened RuleAst
  import opened RuleSimplifier
  import opened RuleParser

  /** The four `QueryWriter` methods. */
  datatype Call =
    | WriteStatement(field: string, operator: Operator, atom: Atom)
    | StartNewClause
    | WriteAbsolute(value: bool)
    | Flush

  /** A step of a script: a call, or the error `AndClause::encode` returns when
      it meets an expression that is not a statement. */
  datatype Step = Do(call: Call) | Abort(error: Message)

  function ExpressionStep(e: Expression): Step
  {
    match e
    case Statement(f, op, a) => Do(WriteStatement(f, op, a))
    case Boolean(_) => Abort(InvalidClause)
  }

  /** The loop of `AndClause::encode`: one step per expression, in order. */
  function ExpressionsScript(es: seq<Expression>): (r: seq<Step>)
    ensures |r| == |es|
    ensures forall i | 0 <= i < |r| :: r[i] == ExpressionStep(es[i])
  {
    if es == [] then [] else [ExpressionStep(es[0])] + ExpressionsScript(es[1..])
  }

  /** `AndClause::encode`: one `write_statement` per stored expression, and
      no abort for a well-formed clause. */
  function AndScript(c: AndClause): (r: seq<Step>)
    ensures |r| == |c.expressions|
    ensures forall i | 0 <= i < |r| :: r[i].Do? ==> r[i].call.WriteStatement?
    ensures c.Wf() ==> forall i | 0 <= i < |r| :: r[i].Do?
  {
    ExpressionsScript(c.expressions)
  }

  /** The loop of `OrClause::encode`: `start_new_clause` before every disjunct. */
  function DisjunctsScript(subs: seq<AndClause>): (r: seq<Step>)
    ensures r == [] <==> subs == []
    ensures subs != [] ==> r[0] == Do(StartNewClause)
  {
    if subs == [] then [] else [Do(StartNewClause)] + AndScript(subs[0]) + DisjunctsScript(subs[1..])
  }

  /** `OrClause::encode`: the script is empty only for a disjunction without
      disjuncts, and otherwise ends in `flush`. */
  function OrScript(o: OrClause): (r: seq<Step>)
    ensures r == [] <==> !o.truthy && o.subclauses == []
    ensures r != [] ==> r[|r| - 1] == Do(Flush)
  {
    if o.truthy then [Do(WriteAbsolute(o.value)), Do(Flush)]
    else DisjunctsScript(o.subclauses) + (if |o.subclauses| > 0 then [Do(Flush)] else [])
  }

  /** What a writer does with a script: the state after the last call, or the
      first error. */
  function Play<S>(script: seq<Step>, s: S, perform: (S, Call) -> Result<S>): (r: Result<S>)
    ensures r.Err? ==> script != []
    ensures |script| > 0 && script[0].Abort? ==> r == Err(script[0].error)
  {
    if script == [] then Ok(s)
    else match script[0]
      case Abort(e) => Err(e)
      case Do(c) =>
        (match perform(s, c)
         case Err(e) => Err(e)
         case Ok(s1) => Play(script[1..], s1, perform))
  }

  /** `Rule::encode`: the factory's writer for the rule's operation and table,
      then the clause's script; a factory error comes first. */
  function Encode<S>(rule: Rule, create: (Operation, string) -> Result<S>, perform: (S, Call) -> Result<S>): (r: Result<S>)
    ensures r.Ok? ==> create(rule.operation, rule.table).Ok?
    ensures !rule.clause.truthy && rule.clause.subclauses == [] ==> r == create(rule.operation, rule.table)
  {
    match create(rule.operation, rule.table)
    case Err(e) => Err(e)
    case Ok(w) => Play(OrScript(rule.clause), w, perform)
  }

  function Count(script: seq<Step>, c: Call): nat
  {
    if script == [] then 0 else (if script[0] == Do(c) then 1 else 0) + Count(script[1..], c)
  }

  predicate NoAbort(script: seq<Step>)
  {
    forall i | 0 <= i < |script| :: script[i].Do?
  }

  lemma {:induction false} CountAppend(a: seq<Step>, b: seq<Step>, c: Call)
    ensures Count(a + b, c) == Count(a, c) + Count(b, c)
  {
    if a == [] {
      assert a + b == b;
    } else {
      assert (a + b)[0] == a[0];
      assert (a + b)[1..] == a[1..] + b;
      CountAppend(a[1..], b, c);
    }
  }

  lemma {:induction false} NoStatementCalls(s: seq<Step>, c: Call)
    requires forall i | 0 <= i < |s| :: s[i].Abort? || s[i].call.WriteStatement?
    requires !c.WriteStatement?
    ensures Count(s, c) == 0
  {
    if s != [] {
      NoStatementCalls(s[1..], c);
    }
  }

  /** Every call other than `write_statement` occurs in the disjunct loop only
      as the `start_new_clause` before each disjunct. */
  lemma {:induction false} DisjunctsCount(subs: seq<AndClause>, c: Call)
    requires !c.WriteStatement?
    ensures Count(DisjunctsScript(subs), c) == if c == StartNewClause then |subs| else 0
  {
    if subs != [] {
      var head: seq<Step> := [Do(StartNewClause)];
      var a := AndScript(subs[0]);
      DisjunctsCount(subs[1..], c);
      NoStatementCalls(a, c);
      CountAppend(head + a, DisjunctsScript(subs[1..]), c);
      CountAppend(head, a, c);
      assert Count(head, c) == if c == StartNewClause then 1 else 0 by {
        assert head[1..] == [];
      }
    }
  }

  /** How often a non-statement call occurs in the script of a clause that is
      not constant. */
  function OrCount(subs: seq<AndClause>, c: Call): nat
  {
    if c == StartNewClause then |subs|
    else if c == Flush && |subs| > 0 then 1
    else 0
  }

  /** The call protocol of `OrClause::encode`: a constant clause writes its
      value and flushes once; otherwise there is one `start_new_clause` per
      disjunct, no `write_absolute`, and one `flush`, as the last call, exactly
      when there is a disjunct. */
  lemma OrScriptProtocol(o: OrClause, c: Call)
    requires !c.WriteStatement?
    ensures o.truthy ==> OrScript(o) == [Do(WriteAbsolute(o.value)), Do(Flush)]
    ensures !o.truthy ==> Count(OrScript(o), c) == OrCount(o.subclauses, c)
    ensures !o.truthy && |o.subclauses| > 0 ==> OrScript(o)[|OrScript(o)| - 1] == Do(Flush)
  {
    if !o.truthy {
      var tail: seq<Step> := if |o.subclauses| > 0 then [Do(Flush)] else [];
      DisjunctsCount(o.subclauses, c);
      CountAppend(DisjunctsScript(o.subclauses), tail, c);
      if tail != [] {
        assert tail[1..] == [];
      }
    }
  }

  lemma {:induction false} DisjunctsNoAbort(subs: seq<AndClause>)
    requires forall i | 0 <= i < |subs| :: subs[i].Wf()
    ensures NoAbort(DisjunctsScript(subs))
  {
    if subs != [] {
      DisjunctsNoAbort(subs[1..]);
      var a := AndScript(subs[0]);
      assert NoAbort(a) by {
        forall i | 0 <= i < |a| ensures a[i].Do? {
          assert subs[0].expressions[i].Statement?;
        }
      }
      var s := [Do(StartNewClause)] + a + DisjunctsScript(subs[1..]);
      forall i | 0 <= i < |s| ensures s[i].Do? {
        if i == 0 {
        } else if i <= |a| {
          assert s[i] == a[i - 1];
        } else {
          assert s[i] == DisjunctsScript(subs[1..])[i - 1 - |a|];
        }
      }
    }
  }

  /** A well-formed clause, which is what `compile` returns, holds only
      statements, so the error arm of `AndClause::encode` is never taken. */
  lemma WellFormedNeverAborts(o: OrClause)
    requires o.Wf()
    ensures NoAbort(OrScript(o))
  {
    if !o.truthy {
      DisjunctsNoAbort(o.subclauses);
      var d := DisjunctsScript(o.subclauses);
      var t: seq<Step> := if |o.subclauses| > 0 then [Do(Flush)] else [];
      forall i | 0 <= i < |d + t| ensures (d + t)[i].Do? {
        if i >= |d| {
          assert (d + t)[i] == t[i - |d|];
        }
      }
    }
  }

  /** Running two scripts one after the other. */
  lemma {:induction false} PlayAppend<S>(a: seq<Step>, b: seq<Step>, s: S, perform: (S, Call) -> Result<S>)
    ensures Play(a + b, s, perform) ==
      match Play(a, s, perform)
      case Ok(s1) => Play(b, s1, perform)
      case Err(e) => Err(e)
  {
    if a == [] {
      assert a + b == b;
    } else {
      assert (a + b)[0] == a[0];
      assert (a + b)[1..] == a[1..] + b;
      match a[0]
      case Abort(_) =>
      case Do(c) =>
        match perform(s, c)
        case Err(_) =>
        case Ok(s1) => PlayAppend(a[1..], b, s1, perform);
    }
  }

  /** The first failing part of a script decides the outcome: nothing after
      it runs. */
  lemma FailurePropagates<S>(a: seq<Step>, b: seq<Step>, c: seq<Step>, s: S, perform: (S, Call) -> Result<S>, s1: S)
    requires Play(a, s, perform) == Ok(s1) && Play(b, s1, perform).Err?
    ensures Play(a + b + c, s, perform) == Play(b, s1, perform)
  {
    PlayAppend(a + b, c, s, perform);
    PlayAppend(a, b, s, perform);
  }

  /** A script of one step is that call, or that error. */
  lemma PlayOne<S>(st: Step, s: S, perform: (S, Call) -> Result<S>)
    ensures Play([st], s, perform) == match st
      case Abort(e) => Err(e)
      case Do(c) => perform(s, c)
  {
    assert [st][1..] == [];
  }

  /** The disjunct loop splits at any disjunct. */
  lemma {:induction false} DisjunctsAppend(a: seq<AndClause>, b: seq<AndClause>)
    ensures DisjunctsScript(a + b) == DisjunctsScript(a) + DisjunctsScript(b)
  {
    if a == [] {
      assert a + b == b;
    } else {
      assert (a + b)[0] == a[0];
      assert (a + b)[1..] == a[1..] + b;
      DisjunctsAppend(a[1..], b);
    }
  }

  lemma DisjunctsOne(x: AndClause)
    ensures DisjunctsScript([x]) == [Do(StartNewClause)] + AndScript(x)
  {
    assert [x][1..] == [];
  }

  /** Running a script and then one more step. */
  lemma PlayStep<S>(a: seq<Step>, st: Step, s: S, perform: (S, Call) -> Result<S>, s1: S)
    requires Play(a, s, perform) == Ok(s1)
    ensures Play(a + [st], s, perform) == match st
      case Abort(e) => Err(e)
      case Do(c) => perform(s1, c)
  {
    PlayAppend(a, [st], s, perform);
    PlayOne(st, s1, perform);
  }

  /** After a part that succeeds, the rest runs from the state it leaves. */
  lemma PlayThen<S>(a: seq<Step>, b: seq<Step>, s: S, perform: (S, Call) -> Result<S>, s1: S)
    requires Play(a, s, perform) == Ok(s1)
    ensures Play(a + b, s, perform) == Play(b, s1, perform)
  {
    PlayAppend(a, b, s, perform);
  }

  /** A first call that succeeds hands its state to the rest. */
  lemma PlayHead<S>(c: Call, rest: seq<Step>, s: S, perform: (S, Call) -> Result<S>, s1: S)
    requires perform(s, c) == Ok(s1)
    ensures Play([Do(c)] + rest, s, perform) == Play(rest, s1, perform)
  {
    var script := [Do(c)] + rest;
    assert script[0] == Do(c);
    assert script[1..] == rest;
  }

  /** A failing prefix is the outcome of the whole script. */
  lemma PlayErrPrefix<S>(a: seq<Step>, b: seq<Step>, s: S, perform: (S, Call) -> Result<S>)
    requires Play(a, s, perform).Err?
    ensures Play(a + b, s, perform) == Play(a, s, perform)
  {
    PlayAppend(a, b, s, perform);
  }

  /** The statement loop splits at any expression. */
  lemma {:induction false} ExpressionsAppend(a: seq<Expression>, b: seq<Expression>)
    ensures ExpressionsScript(a + b) == ExpressionsScript(a) + ExpressionsScript(b)
  {
    if a == [] {
      assert a + b == b;
    } else {
      assert (a + b)[0] == a[0];
      assert (a + b)[1..] == a[1..] + b;
      ExpressionsAppend(a[1..], b);
    }
  }

  /** The statement loop, one expression further. */
  lemma ExpressionsSnoc(es: seq<Expression>, i: nat)
    requires i < |es|
    ensures ExpressionsScript(es[..i + 1]) == ExpressionsScript(es[..i]) + [ExpressionStep(es[i])]
  {
    var front, x := es[..i], es[i];
    assert es[..i + 1] == front + [x];
    ExpressionsAppend(front, [x]);
    assert [x][1..] == [];
  }

  /** The statement loop is its first `i + 1` steps and then the rest. */
  lemma ExpressionsSplit(es: seq<Expression>, i: nat)
    requires i < |es|
    ensures ExpressionsScript(es) == ExpressionsScript(es[..i + 1]) + ExpressionsScript(es[i + 1..])
  {
    assert es == es[..i + 1] + es[i + 1..];
    ExpressionsAppend(es[..i + 1], es[i + 1..]);
  }

  /** The disjunct loop, one disjunct further. */
  lemma DisjunctsSnoc(subs: seq<AndClause>, i: nat)
    requires i < |subs|
    ensures DisjunctsScript(subs[..i + 1]) == DisjunctsScript(subs[..i]) + ([Do(StartNewClause)] + AndScript(subs[i]))
  {
    var front, x := subs[..i], subs[i];
    assert subs[..i + 1] == front + [x];
    DisjunctsAppend(front, [x]);
    DisjunctsOne(x);
  }

  /** The disjunct loop is its first `i + 1` disjuncts and then the rest. */
  lemma DisjunctsSplit(subs: seq<AndClause>, i: nat)
    requires i < |subs|
    ensures DisjunctsScript(subs) == DisjunctsScript(subs[..i + 1]) + DisjunctsScript(subs[i + 1..])
  {
    assert subs == subs[..i + 1] + subs[i + 1..];
    DisjunctsAppend(subs[..i + 1], subs[i + 1..]);
  }

  /** A factory error is returned before any writer call is made. */
  lemma FactoryErrorFirst<S>(rule: Rule, create: (Operation, string) -> Result<S>, perform: (S, Call) -> Result<S>)
    requires create(rule.operation, rule.table).Err?
    ensures Encode(rule, create, perform) == Err(create(rule.operation, rule.table).error)
  {
  }
}
