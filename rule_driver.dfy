/** `AndClause::encode`, `OrClause::encode` and `Rule::encode`
    (rule-compiler/src/lib.rs) run against the sensor's writer
    `BpfQueryWriter`, built by `BpfQueryWriterFactory::create`
    (probe-sys/src/query_writer.rs).

    Each method is the Rust loop, and each is proved to leave the writer in
    the state `RuleEncoding.Play` gives the clause's script under
    `BpfWriter.Perform`, or to return the error that script stops at. */
module RuleDriver {
  import opened Wrappers
  import opened RuleAst
  import opened RuleSimplifier
  import opened RuleParser
  import opened RuleEncoding
  import opened QueryWriter
  import opened BpfWriter

  /** `AndClause::encode`: one `write_statement` per stored expression, in
      order; the first error is returned, and any expression that is not a
      statement is refused as an invalid clause. */
  method EncodeAnd(c: AndClause, w: BpfQueryWriter) returns (r: Result<()>)
    requires w.Valid()
    modifies w.Repr
    ensures w.Valid()
    ensures match Play(AndScript(c), old(w.State()), Perform)
      case Ok(s) => r == Ok(()) && w.State() == s
      case Err(e) => r == Err(e)
  {
    ghost var s0 := w.State();
    var es := c.expressions;
    var i := 0;
    while i < |es|
      invariant 0 <= i <= |es| && w.Valid()
      invariant Play(ExpressionsScript(es[..i]), s0, Perform) == Ok(w.State())
    {
      ExpressionsSnoc(es, i);
      PlayThen(ExpressionsScript(es[..i]), [ExpressionStep(es[i])], s0, Perform, w.State());
      r := EncodeExpression(es[i], w);
      if r.Err? {
        ExpressionsFail(es, i, s0);
        return;
      }
      i := i + 1;
    }
    assert es[..i] == es;
    r := Ok(());
  }

  /** One turn of the loop of `AndClause::encode`. */
  method EncodeExpression(e: Expression, w: BpfQueryWriter) returns (r: Result<()>)
    requires w.Valid()
    modifies w.Repr
    ensures w.Valid()
    ensures match Play([ExpressionStep(e)], old(w.State()), Perform)
      case Ok(s) => r == Ok(()) && w.State() == s
      case Err(e) => r == Err(e)
  {
    PlayOne(ExpressionStep(e), w.State(), Perform);
    match e
    case Boolean(_) =>
      r := Err(InvalidClause);
    case Statement(field, op, atom) =>
      r := w.WriteStatement(field, op, atom);
  }

  /** One turn of the loop of `OrClause::encode`: `start_new_clause`, then
      the disjunct's statements. */
  method EncodeDisjunct(x: AndClause, w: BpfQueryWriter) returns (r: Result<()>)
    requires w.Valid()
    modifies w.Repr
    ensures w.Valid()
    ensures match Play([Do(Call.StartNewClause)] + AndScript(x), old(w.State()), Perform)
      case Ok(s) => r == Ok(()) && w.State() == s
      case Err(e) => r == Err(e)
  {
    ghost var s0 := w.State();
    PlayStep([], Do(Call.StartNewClause), s0, Perform, s0);
    r := w.StartNewClause();
    if r.Err? {
      PlayErrPrefix([Do(Call.StartNewClause)], AndScript(x), s0, Perform);
      return;
    }
    PlayThen([Do(Call.StartNewClause)], AndScript(x), s0, Perform, w.State());
    r := EncodeAnd(x, w);
  }

  /** `OrClause::encode`: a constant clause writes its value and flushes;
      otherwise every disjunct is preceded by `start_new_clause`, and the
      writer is flushed once after the last one when there is any. */
  method EncodeOr(o: OrClause, w: BpfQueryWriter) returns (r: Result<()>)
    requires w.Valid()
    modifies w.Repr, ProbeSet(w.probe)
    ensures w.Valid()
    ensures match Play(OrScript(o), old(w.State()), Perform)
      case Ok(s) => r == Ok(()) && w.State() == s
      case Err(e) => r == Err(e)
  {
    if o.truthy {
      r := EncodeConstant(o.value, w);
      return;
    }
    ghost var s0 := w.State();
    var subs := o.subclauses;
    var i := 0;
    while i < |subs|
      invariant 0 <= i <= |subs| && w.Valid()
      invariant Play(DisjunctsScript(subs[..i]), s0, Perform) == Ok(w.State())
    {
      ghost var before := DisjunctsScript(subs[..i]);
      DisjunctsSnoc(subs, i);
      PlayThen(before, [Do(Call.StartNewClause)] + AndScript(subs[i]), s0, Perform, w.State());
      r := EncodeDisjunct(subs[i], w);
      if r.Err? {
        DisjunctsFail(subs, i, s0);
        return;
      }
      i := i + 1;
    }
    assert subs[..i] == subs;
    if |subs| > 0 {
      PlayStep(DisjunctsScript(subs), Do(Call.Flush), s0, Perform, w.State());
      r := w.Flush();
      if r.Err? {
        return;
      }
    }
    r := Ok(());
  }

  /** The constant arm of `OrClause::encode`. */
  method EncodeConstant(value: bool, w: BpfQueryWriter) returns (r: Result<()>)
    requires w.Valid()
    modifies w.Repr, ProbeSet(w.probe)
    ensures w.Valid()
    ensures match Play([Do(Call.WriteAbsolute(value)), Do(Call.Flush)], old(w.State()), Perform)
      case Ok(s) => r == Ok(()) && w.State() == s
      case Err(e) => r == Err(e)
  {
    ghost var s0 := w.State();
    assert [Do(Call.WriteAbsolute(value)), Do(Call.Flush)] == [Do(Call.WriteAbsolute(value))] + [Do(Call.Flush)];
    PlayStep([], Do(Call.WriteAbsolute(value)), s0, Perform, s0);
    r := w.WriteAbsolute(value);
    if r.Err? {
      PlayErrPrefix([Do(Call.WriteAbsolute(value))], [Do(Call.Flush)], s0, Perform);
      return;
    }
    PlayStep([Do(Call.WriteAbsolute(value))], Do(Call.Flush), s0, Perform, w.State());
    r := w.Flush();
  }

  /** A failing expression is the outcome of the whole conjunction. */
  lemma ExpressionsFail(es: seq<Expression>, i: nat, s0: BpfState)
    requires i < |es|
    requires Play(ExpressionsScript(es[..i + 1]), s0, Perform).Err?
    ensures Play(ExpressionsScript(es), s0, Perform) == Play(ExpressionsScript(es[..i + 1]), s0, Perform)
  {
    ExpressionsSplit(es, i);
    PlayErrPrefix(ExpressionsScript(es[..i + 1]), ExpressionsScript(es[i + 1..]), s0, Perform);
  }

  /** A failing disjunct is the outcome of the whole clause. */
  lemma DisjunctsFail(subs: seq<AndClause>, i: nat, s0: BpfState)
    requires i < |subs|
    requires Play(DisjunctsScript(subs[..i + 1]), s0, Perform).Err?
    ensures Play(DisjunctsScript(subs) + (if |subs| > 0 then [Do(Call.Flush)] else []), s0, Perform) ==
      Play(DisjunctsScript(subs[..i + 1]), s0, Perform)
  {
    DisjunctsSplit(subs, i);
    var tail: seq<Step> := if |subs| > 0 then [Do(Call.Flush)] else [];
    assert DisjunctsScript(subs) + tail == DisjunctsScript(subs[..i + 1]) + (DisjunctsScript(subs[i + 1..]) + tail);
    PlayErrPrefix(DisjunctsScript(subs[..i + 1]), DisjunctsScript(subs[i + 1..]) + tail, s0, Perform);
  }

  /** `Rule::encode` with `BpfQueryWriterFactory`: the factory's writer for
      the rule's operation and table, then the clause's calls; what reaches the
      probe is the log the script leaves. */
  method EncodeRule(rule: Rule, probe: Option<Probe>) returns (r: Result<()>)
    modifies ProbeSet(probe)
    ensures match Encode(rule, Factory(old(ProbeLog(probe))), Perform)
      case Ok(s) => r == Ok(()) && ProbeLog(probe) == s.probe
      case Err(e) => r == Err(e)
  {
    var w := new BpfQueryWriter(probe, rule.table, rule.operation);
    r := EncodeOr(rule.clause, w);
  }
}
