/** What `Rule::encode` into `BpfQueryWriter` does as a whole
    (rule-compiler/src/lib.rs, probe-sys/src/query_writer.rs,
    probe-sys/src/compiler_generated.rs), proved on the value model
    `RuleEncoding.Encode` with `BpfWriter.Perform`.

    The driver calls `start_new_clause` before every disjunct, and the writer
    stores `current` only into an empty list. So the first call stores the
    zeroed record, every later disjunct is written into `current` and dropped
    by the next `start_new_clause`, and the flush hands the probe only the
    last disjunct's record. */
module EncodeProperties {
  import opened Wrappers
  import opened RuleAst
  import opened RuleSimplifier
  import opened RuleParser
  import opened RuleEncoding
  import opened QueryRecords
  import opened QueryWriter
  import opened BpfWriter

  /** `write_statement`'s setter on one record. */
  function SetAtom(q: EventQuery, field: string, op: Operator, atom: Atom): Result<EventQuery>
  {
    match atom
    case Number(n) => WithNumber(q, field, op, n)
    case String(t) => WithString(q, field, op, t)
  }

  /** The record a conjunction leaves in `current`, starting from `q`, or the
      first error on the way. */
  function Fill(q: EventQuery, es: seq<Expression>): Result<EventQuery>
    decreases |es|
  {
    if es == [] then Ok(q)
    else match es[0]
      case Boolean(_) => Err(InvalidClause)
      case Statement(f, op, a) =>
        match SetAtom(q, f, op, a)
        case Err(e) => Err(e)
        case Ok(q1) => Fill(q1, es[1..])
  }

  /** Every disjunct is filled from the zeroed record; the first error wins,
      and otherwise the last disjunct's record is what remains. */
  function LastFill(subs: seq<AndClause>): Result<EventQuery>
    requires |subs| > 0
    decreases |subs|
  {
    match Fill(DefaultQuery, subs[0].expressions)
    case Err(e) => Err(e)
    case Ok(q) => if |subs| == 1 then Ok(q) else LastFill(subs[1..])
  }

  /** What `start_new_clause` leaves in the stored list when it passes. */
  function Kept(w: WriterState): seq<EventQuery>
  {
    if |w.conditionals| == 0 then [w.current] else w.conditionals
  }

  lemma WithInnerTwice(s: BpfState, t: Table, a: WriterState, b: WriterState)
    ensures WithInner(WithInner(s, t, a), t, b) == WithInner(s, t, b)
  {
  }

  /** Every inner writer of a new `BpfQueryWriter` is empty, with its own
      module name and the limit 8. */
  lemma NewBpfInner(probe: Option<seq<AppliedRule>>, table: string, operation: Operation, t: Table)
    ensures Inner(NewBpf(probe, table, operation), t) == NewWriter(ModuleOf(t), operation, WRITER_LIMIT)
  {
    match t
    case Bprm =>
    case Rename =>
    case Unlink =>
  }

  lemma WithInnerSame(s: BpfState, t: Table)
    ensures WithInner(s, t, Inner(s, t)) == s
  {
  }

  /** The statements of a conjunction only fill the table's `current`. */
  lemma {:induction false} AndPlay(es: seq<Expression>, s: BpfState, t: Table)
    requires TableOf(s.table) == Some(t)
    ensures Play(ExpressionsScript(es), s, Perform) ==
      match Fill(Inner(s, t).current, es)
      case Ok(q) => Ok(WithInner(s, t, Inner(s, t).(current := q)))
      case Err(e) => Err(e)
    decreases |es|
  {
    var w := Inner(s, t);
    if es == [] {
      WithInnerSame(s, t);
    } else {
      var script := ExpressionsScript(es);
      assert script[0] == ExpressionStep(es[0]);
      assert script[1..] == ExpressionsScript(es[1..]);
      match es[0]
      case Boolean(_) =>
      case Statement(f, op, a) =>
        assert InnerStep(w, Call.WriteStatement(f, op, a)) == WriteStatementStep(w, f, op, a);
        match SetAtom(w.current, f, op, a)
        case Err(e) =>
        case Ok(q1) =>
          var s1 := WithInner(s, t, w.(current := q1));
          assert Perform(s, Call.WriteStatement(f, op, a)) == Ok(s1);
          AndPlay(es[1..], s1, t);
          match Fill(q1, es[1..])
          case Err(_) =>
          case Ok(q) =>
            WithInnerTwice(s, t, w.(current := q1), w.(current := q));
    }
  }

  /** `start_new_clause` on a writer with room keeps its first stored list
      and zeroes `current`. */
  lemma StartClausePerform(s: BpfState, t: Table)
    requires TableOf(s.table) == Some(t)
    requires |Inner(s, t).conditionals| <= Inner(s, t).limit
    ensures Perform(s, Call.StartNewClause) ==
      Ok(WithInner(s, t, Inner(s, t).(current := DefaultQuery, conditionals := Kept(Inner(s, t)))))
  {
    PerformOnInner(s, t, Call.StartNewClause);
  }

  lemma DisjunctsScriptHead(subs: seq<AndClause>)
    requires |subs| > 0
    ensures DisjunctsScript(subs) == [Do(Call.StartNewClause)] + (AndScript(subs[0]) + DisjunctsScript(subs[1..]))
  {
  }

  lemma StartClausePlay(subs: seq<AndClause>, s: BpfState, t: Table)
    requires TableOf(s.table) == Some(t) && |subs| > 0
    requires |Inner(s, t).conditionals| <= Inner(s, t).limit
    ensures Play(DisjunctsScript(subs), s, Perform) ==
      Play(AndScript(subs[0]) + DisjunctsScript(subs[1..]),
        WithInner(s, t, Inner(s, t).(current := DefaultQuery, conditionals := Kept(Inner(s, t)))), Perform)
  {
    var rest := AndScript(subs[0]) + DisjunctsScript(subs[1..]);
    DisjunctsScriptHead(subs);
    StartClausePerform(s, t);
    PlayHead(Call.StartNewClause, rest, s, Perform,
      WithInner(s, t, Inner(s, t).(current := DefaultQuery, conditionals := Kept(Inner(s, t)))));
  }

  /** The first disjunct: `start_new_clause`, then its statements written
      into the zeroed record. */
  lemma FirstDisjunctPlay(subs: seq<AndClause>, s: BpfState, t: Table)
    requires TableOf(s.table) == Some(t) && |subs| > 0
    requires |Inner(s, t).conditionals| <= Inner(s, t).limit && 1 <= Inner(s, t).limit
    ensures var w1 := Inner(s, t).(current := DefaultQuery, conditionals := Kept(Inner(s, t)));
      Play(DisjunctsScript(subs), s, Perform) ==
        match Fill(DefaultQuery, subs[0].expressions)
        case Ok(q1) => Play(DisjunctsScript(subs[1..]), WithInner(s, t, w1.(current := q1)), Perform)
        case Err(e) => Err(e)
  {
    var w1 := Inner(s, t).(current := DefaultQuery, conditionals := Kept(Inner(s, t)));
    var s1 := WithInner(s, t, w1);
    StartClausePlay(subs, s, t);
    AndPlay(subs[0].expressions, s1, t);
    PlayAppend(AndScript(subs[0]), DisjunctsScript(subs[1..]), s1, Perform);
    match Fill(DefaultQuery, subs[0].expressions)
    case Err(_) =>
    case Ok(q1) =>
      WithInnerTwice(s, t, w1, w1.(current := q1));
  }

  /** The disjunct loop on a writer that has room: it passes every capacity
      check, keeps the first stored list, and leaves the last disjunct's
      record in `current`. */
  lemma {:induction false} DisjunctsPlay(subs: seq<AndClause>, s: BpfState, t: Table)
    requires TableOf(s.table) == Some(t) && |subs| > 0
    requires |Inner(s, t).conditionals| <= Inner(s, t).limit && 1 <= Inner(s, t).limit
    ensures Play(DisjunctsScript(subs), s, Perform) ==
      match LastFill(subs)
      case Ok(q) => Ok(WithInner(s, t, Inner(s, t).(current := q, conditionals := Kept(Inner(s, t)))))
      case Err(e) => Err(e)
    decreases |subs|
  {
    var w1 := Inner(s, t).(current := DefaultQuery, conditionals := Kept(Inner(s, t)));
    FirstDisjunctPlay(subs, s, t);
    match Fill(DefaultQuery, subs[0].expressions)
    case Err(_) =>
    case Ok(q1) =>
      var s2 := WithInner(s, t, w1.(current := q1));
      if |subs| > 1 {
        DisjunctsPlay(subs[1..], s2, t);
        match LastFill(subs[1..])
        case Err(_) =>
        case Ok(q) =>
          WithInnerTwice(s, t, w1.(current := q1), w1.(current := q1).(current := q, conditionals := Kept(w1)));
      } else {
        assert subs[1..] == [];
      }
  }

  /** `flush` on the table's writer: its records are stored and those that
      are not zeroed reach the probe. */
  lemma FlushPlay(s: BpfState, t: Table)
    requires TableOf(s.table) == Some(t)
    ensures Play([Do(Call.Flush)], s, Perform) == Perform(s, Call.Flush) == Ok(
      if s.probe.None? then s
      else WithInner(s, t, Flushed(Inner(s, t))).(probe := Some(s.probe.value + ProbeCalls(Inner(s, t)))))
  {
    PlayOne(Do(Call.Flush), s, Perform);
  }

  /** The two zeroed-or-not records the probe can see at the flush. */
  lemma NonDefaultPair(q: EventQuery)
    ensures NonDefault([DefaultQuery, q]) == if q == DefaultQuery then [] else [q]
  {
    assert [DefaultQuery, q][1..] == [q];
    assert [q][1..] == [];
  }

  /** Only the last disjunct reaches the probe. For a rule on one of the three
      tables whose clause is not constant, encoding succeeds exactly when every
      disjunct can be written into a zeroed record; the probe then receives at
      most one record, the last disjunct's, however many disjuncts there are,
      and the error is otherwise the first failing disjunct's error. */
  lemma OnlyLastDisjunctReachesProbe(rule: Rule, probe: Option<seq<AppliedRule>>, t: Table)
    requires TableOf(rule.table) == Some(t)
    requires !rule.clause.truthy && |rule.clause.subclauses| > 0
    ensures var result := Encode(rule, Factory(probe), Perform);
      var last := LastFill(rule.clause.subclauses);
      (result.Ok? <==> last.Ok?) &&
      (result.Err? ==> result.error == last.error) &&
      (result.Ok? && probe.None? ==> result.value.probe == None) &&
      (result.Ok? && probe.Some? ==> result.value.probe == Some(probe.value +
        if last.value == DefaultQuery then [] else [AppliedRule(ModuleOf(t), rule.operation, last.value)]))
  {
    var subs := rule.clause.subclauses;
    var s := NewBpf(probe, rule.table, rule.operation);
    assert Factory(probe)(rule.operation, rule.table) == Ok(s);
    assert OrScript(rule.clause) == DisjunctsScript(subs) + [Do(Call.Flush)];
    NewBpfInner(probe, rule.table, rule.operation, t);
    DisjunctsPlay(subs, s, t);
    PlayAppend(DisjunctsScript(subs), [Do(Call.Flush)], s, Perform);
    match LastFill(subs)
    case Err(_) =>
    case Ok(q) =>
      var w := Inner(s, t).(current := q, conditionals := Kept(Inner(s, t)));
      assert Kept(Inner(s, t)) == [DefaultQuery];
      FlushPlay(WithInner(s, t, w), t);
      assert Flushed(w).conditionals == [DefaultQuery, q];
      NonDefaultPair(q);
      var calls := ProbeCalls(w);
      assert calls == Applications(ModuleOf(t), rule.operation, if q == DefaultQuery then [] else [q]);
      assert q != DefaultQuery ==> calls == [AppliedRule(ModuleOf(t), rule.operation, q)];
  }

  /** A constant clause stores its absolute record and leaves it in
      `current`, so the probe receives that record twice. */
  lemma ConstantAppliedTwice(rule: Rule, log: seq<AppliedRule>, t: Table)
    requires TableOf(rule.table) == Some(t) && rule.clause.truthy
    ensures var result := Encode(rule, Factory(Some(log)), Perform);
      var a := AppliedRule(ModuleOf(t), rule.operation, AbsoluteRecord(rule.clause.value));
      result.Ok? && result.value.probe == Some(log + [a, a])
  {
    var s := NewBpf(Some(log), rule.table, rule.operation);
    var v := rule.clause.value;
    var wa: seq<Step> := [Do(Call.WriteAbsolute(v))];
    assert Factory(Some(log))(rule.operation, rule.table) == Ok(s);
    assert OrScript(rule.clause) == wa + [Do(Call.Flush)];
    assert Encode(rule, Factory(Some(log)), Perform) == Play(wa + [Do(Call.Flush)], s, Perform);
    NewBpfInner(Some(log), rule.table, rule.operation, t);
    var w1 := WriteAbsoluteStep(Inner(s, t), v).value;
    var s1 := WithInner(s, t, w1);
    assert Perform(s, Call.WriteAbsolute(v)) == Ok(s1);
    PlayOne(Do(Call.WriteAbsolute(v)), s, Perform);
    PlayThen(wa, [Do(Call.Flush)], s, Perform, s1);
    FlushPlay(s1, t);
    AbsoluteOnEmpty(Inner(s, t), v);
  }

  /** On an empty writer, `write_absolute` then `flush` hand the probe the
      absolute record twice and nothing else. */
  lemma AbsoluteOnEmpty(w: WriterState, v: bool)
    requires w.conditionals == [] && w.limit >= 1
    ensures var a := AppliedRule(w.moduleName, w.operation, AbsoluteRecord(v));
      WriteAbsoluteStep(w, v).Ok? && ProbeCalls(WriteAbsoluteStep(w, v).value) == [a, a]
  {
    var a := AbsoluteRecord(v);
    assert Flushed(WriteAbsoluteStep(w, v).value).conditionals == [a, a];
    assert a != DefaultQuery by {
      assert a.absolute != DefaultQuery.absolute;
    }
    assert NonDefault([a, a]) == [a, a] by {
      assert [a, a][1..] == [a];
      assert [a][1..] == [];
    }
  }

  /** A table outside the three: the factory still succeeds, but the first
      writer call fails, so only a clause with no disjunct at all encodes. */
  lemma UnknownTableFails(rule: Rule, probe: Option<seq<AppliedRule>>)
    requires TableOf(rule.table).None?
    ensures Encode(rule, Factory(probe), Perform) ==
      if !rule.clause.truthy && rule.clause.subclauses == [] then Ok(NewBpf(probe, rule.table, rule.operation))
      else Err(InvalidTable(rule.table))
  {
    var s := NewBpf(probe, rule.table, rule.operation);
    assert Factory(probe)(rule.operation, rule.table) == Ok(s);
    var script := OrScript(rule.clause);
    if rule.clause.truthy {
      assert script[0] == Do(Call.WriteAbsolute(rule.clause.value));
    } else if rule.clause.subclauses != [] {
      assert script[0] == Do(Call.StartNewClause);
    } else {
      assert script == [];
    }
  }

  /** The errors a conjunction can meet are those of the setters or of a
      non-statement expression; the capacity error is not among them. */
  lemma {:induction false} FillNeverFull(q: EventQuery, es: seq<Expression>)
    ensures Fill(q, es).Err? ==> !Fill(q, es).error.TooManyClauses?
    decreases |es|
  {
    if es != [] && es[0].Statement? {
      match SetAtom(q, es[0].field, es[0].operator, es[0].atom)
      case Err(_) =>
      case Ok(q1) => FillNeverFull(q1, es[1..]);
    }
  }

  lemma {:induction false} LastFillNeverFull(subs: seq<AndClause>)
    requires |subs| > 0
    ensures LastFill(subs).Err? ==> !LastFill(subs).error.TooManyClauses?
    decreases |subs|
  {
    FillNeverFull(DefaultQuery, subs[0].expressions);
    if |subs| > 1 {
      LastFillNeverFull(subs[1..]);
    }
  }

  /** `Rule::encode` never meets the capacity error on a known table: the
      writer holds a single stored record until the flush, whatever the number
      of disjuncts. */
  lemma CapacityNeverReached(rule: Rule, probe: Option<seq<AppliedRule>>)
    requires TableOf(rule.table).Some?
    ensures Encode(rule, Factory(probe), Perform).Err? ==>
      !Encode(rule, Factory(probe), Perform).error.TooManyClauses?
  {
    var t := TableOf(rule.table).value;
    if rule.clause.truthy {
      var s := NewBpf(probe, rule.table, rule.operation);
      assert Factory(probe)(rule.operation, rule.table) == Ok(s);
      var s1 := WithInner(s, t, WriteAbsoluteStep(Inner(s, t), rule.clause.value).value);
      assert Perform(s, Call.WriteAbsolute(rule.clause.value)) == Ok(s1);
      PlayStep([], Do(Call.WriteAbsolute(rule.clause.value)), s, Perform, s);
      PlayStep([Do(Call.WriteAbsolute(rule.clause.value))], Do(Call.Flush), s, Perform, s1);
      assert [] + [Do(Call.WriteAbsolute(rule.clause.value))] == [Do(Call.WriteAbsolute(rule.clause.value))];
      FlushPlay(s1, t);
    } else if rule.clause.subclauses == [] {
      var s := NewBpf(probe, rule.table, rule.operation);
      assert Factory(probe)(rule.operation, rule.table) == Ok(s);
    } else {
      OnlyLastDisjunctReachesProbe(rule, probe, t);
      LastFillNeverFull(rule.clause.subclauses);
    }
  }
}
