/** `InnerBpfQueryWriter` (probe-sys/src/query_writer.rs): the writer for one
    table. It fills a `current` record, keeps a list of `conditionals`, and on
    `flush_probe` hands every stored record that is not the zeroed one to the
    probe.

    `WriterState` and the `...Step` functions say what one call does to the
    writer as a value; the class `InnerWriter` performs the calls in place and
    is proved to agree with them. The probe is a sink: `Probe` records every
    `apply_rule` call it receives. */
module QueryWriter {
  import opened Wrappers
  import opened Text
  import opened RuleAst
  import opened Helpers
  import opened QueryRecords

  /** One `Probe::apply_rule(module, operation, rule)` call. */
  datatype AppliedRule = AppliedRule(moduleName: string, operation: Operation, record: EventQuery)

  datatype WriterState = WriterState(
    moduleName: string,
    operation: Operation,
    limit: nat,
    current: EventQuery,
    conditionals: seq<EventQuery>)

  /** `InnerBpfQueryWriter::new`. */
  function NewWriter(moduleName: string, operation: Operation, limit: nat): WriterState
  {
    WriterState(moduleName, operation, limit, DefaultQuery, [])
  }

  /** `write_statement`: a number goes to `set_number`, a string to
      `set_string`, both on `current`, and their error is returned as it is. */
  function WriteStatementStep(w: WriterState, field: string, op: Operator, atom: Atom): (r: Result<WriterState>)
    ensures r.Ok? ==> r.value.(current := w.current) == w
  {
    var stored := match atom
      case Number(n) => WithNumber(w.current, field, op, n)
      case String(t) => WithString(w.current, field, op, t);
    match stored
    case Err(e) => Err(e)
    case Ok(q) => Ok(w.(current := q))
  }

  /** The capacity check shared by `start_new_clause` and `write_absolute`. */
  predicate Full(w: WriterState)
  {
    |w.conditionals| > w.limit
  }

  /** `start_new_clause`. */
  function StartNewClauseStep(w: WriterState): (r: Result<WriterState>)
    ensures r.Ok? ==> r.value.conditionals != []
    ensures r.Ok? ==> r.value.conditionals[0] == if w.conditionals == [] then w.current else w.conditionals[0]
    ensures r.Ok? ==> r.value.(current := w.current, conditionals := w.conditionals) == w
  {
    if Full(w) then Err(TooManyClauses(w.limit))
    else Ok(w.(current := DefaultQuery,
               conditionals := if |w.conditionals| == 0 then [w.current] else w.conditionals))
  }

  /** The zeroed record with only its absolute byte set. */
  function AbsoluteRecord(value: bool): EventQuery
  {
    WithAbsolute(DefaultQuery, AbsoluteToConstant(value))
  }

  /** `write_absolute`. */
  function WriteAbsoluteStep(w: WriterState, value: bool): (r: Result<WriterState>)
    ensures r.Ok? ==> |r.value.conditionals| == |w.conditionals| + 1
    ensures r.Ok? ==> r.value.conditionals[..|w.conditionals|] == w.conditionals
    ensures r.Ok? ==> r.value.conditionals[|w.conditionals|] == r.value.current
  {
    if Full(w) then Err(TooManyClauses(w.limit))
    else Ok(w.(current := AbsoluteRecord(value), conditionals := w.conditionals + [AbsoluteRecord(value)]))
  }

  /** The records of a list that differ from the zeroed one, in order. */
  function NonDefault(rs: seq<EventQuery>): (r: seq<EventQuery>)
    ensures |r| <= |rs|
  {
    if rs == [] then []
    else (if rs[0] == DefaultQuery then [] else [rs[0]]) + NonDefault(rs[1..])
  }

  function Applications(moduleName: string, operation: Operation, rs: seq<EventQuery>): (r: seq<AppliedRule>)
    ensures |r| == |rs|
    ensures forall i | 0 <= i < |r| :: r[i] == AppliedRule(moduleName, operation, rs[i])
  {
    if rs == [] then [] else [AppliedRule(moduleName, operation, rs[0])] + Applications(moduleName, operation, rs[1..])
  }

  /** `flush_probe`: `current` is appended to the stored records ... */
  function Flushed(w: WriterState): (r: WriterState)
    ensures |r.conditionals| == |w.conditionals| + 1 && r.conditionals[..|w.conditionals|] == w.conditionals
    ensures r.conditionals[|w.conditionals|] == w.current && r.current == w.current
  {
    w.(conditionals := w.conditionals + [w.current])
  }

  /** ... and the probe receives every one of them that is not zeroed. */
  function ProbeCalls(w: WriterState): (r: seq<AppliedRule>)
    ensures |r| <= |w.conditionals| + 1
    ensures forall i | 0 <= i < |r| :: r[i].moduleName == w.moduleName && r[i].operation == w.operation
  {
    Applications(w.moduleName, w.operation, NonDefault(Flushed(w).conditionals))
  }

  /** When `start_new_clause` fails, and what it keeps: `current` is stored
      only into an empty list, and is zeroed in every case. */
  lemma StartNewClauseCases(w: WriterState)
    ensures StartNewClauseStep(w).Err? <==> |w.conditionals| > w.limit
    ensures StartNewClauseStep(w).Ok? ==>
      var w' := StartNewClauseStep(w).value;
      w'.current == DefaultQuery &&
      (|w.conditionals| == 0 ==> w'.conditionals == [w.current]) &&
      (|w.conditionals| > 0 ==> w'.conditionals == w.conditionals)
  {
  }

  /** Once a record is stored, a second `start_new_clause` drops whatever was
      written into `current` since: the stored list does not change. */
  lemma LaterClauseDiscarded(w: WriterState, field: string, op: Operator, atom: Atom)
    requires StartNewClauseStep(w).Ok?
    requires WriteStatementStep(StartNewClauseStep(w).value, field, op, atom).Ok?
    ensures var w1 := WriteStatementStep(StartNewClauseStep(w).value, field, op, atom).value;
      StartNewClauseStep(w1).Ok? ==> StartNewClauseStep(w1).value.conditionals == StartNewClauseStep(w).value.conditionals
  {
  }

  /** The capacity check is strict: with no more than `limit` stored records a
      call passes it, with more it fails. */
  lemma CapacityIsStrict(w: WriterState, value: bool)
    ensures |w.conditionals| <= w.limit ==> StartNewClauseStep(w).Ok? && WriteAbsoluteStep(w, value).Ok?
    ensures |w.conditionals| == w.limit + 1 ==>
      StartNewClauseStep(w) == Err(TooManyClauses(w.limit)) && WriteAbsoluteStep(w, value) == Err(TooManyClauses(w.limit))
  {
  }

  /** `write_absolute` stores the absolute record and leaves it in `current`
      too, so that flushing hands the probe the same record twice, at the
      end. */
  lemma AbsoluteFlushedTwice(w: WriterState, value: bool)
    requires WriteAbsoluteStep(w, value).Ok?
    ensures var a := AbsoluteRecord(value);
      var calls := ProbeCalls(WriteAbsoluteStep(w, value).value);
      a.absolute == AbsoluteToConstant(value) && a.absolute != UNSET_ABSOLUTE &&
      |calls| >= 2 &&
      calls[|calls| - 2] == AppliedRule(w.moduleName, w.operation, a) &&
      calls[|calls| - 1] == AppliedRule(w.moduleName, w.operation, a)
  {
    var a := AbsoluteRecord(value);
    assert a != DefaultQuery by {
      assert a.absolute != DefaultQuery.absolute;
    }
    var w' := WriteAbsoluteStep(w, value).value;
    assert Flushed(w').conditionals == w.conditionals + [a, a];
    NonDefaultAppend(w.conditionals, [a, a]);
    assert NonDefault([a, a]) == [a, a] by {
      assert [a, a][1..] == [a];
      assert [a][1..] == [];
    }
  }

  lemma {:induction false} NonDefaultAppend(a: seq<EventQuery>, b: seq<EventQuery>)
    ensures NonDefault(a + b) == NonDefault(a) + NonDefault(b)
  {
    if a == [] {
      assert a + b == b;
    } else {
      assert (a + b)[0] == a[0];
      assert (a + b)[1..] == a[1..] + b;
      NonDefaultAppend(a[1..], b);
    }
  }

  /** `NonDefault` keeps exactly the records that are not zeroed. */
  lemma {:induction false} NonDefaultKeeps(rs: seq<EventQuery>)
    ensures forall i | 0 <= i < |NonDefault(rs)| :: NonDefault(rs)[i] != DefaultQuery && NonDefault(rs)[i] in rs
    ensures forall q | q in rs && q != DefaultQuery :: q in NonDefault(rs)
  {
    if rs != [] {
      NonDefaultKeeps(rs[1..]);
      assert rs == [rs[0]] + rs[1..];
    }
  }

  /** The probe receives exactly the stored records and `current` that are
      not zeroed, each with the writer's module and operation. */
  lemma ProbeCallsAreNonDefault(w: WriterState)
    ensures forall i | 0 <= i < |ProbeCalls(w)| ::
      ProbeCalls(w)[i].record != DefaultQuery && ProbeCalls(w)[i].record in w.conditionals + [w.current] &&
      ProbeCalls(w)[i].moduleName == w.moduleName && ProbeCalls(w)[i].operation == w.operation
    ensures forall q | q in w.conditionals + [w.current] && q != DefaultQuery ::
      AppliedRule(w.moduleName, w.operation, q) in ProbeCalls(w)
  {
    var rs := Flushed(w).conditionals;
    NonDefaultKeeps(rs);
    forall q | q in rs && q != DefaultQuery ensures AppliedRule(w.moduleName, w.operation, q) in ProbeCalls(w) {
      var k :| 0 <= k < |NonDefault(rs)| && NonDefault(rs)[k] == q;
      assert ProbeCalls(w)[k] == AppliedRule(w.moduleName, w.operation, q);
    }
  }

  /** The probe, as far as the writers see it: a log of the rules applied. */
  class Probe {
    var applied: seq<AppliedRule>

    constructor ()
      ensures applied == []
    {
      applied := [];
    }

    /** `QueryFlusher::apply_rule`. */
    method ApplyRule(moduleName: string, operation: Operation, record: EventQuery)
      modifies this
      ensures applied == old(applied) + [AppliedRule(moduleName, operation, record)]
    {
      applied := applied + [AppliedRule(moduleName, operation, record)];
    }
  }

  /** `InnerBpfQueryWriter`. Its `current` record is a field it holds by
      value and fills in place. */
  class InnerWriter {
    const moduleName: string
    const operation: Operation
    const limit: nat
    var current: EventQuery
    var conditionals: seq<EventQuery>

    /** The record being filled keeps the slot sizes. */
    ghost predicate Valid()
      reads this
    {
      WellSized(current)
    }

    function State(): WriterState
      reads this
    {
      WriterState(moduleName, operation, limit, current, conditionals)
    }

    /** `InnerBpfQueryWriter::new`. */
    constructor (moduleName: string, operation: Operation, limit: nat)
      ensures Valid() && State() == NewWriter(moduleName, operation, limit)
    {
      this.moduleName := moduleName;
      this.operation := operation;
      this.limit := limit;
      this.current := DefaultQuery;
      this.conditionals := [];
      new;
      DefaultIsUnset();
    }

    /** `QueryWriter::write_statement`; a refused statement changes nothing. */
    method WriteStatement(field: string, op: Operator, atom: Atom) returns (r: Result<()>)
      requires Valid()
      modifies this
      ensures Valid()
      ensures match WriteStatementStep(old(State()), field, op, atom)
        case Ok(w) => r == Ok(()) && State() == w
        case Err(e) => r == Err(e) && State() == old(State())
    {
      match atom
      case Number(n) =>
        SettersKeepSize(current, field, op, n, "", 0);
        current, r := SetNumber(current, field, op, n);
      case String(t) =>
        SettersKeepSize(current, field, op, 0, t, 0);
        current, r := SetString(current, field, op, t);
    }

    /** `QueryWriter::start_new_clause`. */
    method StartNewClause() returns (r: Result<()>)
      requires Valid()
      modifies this
      ensures Valid()
      ensures match StartNewClauseStep(old(State()))
        case Ok(w) => r == Ok(()) && State() == w
        case Err(e) => r == Err(e) && State() == old(State())
    {
      if |conditionals| > limit {
        return Err(TooManyClauses(limit));
      }
      if |conditionals| == 0 {
        conditionals := conditionals + [current];
      }
      current := DefaultQuery;
      DefaultIsUnset();
      r := Ok(());
    }

    /** `QueryWriter::write_absolute`. */
    method WriteAbsolute(value: bool) returns (r: Result<()>)
      requires Valid()
      modifies this
      ensures Valid()
      ensures match WriteAbsoluteStep(old(State()), value)
        case Ok(w) => r == Ok(()) && State() == w
        case Err(e) => r == Err(e) && State() == old(State())
    {
      if |conditionals| > limit {
        return Err(TooManyClauses(limit));
      }
      current := DefaultQuery;
      current := WithAbsolute(current, AbsoluteToConstant(value));
      DefaultIsUnset();
      SettersKeepSize(DefaultQuery, "", Equal, 0, "", AbsoluteToConstant(value));
      conditionals := conditionals + [current];
      r := Ok(());
    }

    /** `QueryWriter::flush` of the inner writer does nothing. */
    method Flush() returns (r: Result<()>)
      ensures r == Ok(())
    {
      r := Ok(());
    }

    /** `flush_probe`: `current` is stored, then every stored record that is
        not zeroed is applied to the probe, in order. */
    method FlushProbe(probe: Probe) returns (r: Result<()>)
      requires Valid()
      modifies this, probe
      ensures Valid() && r == Ok(())
      ensures State() == Flushed(old(State()))
      ensures probe.applied == old(probe.applied) + ProbeCalls(old(State()))
    {
      conditionals := conditionals + [current];
      ApplyAll(probe, moduleName, operation, conditionals);
      r := Ok(());
    }
  }

  /** The loop of `flush_probe`: every record that differs from the zeroed
      one is applied, in order. */
  method ApplyAll(probe: Probe, moduleName: string, operation: Operation, records: seq<EventQuery>)
    modifies probe
    ensures probe.applied == old(probe.applied) + Applications(moduleName, operation, NonDefault(records))
  {
    var i := 0;
    while i < |records|
      invariant 0 <= i <= |records|
      invariant probe.applied == old(probe.applied) + Applications(moduleName, operation, NonDefault(records[..i]))
    {
      var filter := records[i];
      ghost var done := Applications(moduleName, operation, NonDefault(records[..i]));
      ApplyStep(moduleName, operation, records, i);
      if filter != DefaultQuery {
        probe.ApplyRule(moduleName, operation, filter);
        assert probe.applied == old(probe.applied) + (done + [AppliedRule(moduleName, operation, filter)]);
      } else {
        assert done + [] == done;
      }
      i := i + 1;
    }
    assert records[..i] == records;
  }

  lemma ApplyStep(moduleName: string, operation: Operation, records: seq<EventQuery>, i: nat)
    requires i < |records|
    ensures Applications(moduleName, operation, NonDefault(records[..i + 1])) ==
      Applications(moduleName, operation, NonDefault(records[..i])) +
      (if records[i] == DefaultQuery then [] else [AppliedRule(moduleName, operation, records[i])])
  {
    NonDefaultAppend(records[..i], [records[i]]);
    assert records[..i + 1] == records[..i] + [records[i]];
    ApplicationsAppend(moduleName, operation, NonDefault(records[..i]), NonDefault([records[i]]));
  }

  lemma {:induction false} ApplicationsAppend(moduleName: string, operation: Operation, a: seq<EventQuery>, b: seq<EventQuery>)
    ensures Applications(moduleName, operation, a + b) == Applications(moduleName, operation, a) + Applications(moduleName, operation, b)
  {
    if a == [] {
      assert a + b == b;
    } else {
      assert (a + b)[0] == a[0];
      assert (a + b)[1..] == a[1..] + b;
      ApplicationsAppend(moduleName, operation, a[1..], b);
    }
  }
}
