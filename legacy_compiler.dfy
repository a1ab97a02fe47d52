/** The older filter-record writer of probe-sys/src/compiler.rs: a single
    table, `bprm_check_security`, whose record holds only `user.id` and
    `process.name`, with setters that do not refuse a second predicate on the
    same field.

    `LegacyQuery` is the record as a value and `LegacyWriter` the inner
    writer as a value; the classes `LegacyInnerWriter` and
    `LegacyBpfQueryWriter` perform the calls in place and are proved to agree
    with the value functions. */
module LegacyCompiler {
  import opened Wrappers
  import opened Text
  import opened RuleAst
  import opened Helpers
  import QueryRecords
  import opened RuleEncoding

  /** `query_bprm_check_security_event_t`. */
  datatype LegacyQuery = LegacyQuery(
    absolute: byte,
    userOperator: byte,
    userId: nat,
    nameOperator: byte,
    name: seq<byte>)

  /** `Default::default()`: every operator and the absolute byte unset, the
      name zeroed. */
  function LegacyDefault(): (r: LegacyQuery)
    ensures r.absolute == UNSET_ABSOLUTE && r.userOperator == UNSET_OPERATOR && r.nameOperator == UNSET_OPERATOR
    ensures r.userId == 0 && |r.name| == QueryRecords.SLOT_SIZE && forall i | 0 <= i < |r.name| :: r.name[i] == 0
  {
    LegacyQuery(UNSET_ABSOLUTE, UNSET_OPERATOR, 0, UNSET_OPERATOR, QueryRecords.ZeroSlot().bytes)
  }

  predicate LegacyWellSized(q: LegacyQuery)
  {
    |q.name| == QueryRecords.SLOT_SIZE && q.userId <= QueryRecords.U32_MAX
  }

  /** `set_number`: only `user.id`, and only a value that fits a `u32`; no
      check for a predicate already on the field. */
  function LegacyWithNumber(q: LegacyQuery, path: string, op: Operator, value: u64): (r: Result<LegacyQuery>)
    ensures r.Ok? ==> r.value.userId == value && r.value.name == q.name && r.value.absolute == q.absolute
  {
    if path != "user.id" then Err(NumberFieldNotFound(path))
    else if value > QueryRecords.U32_MAX then Err(NotU32(path))
    else Ok(q.(userId := value, userOperator := OperatorToConstant(op)))
  }

  /** `set_string`: only `process.name`, with fewer than 256 bytes, copied
      over the front of the name; no check for a predicate already on the
      field. */
  function LegacyWithString(q: LegacyQuery, path: string, op: Operator, value: string): (r: Result<LegacyQuery>)
    ensures r.Ok? ==> |r.value.name| == |q.name| && r.value.userId == q.userId && r.value.absolute == q.absolute
  {
    if path != "process.name" then Err(StringFieldNotFound(path))
    else if |Utf8(value)| >= QueryRecords.SLOT_SIZE then Err(TooLong(path, |Utf8(value)|))
    else Ok(q.(name := QueryRecords.Overlay(q.name, Utf8(value)), nameOperator := OperatorToConstant(op)))
  }

  /** When the setters succeed, and that they keep the record well sized and
      touch only their own field. */
  lemma LegacySetterCases(q: LegacyQuery, path: string, op: Operator, n: u64, s: string)
    requires LegacyWellSized(q)
    ensures LegacyWithNumber(q, path, op, n).Ok? <==> path == "user.id" && n <= QueryRecords.U32_MAX
    ensures LegacyWithString(q, path, op, s).Ok? <==> path == "process.name" && |Utf8(s)| < QueryRecords.SLOT_SIZE
    ensures LegacyWithNumber(q, path, op, n).Ok? ==>
      var r := LegacyWithNumber(q, path, op, n).value;
      LegacyWellSized(r) && r == q.(userId := n, userOperator := OperatorToConstant(op))
    ensures LegacyWithString(q, path, op, s).Ok? ==>
      var r := LegacyWithString(q, path, op, s).value;
      LegacyWellSized(r) && r.nameOperator == OperatorToConstant(op) &&
      r.name[..|Utf8(s)|] == Utf8(s) && r.name[|Utf8(s)|..] == q.name[|Utf8(s)|..] &&
      r.absolute == q.absolute && r.userId == q.userId && r.userOperator == q.userOperator
  {
    if LegacyWithString(q, path, op, s).Ok? {
      var b := Utf8(s);
      var r := LegacyWithString(q, path, op, s).value;
      assert r.name == b + q.name[|b|..];
    }
  }

  /** Without the duplicate check a second `user.id` predicate overwrites the
      first. */
  lemma LegacyNumberOverwrites(q: LegacyQuery, op: Operator, op': Operator, n: u64, n': u64)
    requires n <= QueryRecords.U32_MAX && n' <= QueryRecords.U32_MAX
    ensures LegacyWithNumber(q, "user.id", op, n).Ok?
    ensures LegacyWithNumber(LegacyWithNumber(q, "user.id", op, n).value, "user.id", op', n') ==
      Ok(q.(userId := n', userOperator := OperatorToConstant(op')))
  {
  }

  /** A shorter overlay over a longer one leaves the longer one's tail. */
  lemma OverlayTwice(name: seq<byte>, b1: seq<byte>, b2: seq<byte>)
    requires |b2| <= |b1| <= |name|
    ensures QueryRecords.Overlay(QueryRecords.Overlay(name, b1), b2)[..|b1|] == b2 + b1[|b2|..]
  {
    var n1 := QueryRecords.Overlay(name, b1);
    var n2 := QueryRecords.Overlay(n1, b2);
    assert n2[..|b2|] == b2;
    assert forall i | |b2| <= i < |b1| :: n2[i] == n1[i] == b1[i];
    assert n2[..|b1|] == n2[..|b2|] + n2[|b2|..|b1|];
  }

  /** A second `process.name` predicate shorter than the first writes only
      its own bytes: the first value's tail stays behind it in the name. */
  lemma LegacyStaleTail(q: LegacyQuery, op: Operator, op': Operator, first: string, second: string)
    requires LegacyWellSized(q)
    requires |Utf8(second)| <= |Utf8(first)| < QueryRecords.SLOT_SIZE
    ensures LegacyWithString(q, "process.name", op, first).Ok?
    ensures var q1 := LegacyWithString(q, "process.name", op, first).value;
      var q2 := LegacyWithString(q1, "process.name", op', second);
      var b1, b2 := Utf8(first), Utf8(second);
      q2.Ok? && q2.value.name[..|b1|] == b2 + b1[|b2|..]
  {
    var b1, b2 := Utf8(first), Utf8(second);
    var q1 := LegacyWithString(q, "process.name", op, first).value;
    assert q1.name == QueryRecords.Overlay(q.name, b1);
    assert LegacyWithString(q1, "process.name", op', second).value.name == QueryRecords.Overlay(q1.name, b2);
    OverlayTwice(q.name, b1, b2);
  }

  /** `QueryStruct::set_number` on a record held by value. */
  method LegacySetNumber(q: LegacyQuery, path: string, op: Operator, value: u64) returns (q': LegacyQuery, r: Result<()>)
    ensures match LegacyWithNumber(q, path, op, value)
      case Ok(n) => r == Ok(()) && q' == n
      case Err(e) => r == Err(e) && q' == q
  {
    q' := q;
    if path != "user.id" {
      return q', Err(NumberFieldNotFound(path));
    }
    if value > QueryRecords.U32_MAX {
      return q', Err(NotU32(path));
    }
    q' := q'.(userId := value);
    q' := q'.(userOperator := OperatorToConstant(op));
    r := Ok(());
  }

  /** `QueryStruct::set_string` on a record held by value, with the `zip`
      copy loop. */
  method LegacySetString(q: LegacyQuery, path: string, op: Operator, value: string) returns (q': LegacyQuery, r: Result<()>)
    ensures match LegacyWithString(q, path, op, value)
      case Ok(n) => r == Ok(()) && q' == n
      case Err(e) => r == Err(e) && q' == q
  {
    q' := q;
    if path != "process.name" {
      return q', Err(StringFieldNotFound(path));
    }
    var bytes := Utf8(value);
    if |bytes| >= QueryRecords.SLOT_SIZE {
      return q', Err(TooLong(path, |bytes|));
    }
    var copied := QueryRecords.CopyBytes(q.name, bytes);
    q' := q'.(name := copied, nameOperator := OperatorToConstant(op));
    r := Ok(());
  }

  /** `InnerBpfQueryWriter` of compiler.rs as a value. */
  datatype LegacyWriter = LegacyWriter(limit: nat, current: LegacyQuery, conditionals: seq<LegacyQuery>)

  function LegacyWriteStatementStep(w: LegacyWriter, field: string, op: Operator, atom: Atom): Result<LegacyWriter>
  {
    var stored := match atom
      case Number(n) => LegacyWithNumber(w.current, field, op, n)
      case String(t) => LegacyWithString(w.current, field, op, t);
    match stored
    case Err(e) => Err(e)
    case Ok(q) => Ok(w.(current := q))
  }

  function LegacyStartNewClauseStep(w: LegacyWriter): Result<LegacyWriter>
  {
    if |w.conditionals| > w.limit then Err(TooManyClauses(w.limit))
    else Ok(w.(current := LegacyDefault(),
               conditionals := if |w.conditionals| == 0 then [w.current] else w.conditionals))
  }

  function LegacyWriteAbsoluteStep(w: LegacyWriter, value: bool): Result<LegacyWriter>
  {
    if |w.conditionals| > w.limit then Err(TooManyClauses(w.limit))
    else
      var a := LegacyDefault().(absolute := AbsoluteToConstant(value));
      Ok(w.(current := a, conditionals := w.conditionals + [a]))
  }

  /** The older writer keeps the rules of the newer one: the strict capacity
      check, `current` stored only into an empty list and then zeroed, the
      absolute record stored and kept in `current`. */
  lemma LegacyWriterCases(w: LegacyWriter, value: bool)
    ensures LegacyStartNewClauseStep(w).Ok? <==> |w.conditionals| <= w.limit
    ensures LegacyWriteAbsoluteStep(w, value).Ok? <==> |w.conditionals| <= w.limit
    ensures LegacyStartNewClauseStep(w).Ok? ==>
      var w' := LegacyStartNewClauseStep(w).value;
      w'.current == LegacyDefault() && w'.limit == w.limit &&
      (|w.conditionals| == 0 ==> w'.conditionals == [w.current]) &&
      (|w.conditionals| > 0 ==> w'.conditionals == w.conditionals)
    ensures LegacyWriteAbsoluteStep(w, value).Ok? ==>
      var w' := LegacyWriteAbsoluteStep(w, value).value;
      w'.current.absolute == AbsoluteToConstant(value) && w'.current.absolute != UNSET_ABSOLUTE &&
      w'.conditionals == w.conditionals + [w'.current] &&
      w'.current.(absolute := UNSET_ABSOLUTE) == LegacyDefault()
  {
  }

  /** The writer as the older `BpfQueryWriter` holds it. */
  datatype LegacyBpf = LegacyBpf(table: string, operation: Operation, inner: LegacyWriter)

  const LEGACY_TABLE: string := "bprm_check_security"

  /** `BpfQueryWriter::new`: the one inner writer has the limit 8. */
  function NewLegacyBpf(table: string, operation: Operation): LegacyBpf
  {
    LegacyBpf(table, operation, LegacyWriter(8, LegacyDefault(), []))
  }

  /** What one call does to the inner writer; the older writer has no
      `flush`. */
  function LegacyInnerStep(w: LegacyWriter, c: Call): Result<LegacyWriter>
    requires c != Flush
  {
    match c
    case WriteStatement(field, op, atom) => LegacyWriteStatementStep(w, field, op, atom)
    case StartNewClause => LegacyStartNewClauseStep(w)
    case WriteAbsolute(value) => LegacyWriteAbsoluteStep(w, value)
  }

  /** The three calls of the older `BpfQueryWriter`: each is forwarded to
      the inner writer when the table is `bprm_check_security` and is an
      error otherwise. */
  function LegacyPerform(s: LegacyBpf, c: Call): (r: Result<LegacyBpf>)
    requires c != Flush
    ensures r.Ok? ==> s.table == LEGACY_TABLE && r.value.table == s.table && r.value.operation == s.operation
  {
    if s.table != LEGACY_TABLE then Err(InvalidTable(s.table))
    else match LegacyInnerStep(s.inner, c)
      case Err(e) => Err(e)
      case Ok(w) => Ok(s.(inner := w))
  }

  /** Only `bprm_check_security` is supported: every call on another table
      fails and names it, and on that table a call is the inner writer's. */
  lemma LegacyOtherTablesFail(s: LegacyBpf, c: Call)
    requires c != Flush
    ensures s.table != LEGACY_TABLE <==> LegacyPerform(s, c) == Err(InvalidTable(s.table))
    ensures s.table == LEGACY_TABLE && LegacyPerform(s, c).Ok? ==>
      LegacyPerform(s, c).value == s.(inner := LegacyInnerStep(s.inner, c).value)
  {
    if s.table == LEGACY_TABLE {
      match c
      case WriteStatement(field, op, atom) => LegacyNoTableError(s.inner, field, op, atom, false);
      case StartNewClause => LegacyNoTableError(s.inner, "", Equal, Number(0), false);
      case WriteAbsolute(value) => LegacyNoTableError(s.inner, "", Equal, Number(0), value);
    }
  }

  /** No inner writer call fails with the table error. */
  lemma LegacyNoTableError(w: LegacyWriter, field: string, op: Operator, atom: Atom, value: bool)
    ensures LegacyWriteStatementStep(w, field, op, atom).Err? ==> !LegacyWriteStatementStep(w, field, op, atom).error.InvalidTable?
    ensures LegacyStartNewClauseStep(w).Err? ==> !LegacyStartNewClauseStep(w).error.InvalidTable?
    ensures LegacyWriteAbsoluteStep(w, value).Err? ==> !LegacyWriteAbsoluteStep(w, value).error.InvalidTable?
  {
  }

  /** `InnerBpfQueryWriter` of compiler.rs. */
  class LegacyInnerWriter {
    const limit: nat
    var current: LegacyQuery
    var conditionals: seq<LegacyQuery>

    ghost predicate Valid()
      reads this
    {
      LegacyWellSized(current)
    }

    function State(): LegacyWriter
      reads this
    {
      LegacyWriter(limit, current, conditionals)
    }

    constructor (limit: nat)
      ensures Valid() && State() == LegacyWriter(limit, LegacyDefault(), [])
    {
      this.limit := limit;
      this.current := LegacyDefault();
      this.conditionals := [];
    }

    method WriteStatement(field: string, op: Operator, atom: Atom) returns (r: Result<()>)
      requires Valid()
      modifies this
      ensures Valid()
      ensures match LegacyWriteStatementStep(old(State()), field, op, atom)
        case Ok(w) => r == Ok(()) && State() == w
        case Err(e) => r == Err(e) && State() == old(State())
    {
      match atom
      case Number(n) =>
        LegacySetterCases(current, field, op, n, "");
        current, r := LegacySetNumber(current, field, op, n);
      case String(t) =>
        LegacySetterCases(current, field, op, 0, t);
        current, r := LegacySetString(current, field, op, t);
    }

    method StartNewClause() returns (r: Result<()>)
      requires Valid()
      modifies this
      ensures Valid()
      ensures match LegacyStartNewClauseStep(old(State()))
        case Ok(w) => r == Ok(()) && State() == w
        case Err(e) => r == Err(e) && State() == old(State())
    {
      if |conditionals| > limit {
        return Err(TooManyClauses(limit));
      }
      if |conditionals| == 0 {
        conditionals := conditionals + [current];
      }
      current := LegacyDefault();
      r := Ok(());
    }

    method WriteAbsolute(value: bool) returns (r: Result<()>)
      requires Valid()
      modifies this
      ensures Valid()
      ensures match LegacyWriteAbsoluteStep(old(State()), value)
        case Ok(w) => r == Ok(()) && State() == w
        case Err(e) => r == Err(e) && State() == old(State())
    {
      if |conditionals| > limit {
        return Err(TooManyClauses(limit));
      }
      current := LegacyDefault();
      current := current.(absolute := AbsoluteToConstant(value));
      conditionals := conditionals + [current];
      r := Ok(());
    }
  }

  /** `BpfQueryWriter` of compiler.rs, which holds its inner writer. */
  class LegacyBpfQueryWriter {
    const table: string
    const operation: Operation
    const inner: LegacyInnerWriter

    ghost predicate Valid()
      reads this, inner
    {
      inner.Valid()
    }

    function State(): LegacyBpf
      reads this, inner
    {
      LegacyBpf(table, operation, inner.State())
    }

    /** `BpfQueryWriter::new`. */
    constructor (table: string, operation: Operation)
      ensures Valid() && State() == NewLegacyBpf(table, operation) && fresh(inner)
    {
      this.table := table;
      this.operation := operation;
      this.inner := new LegacyInnerWriter(8);
    }

    method WriteStatement(field: string, op: Operator, atom: Atom) returns (r: Result<()>)
      requires Valid()
      modifies inner
      ensures Valid()
      ensures match LegacyPerform(old(State()), Call.WriteStatement(field, op, atom))
        case Ok(s) => r == Ok(()) && State() == s
        case Err(e) => r == Err(e) && State() == old(State())
    {
      if table != LEGACY_TABLE {
        return Err(InvalidTable(table));
      }
      r := inner.WriteStatement(field, op, atom);
    }

    method StartNewClause() returns (r: Result<()>)
      requires Valid()
      modifies inner
      ensures Valid()
      ensures match LegacyPerform(old(State()), Call.StartNewClause)
        case Ok(s) => r == Ok(()) && State() == s
        case Err(e) => r == Err(e) && State() == old(State())
    {
      if table != LEGACY_TABLE {
        return Err(InvalidTable(table));
      }
      r := inner.StartNewClause();
    }

    method WriteAbsolute(value: bool) returns (r: Result<()>)
      requires Valid()
      modifies inner
      ensures Valid()
      ensures match LegacyPerform(old(State()), Call.WriteAbsolute(value))
        case Ok(s) => r == Ok(()) && State() == s
        case Err(e) => r == Err(e) && State() == old(State())
    {
      if table != LEGACY_TABLE {
        return Err(InvalidTable(table));
      }
      r := inner.WriteAbsolute(value);
    }
  }

  /** `BpfQueryWriterFactory::create`: it always succeeds, whatever the
      table. */
  method LegacyCreate(operation: Operation, table: string) returns (r: Result<LegacyBpfQueryWriter>)
    ensures r.Ok? && fresh(r.value) && r.value.Valid() && r.value.State() == NewLegacyBpf(table, operation)
  {
    var w := new LegacyBpfQueryWriter(table, operation);
    r := Ok(w);
  }
}
