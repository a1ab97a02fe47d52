/** `BpfQueryWriter` (probe-sys/src/compiler_generated.rs) and
    `BpfQueryWriterFactory` (probe-sys/src/query_writer.rs): the `QueryWriter`
    that `Rule::encode` drives in the sensor. It holds one inner writer per
    table, forwards every call to the one its table names, and flushes to the
    probe when it has one.

    `BpfState` and `Perform` are the writer as a value, the `perform` argument
    of `RuleEncoding.Play`; the class `BpfQueryWriter` is proved to agree with
    them, and `EncodeRule` runs `Rule::encode` against it. */
module BpfWriter {
  import opened Wrappers
  import opened RuleAst
  import opened RuleSimplifier
  import opened RuleParser
  import opened RuleEncoding
  import opened QueryRecords
  import opened QueryWriter

  datatype Table = Bprm | Rename | Unlink

  /** Every inner writer may hold this many records before refusing more. */
  const WRITER_LIMIT: nat := 8

  function TableOf(name: string): (r: Option<Table>)
    ensures r == Some(Bprm) <==> name == "bprm_check_security"
    ensures r == Some(Rename) <==> name == "path_rename"
    ensures r == Some(Unlink) <==> name == "path_unlink"
  {
    if name == "bprm_check_security" then Some(Bprm)
    else if name == "path_rename" then Some(Rename)
    else if name == "path_unlink" then Some(Unlink)
    else None
  }

  /** The probe module an inner writer applies its records to. */
  function ModuleOf(t: Table): string
  {
    match t
    case Bprm => "bprm_check_security"
    case Rename => "path_rename"
    case Unlink => "path_unlink"
  }

  /** The writer as a value: its table, its three inner writers, and the log of
      the probe it flushes to, if it has one. */
  datatype BpfState = BpfState(
    table: string,
    bprm: WriterState,
    rename: WriterState,
    unlink: WriterState,
    probe: Option<seq<AppliedRule>>)

  /** `BpfQueryWriter::new`. */
  function NewBpf(probe: Option<seq<AppliedRule>>, table: string, operation: Operation): BpfState
  {
    BpfState(table,
      NewWriter(ModuleOf(Bprm), operation, WRITER_LIMIT),
      NewWriter(ModuleOf(Rename), operation, WRITER_LIMIT),
      NewWriter(ModuleOf(Unlink), operation, WRITER_LIMIT),
      probe)
  }

  function Inner(s: BpfState, t: Table): WriterState
  {
    match t
    case Bprm => s.bprm
    case Rename => s.rename
    case Unlink => s.unlink
  }

  function WithInner(s: BpfState, t: Table, w: WriterState): (r: BpfState)
    ensures Inner(r, t) == w && r.table == s.table && r.probe == s.probe
    ensures forall t' | t' != t :: Inner(r, t') == Inner(s, t')
  {
    match t
    case Bprm => s.(bprm := w)
    case Rename => s.(rename := w)
    case Unlink => s.(unlink := w)
  }

  /** What one call does to an inner writer; its own `flush` does nothing. */
  function InnerStep(w: WriterState, c: Call): Result<WriterState>
  {
    match c
    case WriteStatement(f, op, a) => WriteStatementStep(w, f, op, a)
    case StartNewClause => StartNewClauseStep(w)
    case WriteAbsolute(v) => WriteAbsoluteStep(w, v)
    case Flush => Ok(w)
  }

  /** The `QueryWriter` impl of `BpfQueryWriter`. */
  function Perform(s: BpfState, c: Call): (r: Result<BpfState>)
    ensures r.Ok? ==> r.value.table == s.table
    ensures r.Ok? && c != Flush ==> r.value.probe == s.probe
  {
    PerformOn(s, TableOf(s.table), c)
  }

  /** `Perform` once the table name has been matched. */
  function PerformOn(s: BpfState, kind: Option<Table>, c: Call): (r: Result<BpfState>)
    ensures r.Ok? ==> r.value.table == s.table
    ensures r.Ok? && c != Flush ==> r.value.probe == s.probe
    ensures r.Ok? && kind.None? ==> r.value == s
  {
    if c == Flush && s.probe.None? then Ok(s)
    else match kind
      case None => Err(InvalidTable(s.table))
      case Some(t) =>
        if c == Flush then
          Ok(WithInner(s, t, Flushed(Inner(s, t))).(probe := Some(s.probe.value + ProbeCalls(Inner(s, t)))))
        else match InnerStep(Inner(s, t), c)
          case Err(e) => Err(e)
          case Ok(w) => Ok(WithInner(s, t, w))
  }

  /** Away from `flush`, a call is the inner writer's step on the table's
      writer. */
  lemma PerformOnInner(s: BpfState, t: Table, c: Call)
    requires c != Flush
    ensures PerformOn(s, Some(t), c) == match InnerStep(Inner(s, t), c)
      case Err(e) => Err(e)
      case Ok(w) => Ok(WithInner(s, t, w))
  {
  }

  /** A call the table's inner writer has answered with `r`, leaving it as
      `w`, has the outcome `PerformOn` gives it. */
  lemma Lift(s: BpfState, t: Table, c: Call, w: WriterState, r: Result<()>)
    requires c != Flush
    requires match InnerStep(Inner(s, t), c)
      case Ok(w') => r == Ok(()) && w == w'
      case Err(e) => r == Err(e) && w == Inner(s, t)
    ensures match PerformOn(s, Some(t), c)
      case Ok(s') => r == Ok(()) && WithInner(s, t, w) == s'
      case Err(e) => r == Err(e) && WithInner(s, t, w) == s
  {
    match t
    case Bprm =>
    case Rename =>
    case Unlink =>
  }

  /** `BpfQueryWriterFactory::create`, for a factory with or without a probe. */
  function Factory(probe: Option<seq<AppliedRule>>): (r: (Operation, string) -> Result<BpfState>)
    ensures forall operation: Operation, table: string ::
      r(operation, table).Ok? && r(operation, table).value.table == table && r(operation, table).value.probe == probe
  {
    (operation: Operation, table: string) => Ok(NewBpf(probe, table, operation))
  }

  /** Dispatch: a call reaches only the inner writer its table names; a table
      outside the three fails on every call except a `flush` without a probe,
      which succeeds and changes nothing. */
  lemma PerformDispatch(s: BpfState, c: Call)
    ensures TableOf(s.table).None? ==>
      Perform(s, c) == if c == Flush && s.probe.None? then Ok(s) else Err(InvalidTable(s.table))
    ensures c == Flush && s.probe.None? ==> Perform(s, c) == Ok(s)
    ensures TableOf(s.table).Some? && c != Flush && Perform(s, c).Ok? ==>
      var t := TableOf(s.table).value;
      var r := Perform(s, c).value;
      Inner(r, t) == InnerStep(Inner(s, t), c).value && r.probe == s.probe &&
      forall t' | t' != t :: Inner(r, t') == Inner(s, t')
    ensures TableOf(s.table).Some? && c != Flush && Perform(s, c).Err? ==>
      Perform(s, c).error == InnerStep(Inner(s, TableOf(s.table).value), c).error
  {
  }

  /** The factory never fails, whatever the table; every inner writer starts
      empty with the limit 8. */
  lemma FactoryAlwaysOk(probe: Option<seq<AppliedRule>>, operation: Operation, table: string)
    ensures Factory(probe)(operation, table).Ok?
    ensures forall t: Table :: Inner(Factory(probe)(operation, table).value, t) == NewWriter(ModuleOf(t), operation, 8)
  {
  }

  function ProbeSet(probe: Option<Probe>): set<object>
  {
    if probe.Some? then {probe.value} else {}
  }

  function ProbeLog(probe: Option<Probe>): Option<seq<AppliedRule>>
    reads ProbeSet(probe)
  {
    if probe.Some? then Some(probe.value.applied) else None
  }

  class BpfQueryWriter {
    const table: string
    /** The table name, matched once. */
    const kind: Option<Table>
    const bprm: InnerWriter
    const rename: InnerWriter
    const unlink: InnerWriter
    const probe: Option<Probe>

    /** The three inner writers. */
    ghost const Repr: set<object>

    ghost predicate Valid()
      reads this, Repr
    {
      kind == TableOf(table) && Repr == {bprm, rename, unlink} &&
      bprm.Valid() && rename.Valid() && unlink.Valid() &&
      bprm != rename && bprm != unlink && rename != unlink
    }

    function State(): BpfState
      requires Valid()
      reads this, Repr, ProbeSet(probe)
    {
      BpfState(table, bprm.State(), rename.State(), unlink.State(), ProbeLog(probe))
    }

    /** `BpfQueryWriter::new`. */
    constructor (probe: Option<Probe>, table: string, operation: Operation)
      ensures Valid() && this.probe == probe && this.table == table
      ensures State() == NewBpf(ProbeLog(probe), table, operation)
      ensures fresh(Repr)
    {
      this.table := table;
      this.kind := TableOf(table);
      var b := new InnerWriter(ModuleOf(Bprm), operation, WRITER_LIMIT);
      var r := new InnerWriter(ModuleOf(Rename), operation, WRITER_LIMIT);
      var u := new InnerWriter(ModuleOf(Unlink), operation, WRITER_LIMIT);
      this.bprm := b;
      this.rename := r;
      this.unlink := u;
      this.Repr := {b, r, u};
      this.probe := probe;
    }

    method WriteStatement(field: string, op: Operator, atom: Atom) returns (r: Result<()>)
      requires Valid()
      modifies Repr
      ensures Valid()
      ensures match Perform(old(State()), Call.WriteStatement(field, op, atom))
        case Ok(s) => r == Ok(()) && State() == s
        case Err(e) => r == Err(e) && State() == old(State())
    {
      match kind
      case None => r := Err(InvalidTable(table));
      case Some(t) =>
        ghost var s0 := State();
        var w := InnerOf(t);
        r := w.WriteStatement(field, op, atom);
        assert State() == WithInner(s0, t, w.State());
        Lift(s0, t, Call.WriteStatement(field, op, atom), w.State(), r);
    }

    function InnerOf(t: Table): (w: InnerWriter)
      requires Valid()
      reads this, Repr, ProbeSet(probe)
      ensures w in Repr && w.Valid() && Inner(State(), t) == w.State()
    {
      match t
      case Bprm => bprm
      case Rename => rename
      case Unlink => unlink
    }

    method StartNewClause() returns (r: Result<()>)
      requires Valid()
      modifies Repr
      ensures Valid()
      ensures match Perform(old(State()), Call.StartNewClause)
        case Ok(s) => r == Ok(()) && State() == s
        case Err(e) => r == Err(e) && State() == old(State())
    {
      var t := kind;
      if t.None? {
        return Err(InvalidTable(table));
      }
      var w := InnerOf(t.value);
      r := w.StartNewClause();
    }

    method WriteAbsolute(value: bool) returns (r: Result<()>)
      requires Valid()
      modifies Repr
      ensures Valid()
      ensures match Perform(old(State()), Call.WriteAbsolute(value))
        case Ok(s) => r == Ok(()) && State() == s
        case Err(e) => r == Err(e) && State() == old(State())
    {
      match kind
      case None => r := Err(InvalidTable(table));
      case Some(t) =>
        ghost var s0 := State();
        PerformOnInner(s0, t, Call.WriteAbsolute(value));
        var w := InnerOf(t);
        r := w.WriteAbsolute(value);
        assert State() == WithInner(s0, t, w.State());
    }

    method Flush() returns (r: Result<()>)
      requires Valid()
      modifies Repr, ProbeSet(probe)
      ensures Valid()
      ensures match Perform(old(State()), Call.Flush)
        case Ok(s) => r == Ok(()) && State() == s
        case Err(e) => r == Err(e) && State() == old(State())
    {
      match probe
      case None => r := Ok(());
      case Some(p) =>
        match kind
        case None => r := Err(InvalidTable(table));
        case Some(Bprm) => r := bprm.FlushProbe(p);
        case Some(Rename) => r := rename.FlushProbe(p);
        case Some(Unlink) => r := unlink.FlushProbe(p);
    }
  }
}
