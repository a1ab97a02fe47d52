/** The filter records of probe-sys/src/compiler_generated.rs.

    The three tables `bprm_check_security`, `path_rename` and `path_unlink` have
    records of the same shape: an absolute byte, four 256-byte string slots
    (`process.name`, `process.executable`, `process.parent.name`,
    `process.parent.executable`) and the `u32` slot `user.id`, each slot with
    its own operator byte. `EventQuery` is such a record as a value and
    `QueryBuffer` is one being filled in place. */
module QueryRecords {
  import opened Wrappers
  import opened Text
  import opened RuleAst
  import opened Helpers

  /** Length of every `[c_char; 256]` slot. */
  const SLOT_SIZE: nat := 256
  const U32_MAX: nat := 0xFFFF_FFFF

  datatype StringSlot = StringSlot(operator: byte, bytes: seq<byte>)
  datatype NumberSlot = NumberSlot(operator: byte, value: nat)

  datatype EventQuery = EventQuery(
    absolute: byte,
    processName: StringSlot,
    processExecutable: StringSlot,
    parentName: StringSlot,
    parentExecutable: StringSlot,
    userId: NumberSlot)

  datatype StringPath = ProcessName | ProcessExecutable | ParentName | ParentExecutable

  /** The schema's string fields, by their dotted paths. */
  function StringPathOf(path: string): (r: Option<StringPath>)
    ensures r == Some(ProcessName) <==> path == "process.name"
    ensures r == Some(ProcessExecutable) <==> path == "process.executable"
    ensures r == Some(ParentName) <==> path == "process.parent.name"
    ensures r == Some(ParentExecutable) <==> path == "process.parent.executable"
  {
    if path == "process.parent.name" then Some(ParentName)
    else if path == "process.parent.executable" then Some(ParentExecutable)
    else if path == "process.name" then Some(ProcessName)
    else if path == "process.executable" then Some(ProcessExecutable)
    else None
  }

  function Slot(q: EventQuery, p: StringPath): StringSlot
  {
    match p
    case ProcessName => q.processName
    case ProcessExecutable => q.processExecutable
    case ParentName => q.parentName
    case ParentExecutable => q.parentExecutable
  }

  /** The record with one string slot replaced and every other part kept. */
  function WithSlot(q: EventQuery, p: StringPath, s: StringSlot): (r: EventQuery)
    ensures Slot(r, p) == s
    ensures forall p' | p' != p :: Slot(r, p') == Slot(q, p')
    ensures r.absolute == q.absolute && r.userId == q.userId
  {
    match p
    case ProcessName => q.(processName := s)
    case ProcessExecutable => q.(processExecutable := s)
    case ParentName => q.(parentName := s)
    case ParentExecutable => q.(parentExecutable := s)
  }

  /** Every slot has its declared size and `user.id` fits in a `u32`. */
  predicate WellSized(q: EventQuery)
  {
    (forall p: StringPath :: |Slot(q, p).bytes| == SLOT_SIZE) && q.userId.value <= U32_MAX
  }

  /** A zeroed slot. */
  function ZeroSlot(): (r: StringSlot)
    ensures r.operator == UNSET_OPERATOR && |r.bytes| == SLOT_SIZE
    ensures forall i | 0 <= i < SLOT_SIZE :: r.bytes[i] == 0
  {
    StringSlot(UNSET_OPERATOR, seq(SLOT_SIZE, _ => 0))
  }

  /** `Default::default()`, which is `mem::zeroed()`. */
  const DefaultQuery: EventQuery :=
    EventQuery(UNSET_ABSOLUTE, ZeroSlot(), ZeroSlot(), ZeroSlot(), ZeroSlot(), NumberSlot(UNSET_OPERATOR, 0))

  /** The zeroed record is well sized and has every operator and the absolute
      byte unset. */
  lemma DefaultIsUnset()
    ensures WellSized(DefaultQuery)
    ensures DefaultQuery.absolute == UNSET_ABSOLUTE && DefaultQuery.userId.operator == UNSET_OPERATOR
    ensures forall p: StringPath :: Slot(DefaultQuery, p).operator == UNSET_OPERATOR
    ensures forall p: StringPath :: forall i | 0 <= i < SLOT_SIZE :: Slot(DefaultQuery, p).bytes[i] == 0
  {
  }

  /** `set_absolute`: only the absolute byte changes. */
  function WithAbsolute(q: EventQuery, value: byte): (r: EventQuery)
    ensures r.absolute == value
    ensures r.userId == q.userId && forall p: StringPath :: Slot(r, p) == Slot(q, p)
  {
    q.(absolute := value)
  }

  /** The `zip` copy of `set_string`: `src` is written over the front of `dest`
      as far as both reach, and `dest` keeps its length and the rest. */
  function Overlay(dest: seq<byte>, src: seq<byte>): (r: seq<byte>)
    ensures |r| == |dest|
    ensures forall i | 0 <= i < |r| :: r[i] == if i < |src| then src[i] else dest[i]
  {
    if |src| <= |dest| then src + dest[|src|..] else src[..|dest|]
  }

  /** `set_number`: only `user.id` is a number field; a second predicate on it
      and a value beyond `u32` are refused; every check comes before the
      write. */
  function WithNumber(q: EventQuery, path: string, op: Operator, value: u64): (r: Result<EventQuery>)
    ensures r.Ok? ==> r.value.userId.operator == OperatorToConstant(op) && r.value.userId.operator != UNSET_OPERATOR
    ensures r.Ok? ==> r.value.absolute == q.absolute
  {
    if path != "user.id" then Err(NumberFieldNotFound(path))
    else if q.userId.operator != UNSET_OPERATOR then Err(AlreadyInCondition(path))
    else if value > U32_MAX then Err(NotU32(path))
    else Ok(q.(userId := NumberSlot(OperatorToConstant(op), value)))
  }

  /** `set_string`: one of the four string paths, not yet constrained, with a
      UTF-8 value shorter than the slot. */
  function WithString(q: EventQuery, path: string, op: Operator, value: string): (r: Result<EventQuery>)
    ensures r.Ok? ==> StringPathOf(path).Some?
    ensures r.Ok? ==> Slot(r.value, StringPathOf(path).value).operator == OperatorToConstant(op)
    ensures r.Ok? ==> Slot(r.value, StringPathOf(path).value).operator != UNSET_OPERATOR
    ensures r.Ok? ==> r.value.absolute == q.absolute && r.value.userId == q.userId
  {
    match StringPathOf(path)
    case None => Err(StringFieldNotFound(path))
    case Some(p) =>
      if Slot(q, p).operator != UNSET_OPERATOR then Err(AlreadyInCondition(path))
      else if |Utf8(value)| >= SLOT_SIZE then Err(TooLong(path, |Utf8(value)|))
      else Ok(WithSlot(q, p, StringSlot(OperatorToConstant(op), Overlay(Slot(q, p).bytes, Utf8(value)))))
  }

  /** When `set_number` succeeds, and what it stores. */
  lemma WithNumberCases(q: EventQuery, path: string, op: Operator, value: u64)
    ensures WithNumber(q, path, op, value).Ok? <==>
      path == "user.id" && q.userId.operator == UNSET_OPERATOR && value <= U32_MAX
    ensures path != "user.id" ==> WithNumber(q, path, op, value) == Err(NumberFieldNotFound(path))
    ensures WithNumber(q, path, op, value).Ok? ==>
      var r := WithNumber(q, path, op, value).value;
      r.userId == NumberSlot(OperatorToConstant(op), value) && r.absolute == q.absolute &&
      forall p: StringPath :: Slot(r, p) == Slot(q, p)
  {
  }

  /** When `set_string` succeeds, and what it stores: the value's bytes at
      the front of the slot, the slot's old bytes after them, and nothing else
      touched. */
  lemma WithStringCases(q: EventQuery, path: string, op: Operator, value: string)
    ensures WithString(q, path, op, value).Ok? <==>
      StringPathOf(path).Some? && Slot(q, StringPathOf(path).value).operator == UNSET_OPERATOR &&
      |Utf8(value)| < SLOT_SIZE
    ensures StringPathOf(path).None? ==> WithString(q, path, op, value) == Err(StringFieldNotFound(path))
    ensures WithString(q, path, op, value).Ok? ==>
      var p := StringPathOf(path).value;
      var r := WithString(q, path, op, value).value;
      var before := Slot(q, p).bytes;
      Slot(r, p).operator == OperatorToConstant(op) &&
      |Slot(r, p).bytes| == |before| &&
      (forall i | 0 <= i < |before| :: Slot(r, p).bytes[i] == if i < |Utf8(value)| then Utf8(value)[i] else before[i]) &&
      (forall p' | p' != p :: Slot(r, p') == Slot(q, p')) &&
      r.absolute == q.absolute && r.userId == q.userId
  {
  }

  /** The record holds a single predicate per field: once a setter has
      succeeded, the same setter on the same field fails. */
  lemma SecondSetFails(q: EventQuery, path: string, op: Operator, op': Operator, n: u64, n': u64, s: string, s': string)
    ensures WithNumber(q, path, op, n).Ok? ==>
      WithNumber(WithNumber(q, path, op, n).value, path, op', n') == Err(AlreadyInCondition(path))
    ensures WithString(q, path, op, s).Ok? ==>
      WithString(WithString(q, path, op, s).value, path, op', s') == Err(AlreadyInCondition(path))
  {
  }

  /** The setters keep the record well sized. */
  lemma SettersKeepSize(q: EventQuery, path: string, op: Operator, n: u64, s: string, a: byte)
    requires WellSized(q)
    ensures WithNumber(q, path, op, n).Ok? ==> WellSized(WithNumber(q, path, op, n).value)
    ensures WithString(q, path, op, s).Ok? ==> WellSized(WithString(q, path, op, s).value)
    ensures WellSized(WithAbsolute(q, a))
  {
    WithNumberCases(q, path, op, n);
    if WithString(q, path, op, s).Ok? {
      var p := StringPathOf(path).value;
      var r := WithString(q, path, op, s).value;
      forall p': StringPath ensures |Slot(r, p').bytes| == SLOT_SIZE {
        if p' != p {
          assert Slot(r, p') == Slot(q, p');
        }
      }
    }
  }

  /** `QueryStruct::set_number` on a record held by value: the checks in the
      order the source makes them, then the write; a refused call leaves the
      record as it was. */
  method SetNumber(q: EventQuery, path: string, op: Operator, value: u64) returns (q': EventQuery, r: Result<()>)
    ensures match WithNumber(q, path, op, value)
      case Ok(n) => r == Ok(()) && q' == n
      case Err(e) => r == Err(e) && q' == q
  {
    q' := q;
    if path != "user.id" {
      return q', Err(NumberFieldNotFound(path));
    }
    if q.userId.operator != UNSET_OPERATOR {
      return q', Err(AlreadyInCondition(path));
    }
    if value > U32_MAX {
      return q', Err(NotU32(path));
    }
    q' := q.(userId := NumberSlot(OperatorToConstant(op), value));
    r := Ok(());
  }

  /** `QueryStruct::set_string` on a record held by value: the path, the
      operator and the length are checked before the bytes are copied into the
      slot one by one. */
  method SetString(q: EventQuery, path: string, op: Operator, value: string) returns (q': EventQuery, r: Result<()>)
    ensures match WithString(q, path, op, value)
      case Ok(n) => r == Ok(()) && q' == n
      case Err(e) => r == Err(e) && q' == q
  {
    q' := q;
    var p := StringPathOf(path);
    if p.None? {
      return q', Err(StringFieldNotFound(path));
    }
    var slot := p.value;
    if Slot(q, slot).operator != UNSET_OPERATOR {
      return q', Err(AlreadyInCondition(path));
    }
    var bytes := Utf8(value);
    if |bytes| >= SLOT_SIZE {
      return q', Err(TooLong(path, |bytes|));
    }
    var copied := CopyBytes(Slot(q, slot).bytes, bytes);
    q' := WithSlot(q, slot, StringSlot(OperatorToConstant(op), copied));
    r := Ok(());
  }

  /** The `zip` loop of `set_string`: each destination byte paired with a
      source byte is overwritten. */
  method CopyBytes(dest: seq<byte>, src: seq<byte>) returns (r: seq<byte>)
    ensures r == Overlay(dest, src)
  {
    r := dest;
    var i := 0;
    while i < |r| && i < |src|
      invariant 0 <= i <= |r| && i <= |src| && |r| == |dest|
      invariant forall k | 0 <= k < |r| :: r[k] == if k < i then src[k] else dest[k]
    {
      r := r[i := src[i]];
      i := i + 1;
    }
  }
}
