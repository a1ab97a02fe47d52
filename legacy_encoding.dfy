/** The byte serialiser of the older in-tree compiler (src/rules.rs):
    `Rule::validate` checks a rule against the fields of an event schema,
    `AndClause::encode` writes one slot per schema field, `OrClause::encode`
    writes the clause's metadata and one slot list per disjunct, and
    `Rule::encode` puts them together after validation.

    The schema type `QueryType` lives in the probe crate, which is not part of
    this model; it is taken here from its uses: a number field, or a string
    field of `n` bytes. The writers append to a byte vector, modelled as a
    `seq<byte>` the methods extend; `BigEndian` is byteorder's `write_u64`. */
module LegacyEncoding {
  import opened Wrappers
  import opened Text
  import opened Helpers
  import opened LegacyAst
  import opened LegacySimplifier
  import opened LegacyParser
  import RuleAst

  datatype QueryType = NumberField | StringField(size: nat)

  /** One `(String, QueryType)` entry of the schema. */
  datatype Field = Field(name: string, kind: QueryType)

  // ------------------------------------------------------------ big endian

  function Pow256(k: nat): (r: nat)
    ensures r > 0
  {
    if k == 0 then 1 else 256 * Pow256(k - 1)
  }

  /** The last `k` base-256 digits of `n`, most significant first. */
  function BigEndian(n: nat, k: nat): (r: seq<byte>)
    ensures |r| == k
  {
    if k == 0 then [] else BigEndian(n / 256, k - 1) + [n % 256]
  }

  /** The number a big-endian byte string denotes. */
  function FromBigEndian(b: seq<byte>): nat
  {
    if b == [] then 0 else FromBigEndian(b[..|b| - 1]) * 256 + b[|b| - 1]
  }

  lemma DivBelow(n: nat, p: nat)
    requires n < 256 * p
    ensures n / 256 < p
  {
  }

  /** Writing `k` big-endian bytes and reading them back gives any number
      below `256^k`. */
  lemma {:induction false} BigEndianRoundTrip(n: nat, k: nat)
    requires n < Pow256(k)
    ensures FromBigEndian(BigEndian(n, k)) == n
  {
    if k > 0 {
      var b := BigEndian(n, k);
      assert b[..k - 1] == BigEndian(n / 256, k - 1);
      DivBelow(n, Pow256(k - 1));
      BigEndianRoundTrip(n / 256, k - 1);
    }
  }

  lemma U64Width()
    ensures Pow256(8) == U64_LIMIT
  {
  }

  // --------------------------------------------------------------- the slots

  predicate On(e: Expression, name: string)
  {
    e.Statement? && e.field == name
  }

  /** Index `k` holds the first statement on field `name`. */
  predicate FirstOnAt(exprs: seq<Expression>, name: string, k: nat)
  {
    k < |exprs| && On(exprs[k], name) && forall j | 0 <= j < k :: !On(exprs[j], name)
  }

  /** The first statement of the clause on field `name`, as `find` returns it. */
  function FirstOn(exprs: seq<Expression>, name: string): (r: Option<Expression>)
    ensures r.None? <==> forall i | 0 <= i < |exprs| :: !On(exprs[i], name)
    ensures r.Some? ==> exists k | 0 <= k < |exprs| :: FirstOnAt(exprs, name, k) && exprs[k] == r.value
  {
    if exprs == [] then None
    else if On(exprs[0], name) then
      assert FirstOnAt(exprs, name, 0);
      Some(exprs[0])
    else
      var r := FirstOn(exprs[1..], name);
      assert forall i | 1 <= i < |exprs| :: exprs[i] == exprs[1..][i - 1];
      assert r.Some? ==> exists k | 0 <= k < |exprs| :: FirstOnAt(exprs, name, k) && exprs[k] == r.value by {
        if r.Some? {
          var k :| 0 <= k < |exprs[1..]| && FirstOnAt(exprs[1..], name, k) && exprs[1..][k] == r.value;
          assert FirstOnAt(exprs, name, k + 1);
        }
      }
      r
  }

  /** The statement at the first index on a field is the one found. */
  lemma FirstOnIs(exprs: seq<Expression>, name: string, k: nat)
    requires FirstOnAt(exprs, name, k)
    ensures FirstOn(exprs, name) == Some(exprs[k])
  {
    var r := FirstOn(exprs, name);
    var k' :| 0 <= k' < |exprs| && FirstOnAt(exprs, name, k') && exprs[k'] == r.value;
    assert !(k' < k) && !(k < k');
  }

  /** What a slot carries once read back. */
  datatype Slot = Unset | NumberValue(operator: Operator, number: nat) | StringValue(operator: Operator, bytes: seq<byte>)

  /** The slot a schema field should get from the first statement on it: an
      operator and value when the kinds of field and atom agree, else
      nothing. */
  function Expected(kind: QueryType, found: Option<Expression>): Slot
  {
    match found
    case Some(Statement(_, op, Number(n))) => if kind.NumberField? then NumberValue(op, n) else Unset
    case Some(Statement(_, op, String(v))) => if kind.StringField? then StringValue(op, Utf8(v)) else Unset
    case _ => Unset
  }

  function Zeros(k: nat): (r: seq<byte>)
    ensures |r| == k && forall i | 0 <= i < k :: r[i] == 0
  {
    seq(k, _ => 0)
  }

  /** The bytes `AndClause::encode` writes for one schema field: the operator
      byte, a number as 8 big-endian bytes, a string as its bytes padded with
      nuls up to the field's size; or a single nul meaning "no operation".
      The first byte is nul exactly when no value is carried. */
  function SlotBytes(kind: QueryType, found: Option<Expression>): (r: seq<byte>)
    ensures r != [] && (r[0] == 0 <==> Expected(kind, found) == Unset)
  {
    match found
    case Some(Statement(_, op, Number(n))) =>
      if kind.NumberField? then [OperatorByte(op)] + BigEndian(n, 8) else [0]
    case Some(Statement(_, op, String(v))) =>
      if kind.StringField? then
        [OperatorByte(op)] + Utf8(v) + Zeros(if |Utf8(v)| < kind.size then kind.size - |Utf8(v)| else 0)
      else [0]
    case _ => [0]
  }

  /** The slots of `AndClause::encode`, in schema order. */
  function AndEncoding(exprs: seq<Expression>, fields: seq<Field>): seq<byte>
  {
    if fields == [] then []
    else
      var last := fields[|fields| - 1];
      AndEncoding(exprs, fields[..|fields| - 1]) + SlotBytes(last.kind, FirstOn(exprs, last.name))
  }

  /** The `find` in `AndClause::encode`. */
  method FindStatement(exprs: seq<Expression>, name: string) returns (r: Option<Expression>)
    ensures r == FirstOn(exprs, name)
  {
    var i := 0;
    while i < |exprs|
      invariant 0 <= i <= |exprs|
      invariant FirstOn(exprs, name) == FirstOn(exprs[i..], name)
    {
      if exprs[i].Statement? && exprs[i].field == name {
        return Some(exprs[i]);
      }
      assert exprs[i..][1..] == exprs[i + 1..];
      i := i + 1;
    }
    return None;
  }

  /** The writes of `AndClause::encode` for one schema field. */
  method WriteSlot(w: seq<byte>, kind: QueryType, found: Option<Expression>) returns (w': seq<byte>)
    ensures w' == w + SlotBytes(kind, found)
  {
    w' := w;
    match (kind, found) {
      case (NumberField, Some(Statement(_, op, Number(n)))) =>
        w' := w' + [OperatorByte(op)];
        w' := w' + BigEndian(n, 8);
      case (StringField(n), Some(Statement(_, op, String(v)))) =>
        w' := w' + [OperatorByte(op)];
        var bytes := Utf8(v);
        w' := w' + bytes;
        w' := Pad(w', |bytes|, n);
        assert w' == w + [OperatorByte(op)] + bytes + Zeros(if |bytes| < n then n - |bytes| else 0);
      case _ =>
        w' := w' + [0];
    }
  }

  /** `for _ in len..n { write_u8(0) }`: nothing when `len >= n`. */
  method Pad(w: seq<byte>, len: nat, n: nat) returns (w': seq<byte>)
    ensures w' == w + Zeros(if len < n then n - len else 0)
  {
    w' := w;
    var k := len;
    while k < n
      invariant len <= k && (k <= n || k == len)
      invariant w' == w + Zeros(k - len)
    {
      w' := w' + [0];
      k := k + 1;
    }
  }

  /** `AndClause::encode`: for each schema field, find the first statement on
      it and write its slot, padding strings with a loop of nul writes. */
  method EncodeAnd(c: AndClause, fields: seq<Field>) returns (w: seq<byte>)
    ensures w == AndEncoding(c.expressions, fields)
  {
    w := [];
    var i := 0;
    while i < |fields|
      invariant 0 <= i <= |fields|
      invariant w == AndEncoding(c.expressions, fields[..i])
    {
      var fd := fields[i];
      var found := FindStatement(c.expressions, fd.name);
      w := WriteSlot(w, fd.kind, found);
      assert fields[..i + 1][..i] == fields[..i];
      i := i + 1;
    }
    assert fields[..|fields|] == fields;
  }

  // ------------------------------------------------------- reading slots back

  function DecodeOperator(b: byte): Option<Operator>
  {
    if b == 1 then Some(RuleAst.Equal) else if b == 2 then Some(RuleAst.NotEqual) else None
  }

  /** Reads one slot of a field of the given kind off the front of `bytes`,
      returning it with the bytes after it. */
  function DecodeSlot(kind: QueryType, bytes: seq<byte>): Option<(Slot, seq<byte>)>
  {
    if bytes == [] then None
    else if bytes[0] == 0 then Some((Unset, bytes[1..]))
    else match DecodeOperator(bytes[0])
      case None => None
      case Some(op) =>
        match kind
        case NumberField =>
          if |bytes| < 9 then None else Some((NumberValue(op, FromBigEndian(bytes[1..9])), bytes[9..]))
        case StringField(n) =>
          if |bytes| < 1 + n then None else Some((StringValue(op, UntilNul(bytes[1..1 + n])), bytes[1 + n..]))
  }

  /** Reads a whole slot list, one slot per schema field, with nothing left over. */
  function DecodeClause(fields: seq<Field>, bytes: seq<byte>): Option<seq<Slot>>
  {
    if fields == [] then (if bytes == [] then Some([]) else None)
    else match DecodeSlot(fields[0].kind, bytes)
      case None => None
      case Some((slot, rest)) =>
        match DecodeClause(fields[1..], rest)
        case None => None
        case Some(slots) => Some([slot] + slots)
  }

  predicate NoNul(s: string)
  {
    forall i | 0 <= i < |s| :: s[i] != '\0'
  }

  lemma CharBytesNonZero(c: char)
    requires c != '\0'
    ensures forall i | 0 <= i < |CharBytes(c)| :: CharBytes(c)[i] != 0
  {
  }

  lemma {:induction false} Utf8NonZero(s: string)
    requires NoNul(s)
    ensures forall i | 0 <= i < |Utf8(s)| :: Utf8(s)[i] != 0
  {
    if s != [] {
      CharBytesNonZero(s[0]);
      Utf8NonZero(s[1..]);
      var a, b := CharBytes(s[0]), Utf8(s[1..]);
      assert Utf8(s) == a + b;
      assert forall i | |a| <= i < |a| + |b| :: (a + b)[i] == b[i - |a|];
    }
  }

  /** A field's slot can be read back: its string, if any, is nul-free and
      shorter than the field, so at least one nul pad follows it. */
  predicate SlotFits(fd: Field, exprs: seq<Expression>)
  {
    match FirstOn(exprs, fd.name)
    case Some(Statement(_, _, String(v))) =>
      fd.kind.StringField? ==> |Utf8(v)| < fd.kind.size && NoNul(v)
    case _ => true
  }

  /** A nul-free string followed by a nul is read back up to the nul. */
  lemma {:induction false} UntilNulStops(u: seq<byte>, z: seq<byte>)
    requires (forall i | 0 <= i < |u| :: u[i] != 0) && z != [] && z[0] == 0
    ensures UntilNul(u + z) == u
  {
    if u != [] {
      assert (u + z)[1..] == u[1..] + z;
      UntilNulStops(u[1..], z);
    } else {
      assert u + z == z;
    }
  }

  lemma SlotRoundTrip(fd: Field, exprs: seq<Expression>, rest: seq<byte>)
    requires SlotFits(fd, exprs)
    ensures DecodeSlot(fd.kind, SlotBytes(fd.kind, FirstOn(exprs, fd.name)) + rest) ==
      Some((Expected(fd.kind, FirstOn(exprs, fd.name)), rest))
  {
    var found := FirstOn(exprs, fd.name);
    var b := SlotBytes(fd.kind, found);
    match found
    case Some(Statement(_, op, Number(n))) =>
      if fd.kind.NumberField? {
        assert (b + rest)[1..9] == BigEndian(n, 8);
        assert (b + rest)[9..] == rest;
        U64Width();
        BigEndianRoundTrip(n, 8);
      } else {
        assert (b + rest)[1..] == rest;
      }
    case Some(Statement(_, op, String(v))) =>
      if fd.kind.StringField? {
        var n := fd.kind.size;
        var u := Utf8(v);
        var payload := u + Zeros(n - |u|);
        assert (b + rest)[1..1 + n] == payload;
        assert (b + rest)[1 + n..] == rest;
        Utf8NonZero(v);
        assert payload[|u|] == 0;
        assert payload[..|u|] == u;
        UntilNulStops(u, Zeros(n - |u|));
      } else {
        assert (b + rest)[1..] == rest;
      }
    case _ =>
  }

  lemma {:induction false} AndEncodingCons(exprs: seq<Expression>, fields: seq<Field>)
    requires fields != []
    ensures AndEncoding(exprs, fields) ==
      SlotBytes(fields[0].kind, FirstOn(exprs, fields[0].name)) + AndEncoding(exprs, fields[1..])
    decreases |fields|
  {
    if |fields| > 1 {
      var init := fields[..|fields| - 1];
      AndEncodingCons(exprs, init);
      assert init[1..] == fields[1..][..|fields[1..]| - 1];
      assert init[0] == fields[0];
    } else {
      assert fields[..0] == [] && fields[1..] == [];
    }
  }

  /** The slot each schema field should get, in schema order. */
  function ExpectedSlots(exprs: seq<Expression>, fields: seq<Field>): (r: seq<Slot>)
    ensures |r| == |fields|
    ensures forall k | 0 <= k < |fields| :: r[k] == Expected(fields[k].kind, FirstOn(exprs, fields[k].name))
  {
    if fields == [] then []
    else
      var r := [Expected(fields[0].kind, FirstOn(exprs, fields[0].name))] + ExpectedSlots(exprs, fields[1..]);
      assert forall k | 1 <= k < |fields| :: fields[k] == fields[1..][k - 1];
      r
  }

  /** The slots of a clause read back, one per schema field in schema order,
      each carrying the operator and value of the first statement on that
      field when the kinds agree, and nothing otherwise. */
  lemma {:induction false} AndEncodingRoundTrip(exprs: seq<Expression>, fields: seq<Field>)
    requires forall k | 0 <= k < |fields| :: SlotFits(fields[k], exprs)
    ensures DecodeClause(fields, AndEncoding(exprs, fields)) ==
      Some(ExpectedSlots(exprs, fields))
    decreases |fields|
  {
    if fields != [] {
      AndEncodingCons(exprs, fields);
      SlotRoundTrip(fields[0], exprs, AndEncoding(exprs, fields[1..]));
      assert forall k | 0 <= k < |fields[1..]| :: fields[1..][k] == fields[k + 1];
      AndEncodingRoundTrip(exprs, fields[1..]);
      var bytes, rest := AndEncoding(exprs, fields), AndEncoding(exprs, fields[1..]);
      assert DecodeSlot(fields[0].kind, bytes) == Some((Expected(fields[0].kind, FirstOn(exprs, fields[0].name)), rest));
    }
  }

  /** Every string slot is exactly `1 + n` bytes long and ends in a nul, every
      number slot is 9 bytes, and an unused field takes one nul byte. */
  lemma SlotWidths(fd: Field, exprs: seq<Expression>)
    requires SlotFits(fd, exprs)
    ensures var b := SlotBytes(fd.kind, FirstOn(exprs, fd.name));
      match Expected(fd.kind, FirstOn(exprs, fd.name))
      case Unset => b == [0]
      case NumberValue(_, _) => |b| == 9
      case StringValue(_, _) => |b| == 1 + fd.kind.size && b[|b| - 1] == 0
  {
  }

  // -------------------------------------------------------------- validation

  /** Index `k` holds the first schema entry named `name`. */
  predicate FirstEntryAt(fields: seq<Field>, name: string, k: nat)
  {
    k < |fields| && fields[k].name == name && forall j | 0 <= j < k :: fields[j].name != name
  }

  /** The kind of the first schema entry with that name. */
  function FirstKind(fields: seq<Field>, name: string): (r: Option<QueryType>)
    ensures r.None? <==> forall k | 0 <= k < |fields| :: fields[k].name != name
    ensures r.Some? ==> exists k | 0 <= k < |fields| :: FirstEntryAt(fields, name, k) && fields[k].kind == r.value
  {
    if fields == [] then None
    else if fields[0].name == name then
      assert FirstEntryAt(fields, name, 0);
      Some(fields[0].kind)
    else
      var r := FirstKind(fields[1..], name);
      assert forall k | 1 <= k < |fields| :: fields[k] == fields[1..][k - 1];
      assert r.Some? ==> exists k | 0 <= k < |fields| :: FirstEntryAt(fields, name, k) && fields[k].kind == r.value by {
        if r.Some? {
          var k :| 0 <= k < |fields[1..]| && FirstEntryAt(fields[1..], name, k) && fields[1..][k].kind == r.value;
          assert FirstEntryAt(fields, name, k + 1);
        }
      }
      r
  }

  /** What `Rule::validate` refuses: a string statement unless the first
      schema entry of its field is a string field longer than the string's
      bytes (room for the nul), and a number statement unless the schema has
      its field as a number field. Boolean statements and constants pass. */
  predicate Refused(e: Expression, fields: seq<Field>)
  {
    match e
    case Statement(f, _, String(v)) =>
      (match FirstKind(fields, f)
       case Some(StringField(n)) => |Utf8(v)| >= n
       case _ => true)
    case Statement(f, _, Number(_)) => Field(f, NumberField) !in fields
    case _ => false
  }

  function ClauseRefused(exprs: seq<Expression>, fields: seq<Field>): (r: bool)
    ensures r <==> exists j | 0 <= j < |exprs| :: Refused(exprs[j], fields)
  {
    if exprs == [] then false
    else
      assert forall j | 1 <= j < |exprs| :: exprs[j] == exprs[1..][j - 1];
      Refused(exprs[0], fields) || ClauseRefused(exprs[1..], fields)
  }

  /** `Rule::validate`: no expression of any disjunct is refused. */
  function Validate(c: OrClause, fields: seq<Field>): (r: bool)
    ensures r <==> forall i, j | 0 <= i < |c.subclauses| && 0 <= j < |c.subclauses[i].expressions| ::
                     !Refused(c.subclauses[i].expressions[j], fields)
    decreases |c.subclauses|
  {
    if c.subclauses == [] then true
    else
      var rest := c.(subclauses := c.subclauses[1..]);
      assert forall i | 1 <= i < |c.subclauses| :: c.subclauses[i] == rest.subclauses[i - 1];
      !ClauseRefused(c.subclauses[0].expressions, fields) && Validate(rest, fields)
  }

  predicate DistinctNames(fields: seq<Field>)
  {
    forall i, j | 0 <= i < j < |fields| :: fields[i].name != fields[j].name
  }

  predicate StringsNulFree(exprs: seq<Expression>)
  {
    forall j | 0 <= j < |exprs| :: exprs[j].Statement? && exprs[j].atom.String? ==> NoNul(exprs[j].atom.text)
  }

  /** On a schema that names each field once, a clause that passes validation
      fits every slot. */
  lemma ValidFits(exprs: seq<Expression>, fields: seq<Field>)
    requires DistinctNames(fields) && StringsNulFree(exprs)
    requires forall j | 0 <= j < |exprs| :: !Refused(exprs[j], fields)
    ensures forall k | 0 <= k < |fields| :: SlotFits(fields[k], exprs)
  {
    forall k | 0 <= k < |fields| ensures SlotFits(fields[k], exprs) {
      var found := FirstOn(exprs, fields[k].name);
      if found.Some? && found.value.atom.String? {
        var m :| 0 <= m < |exprs| && exprs[m] == found.value;
        assert !Refused(exprs[m], fields);
        var fk := FirstKind(fields, fields[k].name);
        var k' :| 0 <= k' < |fields| && FirstEntryAt(fields, fields[k].name, k') && fields[k'].kind == fk.value;
        assert k' == k;
      }
    }
  }

  // ---------------------------------------------------------- the whole rule

  /** The meta byte of `OrClause::encode`: 0 for an ordinary clause, 1 for
      constant true, 2 for constant false. */
  function MetaByte(c: OrClause): (r: byte)
    ensures r == 0 <==> !c.truthy
    ensures r == 1 <==> c.truthy && c.value
    ensures r == 2 <==> c.truthy && !c.value
  {
    if c.truthy then (if c.value then 1 else 2) else 0
  }

  /** The metadata of `OrClause::encode`: the meta byte, then the number of
      disjuncts as a big-endian u64. */
  function OrMeta(c: OrClause): (r: seq<byte>)
    ensures |r| == 9 && r[0] == MetaByte(c)
  {
    [MetaByte(c)] + BigEndian(|c.subclauses| % U64_LIMIT, 8)
  }

  /** The slot lists of `OrClause::encode`, one per disjunct in order. */
  function OrClauses(subs: seq<AndClause>, fields: seq<Field>): (r: seq<seq<byte>>)
    ensures |r| == |subs|
    ensures forall i | 0 <= i < |subs| :: r[i] == AndEncoding(subs[i].expressions, fields)
  {
    if subs == [] then []
    else
      OrClauses(subs[..|subs| - 1], fields) + [AndEncoding(subs[|subs| - 1].expressions, fields)]
  }

  /** The metadata is 9 bytes: the meta byte and the disjunct count, which
      reads back. */
  lemma OrMetaShape(c: OrClause)
    ensures |OrMeta(c)| == 9 && OrMeta(c)[0] == MetaByte(c)
    ensures FromBigEndian(OrMeta(c)[1..]) == |c.subclauses| % U64_LIMIT
  {
    U64Width();
    assert OrMeta(c)[1..] == BigEndian(|c.subclauses| % U64_LIMIT, 8);
    BigEndianRoundTrip(|c.subclauses| % U64_LIMIT, 8);
  }

  /** `OrClause::encode`. */
  method EncodeOr(c: OrClause, fields: seq<Field>) returns (meta: seq<byte>, clauses: seq<seq<byte>>)
    ensures meta == OrMeta(c) && clauses == OrClauses(c.subclauses, fields)
  {
    meta := [MetaByte(c)];
    meta := meta + BigEndian(|c.subclauses| % U64_LIMIT, 8);
    clauses := [];
    var i := 0;
    while i < |c.subclauses|
      invariant 0 <= i <= |c.subclauses|
      invariant clauses == OrClauses(c.subclauses[..i], fields)
    {
      var w := EncodeAnd(c.subclauses[i], fields);
      assert c.subclauses[..i + 1][..i] == c.subclauses[..i];
      clauses := clauses + [w];
      i := i + 1;
    }
    assert c.subclauses[..|c.subclauses|] == c.subclauses;
  }

  /** What `Rule::encode` returns. */
  function Encoding(rule: Rule, fields: seq<Field>): (r: Result<(seq<byte>, seq<seq<byte>>)>)
    ensures r.Err? <==> !Validate(rule.clause, fields)
    ensures r.Ok? ==> |r.value.0| == 10 && |r.value.1| == |rule.clause.subclauses|
  {
    if !Validate(rule.clause, fields) then Err(FieldsInvalid)
    else Ok((OrMeta(rule.clause) + [OperationByte(rule.operation)], OrClauses(rule.clause.subclauses, fields)))
  }

  /** `Rule::encode`: validation first, then the clause metadata with the
      operation byte appended. */
  method Encode(rule: Rule, fields: seq<Field>) returns (r: Result<(seq<byte>, seq<seq<byte>>)>)
    ensures r == Encoding(rule, fields)
  {
    if !Validate(rule.clause, fields) {
      return Err(FieldsInvalid);
    }
    var metadata, clauses := EncodeOr(rule.clause, fields);
    metadata := metadata + [OperationByte(rule.operation)];
    return Ok((metadata, clauses));
  }

  /** A rule that fails validation is refused and nothing is encoded; one that
      passes gets 10 bytes of metadata (meta byte, disjunct count, operation
      byte) and one slot list per disjunct. */
  lemma EncodingShape(rule: Rule, fields: seq<Field>)
    ensures Encoding(rule, fields).Err? <==> !Validate(rule.clause, fields)
    ensures Encoding(rule, fields).Err? ==> Encoding(rule, fields).error == FieldsInvalid
    ensures Encoding(rule, fields).Ok? ==>
      var (meta, clauses) := Encoding(rule, fields).value;
      |meta| == 10 && meta[0] == MetaByte(rule.clause) &&
      FromBigEndian(meta[1..9]) == |rule.clause.subclauses| % U64_LIMIT &&
      meta[9] == OperationByte(rule.operation) && |clauses| == |rule.clause.subclauses|
  {
    OrMetaShape(rule.clause);
    var m := OrMeta(rule.clause) + [OperationByte(rule.operation)];
    assert m[1..9] == OrMeta(rule.clause)[1..];
  }

  /** On a schema naming each field once, every disjunct of an encoded rule
      whose strings hold no nul reads back as the slots of its first
      statements. */
  lemma EncodedClausesRoundTrip(rule: Rule, fields: seq<Field>, i: nat)
    requires Encoding(rule, fields).Ok? && DistinctNames(fields)
    requires i < |rule.clause.subclauses| && StringsNulFree(rule.clause.subclauses[i].expressions)
    ensures var exprs := rule.clause.subclauses[i].expressions;
      DecodeClause(fields, Encoding(rule, fields).value.1[i]) ==
      Some(ExpectedSlots(exprs, fields))
  {
    var exprs := rule.clause.subclauses[i].expressions;
    ValidFits(exprs, fields);
    AndEncodingRoundTrip(exprs, fields);
  }
}
