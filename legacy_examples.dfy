/** The encoding test of the older in-tree compiler (src/rules.rs:752-776),
    stated on the clause its simplifier builds, and the cases where its
    boolean atoms make it differ from the rule compiler. */
module LegacyExamples {
  import opened Wrappers
  import opened Text
  import opened LegacyAst
  import opened LegacySimplifier
  import opened LegacyParser
  import opened LegacyEncoding
  import RuleAst
  import RuleSimplifier

  function Is(f: string, n: u64): Expression { Statement(f, RuleAst.Equal, Number(n)) }

  const A2: Expression := Statement("a", RuleAst.Equal, String("2"))

  lemma PairClause(e1: Expression, e2: Expression)
    requires e1.Statement? && e2.Statement? && e1.field != e2.field
    ensures NewAnd(e1).Add(e2) == AndClause(false, false, [e1, e2])
  {
    assert NewAnd(e1) == AndClause(false, false, [e1]);
    assert Scan([e1], e2) == RuleSimplifier.Miss;
  }

  const XY := AndClause(false, false, [Is("x", 1), Is("y", 2)])
  const XYZ := AndClause(false, false, [Is("x", 1), Is("y", 2), Is("z", 3)])
  const XYZA := AndClause(false, false, [Is("x", 1), Is("y", 2), Is("z", 3), A2])

  /** The three conjunctions of the test rule. */
  lemma EncodingTestConjunctions()
    ensures NewAnd(Is("x", 1)).Add(Is("y", 2)) == XY
    ensures NewAnd(Is("x", 1)).Add(Is("y", 2)).Add(Is("z", 3)) == XYZ
    ensures XYZ.Add(A2) == XYZA
  {
    PairClause(Is("x", 1), Is("y", 2));
    assert Scan(XY.expressions, Is("z", 3)) == RuleSimplifier.Miss;
    assert Scan(XYZ.expressions, A2) == RuleSimplifier.Miss;
  }

  /** `x==1 and y==2 AND z==3 OR x==1 AND y==2 OR x==1 and y==2 and z==3 and
      a=="2"`: the second disjunct is contained in the first and dropped, the
      third contains the first and replaces its statements. */
  lemma EncodingTestClause()
    ensures NewOr(XYZ).Add(XY).Add(XYZA) == OrClause(false, false, [XYZA])
  {
    var o := NewOr(XYZ);
    assert o == OrClause(false, false, [XYZ]);
    assert XYZ.Contains(XY);
    assert OrScan([XYZ], XY, 0) == RuleSimplifier.Redundant;
    assert o.Add(XY) == o;
    assert !XYZ.Contains(XYZA) by { assert XYZA.expressions[3] == A2; }
    assert XYZA.Contains(XYZ);
    assert OrScan([XYZ], XYZA, 0) == RuleSimplifier.Absorbs(0);
  }

  const TestRule := Rule(RuleAst.Reject, "foo_bar_baz", OrClause(false, false, [XYZA]))

  const Full := [Field("x", NumberField), Field("y", NumberField), Field("z", NumberField), Field("a", StringField(2))]

  lemma NumberStatementsAccepted()
    ensures !Refused(Is("x", 1), Full) && !Refused(Is("y", 2), Full) && !Refused(Is("z", 3), Full)
  {
    assert Full[0] == Field("x", NumberField);
    assert Full[1] == Field("y", NumberField);
    assert Full[2] == Field("z", NumberField);
  }

  lemma StringStatementAccepted()
    ensures !Refused(A2, Full)
  {
    assert Full[3].name == "a";
    var r := FirstKind(Full, "a");
    var k :| 0 <= k < |Full| && FirstEntryAt(Full, "a", k) && Full[k].kind == r.value;
    assert k == 3;
    assert Utf8("2") == [50];
  }

  lemma EncodingTestValid()
    ensures Validate(TestRule.clause, Full)
  {
    NumberStatementsAccepted();
    StringStatementAccepted();
    assert TestRule.clause.subclauses == [XYZA];
    assert XYZA.expressions == [Is("x", 1), Is("y", 2), Is("z", 3), A2];
  }

  /** With every field in the schema and room for the string and its nul,
      the rule encodes: an ordinary clause (meta byte 0) with one disjunct,
      then the reject byte, and one slot list. */
  lemma EncodingTestAccepted()
    ensures Encoding(TestRule, Full).Ok?
    ensures var (meta, clauses) := Encoding(TestRule, Full).value;
      |meta| == 10 && meta[0] == 0 && FromBigEndian(meta[1..9]) == 1 && meta[9] == 1 && |clauses| == 1
  {
    EncodingTestValid();
    EncodingShape(TestRule, Full);
  }

  /** Without `z` in the schema, `z==3` is refused. */
  lemma EncodingTestMissingField()
    ensures Encoding(TestRule, [Field("x", NumberField), Field("y", NumberField)]) == Err(FieldsInvalid)
  {
    assert Refused(Is("z", 3), [Field("x", NumberField), Field("y", NumberField)]);
    assert TestRule.clause.subclauses[0].expressions[2] == Is("z", 3);
  }

  /** With `y` a string field, the number statement `y==2` is refused. */
  lemma EncodingTestWrongKind()
    ensures Encoding(TestRule, [Field("x", NumberField), Field("y", StringField(1)), Field("z", NumberField)]) ==
      Err(FieldsInvalid)
  {
    assert Refused(Is("y", 2), [Field("x", NumberField), Field("y", StringField(1)), Field("z", NumberField)]);
    assert TestRule.clause.subclauses[0].expressions[1] == Is("y", 2);
  }

  /** A string field of size 0 leaves no room for `"2"`. */
  lemma EncodingTestNoRoom()
    ensures Encoding(TestRule, Full[3 := Field("a", StringField(0))]) == Err(FieldsInvalid)
  {
    var fields := Full[3 := Field("a", StringField(0))];
    assert fields[3].name == "a";
    var r := FirstKind(fields, "a");
    var k :| 0 <= k < |fields| && FirstEntryAt(fields, "a", k) && fields[k].kind == r.value;
    assert k == 3;
    assert Refused(A2, fields);
    assert TestRule.clause.subclauses[0].expressions[3] == A2;
  }

  /** A statement against a boolean is kept as a statement, unlike the
      constant it names, and two of them with `==` on one field clash. */
  lemma BooleanStatements(f: string)
    ensures NewAnd(Statement(f, RuleAst.Equal, Boolean(true))) ==
      AndClause(false, false, [Statement(f, RuleAst.Equal, Boolean(true))])
    ensures NewAnd(Constant(Boolean(true))) == AndClause(true, true, [])
    ensures NewAnd(Statement(f, RuleAst.Equal, Boolean(true))).Add(Statement(f, RuleAst.Equal, Boolean(false))) ==
      AndClause(true, false, [])
  {
  }

  /** Validation lets a boolean statement through, and the encoder then
      writes "no operation" for its field whatever the field's kind. */
  lemma BooleanStatementEncodesNothing(f: string, b: bool, kind: QueryType)
    ensures !Refused(Statement(f, RuleAst.Equal, Boolean(b)), [Field(f, kind)])
    ensures AndEncoding([Statement(f, RuleAst.Equal, Boolean(b))], [Field(f, kind)]) == [0]
  {
    assert FirstOn([Statement(f, RuleAst.Equal, Boolean(b))], f) == Some(Statement(f, RuleAst.Equal, Boolean(b)));
  }

  /** Only the first statement on a field reaches its slot: `x==1 AND x!=2`
      encodes as `x==1` alone. */
  lemma LaterStatementIgnored()
    ensures var both := [Is("x", 1), Statement("x", RuleAst.NotEqual, Number(2))];
      AndEncoding(both, [Field("x", NumberField)]) == AndEncoding([Is("x", 1)], [Field("x", NumberField)])
  {
    var both := [Is("x", 1), Statement("x", RuleAst.NotEqual, Number(2))];
    assert FirstOn(both, "x") == Some(Is("x", 1));
    assert FirstOn([Is("x", 1)], "x") == Some(Is("x", 1));
  }
}
