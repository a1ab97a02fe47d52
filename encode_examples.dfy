/** The sensor's encoding tests (src/tests.rs): rules on
    `bprm_check_security` encoded into `BpfQueryWriter`. Each test is stated
    on the simplified clause of its rule and, more generally, on any disjunct
    that starts the same way; the missing-fields test is also stated from its
    rule text, through `Compile`. */
module EncodeExamples {
  import opened Wrappers
  import opened Text
  import opened Helpers
  import opened RuleAst
  import opened RuleSimplifier
  import opened RuleParser
  import opened RuleEncoding
  import opened QueryRecords
  import opened QueryWriter
  import opened BpfWriter
  import opened EncodeProperties
  import RuleCompilerExamples
  import RuleCompileTests

  /** A conjunction whose first statement the zeroed record refuses fails with
      that setter's error, whatever follows. */
  lemma FirstStatementRefused(es: seq<Expression>)
    requires |es| > 0 && es[0].Statement?
    requires SetAtom(DefaultQuery, es[0].field, es[0].operator, es[0].atom).Err?
    ensures Fill(DefaultQuery, es) == Err(SetAtom(DefaultQuery, es[0].field, es[0].operator, es[0].atom).error)
  {
  }

  /** A rule whose first disjunct starts with a statement the schema refuses
      fails to encode with the setter's error: a number on any field but
      `user.id`, a string on any field but the four string paths. */
  lemma FirstDisjunctRefused(rule: Rule, probe: Option<seq<AppliedRule>>, t: Table)
    requires TableOf(rule.table) == Some(t)
    requires !rule.clause.truthy && |rule.clause.subclauses| > 0
    requires var es := rule.clause.subclauses[0].expressions;
      |es| > 0 && es[0].Statement? && SetAtom(DefaultQuery, es[0].field, es[0].operator, es[0].atom).Err?
    ensures var e := rule.clause.subclauses[0].expressions[0];
      Encode(rule, Factory(probe), Perform) == Err(SetAtom(DefaultQuery, e.field, e.operator, e.atom).error)
  {
    var subs := rule.clause.subclauses;
    FirstStatementRefused(subs[0].expressions);
    OnlyLastDisjunctReachesProbe(rule, probe, t);
  }

  /** A field named twice in the first disjunct, with atoms of the same kind
      and a first statement that is accepted, is refused at the second. */
  lemma RepeatedFieldRefused(q: EventQuery, f: string, op: Operator, op': Operator, a: Atom, a': Atom, rest: seq<Expression>)
    requires a.Number? == a'.Number?
    requires SetAtom(q, f, op, a).Ok?
    ensures Fill(q, [Statement(f, op, a), Statement(f, op', a')] + rest) == Err(AlreadyInCondition(f))
  {
    var es := [Statement(f, op, a), Statement(f, op', a')] + rest;
    var q1 := SetAtom(q, f, op, a).value;
    SecondSetFails(q, f, op, op', if a.Number? then a.number else 0, if a'.Number? then a'.number else 0,
      if a.String? then a.text else "", if a'.String? then a'.text else "");
    assert es[1..] == [Statement(f, op', a')] + rest;
    assert SetAtom(q1, f, op', a') == Err(AlreadyInCondition(f));
  }

  function Bprm(clause: OrClause): Rule
  {
    Rule(Reject, "bprm_check_security", clause)
  }

  function Single(es: seq<Expression>): OrClause
  {
    OrClause(false, false, [AndClause(false, false, es)])
  }

  /** `test_ok`: `process.name == "ls" and user.id == 1` encodes, and a probe
      receives the one record holding both predicates. */
  lemma TestOk(log: seq<AppliedRule>)
    ensures var es := [Statement("process.name", Equal, String("ls")), Statement("user.id", Equal, Number(1))];
      var q := WithString(DefaultQuery, "process.name", Equal, "ls").value.(userId := NumberSlot(EQUAL_OPERATOR, 1));
      Encode(Bprm(Single(es)), Factory(None), Perform).Ok? &&
      Encode(Bprm(Single(es)), Factory(Some(log)), Perform).Ok? &&
      Encode(Bprm(Single(es)), Factory(Some(log)), Perform).value.probe ==
        Some(log + [AppliedRule("bprm_check_security", Reject, q)])
  {
    var es := [Statement("process.name", Equal, String("ls")), Statement("user.id", Equal, Number(1))];
    assert Utf8("ls") == [108, 115];
    var q0 := WithString(DefaultQuery, "process.name", Equal, "ls").value;
    var q := q0.(userId := NumberSlot(EQUAL_OPERATOR, 1));
    assert es[1..] == [Statement("user.id", Equal, Number(1))];
    assert Fill(q0, es[1..]) == Ok(q);
    assert Fill(DefaultQuery, es) == Ok(q);
    assert q != DefaultQuery by {
      assert q.userId.operator != DefaultQuery.userId.operator;
    }
    OnlyLastDisjunctReachesProbe(Bprm(Single(es)), None, BpfWriter.Bprm);
    OnlyLastDisjunctReachesProbe(Bprm(Single(es)), Some(log), BpfWriter.Bprm);
  }

  /** `test_error_type_mismatch`: `user.id == "test"` is refused, as
      `user.id` is not a string field. */
  lemma TestErrorTypeMismatch(probe: Option<seq<AppliedRule>>)
    ensures Encode(Bprm(Single([Statement("user.id", Equal, String("test"))])), Factory(probe), Perform) ==
      Err(StringFieldNotFound("user.id"))
  {
    FirstDisjunctRefused(Bprm(Single([Statement("user.id", Equal, String("test"))])), probe, BpfWriter.Bprm);
  }

  /** `test_error_repeated`: `user.id == "a" and user.id != "b"` is refused
      at its first statement, for the same reason. */
  lemma TestErrorRepeated(probe: Option<seq<AppliedRule>>)
    ensures var es := [Statement("user.id", Equal, String("a")), Statement("user.id", NotEqual, String("b"))];
      Encode(Bprm(Single(es)), Factory(probe), Perform) == Err(StringFieldNotFound("user.id"))
  {
    var es := [Statement("user.id", Equal, String("a")), Statement("user.id", NotEqual, String("b"))];
    FirstDisjunctRefused(Bprm(Single(es)), probe, BpfWriter.Bprm);
  }

  /** `test_error_missing_fields`: a rule whose first disjunct starts with
      `x == 1`, whatever else it holds, is refused, as `x` is not a number
      field. */
  lemma TestErrorMissingFields(rule: Rule, probe: Option<seq<AppliedRule>>)
    requires rule.table == "bprm_check_security" && !rule.clause.truthy && |rule.clause.subclauses| > 0
    requires var es := rule.clause.subclauses[0].expressions;
      |es| > 0 && es[0] == Statement("x", Equal, Number(1))
    ensures Encode(rule, Factory(probe), Perform) == Err(NumberFieldNotFound("x"))
  {
    FirstDisjunctRefused(rule, probe, BpfWriter.Bprm);
  }

  /** `test_error_missing_fields` from the rule text: the rule compiles, for
      any casing of `REJECT` and `WHEN`, and its encoding is refused at
      `x == 1` (src/tests.rs:5-9). */
  lemma TestErrorMissingFieldsText(opWord: string, whenWord: string, probe: Option<seq<AppliedRule>>)
    requires RuleCompilerExamples.Header(opWord, Reject, "bprm_check_security", whenWord)
    ensures var text := RuleCompileTests.RuleText(opWord, "bprm_check_security", whenWord,
                          ["x==1", "and", "y==2", "AND", "z==3"] + ["OR"] + ["x==1", "AND", "y==2"] + ["OR"] +
                          ["x==1", "and", "y==2", "and", "z==3", "and", "a==\"2\""]);
      Compile(text).Ok? && Encode(Compile(text).value, Factory(probe), Perform) == Err(NumberFieldNotFound("x"))
  {
    RuleCompileTests.MissingFieldsCompiles(opWord, Reject, "bprm_check_security", whenWord);
    var rule := Rule(Reject, "bprm_check_security", OrClause(false, false, [AndClause(false, false,
      [Statement("x", Equal, Number(1)), Statement("y", Equal, Number(2)), Statement("z", Equal, Number(3)), Statement("a", Equal, String("2"))])]));
    TestErrorMissingFields(rule, probe);
  }
}
