# bpf-lsm rule-filter pipeline in Dafny

This project models the rule-filter pipeline of the bpf-lsm security sensor, from the rule text down to
the kernel-side comparison helpers, and proves properties of each stage.

- **Rule compiler** (`rule-compiler/src/lib.rs`): the parser for `REJECT|FILTER <table> WHEN <or-of-ands>`
  with case-insensitive keywords.
  - The streaming simplifier: `AndClause::add` and `OrClause::add`, with constant folding,
    de-duplication, same-field conflicts, complement collapse and subsumption.
  - The call protocol that `Rule::encode` plays against a `QueryWriter`.
  - The modules are `RuleAst`, `RuleParser`, `RuleSimplifier` and `RuleEncoding`, with the nom primitives
    in `Combinators` and the text helpers in `Text`.
  - The simplifier's `add` loops run as methods of the classes `AndAccumulator` and `OrAccumulator`. Each is
    proved to compute the value-level `Add` function that the parser folds use.
- **Older in-tree compiler** (`src/rules.rs`): the parser variant with boolean atoms, its simplifier,
  `Rule::validate`, and the byte serialiser.
  - Its simplifier is proved to agree with the rule compiler's on every clause without boolean atoms.
  - The serialiser writes one slot per schema field, plus 9 bytes of metadata and the operation byte. It
    is proved to decode back to the first statement on each field.
  - Its parser is proved to read the same written rules as the rule compiler's (`LegacyClauseText.CompileAgrees`): both accept the rule and print it alike. Its `test_compile` cases are stated on their texts in `LegacyCompileTests`.
  - The modules are `LegacyAst`, `LegacyParser`, `LegacySimplifier`, `LegacyEncoding`, `LegacyExamples`, `LegacyClauseText` and `LegacyCompileTests`.
- **Filter-record encoder** (`probe-sys`): the per-table `query_bpf_*_event_t` records and their checked
  setters, in `QueryRecords`. The three tables' records have the same fields (`process[.parent].{name,executable}`,
  `user.id` and the absolute byte) and the same setters, so one datatype models all three.
  - `InnerBpfQueryWriter` is the class `QueryWriter.InnerWriter`, with `current`, `conditionals`, the capacity
    check and `flush_probe`.
  - The table dispatch of `BpfQueryWriter` is the class `BpfWriter.BpfQueryWriter`.
  - The driver that runs `Rule::encode` against these writers is in `RuleDriver`.
  - The older single-table writer of `compiler.rs` is in `LegacyCompiler`.
  - The probe is a sink: a log of `(module, operation, record)` entries.
  - The writer is modelled as written:
    - `start_new_clause` runs before every disjunct;
    - it stores `current` only into an empty list;
    - so only the last disjunct's record reaches the probe (`EncodeProperties.OnlyLastDisjunctReachesProbe`);
    - and a constant rule's record is applied twice (`EncodeProperties.ConstantAppliedTwice`).
- **Kernel-side helpers** (`probe_common.h`, `probe_bpf.h`):
  - `___strncmp` and the string-equality macros, in `ProbeCommon`.
  - `adjust_timestamp`, `__last_index_of`, `set_basename` and `set_dirname`, in `ProbeBpf`. These are array
    methods with loop invariants, proved against functions on sequences.
  - The model follows the `libprobe` copy. The `probe-sys` copy of `probe_bpf.h` has the same
    `adjust_timestamp`, `__last_index_of` and `set_basename`, differing only in comments and loop style, and
    has no `set_dirname`.

The simplifier is not meaning-preserving:
- the complement collapse ignores values, so `x==1 OR x!=2` becomes `true`;
- a superset disjunct replaces the disjunct it contains, which narrows the disjunction.

The model keeps both behaviours as the source has them.
- The subset test (rule-compiler/src/lib.rs:658-664) asserts the narrowing, and
  `RuleSimplifierExamples.SupersetNarrowsDisjunction` exhibits it on an event.
- No test asserts the value-blind complement collapse: the complement tests use `x==1` and `x!=1`, which have
  the same value. Only `RuleSimplifierExamples.ComplementIgnoresValues` shows it. `RuleSimplifier.OrAddExactWhenUnrelated` and `RuleSimplifier.OrAddNeverWidens` state what
does hold.

## Model

| member | source | states |
|---|---|---|
| Text.DebugQuoted | rule-compiler/src/lib.rs:138-145 | a string atom prints between double quotes (Rust `{:?}`) |
| Text.DecimalText | rule-compiler/src/lib.rs:138-145 | a number atom prints as a non-empty run of digits with no leading zero |
| Text.Utf8Concat | probe-sys/src/compiler_generated.rs:128-131 | the UTF-8 bytes of a concatenation are the concatenation of the bytes |
| Text.Utf8OfAscii | probe-sys/src/compiler_generated.rs:128-131 | an ASCII string's UTF-8 bytes are its character codes, one byte each |
| Combinators.Multispace0 | rule-compiler/src/lib.rs:160-169 | skips exactly the leading white space and returns the rest |
| Combinators.TakeWhile | rule-compiler/src/lib.rs:58-63 | splits the input into the longest prefix of accepted characters and the rest |
| Combinators.TakeWhileExact | rule-compiler/src/lib.rs:71-76 | a run of accepted characters followed by a rejected one parses as exactly that run |
| Combinators.Tag | rule-compiler/src/lib.rs:153-158 | succeeds iff the input starts with the tag, and then consumes exactly the tag |
| Combinators.TagNoCase | rule-compiler/src/lib.rs:39-44 | succeeds iff the input starts with the tag up to ASCII case, and then consumes exactly the tag's length |
| Combinators.TagNoCaseAccepts | rule-compiler/src/lib.rs:39-44 | any spelling of a keyword that matches it up to case is accepted |
| Combinators.Char | rule-compiler/src/lib.rs:124-132 | succeeds iff the input starts with that character |
| Combinators.Digit1 | rule-compiler/src/lib.rs:106-110 | takes the longest non-empty run of digits, and fails exactly when the input does not start with a digit |
| Combinators.DigitsValueOfDecimal | rule-compiler/src/lib.rs:106-110 | reading back a printed number gives the number |
| Combinators.EscapedTransform | rule-compiler/src/lib.rs:112-122 | `escaped_transform` never fails hard and never grows the input |
| Combinators.Escaped | rule-compiler/src/lib.rs:112-122 | the `escaped_transform` loop never fails hard and never grows the input |
| RuleParser.ParseOperation | rule-compiler/src/lib.rs:39-44 | on success consumes exactly the six-letter keyword; never fails hard |
| RuleParser.ParseTable | rule-compiler/src/lib.rs:58-63 | takes the longest run of letters and `_`, which may be empty |
| RuleParser.ParseField | rule-compiler/src/lib.rs:71-76 | takes the longest run of letters, `_` and `.` |
| RuleParser.ParseOperator | rule-compiler/src/lib.rs:84-89 | on success consumes exactly the two-character operator |
| RuleParser.ParseNumber | rule-compiler/src/lib.rs:106-110 | succeeds iff the input starts with digits whose value fits in a u64, and yields that value |
| RuleParser.ParseEscape | rule-compiler/src/lib.rs:112-122 | never fails hard; only shortens the input |
| RuleParser.ParseString | rule-compiler/src/lib.rs:124-132 | backtracks exactly when there is no opening quote; a malformed body after the quote is a hard failure |
| RuleParser.ParseAtom | rule-compiler/src/lib.rs:134-136 | on success consumes at least one character |
| RuleParser.ParseBoolean | rule-compiler/src/lib.rs:153-158 | on success yields a boolean expression; never fails hard |
| RuleParser.ParseStatement | rule-compiler/src/lib.rs:160-169 | on success yields a statement and consumes input |
| RuleParser.ParseExpression | rule-compiler/src/lib.rs:171-173 | on success consumes input |
| RuleParser.ParseAndClause | rule-compiler/src/lib.rs:362-379 | a parsed conjunction is well formed: it holds statements only, and is empty when collapsed; what it returns for a written conjunction is `RuleClauseText.ConjunctionParse` |
| RuleParser.AndFold | rule-compiler/src/lib.rs:362-379 | folding `AND` expressions keeps the clause well formed |
| RuleParser.ParseOrClause | rule-compiler/src/lib.rs:513-525 | a parsed disjunction is well formed; what it returns for a written disjunction is `RuleClauseText.DisjunctionParse` |
| RuleParser.OrFold | rule-compiler/src/lib.rs:513-525 | folding `OR` clauses keeps the disjunction well formed |
| RuleParser.Rule.Display | rule-compiler/src/lib.rs:534-538 | a rule prints as its upper-case operation word and ends with its printed clause |
| RuleParser.Conditions | rule-compiler/src/lib.rs:551-567 | the conditions must consume the whole input |
| RuleParser.ParseRule | rule-compiler/src/lib.rs:551-567 | a parsed rule consumes all input and its clause is well formed |
| RuleParser.Compile | rule-compiler/src/lib.rs:569-573 | `compile` yields a well-formed rule or the parse error |
| RuleParserProperties.EscapedNormalStep | rule-compiler/src/lib.rs:112-122 | a payload character is copied as it is |
| RuleParserProperties.EscapedEscapeStep | rule-compiler/src/lib.rs:112-122 | a backslash and an escapable character yield the unescaped character |
| RuleParserProperties.EscapedStop | rule-compiler/src/lib.rs:112-122 | the body ends at the first character that is neither payload nor backslash |
| RuleParserProperties.EscapedReadsDebugBody | rule-compiler/src/lib.rs:112-122 | the escape parser reads back the debug-escaped form of any literal text |
| RuleParserProperties.StringLiteralRoundTrip | rule-compiler/src/lib.rs:124-145 | a printed string atom parses back to the same atom |
| RuleParserProperties.EscapedOutput | rule-compiler/src/lib.rs:112-122 | the escape loop only appends literal characters; an empty body consumes the whole input |
| RuleParserProperties.ParsedStringShape | rule-compiler/src/lib.rs:124-132 | a parsed string is non-empty and holds only literal characters |
| RuleParserProperties.ReprintedStringReparses | rule-compiler/src/lib.rs:124-145 | printing a parsed string and parsing it again gives the same result |
| RuleParserProperties.NumberRoundTrip | rule-compiler/src/lib.rs:106-110 | a printed u64 parses back to the same number |
| RuleParserProperties.AtomRoundTrip | rule-compiler/src/lib.rs:134-145 | every printable atom parses back from its printed form |
| RuleParserProperties.OversizedNumberRejected | rule-compiler/src/lib.rs:106-110 | digits beyond u64 are not an atom |
| RuleParserProperties.KeywordsDiffer | rule-compiler/src/lib.rs:46-53 | the operation keywords are upper case and lower-case to `reject` and `filter` |
| RuleParserProperties.OperationAnyCase | rule-compiler/src/lib.rs:39-44 | an operation keyword in any letter case parses to its operation |
| RuleParserProperties.OperatorRoundTrip | rule-compiler/src/lib.rs:84-98 | a printed operator parses back |
| RuleParserProperties.SkipOneSpace | rule-compiler/src/lib.rs:160-169 | one space before non-space text is skipped |
| RuleParserProperties.NoSpaceToSkip | rule-compiler/src/lib.rs:160-169 | white-space skipping leaves non-space text untouched |
| RuleParserProperties.FieldThen | rule-compiler/src/lib.rs:71-76 | a field name followed by a non-field character parses as that name |
| RuleParserProperties.SkipOptionalSpace | rule-compiler/src/lib.rs:160-169 | zero or one space is skipped before non-space text |
| RuleParserProperties.StatementSteps | rule-compiler/src/lib.rs:160-169 | a statement is its field, operator and atom, parsed in turn with spaces between |
| RuleParserProperties.OperatorSpaced | rule-compiler/src/lib.rs:160-169 | an operator parses after an optional space |
| RuleParserProperties.AtomSpaced | rule-compiler/src/lib.rs:160-169 | an atom parses after an optional space |
| RuleParserProperties.OperatorEndsField | rule-compiler/src/lib.rs:71-76 | an operator, spaced or not, ends a field name |
| RuleParserProperties.StatementSpaced | rule-compiler/src/lib.rs:160-169 | a statement parses back whether or not there are spaces around its operator |
| RuleParserProperties.DisplayNested | rule-compiler/src/lib.rs:175-184 | a statement prints as field, space, operator, space, atom |
| RuleParserProperties.StatementRoundTrip | rule-compiler/src/lib.rs:160-184 | a printed statement parses back to the same statement |
| RuleParserProperties.TableAndWhen | rule-compiler/src/lib.rs:551-567 | after the operation come the table name and a `WHEN` keyword in any case |
| RuleParserProperties.RuleHeader | rule-compiler/src/lib.rs:551-567 | a rule with a well-spelled header parses to whatever its conditions parse to |
| RuleParserProperties.TrueExpression | rule-compiler/src/lib.rs:153-158 | `true` parses to the boolean expression |
| RuleParserProperties.TrueConditions | rule-compiler/src/lib.rs:551-567 | ` true` parses to the collapsed-true disjunction |
| RuleParserProperties.TrueRuleAnyCase | rule-compiler/src/lib.rs:588-591 | `reject foo_bar_baz when true`, in any case, compiles to the constant-true rule, which prints as `REJECT foo_bar_baz WHEN true` |
| RuleCompilerExamples.NoConditionsWithoutExpression | rule-compiler/src/lib.rs:362-379 | conditions that do not start with an expression are rejected |
| RuleCompilerExamples.EmptyBody | rule-compiler/src/lib.rs:587 | nothing after `WHEN` is rejected |
| RuleCompilerExamples.BareFieldBody | rule-compiler/src/lib.rs:586 | a field with no operator is rejected |
| RuleCompilerExamples.UnquotedValueBody | rule-compiler/src/lib.rs:583 | a value that is neither a number nor a quoted string is rejected |
| RuleCompilerExamples.QuotedStartBody | rule-compiler/src/lib.rs:584-585 | conditions that start with a quote are rejected |
| RuleCompilerExamples.SingleStatementBody | rule-compiler/src/lib.rs:592-599 | a lone statement is one disjunct of one statement |
| RuleCompilerExamples.StrayQuoteBody | rule-compiler/src/lib.rs:582 | a quote left over after a string value is rejected |
| RuleCompilerExamples.RejectedAfterHeader | rule-compiler/src/lib.rs:551-567 | with a good header, a rejected body rejects the rule |
| RuleCompilerExamples.RejectedEmpty | rule-compiler/src/lib.rs:587 | `... WHEN` is rejected |
| RuleCompilerExamples.RejectedBareField | rule-compiler/src/lib.rs:586 | `... WHEN x` is rejected |
| RuleCompilerExamples.RejectedUnquoted | rule-compiler/src/lib.rs:583 | `... WHEN x==a` is rejected |
| RuleCompilerExamples.RejectedQuotedField | rule-compiler/src/lib.rs:584 | `... WHEN "x"==a` is rejected |
| RuleCompilerExamples.RejectedQuotedAlone | rule-compiler/src/lib.rs:585 | `... WHEN "x"` is rejected |
| RuleCompilerExamples.RejectedStrayQuote | rule-compiler/src/lib.rs:582 | `... WHEN x=="1\\""` is rejected |
| RuleCompilerExamples.RejectedRules | rule-compiler/src/lib.rs:581-587 | every rejected input of the test is rejected, for any table and keyword case |
| RuleCompilerExamples.NotAnOperation | rule-compiler/src/lib.rs:39-44 | a word that starts unlike either keyword is no operation |
| RuleCompilerExamples.UnknownOperationRejected | rule-compiler/src/lib.rs:581 | `FOO ...` is rejected |
| RuleCompilerExamples.AcceptedQuote | rule-compiler/src/lib.rs:592-595 | `x=="1\""` compiles to one statement against the string `1"`, and the rule prints with `WHEN x == "1\""` |
| RuleCompilerExamples.AcceptedNumber | rule-compiler/src/lib.rs:596-599 | `x==1` compiles to one statement against the number 1, and the rule prints with `WHEN x == 1` |
| RuleCompilerExamples.AcceptedRulesPrint | rule-compiler/src/lib.rs:592-599 | those clauses print as `x == "1\""` and `x == 1` |
| RuleClauseText.AndFoldText | rule-compiler/src/lib.rs:362-379 | the AND fold, run over written `AND` joints of printable terms, returns the `add` chain of those terms and stops where the conjunction ends |
| RuleClauseText.ConjunctionParse | rule-compiler/src/lib.rs:362-379 | a written conjunction parses to the `add` chain of its terms, starting from `new` of the first term |
| RuleClauseText.OrFoldText | rule-compiler/src/lib.rs:513-525 | the OR fold, run over written `OR` joints, returns the `add` chain of the conjunctions' values |
| RuleClauseText.DisjunctionParse | rule-compiler/src/lib.rs:513-525 | a written disjunction parses to the `add` chain of its conjunctions: AND binds tighter than OR, and each clause is simplified as it is read |
| RuleClauseText.ConditionsText | rule-compiler/src/lib.rs:551-567 | the conditions after `WHEN`, with a leading gap and trailing spaces, parse to the disjunction's value with nothing left over |
| RuleClauseText.CompileText | rule-compiler/src/lib.rs:551-573 | a rule with a well-spelled header, in any case, and written conditions compiles to its operation, its table and the value of its conditions |
| RuleClauseText.CompiledRulePrint | rule-compiler/src/lib.rs:534-573 | such a compiled rule prints as its operation in upper case, the table, `WHEN` and the printed clause |
| RuleClauseWords.DisjunctionTextWords | rule-compiler/src/lib.rs:362-379 | a written disjunction with one space before each keyword is its words joined by single spaces, each extra space after a keyword counting as an empty word |
| RuleCompileTests.CompilesOne | rule-compiler/src/lib.rs:551-573 | a rule whose condition is the words of one conjunction compiles to `new` of its value |
| RuleCompileTests.CompilesTwo | rule-compiler/src/lib.rs:551-573 | two conjunctions around `OR`/`or`, with any gap after the keyword, compile to the `add` of the second onto the first |
| RuleCompileTests.CompilesThree | rule-compiler/src/lib.rs:551-573 | three conjunctions joined by `OR` compile to the `add` chain of the three |
| RuleCompileTests.FalseConjunctThenTrue | rule-compiler/src/lib.rs:601-604 | `x==1 AND false OR true` compiles to the constant true and prints as `true` |
| RuleCompileTests.FalseConjunctionThenTrue | rule-compiler/src/lib.rs:605-609 | `false AND false AND false OR true` compiles to the constant true and prints as `true` |
| RuleCompileTests.FalseDisjunctThenStatement | rule-compiler/src/lib.rs:610-613 | `true AND false OR x==1` compiles to the one statement `x == 1` and prints as it |
| RuleCompileTests.FalseFirstPrecedence | rule-compiler/src/lib.rs:615-619 | `false AND x==1 AND true OR true AND x==2` compiles to `x == 2`: AND binds tighter than OR |
| RuleCompileTests.TrueFlagsPrecedence | rule-compiler/src/lib.rs:620-624 | `true AND x==1 AND true or true AND x==2 AND true` compiles to and prints as `x == 1 OR x == 2` |
| RuleCompileTests.EquivalentCondition | rule-compiler/src/lib.rs:626-629 | `x==1 AND x==1` compiles to and prints as `x == 1` |
| RuleCompileTests.EquivalentField | rule-compiler/src/lib.rs:631-634 | `x==1 AND x==2` compiles to and prints as `false` |
| RuleCompileTests.ExclusiveField | rule-compiler/src/lib.rs:636-639 | `x==1 AND x!=1` compiles to and prints as `false` |
| RuleCompileTests.InclusiveField | rule-compiler/src/lib.rs:641-644 | `x==1 OR x!=1` compiles to and prints as `true` |
| RuleCompileTests.ComplexComplement | rule-compiler/src/lib.rs:646-650 | `true AND x==1 AND true or true AND x!=1 AND true` compiles to and prints as `true` |
| RuleCompileTests.Reordered | rule-compiler/src/lib.rs:652-656 | `x==1 AND y==2 OR y==2 AND x==1` compiles to and prints as `x == 1 AND y == 2` |
| RuleCompileTests.SubsetAfterTwoSpaces | rule-compiler/src/lib.rs:658-664 | a narrower disjunct after two spaces is absorbed: the rule prints as `x == 1 AND y == 2 AND z == 3` |
| RuleCompileTests.SubsetWidened | rule-compiler/src/lib.rs:665-671 | a fourth statement on a new field widens the kept disjunct to `x == 1 AND y == 2 AND z == 3 AND v == 4` |
| RuleCompileTests.SubsetConflict | rule-compiler/src/lib.rs:672-678 | with `x==2` as the fourth statement that disjunct is false and the rule prints as `x == 1 AND y == 2 AND z == 3` |
| RuleCompileTests.MissingFieldsCompiles | src/tests.rs:5-9 | the rule text of the sensor's missing-fields test compiles to the one disjunct `x == 1 AND y == 2 AND z == 3 AND a == "2"` |
| RuleSimplifier.Scan | rule-compiler/src/lib.rs:244-291 | finds nothing iff no stored statement equals or clashes with the new one; reports a duplicate only for an equal statement, a conflict only for a clashing one |
| RuleSimplifier.AllIn | rule-compiler/src/lib.rs:299-308 | true iff every statement of the first list is in the second |
| RuleSimplifier.AndClause.Contains | rule-compiler/src/lib.rs:299-308 | true iff the states agree and every statement of the other clause is in this one |
| RuleSimplifier.AndClause.Equals | rule-compiler/src/lib.rs:330-342 | true iff the states agree, the lengths agree, and every statement is in the other clause |
| RuleSimplifier.NewAnd | rule-compiler/src/lib.rs:194-202 | a statement starts an open conjunction holding it; a boolean starts a collapsed one of that value |
| RuleSimplifier.AndClause.Add | rule-compiler/src/lib.rs:218-297 | the new statements are the old ones, none, or the old ones and `e`; a statement survives unless the clause collapses (full meaning in `AndAddExact`, `AndAddBoolean`, `AndAddStatement`) |
| RuleSimplifier.AndClause.Display | rule-compiler/src/lib.rs:344-360 | a collapsed conjunction prints exactly `true` or `false`, by its value; a single statement prints as that statement |
| RuleSimplifier.NewOr | rule-compiler/src/lib.rs:389-397 | a collapsed conjunction starts a collapsed disjunction of its value; any other starts one holding it |
| RuleSimplifier.OrClause.Add | rule-compiler/src/lib.rs:399-473 | the result collapses, keeps the number of disjuncts, or appends `sub` (full meaning in `OrAddFirstRelated`, `OrAddUnrelated`, `OrAddNeverWidens`) |
| RuleSimplifier.OrClause.Display | rule-compiler/src/lib.rs:496-511 | a collapsed disjunction prints `true` or `false` by its value; a single disjunct prints as that disjunct |
| RuleSimplifier.ClashSymmetric | rule-compiler/src/lib.rs:244-291 | whether two statements clash does not depend on their order |
| RuleSimplifier.AndAddKeepsWf | rule-compiler/src/lib.rs:218-297 | `add` keeps a clause well formed, so the error arm of `AndClause::encode` cannot be reached |
| RuleSimplifier.NewAndWf | rule-compiler/src/lib.rs:194-202 | a new clause is well formed |
| RuleSimplifier.AndAddExact | rule-compiler/src/lib.rs:218-297 | on a well-formed clause, adding an expression means exactly "and that expression", for every event |
| RuleSimplifier.AllHoldAppend | rule-compiler/src/lib.rs:244-291 | a list with one more statement holds iff the list and the statement hold |
| RuleSimplifier.AndAddBoolean | rule-compiler/src/lib.rs:219-243 | a false clause ignores everything; `false` collapses to false; `true` collapses only an empty clause and is otherwise neutral |
| RuleSimplifier.AndAddStatement | rule-compiler/src/lib.rs:244-297 | a duplicate leaves the list; a clash collapses to false with an empty list; otherwise the statement is appended |
| RuleSimplifier.ScanFindsDuplicate | rule-compiler/src/lib.rs:244-291 | an equal statement before any clash is found as a duplicate |
| RuleSimplifier.EqualsIgnoresOrder | rule-compiler/src/lib.rs:330-342 | clauses with the same statements in another order are equal |
| RuleSimplifier.DistinctCard | rule-compiler/src/lib.rs:330-342 | a list without repeats has as many members as elements |
| RuleSimplifier.SubsetCard | rule-compiler/src/lib.rs:330-342 | a subset is no larger |
| RuleSimplifier.ProperSubsetSmaller | rule-compiler/src/lib.rs:330-342 | a proper subset is smaller |
| RuleSimplifier.MembershipBothWays | rule-compiler/src/lib.rs:330-342 | for repeat-free lists of one length, one-way membership gives the other way |
| RuleSimplifier.EqualsSymmetric | rule-compiler/src/lib.rs:330-342 | equality of well-formed clauses is symmetric |
| RuleSimplifier.EqualsIsContainsWithLength | rule-compiler/src/lib.rs:299-342 | equality is containment plus equal length |
| RuleSimplifier.OrScan | rule-compiler/src/lib.rs:424-463 | an absorbing disjunct is found at a valid index |
| RuleSimplifier.OrAddKeepsWf | rule-compiler/src/lib.rs:399-473 | `add` keeps a disjunction well formed |
| RuleSimplifier.OrAddConstant | rule-compiler/src/lib.rs:400-422 | a true clause absorbs everything; a true disjunct collapses to true; a false disjunct collapses only an empty clause and is otherwise neutral |
| RuleSimplifier.OrScanFirstRelated | rule-compiler/src/lib.rs:424-463 | the scan stops at the first related disjunct |
| RuleSimplifier.OrScanNoneRelated | rule-compiler/src/lib.rs:424-463 | with no related disjunct the scan finds nothing |
| RuleSimplifier.OrAddFirstRelated | rule-compiler/src/lib.rs:424-469 | a containing disjunct drops the new one; a contained one takes the new one's statements; complementary singletons collapse to true |
| RuleSimplifier.OrAddUnrelated | rule-compiler/src/lib.rs:470-472 | an unrelated disjunct is appended |
| RuleSimplifier.OrAddExactWhenUnrelated | rule-compiler/src/lib.rs:399-473 | with no related disjunct, adding means exactly "or that disjunct" |
| RuleSimplifier.OrAddNeverWidens | rule-compiler/src/lib.rs:399-473 | without a complement collapse, the result never holds where neither input did |
| RuleSimplifier.CoversWitness | rule-compiler/src/lib.rs:424-463 | a complement collapse names the complementary disjunct |
| RuleSimplifier.AndAccumulator.constructor | rule-compiler/src/lib.rs:194-202 | a new accumulator holds `AndClause::new(e)` |
| RuleSimplifier.AndAccumulator.Add | rule-compiler/src/lib.rs:218-297 | the loop leaves the accumulator at the value-level `Add` |
| RuleSimplifier.AndAccumulator.Take | rule-compiler/src/lib.rs:310-312 | `take` replaces the statements with the other clause's |
| RuleSimplifier.OrAccumulator.constructor | rule-compiler/src/lib.rs:389-397 | a new accumulator holds `OrClause::new(sub)` |
| RuleSimplifier.OrAccumulator.Add | rule-compiler/src/lib.rs:399-473 | the loop leaves the accumulator at the value-level `Add` |
| RuleSimplifierExamples.RepeatedStatementKeptOnce | rule-compiler/src/lib.rs:626-629 | `x==1 AND x==1` is `x == 1` |
| RuleSimplifierExamples.ContradictionsAreFalse | rule-compiler/src/lib.rs:630-639 | `x==1 AND x==2` and `x==1 AND x!=1` are `false` |
| RuleSimplifierExamples.ComplementIsTrue | rule-compiler/src/lib.rs:640-644 | `x==1 OR x!=1` is `true` |
| RuleSimplifierExamples.PairClause | rule-compiler/src/lib.rs:244-291 | statements on two fields are both kept, in order |
| RuleSimplifierExamples.SingleDisjunct | rule-compiler/src/lib.rs:389-397 | a non-constant conjunction is the only disjunct of a new disjunction |
| RuleSimplifierExamples.ReorderedDisjunctDropped | rule-compiler/src/lib.rs:651-656 | `x==1 AND y==2 OR y==2 AND x==1` keeps one disjunct |
| RuleSimplifierExamples.SupersetDisjunctKept | rule-compiler/src/lib.rs:657-664 | the subset test keeps the larger disjunct |
| RuleSimplifierExamples.FalseDisjunctDropped | rule-compiler/src/lib.rs:615-619 | `false AND x==1 AND true OR true AND x==2` is `x == 2`: the false disjunct gives way |
| RuleSimplifierExamples.ComplementIgnoresValues | rule-compiler/src/lib.rs:437-469 | `x==1 OR x!=2` collapses to `true`, although both fail when x is 2 |
| RuleSimplifierExamples.SupersetNarrowsDisjunction | rule-compiler/src/lib.rs:432-436 | `x==1 OR x==1 AND y==2` keeps only the larger disjunct, which some events fail |
| RuleSimplifierExamples.StaleValueKeepsDuplicate | rule-compiler/src/lib.rs:224-243 | `true AND x==1` keeps a stale `value` bit, so it is not equal to plain `x==1` |
| RuleEncoding.ExpressionsScript | rule-compiler/src/lib.rs:314-328 | one writer step per stored expression, in order |
| RuleEncoding.AndScript | rule-compiler/src/lib.rs:314-328 | one step per expression, every written step a statement, and no abort for a well-formed conjunction |
| RuleEncoding.DisjunctsScript | rule-compiler/src/lib.rs:483-486 | empty exactly for no disjuncts, and otherwise starts a new clause |
| RuleEncoding.OrScript | rule-compiler/src/lib.rs:475-492 | empty exactly for an open disjunction with no disjuncts, and otherwise ends with a flush |
| RuleEncoding.Play | rule-compiler/src/lib.rs:475-493 | only a non-empty script fails, and one that starts with an abort fails with that error |
| RuleEncoding.Encode | rule-compiler/src/lib.rs:540-549 | success implies the writer was created; a rule with no disjuncts yields the created writer itself |
| RuleEncoding.CountAppend | rule-compiler/src/lib.rs:475-493 | call counts add up over joined scripts |
| RuleEncoding.NoStatementCalls | rule-compiler/src/lib.rs:314-328 | a conjunction's script makes no call other than `write_statement` |
| RuleEncoding.DisjunctsCount | rule-compiler/src/lib.rs:475-493 | `start_new_clause` is called once per disjunct, and neither `write_absolute` nor `flush` is called |
| RuleEncoding.OrScriptProtocol | rule-compiler/src/lib.rs:475-493 | a constant is `write_absolute` then `flush`; otherwise one `start_new_clause` per disjunct and a final `flush` iff there is a disjunct |
| RuleEncoding.DisjunctsNoAbort | rule-compiler/src/lib.rs:314-328 | well-formed disjuncts never reach the error arm |
| RuleEncoding.WellFormedNeverAborts | rule-compiler/src/lib.rs:475-493 | a well-formed rule's script never aborts by itself |
| RuleEncoding.PlayAppend | rule-compiler/src/lib.rs:475-493 | playing two scripts is playing the first, then the second from its state |
| RuleEncoding.FailurePropagates | rule-compiler/src/lib.rs:475-493 | the first error ends the encoding |
| RuleEncoding.PlayOne | rule-compiler/src/lib.rs:475-493 | a single step runs the call or aborts |
| RuleEncoding.DisjunctsAppend | rule-compiler/src/lib.rs:475-493 | the disjunct script splits over joined lists |
| RuleEncoding.DisjunctsOne | rule-compiler/src/lib.rs:483-486 | one disjunct is `start_new_clause` then its statements |
| RuleEncoding.PlayStep | rule-compiler/src/lib.rs:475-493 | playing one more step continues from the reached state |
| RuleEncoding.PlayThen | rule-compiler/src/lib.rs:475-493 | after a successful prefix, playing continues from its state |
| RuleEncoding.PlayErrPrefix | rule-compiler/src/lib.rs:475-493 | after a failed prefix, nothing more happens |
| RuleEncoding.ExpressionsAppend | rule-compiler/src/lib.rs:314-328 | the conjunction script splits over joined lists |
| RuleEncoding.ExpressionsSnoc | rule-compiler/src/lib.rs:314-328 | a prefix that is one longer has one more step |
| RuleEncoding.ExpressionsSplit | rule-compiler/src/lib.rs:314-328 | the script splits at any index |
| RuleEncoding.DisjunctsSnoc | rule-compiler/src/lib.rs:475-493 | a prefix one disjunct longer adds that disjunct's script |
| RuleEncoding.DisjunctsSplit | rule-compiler/src/lib.rs:475-493 | the disjunct script splits at any index |
| RuleEncoding.FactoryErrorFirst | rule-compiler/src/lib.rs:540-549 | a factory error is returned before any writer call |
| RuleDriver.EncodeAnd | rule-compiler/src/lib.rs:314-328 | the loop leaves the writer where the conjunction's script leads, or returns its error |
| RuleDriver.EncodeExpression | rule-compiler/src/lib.rs:314-327 | one expression is one `write_statement` |
| RuleDriver.EncodeDisjunct | rule-compiler/src/lib.rs:483-486 | a disjunct is `start_new_clause` then its statements |
| RuleDriver.EncodeOr | rule-compiler/src/lib.rs:475-493 | the loop leaves the writer and probe where the disjunction's script leads |
| RuleDriver.EncodeConstant | rule-compiler/src/lib.rs:479-481 | a constant is `write_absolute` then `flush` |
| RuleDriver.ExpressionsFail | rule-compiler/src/lib.rs:314-327 | a failing expression ends the conjunction with its error |
| RuleDriver.DisjunctsFail | rule-compiler/src/lib.rs:483-490 | a failing disjunct ends the encoding with its error |
| RuleDriver.EncodeRule | rule-compiler/src/lib.rs:540-549 | `Rule::encode` against the probe-sys factory gives what the call protocol gives |
| Helpers.OperatorToConstant | probe-sys/src/helpers.rs:35-40 | `Equal` and `NotEqual` map to `EQUAL_OPERATOR` and `NOT_EQUAL_OPERATOR`, never to unset |
| Helpers.AbsoluteToConstant | probe-sys/src/helpers.rs:42-47 | true and false map to `TRUE_ABSOLUTE` and `FALSE_ABSOLUTE`, never to unset |
| Helpers.UntilNul | probe-sys/src/helpers.rs:22-24 | the longest nul-free prefix of a buffer |
| Helpers.ConvertStringArray | probe-sys/src/helpers.rs:11-29 | empty when `size >= arr.len()`; otherwise exactly `size` strings, each up to its first nul |
| QueryRecords.StringPathOf | probe-sys/src/compiler_generated.rs:92-153 | exactly the four `process[.parent].{name,executable}` paths are string fields |
| QueryRecords.WithSlot | probe-sys/src/compiler_generated.rs:86-155 | changes one string slot and nothing else |
| QueryRecords.ZeroSlot | probe-sys/src/compiler_generated.rs:19-40 | a default string slot is unset and 256 zero bytes |
| QueryRecords.DefaultIsUnset | probe-sys/src/compiler_generated.rs:59-63 | the zeroed record has every operator and the absolute byte unset |
| QueryRecords.WithAbsolute | probe-sys/src/compiler_generated.rs:66-68 | `set_absolute` changes only the absolute byte |
| QueryRecords.WithNumber | probe-sys/src/compiler_generated.rs:70-84 | on success the user-id slot carries the operator's constant, never UNSET, and the absolute flag is unchanged |
| QueryRecords.WithString | probe-sys/src/compiler_generated.rs:86-155 | on success the path is a string path, its slot carries the operator's constant, never UNSET, and the other slots are unchanged |
| QueryRecords.Overlay | probe-sys/src/compiler_generated.rs:128-131 | the zip copy writes the value's bytes at the front and leaves the rest |
| QueryRecords.WithNumberCases | probe-sys/src/compiler_generated.rs:70-84 | `set_number` succeeds iff the path is `user.id`, the operator is unset and the value fits in u32, and then stores only value and operator |
| QueryRecords.WithStringCases | probe-sys/src/compiler_generated.rs:86-155 | `set_string` succeeds iff the path is a string field, not yet set, and the value is shorter than 256 bytes; it overlays the bytes and changes nothing else |
| QueryRecords.SecondSetFails | probe-sys/src/compiler_generated.rs:73-76 | a second predicate on the same field is refused |
| QueryRecords.SettersKeepSize | probe-sys/src/compiler_generated.rs:10-155 | the setters keep every slot 256 bytes long |
| QueryRecords.SetNumber | probe-sys/src/compiler_generated.rs:70-84 | returns the `set_number` outcome; a refused call leaves the record as it was |
| QueryRecords.SetString | probe-sys/src/compiler_generated.rs:86-155 | returns the `set_string` outcome; a refused call leaves the record as it was |
| QueryRecords.CopyBytes | probe-sys/src/compiler_generated.rs:128-131 | the copy loop computes the overlay |
| QueryWriter.NonDefault | probe-sys/src/query_writer.rs:84-88 | filtering out default records never lengthens the list |
| QueryWriter.WriteStatementStep | probe-sys/src/query_writer.rs:32-48 | on success only the current query changes |
| QueryWriter.StartNewClauseStep | probe-sys/src/query_writer.rs:50-62 | on success the first saved query is the old first one, or the current one when none was saved, and only the list and the current query change |
| QueryWriter.WriteAbsoluteStep | probe-sys/src/query_writer.rs:64-75 | on success the current query is appended to the saved ones |
| QueryWriter.Flushed | probe-sys/src/query_writer.rs:81-83 | the current query is appended to the saved ones and stays current |
| QueryWriter.ProbeCalls | probe-sys/src/query_writer.rs:84-88 | at most one call per saved query plus one, each for this writer's module and operation |
| QueryWriter.Applications | probe-sys/src/query_writer.rs:84-88 | one applied rule per record, with the writer's module and operation |
| QueryWriter.StartNewClauseCases | probe-sys/src/query_writer.rs:50-62 | fails iff more than `limit` records are stored; stores `current` only into an empty list; always resets `current` |
| QueryWriter.LaterClauseDiscarded | probe-sys/src/query_writer.rs:57-60 | a record built after the first `start_new_clause` is dropped by the next one |
| QueryWriter.CapacityIsStrict | probe-sys/src/query_writer.rs:51-56 | the capacity check fails only once more than `limit` records are stored |
| QueryWriter.AbsoluteFlushedTwice | probe-sys/src/query_writer.rs:64-90 | `write_absolute` then `flush_probe` applies the absolute record twice |
| QueryWriter.NonDefaultAppend | probe-sys/src/query_writer.rs:84-88 | filtering splits over joined lists |
| QueryWriter.NonDefaultKeeps | probe-sys/src/query_writer.rs:84-88 | exactly the non-default records are kept |
| QueryWriter.ProbeCallsAreNonDefault | probe-sys/src/query_writer.rs:81-90 | the probe receives exactly the non-default stored records and `current` |
| QueryWriter.Probe.constructor | probe-sys/src/lib.rs:117-124 | the probe's log starts empty |
| QueryWriter.Probe.ApplyRule | probe-sys/src/probe_generated.rs:127 | `apply_rule` appends one entry to the log |
| QueryWriter.InnerWriter.constructor | probe-sys/src/query_writer.rs:20-28 | a new writer has a default `current` and no stored records |
| QueryWriter.InnerWriter.WriteStatement | probe-sys/src/query_writer.rs:32-48 | routes a number atom to `set_number` and a string atom to `set_string`, passing errors through |
| QueryWriter.InnerWriter.StartNewClause | probe-sys/src/query_writer.rs:50-62 | updates the writer as `start_new_clause` does |
| QueryWriter.InnerWriter.WriteAbsolute | probe-sys/src/query_writer.rs:64-75 | after the capacity check, stores a default record with only the absolute byte set |
| QueryWriter.InnerWriter.Flush | probe-sys/src/query_writer.rs:77 | the trait `flush` is a no-op that succeeds |
| QueryWriter.InnerWriter.FlushProbe | probe-sys/src/query_writer.rs:81-90 | appends `current` and applies every non-default record, in order |
| QueryWriter.ApplyAll | probe-sys/src/query_writer.rs:84-88 | the loop applies exactly the non-default records, in order |
| QueryWriter.ApplyStep | probe-sys/src/query_writer.rs:84-88 | one more record adds at most its own application |
| QueryWriter.ApplicationsAppend | probe-sys/src/query_writer.rs:84-88 | applications split over joined lists |
| BpfWriter.TableOf | probe-sys/src/compiler_generated.rs:503-507 | exactly `bprm_check_security`, `path_rename` and `path_unlink` are tables |
| BpfWriter.WithInner | probe-sys/src/compiler_generated.rs:464-470 | replacing one table's writer leaves the others and the probe |
| BpfWriter.PerformOnInner | probe-sys/src/compiler_generated.rs:496-527 | away from `flush`, a call is the table's inner step |
| BpfWriter.Lift | probe-sys/src/compiler_generated.rs:496-527 | an inner writer's outcome is the dispatching writer's outcome |
| BpfWriter.PerformDispatch | probe-sys/src/compiler_generated.rs:496-539 | a call reaches only its table's writer; an unknown table fails, except `flush` without a probe, which changes nothing |
| BpfWriter.Perform | probe-sys/src/compiler_generated.rs:496-539 | on success the table is unchanged, and only a flush reaches the probe |
| BpfWriter.PerformOn | probe-sys/src/compiler_generated.rs:496-539 | the same for one table; with no inner writer the state is returned unchanged |
| BpfWriter.Factory | probe-sys/src/query_writer.rs:107-111 | creates a writer for every operation and table, on the given table and probe |
| BpfWriter.FactoryAlwaysOk | probe-sys/src/query_writer.rs:107-111 | the factory never fails, and every inner writer starts empty with limit 8 |
| BpfWriter.BpfQueryWriter.constructor | probe-sys/src/compiler_generated.rs:472-494 | three empty inner writers with limit 8 and the given probe |
| BpfWriter.BpfQueryWriter.WriteStatement | probe-sys/src/compiler_generated.rs:497-509 | dispatches `write_statement` by table |
| BpfWriter.BpfQueryWriter.InnerOf | probe-sys/src/compiler_generated.rs:464-470 | each table's writer is part of the state |
| BpfWriter.BpfQueryWriter.StartNewClause | probe-sys/src/compiler_generated.rs:511-518 | dispatches `start_new_clause` by table |
| BpfWriter.BpfQueryWriter.WriteAbsolute | probe-sys/src/compiler_generated.rs:520-527 | dispatches `write_absolute` by table |
| BpfWriter.BpfQueryWriter.Flush | probe-sys/src/compiler_generated.rs:529-539 | without a probe it succeeds and changes nothing; otherwise it flushes the table's writer to the probe |
| EncodeProperties.WithInnerTwice | probe-sys/src/compiler_generated.rs:464-470 | the second replacement wins |
| EncodeProperties.NewBpfInner | probe-sys/src/compiler_generated.rs:472-494 | each table's writer starts with its module name and limit 8 |
| EncodeProperties.WithInnerSame | probe-sys/src/compiler_generated.rs:464-470 | putting back the same writer changes nothing |
| EncodeProperties.AndPlay | probe-sys/src/query_writer.rs:32-48 | a conjunction's statements only fill the table's `current` |
| EncodeProperties.DisjunctsPlay | probe-sys/src/query_writer.rs:50-62 | the disjunct loop passes every capacity check, keeps the first stored list and leaves the last disjunct in `current` |
| EncodeProperties.FlushPlay | probe-sys/src/compiler_generated.rs:529-539 | `flush` hands the probe the table's non-default records |
| EncodeProperties.NonDefaultPair | probe-sys/src/query_writer.rs:84-88 | a default record and another leave at most the other |
| EncodeProperties.OnlyLastDisjunctReachesProbe | probe-sys/src/query_writer.rs:50-90 | encoding succeeds iff every disjunct fits a zeroed record; the probe then receives at most the last disjunct's record |
| EncodeProperties.ConstantAppliedTwice | probe-sys/src/query_writer.rs:64-90 | a constant rule's record reaches the probe twice |
| EncodeProperties.AbsoluteOnEmpty | probe-sys/src/query_writer.rs:64-90 | on an empty writer, `write_absolute` and `flush` apply exactly two copies of the record |
| EncodeProperties.UnknownTableFails | probe-sys/src/compiler_generated.rs:496-539 | an unknown table fails at the first call, so only a clause with no disjunct encodes |
| EncodeProperties.FillNeverFull | probe-sys/src/query_writer.rs:32-48 | statements never meet the capacity error |
| EncodeProperties.LastFillNeverFull | probe-sys/src/query_writer.rs:32-48 | no disjunct meets the capacity error |
| EncodeProperties.CapacityNeverReached | probe-sys/src/query_writer.rs:50-62 | on a known table, `Rule::encode` never meets the capacity error |
| EncodeExamples.FirstStatementRefused | probe-sys/src/query_writer.rs:38-46 | a refused first statement is the conjunction's error |
| EncodeExamples.FirstDisjunctRefused | rule-compiler/src/lib.rs:483-486 | a refused first statement of the first disjunct is the rule's error |
| EncodeExamples.RepeatedFieldRefused | probe-sys/src/compiler_generated.rs:73-76 | two statements on one field are refused |
| EncodeExamples.TestOk | src/tests.rs:24-30 | `process.name == "ls" and user.id == 1` encodes, and a probe receives the one record holding both |
| EncodeExamples.TestErrorTypeMismatch | src/tests.rs:11-15 | `user.id == "test"` is refused |
| EncodeExamples.TestErrorRepeated | src/tests.rs:17-22 | `user.id == "a" and user.id != "b"` is refused |
| EncodeExamples.TestErrorMissingFields | src/tests.rs:5-9 | a first statement on the unknown field `x` is refused |
| EncodeExamples.TestErrorMissingFieldsText | src/tests.rs:5-9 | from its rule text, in any casing of the keywords, the missing-fields rule compiles and its encoding is refused with `NumberFieldNotFound("x")` |
| LegacyAst.OperationByte | src/rules.rs:39-46 | `Reject` is 1 and `Filter` is 2 |
| LegacyAst.OperatorByte | src/rules.rs:86-93 | the operator bytes are the record constants, never 0 |
| LegacyParser.ParseNumber | src/rules.rs:125-129 | digits that fit in a u64, and their value |
| LegacyParser.ParseBoolean | src/rules.rs:118-123 | succeeds iff the input starts with `true` or `false` |
| LegacyParser.ParseEscape | src/rules.rs:131-141 | never fails hard; only shortens the input |
| LegacyParser.ParseString | src/rules.rs:143-151 | backtracks exactly without an opening quote |
| LegacyParser.ParseAtom | src/rules.rs:153-155 | on success consumes input |
| LegacyParser.ParseConstant | src/rules.rs:173-175 | a constant expression holds a boolean |
| LegacyParser.ParseStatement | src/rules.rs:177-186 | on success yields a statement |
| LegacyParser.ParseExpression | src/rules.rs:188-190 | a statement or a boolean constant |
| LegacyParser.ParseAndClause | src/rules.rs:396-413 | a parsed conjunction is well formed; what it returns for a written conjunction is `LegacyClauseText.ConjunctionParse` |
| LegacyParser.AndFold | src/rules.rs:396-413 | folding keeps the conjunction well formed |
| LegacyParser.ParseOrClause | src/rules.rs:545-557 | a parsed disjunction is well formed; what it returns for a written disjunction is `LegacyClauseText.DisjunctionParse` |
| LegacyParser.OrFold | src/rules.rs:545-557 | folding keeps the disjunction well formed |
| LegacyParser.Conditions | src/rules.rs:622-638 | the conditions consume the whole input |
| LegacyParser.ParseRule | src/rules.rs:622-638 | a parsed rule consumes all input |
| LegacyParser.Compile | src/rules.rs:640-644 | a well-formed rule or the parse error |
| LegacySimplifier.Scan | src/rules.rs:263-304 | finds nothing iff no stored statement equals or clashes with the new one |
| LegacySimplifier.AllIn | src/rules.rs:316-325 | true iff every statement of the first list is in the second |
| LegacySimplifier.AndClause.Contains | src/rules.rs:316-325 | states agree and every statement of the other is in this one |
| LegacySimplifier.AndClause.Add | src/rules.rs:235-314 | the new statements are the old ones, none, or the old ones and `e`; a statement survives unless the clause collapses |
| LegacySimplifier.AndAddKeepsWf | src/rules.rs:235-314 | `add` keeps a clause well formed |
| LegacySimplifier.OrScan | src/rules.rs:461-497 | an absorbing disjunct is found at a valid index |
| LegacySimplifier.OrClause.Add | src/rules.rs:433-507 | the result collapses, keeps the number of disjuncts, or appends `sub` |
| LegacySimplifier.OrAddKeepsWf | src/rules.rs:433-507 | `add` keeps a disjunction well formed |
| LegacySimplifier.LiftAll | src/rules.rs:112-116 | lifting keeps the length |
| LegacySimplifier.LiftFaithful | src/rules.rs:157-202 | lifting to the rule compiler's syntax keeps equality, clashes and printing |
| LegacySimplifier.ScanAgrees | src/rules.rs:263-304 | the statement scan agrees with the rule compiler's |
| LegacySimplifier.LiftAllAppend | src/rules.rs:112-116 | lifting splits over an appended statement |
| LegacySimplifier.AndAddAgrees | src/rules.rs:235-314 | on clauses without booleans, AND simplification agrees with the rule compiler's |
| LegacySimplifier.ContainsAgrees | src/rules.rs:316-325 | containment agrees with the rule compiler's |
| LegacySimplifier.ComplementaryAgrees | src/rules.rs:471-496 | the complement test agrees with the rule compiler's |
| LegacySimplifier.OrScanAgrees | src/rules.rs:461-497 | the disjunct scan agrees with the rule compiler's |
| LegacySimplifier.OrAddAgrees | src/rules.rs:433-507 | on clauses without booleans, OR simplification agrees with the rule compiler's |
| LegacySimplifier.AndDisplayAgrees | src/rules.rs:378-393 | a conjunction prints as the rule compiler's does |
| LegacySimplifier.OrDisplayAgrees | src/rules.rs:527-543 | a disjunction prints as the rule compiler's does |
| LegacySimplifier.AndAccumulator.constructor | src/rules.rs:211-219 | a new accumulator holds `AndClause::new(e)` |
| LegacySimplifier.AndAccumulator.Add | src/rules.rs:235-314 | the loop leaves the accumulator at the value-level `Add` |
| LegacySimplifier.OrAccumulator.constructor | src/rules.rs:423-431 | a new accumulator holds `OrClause::new(sub)` |
| LegacySimplifier.OrAccumulator.Add | src/rules.rs:433-507 | the loop leaves the accumulator at the value-level `Add` |
| LegacyEncoding.Pow256 | src/rules.rs:340-342 | powers of 256 are positive |
| LegacyEncoding.BigEndian | src/rules.rs:340-342 | a k-byte big-endian encoding has k bytes |
| LegacyEncoding.DivBelow | src/rules.rs:340-342 | dividing below `256 * p` stays below `p` |
| LegacyEncoding.BigEndianRoundTrip | src/rules.rs:340-342 | big-endian bytes read back to the number |
| LegacyEncoding.U64Width | src/rules.rs:340-342 | eight bytes hold exactly the u64 range |
| LegacyEncoding.FirstOn | src/rules.rs:335-338 | the first statement naming a field, or none iff there is none |
| LegacyEncoding.FirstOnIs | src/rules.rs:335-338 | the statement at the first index naming a field is the one found |
| LegacyEncoding.Zeros | src/rules.rs:345-354 | k zero bytes |
| LegacyEncoding.SlotBytes | src/rules.rs:331-361 | a slot starts with 0 iff the field is unused |
| LegacyEncoding.FindStatement | src/rules.rs:335-338 | the search loop finds the first statement naming the field |
| LegacyEncoding.WriteSlot | src/rules.rs:339-357 | the writes for one field append its slot bytes |
| LegacyEncoding.Pad | src/rules.rs:350-352 | the padding loop appends `n - len` zero bytes |
| LegacyEncoding.EncodeAnd | src/rules.rs:331-361 | the loops compute the conjunction's encoding |
| LegacyEncoding.CharBytesNonZero | src/rules.rs:345-354 | a non-nul character encodes without zero bytes |
| LegacyEncoding.Utf8NonZero | src/rules.rs:345-354 | a nul-free string encodes without zero bytes |
| LegacyEncoding.UntilNulStops | src/rules.rs:345-354 | reading to the nul recovers the value bytes |
| LegacyEncoding.SlotRoundTrip | src/rules.rs:331-361 | a slot decodes back to the first statement on its field |
| LegacyEncoding.AndEncodingCons | src/rules.rs:331-361 | the encoding is the first field's slot then the rest |
| LegacyEncoding.ExpectedSlots | src/rules.rs:331-361 | one expected slot per schema field, in schema order |
| LegacyEncoding.AndEncodingRoundTrip | src/rules.rs:331-361 | a conjunction's encoding decodes back to its expected slots |
| LegacyEncoding.SlotWidths | src/rules.rs:339-357 | a string slot is `1 + n` bytes ending in nul, a number slot 9 bytes, an unused slot one nul |
| LegacyEncoding.FirstKind | src/rules.rs:584-598 | the kind of the first schema entry with that name, or none iff there is none |
| LegacyEncoding.ClauseRefused | src/rules.rs:577-606 | true iff some statement of the conjunction is refused |
| LegacyEncoding.Validate | src/rules.rs:573-609 | true iff no statement of any disjunct is refused |
| LegacyEncoding.ValidFits | src/rules.rs:573-609 | after validation every slot's value fits its field |
| LegacyEncoding.MetaByte | src/rules.rs:511-519 | 0 for an ordinary clause, 1 for true and 2 for false |
| LegacyEncoding.OrMeta | src/rules.rs:509-524 | the metadata is nine bytes, the first the clause's metadata byte |
| LegacyEncoding.OrClauses | src/rules.rs:523 | one encoded vector per disjunct |
| LegacyEncoding.OrMetaShape | src/rules.rs:509-524 | 9 bytes: the meta byte and the big-endian disjunct count |
| LegacyEncoding.EncodeOr | src/rules.rs:509-524 | the loop computes the metadata and one encoding per disjunct |
| LegacyEncoding.Encode | src/rules.rs:611-619 | `Rule::encode` gives the encoding function's result |
| LegacyEncoding.Encoding | src/rules.rs:611-619 | fails exactly when the clause does not validate; otherwise ten header bytes and one encoding per disjunct |
| LegacyEncoding.EncodingShape | src/rules.rs:611-619 | refused iff validation fails; otherwise 10 metadata bytes ending in the operation byte, and one vector per disjunct |
| LegacyEncoding.EncodedClausesRoundTrip | src/rules.rs:611-619 | each disjunct of an encoded rule reads back as the slots of its first statements |
| LegacyExamples.PairClause | src/rules.rs:263-312 | statements on two fields are both kept |
| LegacyExamples.EncodingTestConjunctions | src/rules.rs:754-760 | the test rule's three conjunctions |
| LegacyExamples.EncodingTestClause | src/rules.rs:754-760 | the second disjunct is dropped and the third absorbs the first |
| LegacyExamples.EncodingTestValid | src/rules.rs:754-760 | the test rule passes validation on its schema |
| LegacyExamples.EncodingTestAccepted | src/rules.rs:754-760 | the test rule encodes with meta byte 0, one disjunct and the reject byte |
| LegacyExamples.EncodingTestMissingField | src/rules.rs:761-764 | without `z` in the schema the rule is refused |
| LegacyExamples.EncodingTestWrongKind | src/rules.rs:765-769 | with `y` a string field the rule is refused |
| LegacyExamples.EncodingTestNoRoom | src/rules.rs:770-775 | a string field with no room for the value is refused |
| LegacyExamples.BooleanStatements | src/rules.rs:235-314 | a boolean statement is kept as a statement, and two on one field clash |
| LegacyExamples.BooleanStatementEncodesNothing | src/rules.rs:331-361 | a boolean statement passes validation and encodes as an unused slot |
| LegacyExamples.LaterStatementIgnored | src/rules.rs:335-338 | only the first statement on a field reaches its slot |
| LegacyClauseText.Legacy | src/rules.rs:157-202 | a rule-compiler term as an older-grammar expression, which lifts back to the same term |
| LegacyClauseText.AndChainLifts | src/rules.rs:235-314 | lifting the older `add` chain gives the rule compiler's `add` chain over the same terms |
| LegacyClauseText.ConjunctionLifts | src/rules.rs:396-413 | the older value of a written conjunction lifts to the rule compiler's value |
| LegacyClauseText.OrChainLifts | src/rules.rs:433-507 | lifting the older OR `add` chain gives the rule compiler's chain over the same conjunctions |
| LegacyClauseText.DisjunctionLifts | src/rules.rs:545-557 | the older value of a written disjunction lifts to the rule compiler's value |
| LegacyClauseText.EscapedPlain | src/rules.rs:131-151 | the escape loop reads a printed literal of letters, digits, quotes and backslashes back to its characters |
| LegacyClauseText.PlainStringParse | src/rules.rs:143-151 | such a printed literal parses back to the string and leaves the rest unread |
| LegacyClauseText.AtomParse | src/rules.rs:153-155 | a printed number or literal parses back to its atom |
| LegacyClauseText.StatementParse | src/rules.rs:177-190 | an unspaced statement `field==value` parses to that statement and skips the spaces after it |
| LegacyClauseText.BooleanParse | src/rules.rs:173-190 | `true` and `false` parse to the boolean constant |
| LegacyClauseText.TermParse | src/rules.rs:173-190 | every written term parses to its older-grammar expression |
| LegacyClauseText.AndFoldText | src/rules.rs:396-413 | the AND fold over written `AND` joints returns the older `add` chain and stops where the conjunction ends |
| LegacyClauseText.ConjunctionParse | src/rules.rs:396-413 | a written conjunction parses to the older `add` chain of its terms, from `new` of the first |
| LegacyClauseText.OrFoldText | src/rules.rs:545-557 | the OR fold over written `OR` joints returns the older `add` chain of the conjunctions' values |
| LegacyClauseText.DisjunctionParse | src/rules.rs:545-557 | a written disjunction parses to the older `add` chain of its conjunctions: AND binds tighter than OR |
| LegacyClauseText.ConditionsText | src/rules.rs:622-638 | the conditions after `WHEN` parse to the disjunction's value with nothing left over |
| LegacyClauseText.RuleHeader | src/rules.rs:622-638 | after a well-spelled header in any case, the rule parses iff its conditions do, to the operation, table and conditions |
| LegacyClauseText.CompileText | src/rules.rs:622-644 | a rule with a good header and written conditions compiles to its operation, table and the older value of its conditions |
| LegacyClauseText.CompileAgrees | src/rules.rs:622-644 | on such a text both compilers accept the rule, the older clause lifts to the rule compiler's, and both print the same |
| LegacyCompileTests.AgreesOne | src/rules.rs:640-644 | the words of one conjunction: both compilers accept the rule and print it alike |
| LegacyCompileTests.AgreesTwo | src/rules.rs:640-644 | two conjunctions around `OR`/`or`: both compilers accept the rule and print it alike |
| LegacyCompileTests.AgreesThree | src/rules.rs:640-644 | three conjunctions joined by `OR`: both compilers accept the rule and print it alike |
| LegacyCompileTests.Pair | src/rules.rs:396-413 | `x AND y`: both compilers accept the rule and print it alike |
| LegacyCompileTests.OneOrOne | src/rules.rs:545-557 | `x OR y`: both compilers accept the rule and print it alike |
| LegacyCompileTests.PairOrOne | src/rules.rs:545-557 | `x AND y OR z`: both compilers accept the rule and print it alike |
| LegacyCompileTests.TripleOrOne | src/rules.rs:545-557 | three terms `AND`ed, `OR` one: both compilers accept the rule and print it alike |
| LegacyCompileTests.TripleOrPair | src/rules.rs:545-557 | three terms, `OR` two: both compilers accept the rule and print it alike |
| LegacyCompileTests.TripleOrTriple | src/rules.rs:545-557 | three terms, `OR` three: both compilers accept the rule and print it alike |
| LegacyCompileTests.PairOrPair | src/rules.rs:545-557 | two terms, `OR` two: both compilers accept the rule and print it alike |
| LegacyCompileTests.PairOrWide | src/rules.rs:545-557 | two terms, `OR` two with a wider gap: both compilers accept the rule and print it alike |
| LegacyCompileTests.TripleOrPairOrFour | src/rules.rs:545-557 | three, two and four terms: both compilers accept the rule and print it alike |
| LegacyCompileTests.TrueRule | src/rules.rs:659-662 | `reject foo_bar_baz when true`, in any case, compiles and prints as `... WHEN true` |
| LegacyCompileTests.AcceptedQuote | src/rules.rs:663-666 | `x=="1\""` compiles and prints as `x == "1\""` |
| LegacyCompileTests.AcceptedNumber | src/rules.rs:667-670 | `x==1` compiles and prints as `x == 1` |
| LegacyCompileTests.FalseConjunctThenTrue | src/rules.rs:672-675 | `x==1 AND false OR true` compiles and prints as `true` |
| LegacyCompileTests.FalseConjunctionThenTrue | src/rules.rs:676-680 | `false AND false AND false OR true` compiles and prints as `true` |
| LegacyCompileTests.FalseDisjunctThenStatement | src/rules.rs:681-684 | `true AND false OR x==1` compiles and prints as `x == 1` |
| LegacyCompileTests.FalseFirstPrecedence | src/rules.rs:686-690 | `false AND x==1 AND true OR true AND x==2` prints as `x == 2`: AND binds tighter than OR |
| LegacyCompileTests.TrueFlagsPrecedence | src/rules.rs:691-695 | `true AND x==1 AND true or true AND x==2 AND true` prints as `x == 1 OR x == 2` |
| LegacyCompileTests.EquivalentCondition | src/rules.rs:697-700 | `x==1 AND x==1` prints as `x == 1` |
| LegacyCompileTests.EquivalentField | src/rules.rs:702-705 | `x==1 AND x==2` prints as `false` |
| LegacyCompileTests.ExclusiveField | src/rules.rs:707-710 | `x==1 AND x!=1` prints as `false` |
| LegacyCompileTests.InclusiveField | src/rules.rs:712-715 | `x==1 OR x!=1` prints as `true` |
| LegacyCompileTests.ComplexComplement | src/rules.rs:717-721 | `true AND x==1 AND true or true AND x!=1 AND true` prints as `true` |
| LegacyCompileTests.Reordered | src/rules.rs:723-727 | `x==1 AND y==2 OR y==2 AND x==1` prints as `x == 1 AND y == 2` |
| LegacyCompileTests.SubsetAfterTwoSpaces | src/rules.rs:729-735 | a narrower disjunct is absorbed: the rule prints as `x == 1 AND y == 2 AND z == 3` |
| LegacyCompileTests.SubsetWidened | src/rules.rs:736-742 | a fourth statement on a new field widens the kept disjunct to `x == 1 AND y == 2 AND z == 3 AND v == 4` |
| LegacyCompileTests.SubsetConflict | src/rules.rs:743-749 | with `x==2` as the fourth statement that disjunct is false and the rule prints as `x == 1 AND y == 2 AND z == 3` |
| LegacyCompileTests.RejectedAfterHeader | src/rules.rs:622-644 | with a good header, conditions that do not parse reject the rule with the parse error |
| LegacyCompileTests.EmptyBody | src/rules.rs:622-638 | nothing after `WHEN` is no conditions |
| LegacyCompileTests.BareFieldBody | src/rules.rs:177-190 | a field name with no operator is no conditions |
| LegacyCompileTests.UnquotedValueBody | src/rules.rs:153-186 | a value that is no number, boolean or quoted string is no conditions |
| LegacyCompileTests.QuotedStartBody | src/rules.rs:177-190 | conditions cannot start with a quote |
| LegacyCompileTests.StrayQuoteBody | src/rules.rs:143-155 | after the string `1\` a stray quote is left over, so there are no conditions |
| LegacyCompileTests.RejectedEmpty | src/rules.rs:658 | `... WHEN` is rejected |
| LegacyCompileTests.RejectedBareField | src/rules.rs:657 | `... WHEN x` is rejected |
| LegacyCompileTests.RejectedUnquoted | src/rules.rs:654 | `... WHEN x==a` is rejected |
| LegacyCompileTests.RejectedQuotedField | src/rules.rs:655 | `... WHEN "x"==a` is rejected |
| LegacyCompileTests.RejectedQuotedAlone | src/rules.rs:656 | `... WHEN "x"` is rejected |
| LegacyCompileTests.RejectedStrayQuote | src/rules.rs:653 | `... WHEN x=="1\\""` is rejected |
| LegacyCompileTests.RejectedRules | src/rules.rs:653-658 | every rejected input of the test is rejected, for any table and keyword case |
| LegacyCompileTests.UnknownOperationRejected | src/rules.rs:652 | `FOO ...` is rejected |
| LegacyCompiler.LegacyDefault | probe-sys/src/compiler.rs:22-63 | the default record has all operators and the absolute byte unset |
| LegacyCompiler.LegacySetterCases | probe-sys/src/compiler.rs:70-103 | the setters succeed iff the path is known and the value fits; they store only their field |
| LegacyCompiler.LegacyWithNumber | probe-sys/src/compiler.rs:70-81 | on success the user id is the value and the name and absolute flag are unchanged |
| LegacyCompiler.LegacyWithString | probe-sys/src/compiler.rs:83-103 | on success the name keeps its size and the other fields are unchanged |
| LegacyCompiler.LegacyPerform | probe-sys/src/compiler.rs:124-156 | succeeds only on the one legacy table, and keeps the table and operation |
| LegacyCompiler.LegacyNumberOverwrites | probe-sys/src/compiler.rs:72-78 | with no duplicate check, a second `user.id` overwrites the first |
| LegacyCompiler.LegacyStaleTail | probe-sys/src/compiler.rs:90-96 | a shorter second name leaves the first name's tail in place |
| LegacyCompiler.LegacySetNumber | probe-sys/src/compiler.rs:70-81 | returns the `set_number` outcome |
| LegacyCompiler.LegacySetString | probe-sys/src/compiler.rs:83-103 | returns the `set_string` outcome, with the copy loop |
| LegacyCompiler.LegacyWriterCases | probe-sys/src/compiler.rs:214-239 | the same push, reset and strict capacity rules as the current writer |
| LegacyCompiler.LegacyOtherTablesFail | probe-sys/src/compiler.rs:124-156 | only `bprm_check_security` is served; any other table fails on every call |
| LegacyCompiler.LegacyNoTableError | probe-sys/src/compiler.rs:195-240 | the inner writer never fails with the table error |
| LegacyCompiler.LegacyInnerWriter.constructor | probe-sys/src/compiler.rs:185-193 | a new inner writer is empty |
| LegacyCompiler.LegacyInnerWriter.WriteStatement | probe-sys/src/compiler.rs:196-212 | routes the atom to its setter |
| LegacyCompiler.LegacyInnerWriter.StartNewClause | probe-sys/src/compiler.rs:214-226 | updates the writer as `start_new_clause` does |
| LegacyCompiler.LegacyInnerWriter.WriteAbsolute | probe-sys/src/compiler.rs:228-239 | stores a default record with only the absolute byte set |
| LegacyCompiler.LegacyBpfQueryWriter.constructor | probe-sys/src/compiler.rs:112-122 | a writer with one empty inner writer of limit 8 |
| LegacyCompiler.LegacyBpfQueryWriter.WriteStatement | probe-sys/src/compiler.rs:125-137 | dispatches on the one table |
| LegacyCompiler.LegacyBpfQueryWriter.StartNewClause | probe-sys/src/compiler.rs:139-146 | dispatches on the one table |
| LegacyCompiler.LegacyBpfQueryWriter.WriteAbsolute | probe-sys/src/compiler.rs:148-155 | dispatches on the one table |
| LegacyCompiler.LegacyCreate | probe-sys/src/compiler.rs:242-247 | the factory always succeeds with a fresh writer |
| ProbeCommon.ConstantsAgree | libprobe/src/include/probe_common.h:42-52 | the kernel constants equal the userspace ones, `MAX_RULE_SIZE` = writer limit, `MAX_PATH_SIZE` = slot size |
| ProbeCommon.CompareFrom | libprobe/src/include/probe_common.h:25-37 | the comparison returns only 0 or 1 |
| ProbeCommon.Compare | libprobe/src/include/probe_common.h:25-37 | the result is 0 or 1, and 0 for length 0 |
| ProbeCommon.StringEquality | libprobe/src/include/probe_common.h:48 | true exactly when no position below the length differs |
| ProbeCommon.StringInequality | libprobe/src/include/probe_common.h:49 | true exactly when some position below the length differs |
| ProbeCommon.Strncmp | libprobe/src/include/probe_common.h:25-37 | the loop over the two `char *` arguments computes the comparison, reading only inside the buffers |
| ProbeCommon.ReadableWithin | probe-sys/src/include/probe_common.h:18-32 | buffers of at least `len` bytes are always safe to compare |
| ProbeCommon.CompareFromMeaning | libprobe/src/include/probe_common.h:28-36 | from an equal prefix, 1 iff a later index below `len` differs before a common nul |
| ProbeCommon.CompareMeaning | libprobe/src/include/probe_common.h:25-37 | 1 iff some index below `len` differs before a common nul, else 0 |
| ProbeCommon.CompareReflexive | libprobe/src/include/probe_common.h:25-37 | a buffer equals itself |
| ProbeCommon.CompareFromSymmetric | libprobe/src/include/probe_common.h:25-37 | the loop is symmetric from any index |
| ProbeCommon.CompareSymmetric | probe-sys/src/include/probe_common.h:18-32 | the comparison is symmetric |
| ProbeCommon.UntilNulIs | libprobe/src/include/probe_common.h:29-30 | the text of a buffer ends at its first nul |
| ProbeCommon.SamePrefix | libprobe/src/include/probe_common.h:28-34 | with no difference, the bytes before the first nul agree |
| ProbeCommon.DifferenceSeparates | libprobe/src/include/probe_common.h:31-32 | a difference before a common nul means different texts |
| ProbeCommon.NoDifferenceSame | libprobe/src/include/probe_common.h:28-36 | no difference within `len` means the same text within `len` |
| ProbeCommon.CompareIsTextEquality | libprobe/src/include/probe_common.h:25-37 | 0 iff the two nul-terminated texts within `len` are equal |
| ProbeCommon.EqualityMacros | libprobe/src/include/probe_common.h:49-50 | `STRING_INEQUALITY` is the negation of `STRING_EQUALITY`, which is text equality |
| ProbeBpf.AdjustTimestampSeconds | libprobe/src/include/probe_bpf.h:19-21 | whole seconds of the sum, wrapping at 2^64 |
| ProbeBpf.AdjustTimestamp | libprobe/src/include/probe_bpf.h:19-21 | the seconds never exceed the 64-bit range, and are the exact quotient when the sum does not wrap |
| ProbeBpf.LastIndexOf | libprobe/src/include/probe_bpf.h:180-193 | the loop computes the last index of `y` |
| ProbeBpf.LastIndex | libprobe/src/include/probe_bpf.h:180-193 | -1 or an in-range index holding the sought character |
| ProbeBpf.LastSlash | libprobe/src/include/probe_bpf.h:196-198 | an in-range index, the last slash's when there is one |
| ProbeBpf.LastIndexFromMeaning | libprobe/src/include/probe_bpf.h:184-191 | from any index, the result is the last match before the nul and `len` |
| ProbeBpf.LastIndexMeaning | probe-sys/src/include/probe_bpf.h:141-154 | the greatest index below `len` and before the first nul holding `y`, or -1 |
| ProbeBpf.ScannableWithin | libprobe/src/include/probe_bpf.h:184-191 | a buffer of at least `len` bytes is always safe to scan |
| ProbeBpf.LastSlashInRange | libprobe/src/include/probe_bpf.h:196-198 | the size_t remainder is in range; with no slash it is `(2^64-1) % len`, 255 for 256 |
| ProbeBpf.SizeTConversion | libprobe/src/include/probe_bpf.h:196 | -1 converted to size_t is 2^64-1 |
| ProbeBpf.SmallRemainder | libprobe/src/include/probe_bpf.h:196 | a found index is its own remainder |
| ProbeBpf.BasenameMeaning | libprobe/src/include/probe_bpf.h:195-205 | with the last slash at k, copies `y[k+1..len)` over the front of `x`; with no slash and 256 bytes, copies nothing |
| ProbeBpf.DirnameMeaning | libprobe/src/include/probe_bpf.h:207-216 | with the last slash at k, copies `y[..k]`, the slash included; with no slash and 256 bytes, copies all 256 |
| ProbeBpf.Basename | libprobe/src/include/probe_bpf.h:195-205 | the buffer keeps its size and is unchanged from `len` on |
| ProbeBpf.Dirname | libprobe/src/include/probe_bpf.h:207-216 | the buffer keeps its size and is unchanged from `len` on |
| ProbeBpf.SetBasename | probe-sys/src/include/probe_bpf.h:156-166 | the loop leaves `x` as the basename function says |
| ProbeBpf.SetDirname | libprobe/src/include/probe_bpf.h:207-216 | the loop leaves `x` as the dirname function says |

## Left out

- Unicode: `is_alphanumeric` is modelled on ASCII letters and digits, and case folding on ASCII letters. Rust accepts other Unicode letters in string payloads.
- nom internals and error texts: a parse failure is `Backtrack` or `Fatal`, and every error is a `Message` kind rather than its formatted text.
- The lossy UTF-8 decoding in `transform_string` and `convert_string_array`: strings are the byte sequences up to the first nul.
- `repr(C)` layout and padding: a record is a datatype with one operator byte and one value slot per field path, plus the absolute byte.
- Update in place: `InnerBpfQueryWriter` holds `current` by value, so the records are values and the setters return the new record. Aliasing of a record inside a larger buffer is not modelled.
- `QueryStruct::flush` of the records (probe-sys/src/compiler_generated.rs:157-159) is a no-op that no writer calls, so it is not modelled.
- `compiler.rs` has no `flush`, and `Rule::encode` of the rule compiler does not drive it. Its writer is modelled on the three calls it has.
- The probe is a log of applied rules. Its BPF maps, ring buffers, hooks and loading are I/O and are not part of this model.
- `clock_adjustment` is a loader-set global, so it is a parameter of `ProbeBpf.AdjustTimestamp`.
- LegacyEncoding.OrMetaShape: the disjunct count is stated modulo 2^64, as the u64 cast wraps. A clause cannot reach that size.
- LegacyEncoding.EncodedClausesRoundTrip: the read-back is proved only for schemas that name each field once and strings without nul bytes. On other inputs the slot bytes are still specified by `LegacyEncoding.SlotBytes`.
- LegacyExamples.EncodingTestAccepted: states that encoding succeeds and gives the metadata, not the exact slot bytes. The Rust test asserts only `is_ok`.
- LegacyParser.ParseAndClause: states only that a parsed conjunction is well formed. What it returns on written text is stated in `LegacyClauseText`, for text whose string literals hold only ASCII letters, digits, quotes and backslashes. Other literals are not covered. The reading of a written conjunction is `LegacyClauseText.ConjunctionParse`.
- LegacyParser.AndFold: states only that the fold keeps the conjunction well formed. On written text it is `LegacyClauseText.AndFoldText`, with the same literal restriction.
- LegacyParser.ParseOrClause: states only that a parsed disjunction is well formed. On written text it is `LegacyClauseText.DisjunctionParse`, with the same literal restriction.
- LegacyParser.OrFold: states only that the fold keeps the disjunction well formed. On written text it is `LegacyClauseText.OrFoldText`, with the same literal restriction.
- LegacyParser.Compile: states a well-formed rule or the parse error. Compiled rules are stated by `LegacyClauseText.CompileText` and `LegacyClauseText.CompileAgrees`, with the same literal restriction, and rejected rules by `LegacyCompileTests.RejectedRules`.
- LegacyExamples.EncodingTestConjunctions: the rule of the older encoding test (src/rules.rs:754-760) is built from its conjunctions as values, not parsed from its text.
- EncodeExamples.TestOk: stated on the simplified clause of its rule. Its text (src/tests.rs:27) and those of src/tests.rs:13 and 19 put spaces around `==`. The text lemmas of `RuleClauseText` cover statements written without spaces only.
- EncodeExamples.TestErrorTypeMismatch: stated on the simplified clause, for the same reason.
- EncodeExamples.TestErrorRepeated: stated on the simplified clause, for the same reason.
- LegacyEncoding.AndEncoding: the function carries no contract of its own. Its meaning is stated by `LegacyEncoding.AndEncodingCons` and `LegacyEncoding.AndEncodingRoundTrip`.
- `probe-sys/src/traits.rs`, `errors.rs`, the generated serialisers and FFI files, and everything under `src/` except `rules.rs` and `tests.rs` are not part of this model.
