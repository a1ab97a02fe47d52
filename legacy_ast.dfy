/** The abstract syntax of a rule in the older in-tree compiler
    (src/rules.rs). Its operations and operators are those of the rule
    compiler; its atoms also take the booleans, and a constant expression
    holds an atom. */
module LegacyAst {
  import opened Text
  import Helpers
  import RuleAst

  type Operation = RuleAst.Operation
  type Operator = RuleAst.Operator

  datatype Atom = String(text: string) | Number(number: u64) | Boolean(b: bool)
  {
    /** Strings with Rust's `{:?}`, numbers in decimal, booleans as words. */
    function Display(): string
    {
      match this
      case String(s) => DebugQuoted(s)
      case Number(n) => DecimalText(n)
      case Boolean(b) => if b then "true" else "false"
    }
  }

  datatype Expression = Constant(atom: Atom) | Statement(field: string, operator: Operator, atom: Atom)
  {
    function Display(): string
    {
      match this
      case Constant(a) => a.Display()
      case Statement(f, op, a) => f + " " + op.Display() + " " + a.Display()
    }
  }

  /** `Operation::as_byte`: the two operations get distinct, non-zero bytes. */
  function OperationByte(op: Operation): (r: byte)
    ensures r == 1 <==> op == RuleAst.Reject
    ensures r == 2 <==> op == RuleAst.Filter
  {
    match op
    case Reject => 1
    case Filter => 2
  }

  /** `Operator::as_byte`: the same bytes the filter records use for the
      operators, so never the "no operation" byte 0. */
  function OperatorByte(op: Operator): (r: byte)
    ensures r == Helpers.OperatorToConstant(op)
    ensures r != 0
  {
    match op
    case Equal => 1
    case NotEqual => 2
  }
}
