/** The abstract syntax of a rule in the rule compiler (rule-compiler/src/lib.rs)
    and the way each piece is printed by its `Display` implementation. */
module RuleAst {
  import opened Text

  datatype Operation = Reject | Filter
  {
    function Display(): string
    {
      match this
      case Reject => "REJECT"
      case Filter => "FILTER"
    }
  }

  datatype Operator = Equal | NotEqual
  {
    function Display(): string
    {
      match this
      case Equal => "=="
      case NotEqual => "!="
    }
  }

  datatype Atom = String(text: string) | Number(number: u64)
  {
    /** Strings are printed with Rust's `{:?}`, numbers in decimal. */
    function Display(): string
    {
      match this
      case String(s) => DebugQuoted(s)
      case Number(n) => DecimalText(n)
    }
  }

  datatype Expression = Boolean(b: bool) | Statement(field: string, operator: Operator, atom: Atom)
  {
    function Display(): string
    {
      match this
      case Boolean(b) => if b then "true" else "false"
      case Statement(f, op, a) => f + " " + op.Display() + " " + a.Display()
    }
  }
}
