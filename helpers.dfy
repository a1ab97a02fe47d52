/** The byte constants of the filter records (probe-sys/src/compiler.rs) and
    the small conversions of probe-sys/src/helpers.rs. */
module Helpers {
  import opened Text
  import opened RuleAst

  const UNSET_OPERATOR: byte := 0
  const EQUAL_OPERATOR: byte := 1
  const NOT_EQUAL_OPERATOR: byte := 2

  const UNSET_ABSOLUTE: byte := 0
  const TRUE_ABSOLUTE: byte := 1
  const FALSE_ABSOLUTE: byte := 2

  /** `operator_to_constant`: an operator is never stored as "unset", and the
      two operators are told apart. */
  function OperatorToConstant(op: Operator): (r: byte)
    ensures r != UNSET_OPERATOR
    ensures r == EQUAL_OPERATOR <==> op == Equal
    ensures r == NOT_EQUAL_OPERATOR <==> op == NotEqual
  {
    match op
    case Equal => EQUAL_OPERATOR
    case NotEqual => NOT_EQUAL_OPERATOR
  }

  /** `absolute_to_constant`: a constant clause is never stored as "unset". */
  function AbsoluteToConstant(value: bool): (r: byte)
    ensures r != UNSET_ABSOLUTE
    ensures r == TRUE_ABSOLUTE <==> value
    ensures r == FALSE_ABSOLUTE <==> !value
  {
    if value then TRUE_ABSOLUTE else FALSE_ABSOLUTE
  }

  /** The C string held in a `c_char` buffer: everything before the first nul,
      or the whole buffer when it holds none. */
  function UntilNul(buf: seq<byte>): (r: seq<byte>)
    ensures |r| <= |buf| && r == buf[..|r|]
    ensures forall i | 0 <= i < |r| :: r[i] != 0
    ensures |r| < |buf| ==> buf[|r|] == 0
  {
    if buf == [] || buf[0] == 0 then [] else [buf[0]] + UntilNul(buf[1..])
  }

  /** `convert_string_array`: the loop over `0..size` stops at once when `size`
      is not below the array length, and otherwise reads the first `size`
      buffers. */
  method ConvertStringArray(size: u64, arr: seq<seq<byte>>) returns (strings: seq<seq<byte>>)
    ensures size >= |arr| ==> strings == []
    ensures size < |arr| ==> |strings| == size
    ensures size < |arr| ==> forall i | 0 <= i < size :: strings[i] == UntilNul(arr[i])
  {
    var maxLength := |arr|;
    strings := [];
    var x := 0;
    while x < size
      invariant 0 <= x <= size
      invariant size < maxLength ==> |strings| == x
      invariant size < maxLength ==> forall i | 0 <= i < x :: strings[i] == UntilNul(arr[i])
      invariant size >= maxLength ==> strings == []
    {
      if size >= maxLength {
        break;
      }
      strings := strings + [UntilNul(arr[x])];
      x := x + 1;
    }
  }
}
