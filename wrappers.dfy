/** Shared result types. The Rust code reports every failure as `Err(String)`;
    the model keeps the kind of each message and the values it mentions, not its text. */
module Wrappers {
  datatype Option<T> = None | Some(value: T)

  datatype Message =
    | ParseFailure                          // compile: the nom error, rendered as text
    | InvalidClause                         // AndClause::encode met an expression that is not a statement
    | AlreadyInCondition(path: string)      // a second predicate on the same record field
    | NotU32(path: string)                  // a number that does not fit the u32 field
    | TooLong(path: string, length: nat)    // a string that does not fit its 256-byte field
    | NumberFieldNotFound(path: string)
    | StringFieldNotFound(path: string)
    | TooManyClauses(limit: nat)
    | InvalidTable(table: string)
    | FieldsInvalid                         // Rule::encode when validation fails

  datatype Result<T> = Ok(value: T) | Err(error: Message)
  {
    predicate IsFailure() { Err? }
    function PropagateFailure<U>(): Result<U> requires Err? { Err(error) }
    function Extract(): T requires Ok? { value }
  }
}
