/** Shared value types: optional values, the exceptions the handler distinguishes,
    and the result of an operation that may raise one of them. */
module Common {

  datatype Option<+T> = None | Some(value: T)

  /** Python truthiness of an optional string: None and "" are both false. */
  predicate Truthy(s: Option<string>) {
    s.Some? && s.value != ""
  }

  /** The exceptions that reach stream_handler, grouped as its except clauses see them. */
  datatype Fault =
    | InvalidHash          // bot.helper.exceptions.InvalidHash
    | FileNotFound         // bot.helper.exceptions.FIleNotFound
    | AttributeError
    | BadStatusLine
    | ConnectionResetError
    | ValueError           // e.g. min() of an empty dict, int() of a malformed string
    | KeyError             // e.g. multi_clients[index] with a missing index
    | TypeError            // e.g. int(None) when the id query parameter is missing
    | Other                // any other exception, e.g. from the upstream API

  /** The three exception classes that stream_handler swallows. */
  predicate IsTransient(f: Fault) {
    f.AttributeError? || f.BadStatusLine? || f.ConnectionResetError?
  }

  datatype Result<+T> = Ok(value: T) | Err(fault: Fault)

  function Min(a: int, b: int): int {
    if a <= b then a else b
  }
}
