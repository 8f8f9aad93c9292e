/** The closed set of values a binding can hold, and the error and result
    types every stage of the formatter returns. */
module Values {

  datatype Option<+T> = None | Some(value: T) {
    function GetOr(default: T): T {
      match this
      case Some(v) => v
      case None => default
    }
  }

  /** Every way a call can fail. In strict mode any of these aborts the call;
      with error suppression the directive that raised it renders nothing. */
  datatype Error =
    | InvalidSource                           // a binding source that is no map, struct or pointer to one
    | NonStringKeys                           // a map source whose keys are not strings
    | NilValue                                // a binding whose value is nil
    | UnsupportedValue                        // a binding whose value has no text form (a map, a struct)
    | IndexOutOfRange(index: nat, length: nat)  // a precision selector past the end of a list
    | StrategyFailed                          // a custom key-not-found hook reported an error
    | PrintFailed                             // a custom value printer reported an error

  datatype Result<+T> = Ok(value: T) | Err(error: Error) {
    predicate IsFailure() { Err? }

    function PropagateFailure<U>(): Result<U>
      requires Err?
    {
      Err(error)
    }

    function Extract(): T
      requires Ok?
    {
      value
    }
  }

  /** A bound value, after the runtime inspection that classifies its kind:
      a pointer is followed to its target, a function is represented by the
      results its invocation returned. */
  datatype Value =
    | Str(s: string)
    | Int(i: int)
    | Uint(n: nat)
    | Bool(b: bool)
    | Rune(c: char)
    | Ptr(target: Value)
    | List(items: seq<Value>)
    | Func(results: seq<Value>)
    | Nil
    | Unsupported
}
