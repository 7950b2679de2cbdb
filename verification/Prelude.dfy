/** Results of operations that the source lets throw, and the optional values it writes as null or undefined. */
module Outcomes {

  datatype Option<+T> = None | Some(value: T)

  datatype Result<+T> = Ok(value: T) | Err(fault: string) {
    predicate IsFailure() {
      Err?
    }

    function PropagateFailure<U>(): Result<U>
      requires Err?
    {
      Err(fault)
    }

    function Extract(): T
      requires Ok?
    {
      value
    }
  }

  function OrElse<T>(option: Option<T>, default: T): T {
    if option.Some? then option.value else default
  }
}
