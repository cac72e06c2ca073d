/** How an operation of either tree-walker ends: normally with a value, or
    with one of the exceptions the Java code raises. */
module Outcomes {
  import opened Tokens

  /** The exceptions that escape the core's operations.
      - RuntimeError: simplf's own RuntimeError (operator misuse, division by
        zero, type mismatch); `interpret` catches and reports it.
      - UndefinedSymbol: a failed lookup. The environment reports a
        RuntimeError with this token and message itself and then throws a plain
        RuntimeException, which `interpret`'s handler does not catch.
      - NullPointer, ClassCast, IndexOutOfBounds: the JVM exceptions that the
        code as written raises on the inputs described where they arise.
      - StackOverflow: the JVM's StackOverflowError from unbounded recursion;
        being an Error, it passes every handler.
      - OutOfFuel: the model's stand-in for a loop or recursion that has not
        finished within the step budget it was given. */
  datatype Failure =
    | RuntimeError(token: Token, message: string)
    | UndefinedSymbol(token: Token, message: string)
    | NullPointer
    | ClassCast
    | IndexOutOfBounds
    | StackOverflow
    | OutOfFuel

  datatype Result<T> = Ok(value: T) | Err(failure: Failure)
  {
    predicate IsFailure() {
      Err?
    }

    function PropagateFailure<U>(): Result<U>
      requires Err?
    {
      Err(failure)
    }

    function Extract(): T
      requires Ok?
    {
      value
    }
  }

  /** The diagnostic of a failed lookup: "Undefined Symbol: " followed by the
      text the environment chose to print. */
  function UndefinedSymbolError(name: Token, shown: string): (f: Failure)
    ensures f.UndefinedSymbol? && f.token == name
    ensures |f.message| == 18 + |shown|
    ensures f.message[..18] == "Undefined Symbol: " && f.message[18..] == shown
  {
    UndefinedSymbol(name, "Undefined Symbol: " + shown)
  }

  /** How `interpret` ends: every statement ran, or a RuntimeError was caught
      and reported once, or some other exception escaped its handler. */
  datatype Ending = Completed | Reported(error: Failure) | Escaped(failure: Failure)

  function EndingOf<T>(r: Result<T>): (end: Ending)
    ensures r.Ok? <==> end == Completed
    ensures end.Reported? <==> r.Err? && r.failure.RuntimeError?
    ensures end.Reported? ==> end.error == r.failure
    ensures end.Escaped? ==> end.failure == r.failure
  {
    if r.Ok? then Completed
    else if r.failure.RuntimeError? then Reported(r.failure)
    else Escaped(r.failure)
  }
}
