/** Faults raised while a program runs, and what a statement body can throw. */
module Faults {

  /** Language-level runtime faults (`RuntimePascalException` and its kinds). */
  datatype Fault =
    | StackOverflow(line: int)                  // the call/line depth passed its maximum
    | ScriptTerminated(line: int)               // a stop was requested from outside
    | InternalInterpreter(line: int)            // an operator the evaluator does not handle
    | Unhandled(line: int, cause: Exception)    // any foreign exception, wrapped

  /** Anything a statement body can throw: a language fault, a host exception
      (a `java.lang.Exception`, identified by its class name), or a host
      error (a `java.lang.Error` such as `OutOfMemoryError`, which handlers
      of exceptions do not catch). */
  datatype Exception =
    | PascalException(fault: Fault)
    | HostException(className: string)
    | HostError(className: string)
}
