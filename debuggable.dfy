/** The wrapper every debuggable statement runs through
    (`DebuggableExecutable.execute`): optional line notification, stack-depth
    accounting, the cooperative stop check, and fault translation around the
    statement's own body. */
module Debuggable {
  import opened Wrappers
  import opened Faults
  import Signals

  /** The calls the wrapper makes on the runtime context, in the order made. */
  datatype Event =
    | LineNotified(line: int)     // the debug listener's `onLine`
    | StackPushed(line: int)      // `incStack`
    | ControlChecked(line: int)   // `scriptControlCheck`
    | StackPopped                 // `decStack`

  /** The part of the running program the wrapper talks to
      (`RuntimeExecutable`): the debug flag, the depth counter and its
      maximum, the externally set stop flag, and a log of the calls made. */
  class Runtime {
    var debugMode: bool
    var maxStackDepth: nat
    var stopRequested: bool
    var depth: nat
    var events: seq<Event>

    constructor (debugMode: bool, maxStackDepth: nat)
      ensures this.debugMode == debugMode && this.maxStackDepth == maxStackDepth
      ensures !stopRequested && depth == 0 && events == []
    {
      this.debugMode := debugMode;
      this.maxStackDepth := maxStackDepth;
      stopRequested := false;
      depth := 0;
      events := [];
    }

    /** The debug listener is told which line is about to run. */
    method OnLine(line: int)
      modifies this
      ensures events == old(events) + [LineNotified(line)]
      ensures debugMode == old(debugMode) && maxStackDepth == old(maxStackDepth)
      ensures stopRequested == old(stopRequested) && depth == old(depth)
    {
      events := events + [LineNotified(line)];
    }

    /** Counts one more level; past the maximum this is a stack overflow at
        `line` (the count stays raised). */
    method IncStack(line: int) returns (fault: Option<Fault>)
      modifies this
      ensures depth == old(depth) + 1
      ensures fault == (if depth > maxStackDepth then Some(StackOverflow(line)) else None)
      ensures events == old(events) + [StackPushed(line)]
      ensures debugMode == old(debugMode) && maxStackDepth == old(maxStackDepth)
      ensures stopRequested == old(stopRequested)
    {
      depth := depth + 1;
      events := events + [StackPushed(line)];
      fault := if depth > maxStackDepth then Some(StackOverflow(line)) else None;
    }

    /** Fails with a termination fault at `line` once a stop was requested. */
    method ScriptControlCheck(line: int) returns (fault: Option<Fault>)
      modifies this
      ensures fault == (if stopRequested then Some(ScriptTerminated(line)) else None)
      ensures events == old(events) + [ControlChecked(line)]
      ensures debugMode == old(debugMode) && maxStackDepth == old(maxStackDepth)
      ensures stopRequested == old(stopRequested) && depth == old(depth)
    {
      events := events + [ControlChecked(line)];
      fault := if stopRequested then Some(ScriptTerminated(line)) else None;
    }

    /** Counts one level less. */
    method DecStack()
      requires depth > 0
      modifies this
      ensures depth == old(depth) - 1
      ensures events == old(events) + [StackPopped]
      ensures debugMode == old(debugMode) && maxStackDepth == old(maxStackDepth)
      ensures stopRequested == old(stopRequested)
    {
      depth := depth - 1;
      events := events + [StackPopped];
    }
  }

  /** What reaches the caller when something inside the wrapper throws: a
      language fault as it is, a host exception wrapped as an unhandled
      fault with the statement's line and the original cause, and a host
      error (not an exception, so not caught) as it is. */
  function Translate(e: Exception, line: int): (t: Exception)
    ensures e.PascalException? ==> t == e
    ensures e.HostException? ==> t == PascalException(Unhandled(line, e))
    ensures e.HostError? ==> t == e
    ensures !t.HostException?
  {
    match e
    case PascalException(_) => e
    case HostException(_) => PascalException(Unhandled(line, e))
    case HostError(_) => e
  }

  /** The statement's result as the wrapper hands it on once the body has run. */
  function Complete(body: Result<Signals.ExecutionResult, Exception>, line: int)
    : (r: Result<Signals.ExecutionResult, Exception>)
    ensures body.Success? <==> r.Success?
    ensures body.Success? ==> r.value == body.value
    ensures body.Failure? ==> r.error == Translate(body.error, line)
  {
    match body
    case Success(s) => Success(s)
    case Failure(e) => Failure(Translate(e, line))
  }

  /** What one wrapper throws passes through any enclosing wrapper
      unchanged, so a fault keeps the line of the innermost statement. */
  lemma NestedKeepsInnermost(body: Result<Signals.ExecutionResult, Exception>, inner: int, outer: int)
    ensures Complete(Complete(body, inner), outer) == Complete(body, inner)
  {
  }

  /** Everything one execution produces when a runtime context is present. */
  datatype Outcome = Outcome(
    result: Result<Signals.ExecutionResult, Exception>,
    events: seq<Event>,   // the calls made on the runtime
    depth: nat,           // the depth counter afterwards
    bodyRan: bool)        // whether `executeImpl` was entered

  /** The outcome of running a statement at `line` whose body, if entered,
      produces `body`, given the runtime's state before the call. */
  function Expected(debugMode: bool, maxStackDepth: nat, stopRequested: bool, depth: nat,
                    line: int, body: Result<Signals.ExecutionResult, Exception>): (o: Outcome)
    // the listener is told first, and only in debug mode
    ensures debugMode <==> |o.events| > 0 && o.events[0] == LineNotified(line)
    ensures forall i :: 0 < i < |o.events| ==> !o.events[i].LineNotified?
    // the body is entered exactly when neither check fails
    ensures o.bodyRan <==> depth + 1 <= maxStackDepth && !stopRequested
    ensures o.bodyRan ==> o.result == Complete(body, line)
    ensures depth + 1 > maxStackDepth ==> o.result == Failure(PascalException(StackOverflow(line)))
    ensures depth + 1 <= maxStackDepth && stopRequested ==> o.result == Failure(PascalException(ScriptTerminated(line)))
    // the depth comes back only when the statement completes normally
    ensures o.result.Success? ==> o.depth == depth
    ensures o.result.Failure? ==> o.depth == depth + 1
    // the stack is always counted, and a failed check is the last call made
    ensures StackPushed(line) in o.events
    ensures !o.bodyRan ==> |o.events| > 0 && o.events[|o.events| - 1] in {StackPushed(line), ControlChecked(line)}
  {
    var notified := if debugMode then [LineNotified(line)] else [];
    var pushed := notified + [StackPushed(line)];
    var checked := pushed + [ControlChecked(line)];
    if depth + 1 > maxStackDepth then
      Outcome(Failure(PascalException(StackOverflow(line))), pushed, depth + 1, false)
    else if stopRequested then
      Outcome(Failure(PascalException(ScriptTerminated(line))), checked, depth + 1, false)
    else
      match body
      case Success(s) => Outcome(Success(s), checked + [StackPopped], depth, true)
      case Failure(e) => Outcome(Failure(Translate(e, line)), checked, depth + 1, true)
  }

  /** `execute`: runs the statement at `line`, whose body, once entered,
      produces `body`. With no runtime context only the body runs. */
  method Execute(line: int, main: Runtime?, body: Result<Signals.ExecutionResult, Exception>)
    returns (r: Result<Signals.ExecutionResult, Exception>, bodyRan: bool)
    modifies main
    ensures main == null ==> r == Complete(body, line) && bodyRan
    ensures main != null ==>
      var o := Expected(old(main.debugMode), old(main.maxStackDepth), old(main.stopRequested),
                        old(main.depth), line, body);
      r == o.result && bodyRan == o.bodyRan && main.depth == o.depth &&
      main.events == old(main.events) + o.events
    ensures main != null ==>
      main.debugMode == old(main.debugMode) && main.maxStackDepth == old(main.maxStackDepth) &&
      main.stopRequested == old(main.stopRequested)
  {
    if main != null {
      if main.debugMode {
        main.OnLine(line);
      }
      var overflow := main.IncStack(line);
      if overflow.Some? {
        return Failure(PascalException(overflow.value)), false;
      }
      var stop := main.ScriptControlCheck(line);
      if stop.Some? {
        return Failure(PascalException(stop.value)), false;
      }
    }
    bodyRan := true;
    match body
    case Success(s) =>
      if main != null {
        main.DecStack();
      }
      r := Success(s);
    case Failure(e) =>
      r := Failure(Translate(e, line));
  }
}
