/** The control-flow signals a statement hands back to its enclosing block
    (`ExecutionResult`). */
module Signals {
  import Text

  /** What a statement asks of its enclosing block once it has run. */
  datatype ExecutionResult = None | Break | Exit | Continue
  {
    /** The constant's position in declaration order (`ordinal`). */
    function Ordinal(): (i: nat)
      ensures i < 4
    {
      match this
      case None => 0
      case Break => 1
      case Exit => 2
      case Continue => 3
    }
  }

  /** Every signal, in declaration order. */
  function All(): (all: seq<ExecutionResult>)
    ensures |all| == 4
    ensures forall s: ExecutionResult :: s in all
    ensures forall i, j :: 0 <= i < j < |all| ==> all[i] != all[j]
  {
    var all := [None, Break, Exit, Continue];
    assert forall s: ExecutionResult :: s in all by {
      forall s: ExecutionResult
        ensures s in all
      {
        assert all[s.Ordinal()] == s;
      }
    }
    all
  }



  /** The constant's declared name. */
  function Name(s: ExecutionResult): string
  {
    match s
    case None => "NONE"
    case Break => "BREAK"
    case Exit => "EXIT"
    case Continue => "CONTINUE"
  }

  /** `toString`: the text each constant was declared with. */
  function ToString(s: ExecutionResult): (text: string)
    ensures text == Text.Lower(Name(s))
  {
    match s
    case None => "none"
    case Break => "break"
    case Exit => "exit"
    case Continue => "continue"
  }

  /** Distinct signals render as distinct strings. */
  lemma ToStringInjective(s: ExecutionResult, t: ExecutionResult)
    ensures ToString(s) == ToString(t) <==> s == t
  {
    if s != t {
      assert ToString(s)[0] != ToString(t)[0] || |ToString(s)| != |ToString(t)|;
    }
  }
}
