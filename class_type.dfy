/** Class types declared in a program (`PascalClassType`): their constructor
    table, constructor overload resolution, and the fixed type rules of a
    class type. */
module ClassTypes {
  import opened Wrappers
  import opened Types
  import opened Values
  import Text

  /** A constructor declaration: its (table) name, an identity, and its
      parameter types. */
  datatype Constructor = Constructor(name: string, id: nat, argumentTypes: seq<DeclaredType>)

  /** A constructor call node built for one candidate. */
  datatype Call = ConstructorCall(target: Constructor, line: int, arguments: seq<ValueNode>)

  /** Why a constructor call could not be resolved. */
  datatype ResolveError =
    | BadFunctionCall(line: int, name: string, functionExists: bool, numArgumentsMatch: bool,
                      argumentTypes: seq<DeclaredType>, candidates: seq<Constructor>)
    | AmbiguousFunctionCall(line: int, chosen: Constructor, ambiguous: Constructor)

  /** Why a class type cannot be used as written. */
  datatype TypeError = NonArrayIndexed(line: int, indexedType: DeclaredType)

  /** The candidates stored under `key` (an absent key holds none). */
  function Lookup(table: map<string, seq<Constructor>>, key: string): (list: seq<Constructor>)
    ensures key !in table ==> list == []
    ensures key in table ==> list == table[key]
  {
    if key in table then table[key] else []
  }

  /** Position of the first candidate for which a call can be built without
      any conversion (a perfect fit), or `|candidates|` when there is none. */
  function FirstPerfectFit(candidates: seq<Constructor>, perfectFit: Constructor -> Option<Call>): (k: nat)
    ensures k <= |candidates|
    ensures k < |candidates| ==> perfectFit(candidates[k]).Some?
    ensures forall j :: 0 <= j < k ==> perfectFit(candidates[j]).None?
  {
    if candidates == [] then 0
    else if perfectFit(candidates[0]).Some? then 0
    else 1 + FirstPerfectFit(candidates[1..], perfectFit)
  }

  /** Positions, in increasing order, of the candidates before `upto` for
      which a call can be built with conversions. */
  function Compatible(candidates: seq<Constructor>, fit: Constructor -> Option<Call>, upto: nat): (ix: seq<nat>)
    requires upto <= |candidates|
    ensures forall p :: 0 <= p < |ix| ==> ix[p] < upto && fit(candidates[ix[p]]).Some?
  {
    if upto == 0 then []
    else Compatible(candidates, fit, upto - 1) + (if fit(candidates[upto - 1]).Some? then [upto - 1] else [])
  }

  /** Whether the positions in `ix` strictly increase. */
  predicate Increasing(ix: seq<nat>)
  {
    forall a, b :: 0 <= a < b < |ix| ==> ix[a] < ix[b]
  }

  /** `Compatible` lists every compatible candidate below `upto`. */
  lemma {:induction false} CompatibleComplete(candidates: seq<Constructor>, fit: Constructor -> Option<Call>, upto: nat)
    requires upto <= |candidates|
    ensures forall j :: 0 <= j < upto && fit(candidates[j]).Some? ==> j in Compatible(candidates, fit, upto)
  {
    if upto > 0 {
      CompatibleComplete(candidates, fit, upto - 1);
      var prev := Compatible(candidates, fit, upto - 1);
      assert Compatible(candidates, fit, upto) == prev + (if fit(candidates[upto - 1]).Some? then [upto - 1] else []);
    }
  }

  /** `Compatible` lists its positions in increasing order. */
  lemma {:induction false} CompatibleIncreasing(candidates: seq<Constructor>, fit: Constructor -> Option<Call>, upto: nat)
    requires upto <= |candidates|
    ensures Increasing(Compatible(candidates, fit, upto))
  {
    if upto > 0 {
      CompatibleIncreasing(candidates, fit, upto - 1);
      var prev := Compatible(candidates, fit, upto - 1);
      var ix := Compatible(candidates, fit, upto);
      assert ix == prev + (if fit(candidates[upto - 1]).Some? then [upto - 1] else []);
      forall a, b | 0 <= a < b < |ix|
        ensures ix[a] < ix[b]
      {
        if b < |prev| {
          assert ix[a] == prev[a] && ix[b] == prev[b];
        } else {
          assert ix[a] == prev[a] && ix[b] == upto - 1;
        }
      }
    }
  }

  /** The candidate at the position `back` places from the end of `ix`, if any. */
  function FromEnd(candidates: seq<Constructor>, ix: seq<nat>, back: nat): Option<Constructor>
    requires forall p :: 0 <= p < |ix| ==> ix[p] < |candidates|
  {
    if back < |ix| then Some(candidates[ix[|ix| - 1 - back]]) else None
  }

  /** Whether some candidate takes exactly `count` arguments. */
  predicate SomeTakes(candidates: seq<Constructor>, count: nat)
  {
    exists j :: 0 <= j < |candidates| && |candidates[j].argumentTypes| == count
  }

  /** The scan's variables after the first `i` candidates, none of them a
      perfect fit: `chosen` is the last compatible candidate, `ambiguous`
      the one `chosen` held before it, the call is the first one built, and
      `matching` records whether one took as many arguments as given. */
  function ChosenAfter(candidates: seq<Constructor>, fit: Constructor -> Option<Call>, i: nat): Option<Constructor>
    requires i <= |candidates|
  {
    if i == 0 then None
    else if fit(candidates[i - 1]).Some? then Some(candidates[i - 1])
    else ChosenAfter(candidates, fit, i - 1)
  }

  function AmbiguousAfter(candidates: seq<Constructor>, fit: Constructor -> Option<Call>, i: nat): (r: Option<Constructor>)
    requires i <= |candidates|
    ensures r.Some? ==> ChosenAfter(candidates, fit, i).Some?
  {
    if i == 0 then None
    else if fit(candidates[i - 1]).Some? then ChosenAfter(candidates, fit, i - 1)
    else AmbiguousAfter(candidates, fit, i - 1)
  }

  function FirstCallAfter(candidates: seq<Constructor>, fit: Constructor -> Option<Call>, i: nat): Option<Call>
    requires i <= |candidates|
  {
    if i == 0 then None
    else if FirstCallAfter(candidates, fit, i - 1).Some? then FirstCallAfter(candidates, fit, i - 1)
    else fit(candidates[i - 1])
  }

  function MatchingAfter(candidates: seq<Constructor>, count: nat, i: nat): bool
    requires i <= |candidates|
  {
    i > 0 && (MatchingAfter(candidates, count, i - 1) || |candidates[i - 1].argumentTypes| == count)
  }

  /** The scan's variables agree with the positions `Compatible` lists. */
  lemma {:induction false} StepwiseIsCompatible(candidates: seq<Constructor>, fit: Constructor -> Option<Call>, i: nat)
    requires i <= |candidates|
    ensures ChosenAfter(candidates, fit, i) == FromEnd(candidates, Compatible(candidates, fit, i), 0)
    ensures AmbiguousAfter(candidates, fit, i) == FromEnd(candidates, Compatible(candidates, fit, i), 1)
    ensures var ix := Compatible(candidates, fit, i);
            FirstCallAfter(candidates, fit, i) == if |ix| > 0 then fit(candidates[ix[0]]) else None
  {
    if i > 0 {
      StepwiseIsCompatible(candidates, fit, i - 1);
      var prev := Compatible(candidates, fit, i - 1);
      var ix := Compatible(candidates, fit, i);
      if fit(candidates[i - 1]).Some? {
        assert ix == prev + [i - 1];
        assert |prev| > 0 ==> ix[0] == prev[0];
        assert |prev| > 0 ==> ix[|ix| - 2] == prev[|prev| - 1];
      } else {
        assert ix == prev;
      }
    }
  }

  /** After the whole list, `matching` says whether some candidate takes `count` arguments. */
  lemma {:induction false} MatchingIsSomeTakes(candidates: seq<Constructor>, count: nat, i: nat)
    requires i <= |candidates|
    ensures MatchingAfter(candidates, count, i) <==>
            exists j :: 0 <= j < i && |candidates[j].argumentTypes| == count
  {
    if i > 0 {
      MatchingIsSomeTakes(candidates, count, i - 1);
    }
  }

  /** The scan ends without a perfect fit and without a compatible
      candidate exactly when no candidate builds any call. */
  lemma NoCallIffNoCandidate(candidates: seq<Constructor>, perfectFit: Constructor -> Option<Call>,
                             fit: Constructor -> Option<Call>)
    ensures var k := FirstPerfectFit(candidates, perfectFit);
            k == |candidates| && Compatible(candidates, fit, k) == [] <==>
            forall j :: 0 <= j < |candidates| ==> perfectFit(candidates[j]).None? && fit(candidates[j]).None?
  {
    var k := FirstPerfectFit(candidates, perfectFit);
    var ix := Compatible(candidates, fit, k);
    if forall j :: 0 <= j < |candidates| ==> perfectFit(candidates[j]).None? && fit(candidates[j]).None? {
      assert k == |candidates|;
      assert |ix| > 0 ==> fit(candidates[ix[0]]).Some?;
    } else {
      var j :| 0 <= j < |candidates| && (perfectFit(candidates[j]).Some? || fit(candidates[j]).Some?);
      if k == |candidates| {
        CompatibleComplete(candidates, fit, k);
        assert j in ix;
      }
    }
  }

  /** What resolving a constructor call against the ordered `candidates`
      yields, stated over the whole list rather than step by step:
      - the scan stops at the first perfect fit; the candidates before it that
        are compatible (by conversion) are counted;
      - the call returned is the perfect fit's if there is one, otherwise the
        one built from the FIRST compatible candidate;
      - with no call at all, a bad-call error says whether any candidate
        exists and whether any takes as many arguments as given;
      - with two or more compatible candidates before the stop, an ambiguity
        error names the candidate chosen last (the perfect fit, or else the
        last compatible one) and the second-to-last compatible one. */
  function Resolution(candidates: seq<Constructor>, name: string, line: int, argumentTypes: seq<DeclaredType>,
                      perfectFit: Constructor -> Option<Call>, fit: Constructor -> Option<Call>)
    : (r: Result<Call, ResolveError>)
    // a returned call is one that some candidate built
    ensures r.Success? ==> exists j :: 0 <= j < |candidates| &&
                                       (perfectFit(candidates[j]) == Some(r.value) || fit(candidates[j]) == Some(r.value))
    // the call is bad exactly when no candidate builds any call
    ensures r.Failure? && r.error.BadFunctionCall? <==>
            forall j :: 0 <= j < |candidates| ==> perfectFit(candidates[j]).None? && fit(candidates[j]).None?
    // an ambiguity names two candidates, the one chosen last and the one it displaced
    ensures r.Failure? && r.error.AmbiguousFunctionCall? ==>
            r.error.chosen in candidates && r.error.ambiguous in candidates
  {
    var k := FirstPerfectFit(candidates, perfectFit);
    var ix := Compatible(candidates, fit, k);
    NoCallIffNoCandidate(candidates, perfectFit, fit);
    var call := if k < |candidates| then perfectFit(candidates[k])
                else if |ix| > 0 then fit(candidates[ix[0]])
                else None;
    if call.None? then
      Failure(BadFunctionCall(line, name, |candidates| > 0, SomeTakes(candidates, |argumentTypes|),
                              argumentTypes, candidates))
    else if |ix| >= 2 then
      var chosen := if k < |candidates| then candidates[k] else FromEnd(candidates, ix, 0).value;
      Failure(AmbiguousFunctionCall(line, chosen, FromEnd(candidates, ix, 1).value))
    else
      Success(call.value)
  }

  /** The scan's final state decides the call as `Resolution` does: the scan
      stopped at `i`, on a perfect fit when `i` is inside the list. */
  lemma ScanIsResolution(candidates: seq<Constructor>, name: string, line: int, argumentTypes: seq<DeclaredType>,
                         perfectFit: Constructor -> Option<Call>, fit: Constructor -> Option<Call>, i: nat)
    requires i <= |candidates|
    requires forall j :: 0 <= j < i ==> perfectFit(candidates[j]).None?
    requires i < |candidates| ==> perfectFit(candidates[i]).Some?
    ensures var chosen := if i < |candidates| then Some(candidates[i]) else ChosenAfter(candidates, fit, i);
            var call := if i < |candidates| then perfectFit(candidates[i]) else FirstCallAfter(candidates, fit, i);
            var ambiguous := AmbiguousAfter(candidates, fit, i);
            Resolution(candidates, name, line, argumentTypes, perfectFit, fit) ==
              if call.None? then
                Failure(BadFunctionCall(line, name, |candidates| > 0, MatchingAfter(candidates, |argumentTypes|, i),
                                        argumentTypes, candidates))
              else if ambiguous.Some? then Failure(AmbiguousFunctionCall(line, chosen.value, ambiguous.value))
              else Success(call.value)
  {
    StepwiseIsCompatible(candidates, fit, i);
    MatchingIsSomeTakes(candidates, |argumentTypes|, i);
    assert FirstPerfectFit(candidates, perfectFit) == i;
  }

  /** Candidates without a compatible call add nothing to `Compatible`. */
  lemma {:induction false} CompatibleSkips(candidates: seq<Constructor>, fit: Constructor -> Option<Call>, a: nat, b: nat)
    requires a <= b <= |candidates|
    requires forall m :: a <= m < b ==> fit(candidates[m]).None?
    ensures Compatible(candidates, fit, b) == Compatible(candidates, fit, a)
    decreases b - a
  {
    if a < b {
      CompatibleSkips(candidates, fit, a, b - 1);
    }
  }

  /** A perfect fit preceded by at most one compatible candidate is the
      resolved call, whatever follows it in the list. */
  lemma PerfectFitWins(candidates: seq<Constructor>, name: string, line: int, argumentTypes: seq<DeclaredType>,
                       perfectFit: Constructor -> Option<Call>, fit: Constructor -> Option<Call>, k: nat)
    requires k < |candidates| && perfectFit(candidates[k]).Some?
    requires forall j :: 0 <= j < k ==> perfectFit(candidates[j]).None?
    requires forall i, j :: 0 <= i < j < k ==> fit(candidates[i]).None? || fit(candidates[j]).None?
    ensures Resolution(candidates, name, line, argumentTypes, perfectFit, fit) == Success(perfectFit(candidates[k]).value)
  {
    assert FirstPerfectFit(candidates, perfectFit) == k;
    if i :| 0 <= i < k && fit(candidates[i]).Some? {
      CompatibleSkips(candidates, fit, 0, i);
      CompatibleSkips(candidates, fit, i + 1, k);
      assert Compatible(candidates, fit, k) == [i];
    } else {
      CompatibleSkips(candidates, fit, 0, k);
    }
  }

  /** Without any perfect fit, a single compatible candidate gives its call. */
  lemma SoleCompatibleWins(candidates: seq<Constructor>, name: string, line: int, argumentTypes: seq<DeclaredType>,
                           perfectFit: Constructor -> Option<Call>, fit: Constructor -> Option<Call>, k: nat)
    requires forall j :: 0 <= j < |candidates| ==> perfectFit(candidates[j]).None?
    requires k < |candidates| && fit(candidates[k]).Some?
    requires forall j :: 0 <= j < |candidates| && j != k ==> fit(candidates[j]).None?
    ensures Resolution(candidates, name, line, argumentTypes, perfectFit, fit) == Success(fit(candidates[k]).value)
  {
    assert FirstPerfectFit(candidates, perfectFit) == |candidates|;
    CompatibleSkips(candidates, fit, 0, k);
    assert Compatible(candidates, fit, k + 1) == [k];
    CompatibleSkips(candidates, fit, k + 1, |candidates|);
  }

  /** Two compatible candidates ahead of a perfect fit still make the call
      ambiguous: the ambiguity, once recorded, is never cleared. */
  lemma AmbiguityOutlivesPerfectFit(candidates: seq<Constructor>, name: string, line: int, argumentTypes: seq<DeclaredType>,
                                    perfectFit: Constructor -> Option<Call>, fit: Constructor -> Option<Call>, i: nat, j: nat, k: nat)
    requires i < j < k < |candidates|
    requires forall m :: 0 <= m < k ==> perfectFit(candidates[m]).None?
    requires fit(candidates[i]).Some? && fit(candidates[j]).Some?
    requires perfectFit(candidates[k]).Some?
    ensures Resolution(candidates, name, line, argumentTypes, perfectFit, fit).Failure?
    ensures Resolution(candidates, name, line, argumentTypes, perfectFit, fit).error.AmbiguousFunctionCall?
    ensures Resolution(candidates, name, line, argumentTypes, perfectFit, fit).error.chosen == candidates[k]
  {
    var ix := Compatible(candidates, fit, k);
    assert FirstPerfectFit(candidates, perfectFit) == k;
    CompatibleComplete(candidates, fit, k);
    assert i in ix && j in ix;
    var p :| 0 <= p < |ix| && ix[p] == i;
    var q :| 0 <= q < |ix| && ix[q] == j;
    assert p != q;
  }

  /** With no perfect fit, two or more compatible candidates fail with an
      ambiguity naming the last two of them, the later one as `chosen`. */
  lemma AmbiguityNamesLastTwo(candidates: seq<Constructor>, name: string, line: int, argumentTypes: seq<DeclaredType>,
                              perfectFit: Constructor -> Option<Call>, fit: Constructor -> Option<Call>, i: nat, j: nat)
    requires i < j < |candidates|
    requires forall m :: 0 <= m < |candidates| ==> perfectFit(candidates[m]).None?
    requires fit(candidates[i]).Some? && fit(candidates[j]).Some?
    requires forall m :: i < m < j ==> fit(candidates[m]).None?
    requires forall m :: j < m < |candidates| ==> fit(candidates[m]).None?
    ensures Resolution(candidates, name, line, argumentTypes, perfectFit, fit)
            == Failure(AmbiguousFunctionCall(line, candidates[j], candidates[i]))
  {
    var ix := Compatible(candidates, fit, |candidates|);
    assert |ix| >= 2 && ix[|ix| - 1] == j && ix[|ix| - 2] == i by {
      CompatibleSkips(candidates, fit, i + 1, j);
      CompatibleSkips(candidates, fit, j + 1, |candidates|);
      var before := Compatible(candidates, fit, i);
      assert Compatible(candidates, fit, i + 1) == before + [i];
      assert ix == before + [i] + [j];
    }
    assert FirstPerfectFit(candidates, perfectFit) == |candidates|;
    assert FromEnd(candidates, ix, 0) == Some(candidates[j]);
    assert FromEnd(candidates, ix, 1) == Some(candidates[i]);
  }

  /** When no call can be built, the failure reports whether any candidate
      exists and whether any takes as many arguments as were given. */
  lemma NoCallIsBadCall(candidates: seq<Constructor>, name: string, line: int, argumentTypes: seq<DeclaredType>,
                        perfectFit: Constructor -> Option<Call>, fit: Constructor -> Option<Call>)
    requires forall m :: 0 <= m < |candidates| ==> perfectFit(candidates[m]).None? && fit(candidates[m]).None?
    ensures Resolution(candidates, name, line, argumentTypes, perfectFit, fit)
            == Failure(BadFunctionCall(line, name, candidates != [], SomeTakes(candidates, |argumentTypes|),
                                       argumentTypes, candidates))
  {
    CompatibleSkips(candidates, fit, 0, |candidates|);
  }

  /** `f(x: Real)` declared before `f(x: Integer)`, called with an Integer
      argument: the exact match is chosen although it comes second. */
  lemma ExactMatchDeclaredLaterWins(realOverload: Constructor, integerOverload: Constructor, line: int,
                                    perfectFit: Constructor -> Option<Call>, fit: Constructor -> Option<Call>)
    requires perfectFit(realOverload).None? && fit(realOverload).Some?
    requires perfectFit(integerOverload).Some?
    ensures Resolution([realOverload, integerOverload], "f", line, [Basic(Integer)], perfectFit, fit)
            == Success(perfectFit(integerOverload).value)
  {
    PerfectFitWins([realOverload, integerOverload], "f", line, [Basic(Integer)], perfectFit, fit, 1);
  }

  /** Member lookup order of a class scope: a field shadows a constant of the
      same name; an unknown name has no type (null). */
  function MemberType(variables: map<string, DeclaredType>, constants: map<string, DeclaredType>,
                      name: string): (r: Option<DeclaredType>)
    ensures name in variables ==> r == Some(variables[name])
    ensures name !in variables && name in constants ==> r == Some(constants[name])
    ensures r.None? <==> name !in variables && name !in constants
  {
    if name in variables then Some(variables[name])
    else if name in constants then Some(constants[name])
    else None
  }

  /** The scope `vars` after declaring `fields` one after the other; a later
      declaration of a name replaces an earlier one. */
  function Declared(vars: map<string, DeclaredType>, fields: seq<(string, DeclaredType)>): map<string, DeclaredType>
  {
    if fields == [] then vars
    else
      var last := fields[|fields| - 1];
      Declared(vars, fields[..|fields| - 1])[last.0 := last.1]
  }

  /** Declaring fields adds exactly their names to the scope. */
  lemma {:induction false} DeclaredNames(vars: map<string, DeclaredType>, fields: seq<(string, DeclaredType)>)
    ensures forall n :: n in Declared(vars, fields) <==> n in vars || exists j :: 0 <= j < |fields| && fields[j].0 == n
  {
    if fields != [] {
      var init := fields[..|fields| - 1];
      DeclaredNames(vars, init);
      assert forall j :: 0 <= j < |init| ==> init[j] == fields[j];
    }
  }

  /** Each declared name ends up with the type of its last declaration. */
  lemma {:induction false} DeclaredLastWins(vars: map<string, DeclaredType>, fields: seq<(string, DeclaredType)>, j: nat)
    requires j < |fields|
    requires forall k :: j < k < |fields| ==> fields[k].0 != fields[j].0
    ensures fields[j].0 in Declared(vars, fields) && Declared(vars, fields)[fields[j].0] == fields[j].1
  {
    if j < |fields| - 1 {
      var init := fields[..|fields| - 1];
      assert init[j] == fields[j];
      DeclaredLastWins(vars, init, j);
    }
  }

  /** Names not declared keep the type they had. */
  lemma {:induction false} DeclaredKeepsOthers(vars: map<string, DeclaredType>, fields: seq<(string, DeclaredType)>, n: string)
    requires n in vars
    requires forall j :: 0 <= j < |fields| ==> fields[j].0 != n
    ensures n in Declared(vars, fields) && Declared(vars, fields)[n] == vars[n]
  {
    if fields != [] {
      var init := fields[..|fields| - 1];
      assert forall j :: 0 <= j < |init| ==> init[j] == fields[j];
      DeclaredKeepsOthers(vars, init, n);
    }
  }

  class PascalClassType {
    /** Identity of the class declaration this type stands for. */
    const declaration: nat
    /** Source line of the declaration, reported by indexing errors. */
    const line: int
    /** Constructors by name, each name holding its overloads in declaration order. */
    var constructors: map<string, seq<Constructor>>
    /** Field and constant types of the class scope. */
    var variables: map<string, DeclaredType>
    var constants: map<string, DeclaredType>

    /** A new class type, whose table already holds the default constructor. */
    constructor (declaration: nat, line: int, defaultConstructor: Constructor)
      ensures this.declaration == declaration && this.line == line
      ensures constructors == map[defaultConstructor.name := [defaultConstructor]]
      ensures variables == map[] && constants == map[]
    {
      this.declaration := declaration;
      this.line := line;
      constructors := map[defaultConstructor.name := [defaultConstructor]];
      variables := map[];
      constants := map[];
    }

    /** The descriptor of this type. */
    function Descriptor(): DeclaredType
    {
      PascalClass(declaration)
    }

    /** `addConstructor`: appends `c` to the overloads stored under its name. */
    method AddConstructor(c: Constructor)
      modifies this
      ensures constructors == old(constructors)[c.name := Lookup(old(constructors), c.name) + [c]]
      ensures variables == old(variables) && constants == old(constants)
    {
      constructors := constructors[c.name := Lookup(constructors, c.name) + [c]];
    }

    /** `addPrivateField` / `addPublicFields`: declares each field, in order,
        in the class scope. */
    method AddFields(fields: seq<(string, DeclaredType)>)
      modifies this
      ensures variables == Declared(old(variables), fields)
      ensures constructors == old(constructors) && constants == old(constants)
    {
      for i := 0 to |fields|
        invariant variables == Declared(old(variables), fields[..i])
        invariant constructors == old(constructors) && constants == old(constants)
      {
        assert fields[..i + 1][..i] == fields[..i];
        variables := variables[fields[i].0 := fields[i].1];
      }
      assert fields[..|fields|] == fields;
    }

    /** `generateConstructor`: resolves a constructor call named `name` with
        arguments of the given static types against the overloads stored
        under the lower-cased name, scanning them in declaration order. A
        perfect fit stops the scan; otherwise every compatible candidate
        moves `chosen`, pushing the previous one into `ambiguous`, while the
        call of the first compatible candidate is kept. */
    method GenerateConstructor(name: string, line: int, argumentTypes: seq<DeclaredType>,
                               perfectFit: Constructor -> Option<Call>, fit: Constructor -> Option<Call>)
      returns (r: Result<Call, ResolveError>)
      ensures r == Resolution(Lookup(constructors, Text.Lower(name)), name, line, argumentTypes, perfectFit, fit)
    {
      var candidates := Lookup(constructors, Text.Lower(name));
      var matching := false;
      var chosen: Option<Constructor> := None;
      var ambiguous: Option<Constructor> := None;
      var runtimeValue: Option<Call> := None;
      var i := 0;
      while i < |candidates|
        invariant i <= |candidates|
        invariant forall j :: 0 <= j < i ==> perfectFit(candidates[j]).None?
        invariant chosen == ChosenAfter(candidates, fit, i)
        invariant ambiguous == AmbiguousAfter(candidates, fit, i)
        invariant runtimeValue == FirstCallAfter(candidates, fit, i)
        invariant matching == MatchingAfter(candidates, |argumentTypes|, i)
      {
        var c := candidates[i];
        var result := perfectFit(c);
        if result.Some? {
          chosen := Some(c);
          runtimeValue := result;
          break;
        }
        result := fit(c);
        if result.Some? {
          if chosen.Some? {
            ambiguous := chosen;
          }
          chosen := Some(c);
          if runtimeValue.None? {
            runtimeValue := result;
          }
        }
        if |c.argumentTypes| == |argumentTypes| {
          matching := true;
        }
        i := i + 1;
      }
      assert chosen == (if i < |candidates| then Some(candidates[i]) else ChosenAfter(candidates, fit, i));
      assert runtimeValue == (if i < |candidates| then perfectFit(candidates[i]) else FirstCallAfter(candidates, fit, i));
      ScanIsResolution(candidates, name, line, argumentTypes, perfectFit, fit, i);
      if runtimeValue.None? {
        r := Failure(BadFunctionCall(line, name, |candidates| > 0, matching, argumentTypes, candidates));
      } else if ambiguous.Some? {
        r := Failure(AmbiguousFunctionCall(line, chosen.value, ambiguous.value));
      } else {
        r := Success(runtimeValue.value);
      }
    }

    /** `getConstructor`: the first overload stored under `other`'s name
        whose header matches `other`, or none. */
    method GetConstructor(other: Constructor, headerMatches: (Constructor, Constructor) -> bool)
      returns (r: Option<Constructor>)
      ensures var list := Lookup(constructors, other.name);
              match r
              case Some(c) => exists k :: 0 <= k < |list| && list[k] == c && headerMatches(c, other) &&
                                          forall j :: 0 <= j < k ==> !headerMatches(list[j], other)
              case None => forall j :: 0 <= j < |list| ==> !headerMatches(list[j], other)
    {
      var list := Lookup(constructors, other.name);
      for i := 0 to |list|
        invariant forall j :: 0 <= j < i ==> !headerMatches(list[j], other)
      {
        if headerMatches(list[i], other) {
          return Some(list[i]);
        }
      }
      return None;
    }

    /** `getMemberType`: the type of a field or constant of the class scope. */
    function GetMemberType(name: string): (r: Option<DeclaredType>)
      reads this
      ensures r == MemberType(variables, constants, name)
    {
      MemberType(variables, constants, name)
    }

    /** `equals`: the same declaration. */
    predicate ClassEquals(other: DeclaredType)
      ensures ClassEquals(other) <==> other == Descriptor()
    {
      Equals(Descriptor(), other)
    }

    /** `convert`: a value converts to this class type, unchanged, exactly
        when its static type is this class type; otherwise there is no
        conversion. */
    function Convert(value: ValueNode, valueType: DeclaredType): (r: Option<ValueNode>)
      ensures r.Some? <==> valueType == Descriptor()
      ensures r.Some? ==> r.value == value
    {
      if ClassEquals(valueType) then Some(value) else None
    }

    /** `initialize`: a variable of this type starts as the null sentinel. */
    function Initialize(): (v: Val)
      ensures v == NullValue && v == Initial(Descriptor())
    {
      NullValue
    }

    /** `cloneValue`: class values are references; cloning is the identity. */
    function CloneValue(value: ValueNode): (r: ValueNode)
      ensures r == value
    {
      value
    }

    /** `generateArrayAccess`: indexing a value of this type is always an
        error carrying the declaration's line and this type. */
    function ArrayAccessNode(base: ValueNode, index: ValueNode): (r: Result<ValueNode, TypeError>)
      ensures r == Failure(NonArrayIndexed(line, Descriptor()))
    {
      Failure(NonArrayIndexed(line, Descriptor()))
    }
  }
}
