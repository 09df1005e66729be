# Type and execution kernel of a Pascal interpreter

This project models, in Dafny, the kernel of the PascalNIDE interpreter
(gottdammer/pascalnide) and proves properties of that model. The kernel covers:

- **Array types** (`ArrayType`): assignability (`superset`), exact equality,
  conversion to a copying node, default construction of a fixed-size array,
  and element access offset by the lower bound.
- **Host-native types** (`JavaClassBasedType`): an `equals` under which
  `Object` equals every type, and a small fixed table of implicit conversions
  (copy, pass-through, String boxing of StringBuilder and Character values).
- **Class types** (`PascalClassType`): the constructor table, constructor
  overload resolution (`generateConstructor`), header lookup, member-type
  lookup, field declaration, and the fixed rules of a class type (equality by
  declaration, the null default, identity cloning, no indexing).
- **The 64-bit unary operator** (`LongUniOperatorEval`): unary plus and
  minus on Java `long` with two's-complement wrap-around, and compile-time
  folding.
- **The statement wrapper** (`DebuggableExecutable.execute`): the optional
  debug-line notification, stack-depth accounting, the cooperative stop check,
  and the translation of what the body throws.
- **Control-flow signals** (`ExecutionResult`) and the **conversion
  diagnostic** (`UnConvertibleTypeException`).

Layout, one module per file:

- `wrappers.dfy` holds `Option` and `Result`.
- `text.dfy` holds lower-casing.
- `types.dfy` holds the type descriptors and their `equals`.
- `values.dfy` holds runtime values, the 64-bit `Long`, expression nodes and default values.
- `faults.dfy` holds runtime faults.
- `array_type.dfy`, `host_type.dfy`, `class_type.dfy`, `long_unary.dfy`,
  `debuggable.dfy`, `signals.dfy` and `unconvertible.dfy` hold the kernel itself.

Collaborators whose code is not part of this model are parameters of the operations that use them:

- the per-candidate `generatePerfectFitCall` / `generateCall`
- `headerMatches`
- `compileTimeValue` and the operand's own folding
- the textual renderings of nodes and types
- the outcome of a statement's body (`executeImpl`)

The runtime context the wrapper talks to (`RuntimeExecutable`) is a class
holding the debug flag, the depth and its maximum, the stop flag, and a log of
the calls made on it.

How the wrapper behaves, as the code has it:
- **Order of the wrapper's steps.** The listener is notified first (`libCompiler/src/main/java/com/duy/pascal/backend/debugable/DebuggableExecutable.java:17-19`), then the depth is
  counted (line 20), then the stop flag is checked (line 21). `Debuggable.Expected` proves that order.
- **Depth after a failing body.** The decrement (lines 24-26) runs only when the body returns normally.
  When the body or the stop check throws, it is skipped, so the depth stays one higher.
- **Depth after an overflow.** `RuntimeExecutable.incStack` is not part of this model. The model assumes
  that it raises the depth first and then fails, so after an overflow the depth is also one higher.
- **What is wrapped.** Only exceptions are caught (lines 28-31). A host `Error` thrown by the body, such
  as running out of memory, leaves the wrapper unchanged and without the statement's line.

## Model

| member | source | states |
|---|---|---|
| Types.Equals | app/src/main/java/com/duy/pascal/backend/pascaltypes/ArrayType.java:53-67 | `equals` dispatched on the receiver (array, host and class rules); apart from the Object host type it never relates descriptors of different kinds, and equal arrays have the same bounds |
| Values.Initial | app/src/main/java/com/duy/pascal/backend/pascaltypes/ArrayType.java:78-85 | the default value of each type: an array of `bounds.size` element defaults, a host instance, the null sentinel for a class type |
| Types.EqualsReflexive | app/src/main/java/com/duy/pascal/backend/pascaltypes/ArrayType.java:53-67 | every descriptor equals itself, so the `this == obj` short-circuit never changes an answer |
| Types.EqualsTransitive | app/src/main/java/com/duy/pascal/backend/pascaltypes/ArrayType.java:58-64 | `equals` chains across all kinds, including through array element types and the Object host type |
| Types.EqualsNotSymmetric | app/src/main/java/com/duy/pascal/backend/pascaltypes/JavaClassBasedType.java:69-73 | Object equals String but String does not equal Object |
| Types.ObjectEqualsEverything | app/src/main/java/com/duy/pascal/backend/pascaltypes/JavaClassBasedType.java:70-72 | the Object host type equals every descriptor |
| Types.HostEqualsIdenticalClass | app/src/main/java/com/duy/pascal/backend/pascaltypes/JavaClassBasedType.java:70-72 | a non-Object host type equals exactly the host type of the identical class |
| Types.ClassEqualsIsDeclarationIdentity | libCompiler/src/main/java/com/duy/pascal/backend/types/PascalClassType.java:154-162 | a class type equals exactly the class type of the same declaration; between class types the relation is symmetric |
| ArrayTypes.Superset | app/src/main/java/com/duy/pascal/backend/pascaltypes/ArrayType.java:38-51 | an accepted type is an array with no more slots than this one, every index of which is an index of this one |
| ArrayTypes.SupersetReflexive | app/src/main/java/com/duy/pascal/backend/pascaltypes/ArrayType.java:38-51 | every array type accepts itself |
| ArrayTypes.SupersetIffContainedBounds | app/src/main/java/com/duy/pascal/backend/pascaltypes/ArrayType.java:42-50 | `t` accepts `o` iff `o` is an array with an equal element type and `t.lower <= o.lower`, `o.upper <= t.upper`; never a non-array |
| ArrayTypes.SupersetTransitive | app/src/main/java/com/duy/pascal/backend/pascaltypes/ArrayType.java:42-50 | acceptance chains |
| ArrayTypes.EqualsImpliesSuperset | app/src/main/java/com/duy/pascal/backend/pascaltypes/ArrayType.java:38-67 | equal array types accept each other |
| ArrayTypes.SupersetWeakerThanEquals | app/src/main/java/com/duy/pascal/backend/pascaltypes/ArrayType.java:38-67 | `[1..10]` accepts `[2..5]` of the same element type without equalling it: equality needs equal bounds, not containment |
| ArrayTypes.SupersetScenario | app/src/main/java/com/duy/pascal/backend/pascaltypes/ArrayType.java:42-50 | `[1..10] of Integer` accepts `[2..5] of Integer`; it rejects `[1..10] of Double` |
| ArrayTypes.SupersetElementReceiverOrder | app/src/main/java/com/duy/pascal/backend/pascaltypes/ArrayType.java:44 | element types are compared with the accepted array's element as receiver: `[1..3] of Integer` accepts `[1..3]` of Object elements, not the reverse |
| ArrayTypes.CloneValue | app/src/main/java/com/duy/pascal/backend/pascaltypes/ArrayType.java:123-126 | the copy node wraps exactly the given value and keeps its line |
| ArrayTypes.Convert | app/src/main/java/com/duy/pascal/backend/pascaltypes/ArrayType.java:116-121 | a conversion exists iff `superset` holds for the value's type, and it is then the copy of the value at the value's line |
| ArrayTypes.ConvertOwnType | app/src/main/java/com/duy/pascal/backend/pascaltypes/ArrayType.java:116-121 | a value of the array type itself always converts (to its copy); a non-array value never does |
| ArrayTypes.ArrayAccessNode | app/src/main/java/com/duy/pascal/backend/pascaltypes/ArrayType.java:129-133 | the access node keeps the base and index, its offset is the lower bound, and every index in range maps into `[0, size)` |
| ArrayTypes.AccessHitsInitializedSlot | app/src/main/java/com/duy/pascal/backend/pascaltypes/ArrayType.java:78-85 | an in-range index, after the offset, hits a slot of the initialized array that holds the element default |
| ArrayTypes.Initialize | app/src/main/java/com/duy/pascal/backend/pascaltypes/ArrayType.java:78-85 | a fresh array of `bounds.size` slots, every slot the element type's default, equal to the value model's default for the type |
| HostTypes.CloneValue | app/src/main/java/com/duy/pascal/backend/pascaltypes/JavaClassBasedType.java:76-79 | the copy goes through the object's clone hook, around exactly the given value |
| HostTypes.Convert | app/src/main/java/com/duy/pascal/backend/pascaltypes/JavaClassBasedType.java:39-67 | a conversion exists iff the value's type is basic or host and the target `equals` it, or the target is String and the value is StringBuilder or Character; lines are kept |
| HostTypes.ObjectAcceptsBasicAndHost | app/src/main/java/com/duy/pascal/backend/pascaltypes/JavaClassBasedType.java:43-64 | Object takes a basic value as a copy and a host value as it is |
| HostTypes.StringBoxing | app/src/main/java/com/duy/pascal/backend/pascaltypes/JavaClassBasedType.java:47-54 | StringBuilder to String is one boxer; Character to String is a boxer around a character boxer |
| HostTypes.SameClassPassesThrough | app/src/main/java/com/duy/pascal/backend/pascaltypes/JavaClassBasedType.java:56-64 | a host value converts to its own class unchanged, without a copy |
| HostTypes.ConversionIsOneWay | app/src/main/java/com/duy/pascal/backend/pascaltypes/JavaClassBasedType.java:56-66 | String converts to Object; Object does not convert to String |
| HostTypes.NoOtherConversions | app/src/main/java/com/duy/pascal/backend/pascaltypes/JavaClassBasedType.java:42-66 | arrays, class types and other basic kinds have no conversion (null) |
| HostTypes.ArrayAccessNode | app/src/main/java/com/duy/pascal/backend/pascaltypes/JavaClassBasedType.java:81-85 | a host type yields no access node |
| Text.Lower | libCompiler/src/main/java/com/duy/pascal/backend/types/PascalClassType.java:56 | lower-casing keeps the length and lower-cases each character (ASCII letters) |
| ClassTypes.PascalClassType.constructor | libCompiler/src/main/java/com/duy/pascal/backend/types/PascalClassType.java:38-47 | a new class type's table holds exactly the default constructor |
| ClassTypes.PascalClassType.AddConstructor | libCompiler/src/main/java/com/duy/pascal/backend/types/PascalClassType.java:114-116 | the constructor is appended to the overloads under its name; nothing else changes |
| ClassTypes.Lookup | libCompiler/src/main/java/com/duy/pascal/backend/types/PascalClassType.java:56 | the overloads stored under a name; a name never added holds none (an empty list, not an error) |
| ClassTypes.FirstPerfectFit | libCompiler/src/main/java/com/duy/pascal/backend/types/PascalClassType.java:65-71 | the position of the first candidate, in list order, with a perfect-fit call, all earlier ones having none |
| ClassTypes.Compatible | libCompiler/src/main/java/com/duy/pascal/backend/types/PascalClassType.java:72-80 | positions of candidates, before the stop, for which a call with conversions exists |
| ClassTypes.CompatibleComplete | libCompiler/src/main/java/com/duy/pascal/backend/types/PascalClassType.java:72-80 | `Compatible` lists every compatible candidate before the stop |
| ClassTypes.CompatibleIncreasing | libCompiler/src/main/java/com/duy/pascal/backend/types/PascalClassType.java:65-80 | `Compatible` lists candidates in scan order |
| ClassTypes.StepwiseIsCompatible | libCompiler/src/main/java/com/duy/pascal/backend/types/PascalClassType.java:65-84 | the loop's `chosen`, `ambiguous` and first call after `i` steps are the last, second-to-last and first compatible candidates |
| ClassTypes.MatchingIsSomeTakes | libCompiler/src/main/java/com/duy/pascal/backend/types/PascalClassType.java:81-83 | the `matching` flag is set iff some scanned candidate takes as many arguments as given |
| ClassTypes.ScanIsResolution | libCompiler/src/main/java/com/duy/pascal/backend/types/PascalClassType.java:86-101 | the scan's final `chosen`, `ambiguous`, call and `matching` decide the outcome exactly as the declarative resolution does |
| ClassTypes.NoCallIffNoCandidate | libCompiler/src/main/java/com/duy/pascal/backend/types/PascalClassType.java:65-86 | the scan ends with no call exactly when no candidate builds a perfect-fit or compatible call |
| ClassTypes.Resolution | libCompiler/src/main/java/com/duy/pascal/backend/types/PascalClassType.java:53-102 | a returned call is one some candidate built; the call is bad exactly when no candidate builds any call; an ambiguity names two of the candidates |
| ClassTypes.PascalClassType.GenerateConstructor | libCompiler/src/main/java/com/duy/pascal/backend/types/PascalClassType.java:53-102 | the loop's result equals the declarative resolution over the overloads under the lower-cased name |
| ClassTypes.PerfectFitWins | libCompiler/src/main/java/com/duy/pascal/backend/types/PascalClassType.java:65-71 | with no compatible candidate before it, the first perfect fit's call is returned |
| ClassTypes.SoleCompatibleWins | libCompiler/src/main/java/com/duy/pascal/backend/types/PascalClassType.java:72-80 | with no perfect fit and a single compatible candidate, its call is returned |
| ClassTypes.AmbiguityOutlivesPerfectFit | libCompiler/src/main/java/com/duy/pascal/backend/types/PascalClassType.java:61-77 | two compatible candidates before a perfect fit still make the call ambiguous, naming the perfect fit |
| ClassTypes.AmbiguityNamesLastTwo | libCompiler/src/main/java/com/duy/pascal/backend/types/PascalClassType.java:73-98 | without a perfect fit, the ambiguity names the last and second-to-last compatible candidates |
| ClassTypes.NoCallIsBadCall | libCompiler/src/main/java/com/duy/pascal/backend/types/PascalClassType.java:86-96 | with no call built, the error says whether candidates exist and whether one takes as many arguments, and lists arguments and candidates |
| ClassTypes.ExactMatchDeclaredLaterWins | libCompiler/src/main/java/com/duy/pascal/backend/types/PascalClassType.java:65-71 | an exact overload declared after a compatible one is chosen |
| ClassTypes.PascalClassType.GetConstructor | libCompiler/src/main/java/com/duy/pascal/backend/types/PascalClassType.java:104-112 | the first overload under the name whose header matches, or none when none matches |
| ClassTypes.MemberType | libCompiler/src/main/java/com/duy/pascal/backend/types/PascalClassType.java:190-201 | a field's type, else a constant's type, else none exactly when neither exists |
| ClassTypes.PascalClassType.GetMemberType | libCompiler/src/main/java/com/duy/pascal/backend/types/PascalClassType.java:190-201 | looks up the class's own fields and constants as `MemberType` states |
| ClassTypes.DeclaredNames | libCompiler/src/main/java/com/duy/pascal/backend/types/PascalClassType.java:209-221 | declaring fields adds exactly their names to the scope |
| ClassTypes.DeclaredLastWins | libCompiler/src/main/java/com/duy/pascal/backend/types/PascalClassType.java:209-221 | each declared name gets the type of its last declaration |
| ClassTypes.DeclaredKeepsOthers | libCompiler/src/main/java/com/duy/pascal/backend/types/PascalClassType.java:209-221 | a name not declared keeps the type it had |
| ClassTypes.PascalClassType.AddFields | libCompiler/src/main/java/com/duy/pascal/backend/types/PascalClassType.java:209-221 | the scope becomes the old scope with the fields declared in order; constructors and constants are unchanged |
| ClassTypes.PascalClassType.ClassEquals | libCompiler/src/main/java/com/duy/pascal/backend/types/PascalClassType.java:154-162 | equal exactly to the class type of the same declaration |
| ClassTypes.PascalClassType.Convert | libCompiler/src/main/java/com/duy/pascal/backend/types/PascalClassType.java:144-152 | a conversion exists iff the value's type is this class type, and it is the value itself |
| ClassTypes.PascalClassType.Initialize | libCompiler/src/main/java/com/duy/pascal/backend/types/PascalClassType.java:132-136 | the default is the null sentinel, the value model's default for a class type |
| ClassTypes.PascalClassType.CloneValue | libCompiler/src/main/java/com/duy/pascal/backend/types/PascalClassType.java:164-168 | cloning returns the node itself |
| ClassTypes.PascalClassType.ArrayAccessNode | libCompiler/src/main/java/com/duy/pascal/backend/types/PascalClassType.java:170-174 | indexing always fails with a non-array-indexed error naming this type and its declaration's line |
| LongUnary.Wrap | app/src/main/java/com/js/interpreter/ast/returnsvalue/operators/LongUniOperatorEval.java:33-34 | the result is a 64-bit value congruent to the input modulo 2^64 |
| LongUnary.Negate | app/src/main/java/com/js/interpreter/ast/returnsvalue/operators/LongUniOperatorEval.java:33-34 | negation is exact except at the minimum, which negates to itself |
| LongUnary.NegateInvolutive | app/src/main/java/com/js/interpreter/ast/returnsvalue/operators/LongUniOperatorEval.java:33-34 | negating twice gives the value back, the minimum included |
| LongUnary.Operate | app/src/main/java/com/js/interpreter/ast/returnsvalue/operators/LongUniOperatorEval.java:28-38 | plus returns the operand; minus negates with wrap-around; any other operator is an internal-interpreter fault at the node's line |
| LongUnary.MinusTwiceIsIdentity | app/src/main/java/com/js/interpreter/ast/returnsvalue/operators/LongUniOperatorEval.java:33-34 | applying minus twice is the identity |
| LongUnary.ResultType | app/src/main/java/com/js/interpreter/ast/returnsvalue/operators/LongUniOperatorEval.java:23-26 | the result type is a non-writable Long whatever the operand |
| LongUnary.Fold | app/src/main/java/com/js/interpreter/ast/returnsvalue/operators/LongUniOperatorEval.java:40-49 | with a compile-time value, a constant of that value; otherwise a node with the same operator around the folded operand; the line is kept |
| LongUnary.FoldIdempotentWhenRebuilt | app/src/main/java/com/js/interpreter/ast/returnsvalue/operators/LongUniOperatorEval.java:40-49 | for a node with no compile-time value, when the operand's folding is idempotent and the rebuilt node has no compile-time value either, folding again changes nothing |
| Debuggable.Runtime.OnLine | libCompiler/src/main/java/com/duy/pascal/backend/debugable/DebuggableExecutable.java:17-19 | the listener is told the line; nothing else changes |
| Debuggable.Runtime.IncStack | libCompiler/src/main/java/com/duy/pascal/backend/debugable/DebuggableExecutable.java:20 | the depth goes up by one and is a stack overflow at the line once past the maximum |
| Debuggable.Runtime.ScriptControlCheck | libCompiler/src/main/java/com/duy/pascal/backend/debugable/DebuggableExecutable.java:21 | a termination fault at the line once a stop was requested |
| Debuggable.Runtime.DecStack | libCompiler/src/main/java/com/duy/pascal/backend/debugable/DebuggableExecutable.java:24-26 | the depth goes down by one |
| Debuggable.Translate | libCompiler/src/main/java/com/duy/pascal/backend/debugable/DebuggableExecutable.java:28-31 | a language fault passes through unchanged; a host exception is wrapped as unhandled with the statement's line and the cause; a host error is not caught and passes through unchanged |
| Debuggable.Complete | libCompiler/src/main/java/com/duy/pascal/backend/debugable/DebuggableExecutable.java:23-31 | the body's signal is returned unchanged; what it throws is translated, so no host exception leaves the wrapper |
| Debuggable.NestedKeepsInnermost | libCompiler/src/main/java/com/duy/pascal/backend/debugable/DebuggableExecutable.java:28-29 | what one wrapper throws passes through an enclosing wrapper unchanged, keeping the innermost line |
| Debuggable.Expected | libCompiler/src/main/java/com/duy/pascal/backend/debugable/DebuggableExecutable.java:15-31 | notification comes first and only in debug mode; the body runs iff neither check fails; the depth comes back only on normal completion |
| Debuggable.Execute | libCompiler/src/main/java/com/duy/pascal/backend/debugable/DebuggableExecutable.java:12-33 | the result, the body running, the new depth and the calls made are those `Expected` gives; with no runtime only the body runs |
| Signals.All | libCompiler/src/main/java/com/js/interpreter/instructions/ExecutionResult.java:4 | there are exactly four signals, all distinct |
| Signals.ToString | libCompiler/src/main/java/com/js/interpreter/instructions/ExecutionResult.java:4-14 | each signal's text is the lower-casing of its constant's name |
| Signals.ToStringInjective | libCompiler/src/main/java/com/js/interpreter/instructions/ExecutionResult.java:4 | distinct signals render as distinct texts |
| Unconvertible.FromValue | libCompiler/src/main/java/com/duy/pascal/backend/exceptions/convert/UnConvertibleTypeException.kt:51-61 | records the value, both types and no identifier; the line is the value's; the message is the conversion text |
| Unconvertible.FromIdentifier | libCompiler/src/main/java/com/duy/pascal/backend/exceptions/convert/UnConvertibleTypeException.kt:66-79 | records the identifier and takes its type as the target; the line is the value's; the message is the first form's followed by the identifier |
| Unconvertible.TailJoin | libCompiler/src/main/java/com/duy/pascal/backend/exceptions/convert/UnConvertibleTypeException.kt:70-72 | the second message, split where its text is split, equals the first message followed by the identifier part |
| Unconvertible.IsAutoFix | libCompiler/src/main/java/com/duy/pascal/backend/exceptions/convert/UnConvertibleTypeException.kt:81-84 | fixable iff the value or the identifier is a variable or a named constant |
| Unconvertible.FromValueAutoFix | libCompiler/src/main/java/com/duy/pascal/backend/exceptions/convert/UnConvertibleTypeException.kt:43-84 | in the first form the fix depends on the value alone |
| Unconvertible.FormsAgree | libCompiler/src/main/java/com/duy/pascal/backend/exceptions/convert/UnConvertibleTypeException.kt:51-79 | the two forms differ only in the identifier and in the message's tail, the first message being a prefix of the second |

## Left out

- Reflection is left out, because it is a foreign call: `getTransferClass` and `getStorageClass` (JVM class names via `Class.forName`), and `JavaClassBasedType.initialize` (`newInstance`). The model's default host value stands for the instance.
- `ArrayType.hashCode` and `toString` are left out: they are JVM details. Renderings of nodes and types are parameters.
- `BasicType` is not part of this model. Its `equals` is taken to be "same kind".
- `SubrangeType` is not part of this model. It is a pair of inclusive bounds, size `upper - lower + 1` (0 when inverted), containment by inclusion, and equality of both bounds.
- The candidates' `generatePerfectFitCall` / `generateCall`, `headerMatches` and `compileTimeValue` are not part of this model. They are parameters.
- The texts of the error arguments are kept as data, not rendered: `argsType` holds the argument types and `listFunctions` the candidate list.
- Text.Lower: lower-cases ASCII letters only. Java's `toLowerCase` is locale- and Unicode-aware.
- ClassTypes.PascalClassType.AddFields: a repeated name replaces the earlier declaration. The class scope's duplicate-declaration handling is not part of this model.
- The runtime context (`RuntimeExecutable`) is not part of this model. The overflow test "new depth exceeds the maximum" and the stop flag are assumptions about it.
- The debug listener's pause/resume rendezvous, the ended flag and all threading are left out; they are concurrency.
- LongUnary.FoldIdempotentWhenRebuilt: assumes the rebuilt node has no compile-time value, because `compileTimeValue` is not part of this model and nothing ties it to the operand's folding; the case where folding yields a constant is not covered.
- Debuggable.Execute: the body's effect on the runtime and on variables is not modelled. The body is its outcome only.
- Debuggable.Execute: the listener's `onLine` is taken never to throw.
- Unconvertible.FromValue: the `context` field (the expression context) is not recorded, since nothing in the core reads it.
- Values.Initial: a nested array's default is modelled as a value, not as a separately allocated array.
- The Android activities, the media facade, file output, the parameter annotation and the non-array diagnostic are outside the kernel.
