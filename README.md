# JEXL introspection dispatch, modelled in Dafny

This project models the host-interop dispatch of Apache Commons JEXL's
introspection layer (`Uberspect`), the `DuckSetExecutor` accessor, and the
user-supplied `ArithmeticPlus` / `Var` operator overloads of `ArithmeticTest`.
It proves properties of that model.

- **Resolver chains** (`resolution.dfy`, module `Resolution`).
  `getPropertyGet` and `getPropertySet` are written as the source's early-return chains.
  Every accessor strategy (`PropertyGetExecutor.discover`, `MapGetExecutor.discover`, …) is an oracle: a function from class and key to an optional accessor.
  `castString` and `castInteger` are oracles too.
  Each chain is proved equal to a generic "first success" run over an ordered list of steps.
  Lemmas then state which strategy wins and which strategies are tried at all, for every classification of the identifier.
- **Iteration** (`iteration.dfy`, module `Iteration`).
  `getIterator` picks its source by the structural kind of the object.
  The duck-typed `iterator()` fallback is taken only for an iterator return type, and it swallows exceptions.
- **Operators** (`operators.dfy`, module `Operators`).
  This module holds the operators, their method names and arities.
  It also holds the rule that decides whether a class overloads an operator, as a reference set `OverloadSet`.
- **Uberspect state** (`uberspect.dfy`, module `Introspection`).
  `Uberspect` is a class with four fields:
  - the soft introspector handle `ref`;
  - the loader;
  - `version`;
  - `operatorMap`.

  Its methods are `base()`, `setClassLoader`, `getVersion`, `getMethods`, `getArithmetic` (its nested scanning loops carry invariants) and `ArithmeticUberspect.getOperator`.
  The class invariant `Valid()` says that every cached overload set is the non-empty set a scan would give.
  `ArithmeticUberspect.overloads(op)` is the predicate `ArithmeticUberspect.Overloads`.
- **DuckSetExecutor** (`duckset.dfy`, module `DuckSet`).
  This covers `discover`, `getTargetProperty`, `invoke` and the guarded `tryInvoke`.
  The reflective call is an oracle that either returns or throws.
- **ArithmeticPlus** (`arithmetic_plus.dfy`, module `ArithmeticPlus`, on top of `javaint.dfy`, module `JavaInt`).
  - The `Var` operators are Java 32-bit `int` arithmetic: wrap-around, division truncating toward zero, and bitwise operators on the two's-complement bits, each bit of the result stated outright.
  - `mod(Var, Var)` is modelled as written (it returns the quotient); the remainder it evidently means is modelled beside it (see Findings).
  - String `subtract` removes the first occurrence; string `negate` is a method with the source's descending loop.
  - The registry of `ArithmeticPlus` methods is modelled.
  - Script operators are dispatched on the runtime classes of the operands.
  - The `runOverload` expectations are proved through that dispatch.

Reflection (`Introspector.getMethods`, `MethodExecutor.discover`, `Introspector.getMethod`) is an input to the model: `Reflection`, `MethodFinder` and `Invoker`.

## Model

| member | source | states |
|---|---|---|
| Resolution.FirstSuccessSpec | src/main/java/org/apache/commons/jexl3/internal/introspection/Uberspect.java:216-274 | a chain returns null exactly when every strategy declines; otherwise it returns the result of a strategy before which all declined |
| Resolution.FirstSuccessAt | src/main/java/org/apache/commons/jexl3/internal/introspection/Uberspect.java:216-274 | a strategy that accepts after all earlier ones declined is the chain's result |
| Resolution.FirstSuccessAppend | src/main/java/org/apache/commons/jexl3/internal/introspection/Uberspect.java:216-274 | running two groups of strategies in sequence is running the first, then the second if the first declined |
| Resolution.GetPropertyGet | src/main/java/org/apache/commons/jexl3/internal/introspection/Uberspect.java:216-274 | the early-return get chain equals the first success over the ordered step list (getter, boolean getter, map, list, duck on the identifier, duck on the string, field, indexed property) |
| Resolution.ChainGet | src/main/java/org/apache/commons/jexl3/internal/introspection/Uberspect.java:222-273 | the get step list is the nested "or else" of its gated groups, each guarded as in the source |
| Resolution.GetStepsGating | src/main/java/org/apache/commons/jexl3/internal/introspection/Uberspect.java:223-271 | getter then boolean getter come first when there is a string form; a step is tried iff `GetStepTried` holds: list get iff an integer form, field and indexed get iff a string form and no integer form, duck get on the identifier always and on the string form when present |
| Resolution.DuckGetAttempts | src/main/java/org/apache/commons/jexl3/internal/introspection/Uberspect.java:248-258 | one duck `get` attempt when the identifier has no string form or is its own string form, otherwise exactly two, the identifier's first |
| Resolution.GetterPrecedence | src/main/java/org/apache/commons/jexl3/internal/introspection/Uberspect.java:223-233 | an accepting getter wins over every other strategy; the boolean getter wins only when the getter declined |
| Resolution.GetPropertyGetDeclines | src/main/java/org/apache/commons/jexl3/internal/introspection/Uberspect.java:216-274 | `getPropertyGet` returns null iff every tried strategy declines |
| Resolution.GetPropertySet | src/main/java/org/apache/commons/jexl3/internal/introspection/Uberspect.java:277-325 | the early-return set chain equals the first success over setter, map, list, duck on the identifier, duck on the string, field |
| Resolution.ChainSet | src/main/java/org/apache/commons/jexl3/internal/introspection/Uberspect.java:283-323 | the set step list is the nested "or else" of its gated groups |
| Resolution.SetStepsGating | src/main/java/org/apache/commons/jexl3/internal/introspection/Uberspect.java:283-323 | setter first when there is a string form; a step is tried iff `SetStepTried` holds (list set iff an integer form, field set iff a string form and no integer form); there is no boolean or indexed step |
| Resolution.GetPropertySetDeclines | src/main/java/org/apache/commons/jexl3/internal/introspection/Uberspect.java:277-325 | `getPropertySet` returns null iff every tried strategy declines |
| Iteration.IteratorMethod | src/main/java/org/apache/commons/jexl3/internal/introspection/Uberspect.java:345-358 | the `iterator()` fallback yields an iterator iff the method is found, returns an `Iterator` type, and the call returns non-null |
| Iteration.GetIterator | src/main/java/org/apache/commons/jexl3/internal/introspection/Uberspect.java:329-359 | each structural kind (iterator, array, map, enumeration, iterable) decides iff no earlier kind holds; the method fallback is used iff none holds; with no structural kind the result is exactly the fallback's, the iterator the `iterator()` call returned, and null iff that fails (the map and iterable branches are taken to yield an iterator, see "## Left out") |
| Iteration.ExceptionsYieldNoIterator | src/main/java/org/apache/commons/jexl3/internal/introspection/Uberspect.java:345-358 | an exception from the lookup or the call yields null instead of propagating |
| Operators.OverloadSet | src/main/java/org/apache/commons/jexl3/internal/introspection/Uberspect.java:413-433 | the operators a class overloads are exactly those for which some method of the operator's name has its arity and is not the untyped form; no operator outside the scanned list is left out |
| Operators.OverloadSetMembership | src/main/java/org/apache/commons/jexl3/internal/introspection/Uberspect.java:413-433 | an operator is overloaded iff a method of its name has exactly its arity and a parameter type other than `Object` |
| Operators.RootSignaturesDoNotOverload | src/main/java/org/apache/commons/jexl3/internal/introspection/Uberspect.java:418-432 | methods of the wrong arity or with only `Object` parameters never make an operator overloaded |
| Introspection.IsRootSignature | src/main/java/org/apache/commons/jexl3/internal/introspection/Uberspect.java:422-428 | the loop finds `root` true iff every parameter type is `Object` |
| Introspection.ScanMethods | src/main/java/org/apache/commons/jexl3/internal/introspection/Uberspect.java:416-431 | the loop over a method list finds an overload iff some method has the arity and is not all-`Object` |
| Introspection.ArithmeticUberspect.Overloads | src/main/java/org/apache/commons/jexl3/internal/introspection/Uberspect.java:401-404 | an operator is overloaded iff it is in the set the arithmetic's class was scanned for (which `GetArithmetic` proves is `OverloadSet`) |
| Introspection.Introspector.SetLoader | src/main/java/org/apache/commons/jexl3/internal/introspection/Uberspect.java:112 | the live introspector now resolves through the new loader |
| Introspection.Uberspect.constructor | src/main/java/org/apache/commons/jexl3/internal/introspection/Uberspect.java:75-81 | no introspector, the class's own loader, version 0, empty operator cache |
| Introspection.Uberspect.Reclaim | src/main/java/org/apache/commons/jexl3/internal/introspection/Uberspect.java:60-63 | the collector may clear either soft reference; nothing else changes |
| Introspection.Uberspect.Base | src/main/java/org/apache/commons/jexl3/internal/introspection/Uberspect.java:89-104 | returns the live introspector unchanged; otherwise a fresh one with the current loader, and the version goes up by exactly one |
| Introspection.Uberspect.SetClassLoader | src/main/java/org/apache/commons/jexl3/internal/introspection/Uberspect.java:108-121 | the live introspector (or a fresh one) takes the new loader, the operator cache is cleared, and the version always goes up by one |
| Introspection.Uberspect.GetVersion | src/main/java/org/apache/commons/jexl3/internal/introspection/Uberspect.java:124-126 | returns the current version |
| Introspection.Uberspect.GetMethods | src/main/java/org/apache/commons/jexl3/internal/introspection/Uberspect.java:207-209 | the reflective method table's answer, through `base()` with its version bookkeeping |
| Introspection.Uberspect.ScanOverloads | src/main/java/org/apache/commons/jexl3/internal/introspection/Uberspect.java:412-434 | the nested scan computes exactly `OverloadSet` of the class; the cache is untouched |
| Introspection.Uberspect.ScanStep | src/main/java/org/apache/commons/jexl3/internal/introspection/Uberspect.java:414-433 | scanning one more operator adds it iff the class overloads it |
| Introspection.Uberspect.GetArithmetic | src/main/java/org/apache/commons/jexl3/internal/introspection/Uberspect.java:408-441 | null arithmetic gives null; otherwise a result iff the overload set is non-empty, carrying that set; only non-empty sets are cached; the introspector is consulted only on a cache miss; the cache invariant is kept |
| Introspection.Uberspect.GetOperator | src/main/java/org/apache/commons/jexl3/internal/introspection/Uberspect.java:387-399 | null unless the operator is overloaded and every operand is non-null, and then nothing changes; otherwise the method resolved by name against the live operands, through `base()`: a collected introspector is recreated with the same loader and the version goes up by exactly one, a live one leaves all three unchanged |
| DuckSet.Discover | src/main/java/org/apache/commons/jexl3/internal/introspection/DuckSetExecutor.java:45-48 | null iff there is no `set(key, value)` method; otherwise records the class, the method and the key |
| DuckSet.GetTargetProperty | src/main/java/org/apache/commons/jexl3/internal/introspection/DuckSetExecutor.java:62-64 | returns the key the executor holds, which `DiscoverRecordsKey` ties to the key given to discovery |
| DuckSet.DiscoverRecordsKey | src/main/java/org/apache/commons/jexl3/internal/introspection/DuckSetExecutor.java:56-64 | `getTargetProperty` of a discovered executor is the key given to discovery |
| DuckSet.Invoke | src/main/java/org/apache/commons/jexl3/internal/introspection/DuckSetExecutor.java:67-73 | calls `set(property, value)` and returns `value`; fails iff the call throws, with that exception |
| DuckSet.TryInvoke | src/main/java/org/apache/commons/jexl3/internal/introspection/DuckSetExecutor.java:76-92 | TRY_FAILED for a null target, no method, an unequal key or a different runtime class; never lets the two reflective exceptions escape; succeeds iff the guard holds and the call returns, with `value`; a null recorded key throws a null-pointer exception |
| DuckSet.TryInvokeAgreesWithInvoke | src/main/java/org/apache/commons/jexl3/internal/introspection/DuckSetExecutor.java:67-92 | under the guard, `tryInvoke` succeeds iff `invoke` does, with the same value, and maps only the two reflective exceptions to TRY_FAILED |
| DuckSet.CachedExecutorReusable | src/main/java/org/apache/commons/jexl3/internal/introspection/DuckSetExecutor.java:45-92 | an executor reused on the same class and key sets the value, as a fresh discovery's `invoke` does |
| JavaInt.Wrap | src/test/java/org/apache/commons/jexl3/ArithmeticTest.java:441-452 | the `int` result is congruent to the exact result modulo 2^32 and equals it when it fits |
| JavaInt.TruncRem | src/test/java/org/apache/commons/jexl3/ArithmeticTest.java:453-455 | Java's `%`: smaller in magnitude than the divisor, with the sign of the dividend |
| JavaInt.DivRemIdentity | src/test/java/org/apache/commons/jexl3/ArithmeticTest.java:447-455 | truncating division and remainder satisfy `b * (a / b) + a % b == a` |
| JavaInt.Bitwise | src/test/java/org/apache/commons/jexl3/ArithmeticTest.java:459-467 | a bitwise combination of `n` bits stays below 2^n; `BitwiseBit` gives each of its bits |
| JavaInt.BitwiseBit | src/test/java/org/apache/commons/jexl3/ArithmeticTest.java:459-467 | bit `k < n` of the combination is the operator applied to bit `k` of each operand |
| JavaInt.IntBitwise | src/test/java/org/apache/commons/jexl3/ArithmeticTest.java:459-467 | Java's `&`, `\|`, `^` on `int`s: each of the 32 two's-complement bits is the operator applied to that bit of the operands |
| JavaInt.ComplementBit | src/test/java/org/apache/commons/jexl3/ArithmeticTest.java:468-470 | `2^n - 1 - u` has exactly the low `n` bits `u` lacks |
| JavaInt.IntComplement | src/test/java/org/apache/commons/jexl3/ArithmeticTest.java:468-470 | Java's `~` on an `int` flips every one of the 32 bits |
| JavaInt.TruncDivInRange | src/test/java/org/apache/commons/jexl3/ArithmeticTest.java:447-449 | the truncated quotient of two `int`s is an `int`, except the least `int` divided by -1 |
| JavaInt.XorTwice | src/test/java/org/apache/commons/jexl3/ArithmeticTest.java:465-467 | `(a ^ b) ^ b == a` on `n`-bit values |
| JavaInt.AndOrIdempotent | src/test/java/org/apache/commons/jexl3/ArithmeticTest.java:459-464 | `a & a == a` and `a \| a == a` on `n`-bit values |
| JavaInt.IntBitwiseLaws | src/test/java/org/apache/commons/jexl3/ArithmeticTest.java:459-467 | the same laws on 32-bit two's-complement `int`s |
| ArithmeticPlus.ComparisonsTotalOrder | src/test/java/org/apache/commons/jexl3/ArithmeticTest.java:426-440 | exactly one of `<`, `==`, `>` holds of two `Var`s, `<` is transitive, and `<=` both ways means equal |
| ArithmeticPlus.Equals | src/test/java/org/apache/commons/jexl3/ArithmeticTest.java:426-428 | `equals` holds exactly of `Var`s that box the same `int` |
| ArithmeticPlus.LessThan | src/test/java/org/apache/commons/jexl3/ArithmeticTest.java:429-431 | `lessThan` holds only when the left value is below the right, and of two different `Var`s exactly one is below the other |
| ArithmeticPlus.LessThanOrEqual | src/test/java/org/apache/commons/jexl3/ArithmeticTest.java:432-434 | `lessThanOrEqual` is `lessThan` or `equals` |
| ArithmeticPlus.GreaterThan | src/test/java/org/apache/commons/jexl3/ArithmeticTest.java:435-437 | `greaterThan` is `lessThan` with the operands swapped |
| ArithmeticPlus.GreaterThanOrEqual | src/test/java/org/apache/commons/jexl3/ArithmeticTest.java:438-440 | `greaterThanOrEqual` is the negation of `lessThan` |
| ArithmeticPlus.Add | src/test/java/org/apache/commons/jexl3/ArithmeticTest.java:441-443 | `add` is `int` addition: congruent to the exact sum modulo 2^32, and equal to it when it fits |
| ArithmeticPlus.Subtract | src/test/java/org/apache/commons/jexl3/ArithmeticTest.java:444-446 | `subtract` is `int` subtraction, likewise |
| ArithmeticPlus.Multiply | src/test/java/org/apache/commons/jexl3/ArithmeticTest.java:450-452 | `multiply` is `int` multiplication, likewise |
| ArithmeticPlus.Divide | src/test/java/org/apache/commons/jexl3/ArithmeticTest.java:447-449 | `divide` is `int` division: `b * (a / b) + a % b == a` with Java's truncating `%`, except the least `int` divided by -1, which gives the least `int` |
| ArithmeticPlus.Negate | src/test/java/org/apache/commons/jexl3/ArithmeticTest.java:456-458 | `negate` is `int` negation: exact except on the least `int`, which it gives back |
| ArithmeticPlus.BitwiseAnd | src/test/java/org/apache/commons/jexl3/ArithmeticTest.java:459-461 | each of the 32 bits of `bitwiseAnd` is set iff it is set in both operands |
| ArithmeticPlus.BitwiseOr | src/test/java/org/apache/commons/jexl3/ArithmeticTest.java:462-464 | each bit of `bitwiseOr` is set iff it is set in either operand |
| ArithmeticPlus.BitwiseXor | src/test/java/org/apache/commons/jexl3/ArithmeticTest.java:465-467 | each bit of `bitwiseXor` is set iff it is set in exactly one operand |
| ArithmeticPlus.BitwiseComplement | src/test/java/org/apache/commons/jexl3/ArithmeticTest.java:468-470 | every bit of `bitwiseComplement` is the flipped bit of the operand |
| ArithmeticPlus.SubtractIsAddNegate | src/test/java/org/apache/commons/jexl3/ArithmeticTest.java:441-458 | subtracting is adding the negation, overflow included |
| ArithmeticPlus.VarBitwiseLaws | src/test/java/org/apache/commons/jexl3/ArithmeticTest.java:459-470 | `^` undoes itself, `&` and `\|` are idempotent, `~` undoes itself |
| ArithmeticPlus.ModAsWritten | src/test/java/org/apache/commons/jexl3/ArithmeticTest.java:453-455 | the as-written `mod` equals `divide` |
| ArithmeticPlus.Mod | src/test/java/org/apache/commons/jexl3/ArithmeticTest.java:453-455 | the remainder is smaller in magnitude than the divisor and has the dividend's sign |
| ArithmeticPlus.DivideModIdentity | src/test/java/org/apache/commons/jexl3/ArithmeticTest.java:447-455 | with the corrected `mod`, `(a / b) * b + a % b == a` in `int` arithmetic |
| ArithmeticPlus.ModAsWrittenCounterexample | src/test/java/org/apache/commons/jexl3/ArithmeticTest.java:453-455 | `mod(7, 2)` as written gives 3 where the remainder is 1; for 4242 and 100 both give 42 |
| ArithmeticPlus.IndexOfFrom | src/test/java/org/apache/commons/jexl3/ArithmeticTest.java:473 | `indexOf` finds the first occurrence at or after the start, or -1 iff there is none |
| ArithmeticPlus.SubtractStrings | src/test/java/org/apache/commons/jexl3/ArithmeticTest.java:472-480 | string `subtract` returns `x` itself, or `x` with one occurrence of `y` cut out; `x` whenever `y` does not occur |
| ArithmeticPlus.SubtractStringsSpec | src/test/java/org/apache/commons/jexl3/ArithmeticTest.java:472-480 | string `subtract` leaves `x` alone when `y` does not occur, otherwise removes exactly the first occurrence, and the result is `\|y\|` shorter |
| ArithmeticPlus.ReverseAt | src/test/java/org/apache/commons/jexl3/ArithmeticTest.java:482-489 | the reversed string has the same length and holds the `k`-th character from the end at position `k` |
| ArithmeticPlus.ReverseReverse | src/test/java/org/apache/commons/jexl3/ArithmeticTest.java:482-489 | negating a string twice gives it back |
| ArithmeticPlus.NegateString | src/test/java/org/apache/commons/jexl3/ArithmeticTest.java:482-489 | the descending loop builds the reverse of the string |
| ArithmeticPlus.SubtractExample | src/test/java/org/apache/commons/jexl3/ArithmeticTest.java:577-578 | `"foobarquux" - "bar"` is `"fooquux"` |
| ArithmeticPlus.ReverseExample | src/test/java/org/apache/commons/jexl3/ArithmeticTest.java:593-594 | `-"pizza"` is `"azzip"` |
| ArithmeticPlus.ArithmeticPlusOverloads | src/test/java/org/apache/commons/jexl3/ArithmeticTest.java:426-489 | by the registry rule, `ArithmeticPlus` overloads every operator it declares a typed method for |
| ArithmeticPlus.FindExact | src/main/java/org/apache/commons/jexl3/internal/introspection/Uberspect.java:388-399 | the chosen method is in the list and has exactly the operands' classes; none is chosen iff none has them |
| ArithmeticPlus.Call | src/main/java/org/apache/commons/jexl3/internal/introspection/Uberspect.java:388-399 | the method called for operands that are all `Var`s never leaves the operator to the inherited arithmetic; a string result comes only from `subtract` or `negate` |
| ArithmeticPlus.DispatchIntegers | src/test/java/org/apache/commons/jexl3/ArithmeticTest.java:426-489 | operands that are all `int`s match no declared signature, so every operator on them is left to the inherited arithmetic |
| ArithmeticPlus.DiscoverVars | src/test/java/org/apache/commons/jexl3/ArithmeticTest.java:426-470 | `Var` operands match the `Var` signature of every operator |
| ArithmeticPlus.DiscoverStrings | src/test/java/org/apache/commons/jexl3/ArithmeticTest.java:472-489 | string operands match the `String` forms of `subtract` and `negate` |
| ArithmeticPlus.DispatchVars | src/test/java/org/apache/commons/jexl3/ArithmeticTest.java:426-470 | a binary operator on two `Var`s reaches its `Var` method |
| ArithmeticPlus.DispatchVar | src/test/java/org/apache/commons/jexl3/ArithmeticTest.java:456-470 | a unary operator on a `Var` reaches its `Var` method (`negate` or `complement`) |
| ArithmeticPlus.DispatchModIsDivide | src/test/java/org/apache/commons/jexl3/ArithmeticTest.java:453-455 | `x % y` on two `Var`s gives what `x / y` gives: the quotient, so `Var(7) % Var(2)` is `Var(3)` |
| ArithmeticPlus.DispatchSubtractByRuntimeType | src/test/java/org/apache/commons/jexl3/ArithmeticTest.java:574-584 | `x - y` reaches the inherited arithmetic for `int`s, the `String` method for strings and the `Var` method for `Var`s; resolution depends only on the operands' runtime classes, so the model has no per-call-site cache |
| ArithmeticPlus.DispatchNegateByRuntimeType | src/test/java/org/apache/commons/jexl3/ArithmeticTest.java:586-596 | likewise `-x` for `int`s, `Var`s and strings |
| ArithmeticPlus.RunOverloadLessThan | src/test/java/org/apache/commons/jexl3/ArithmeticTest.java:508-520 | `x < y`: the `int` pairs go to the inherited arithmetic; the `Var` pairs give true and false |
| ArithmeticPlus.RunOverloadLessThanOrEqual | src/test/java/org/apache/commons/jexl3/ArithmeticTest.java:522-534 | `x <= y`: the `int` pairs go to the inherited arithmetic; the four `Var` pairs give the expected booleans |
| ArithmeticPlus.RunOverloadEquals | src/test/java/org/apache/commons/jexl3/ArithmeticTest.java:536-548 | `x == y`: the `int` pairs go to the inherited arithmetic; the four `Var` pairs give false |
| ArithmeticPlus.RunOverloadMod | src/test/java/org/apache/commons/jexl3/ArithmeticTest.java:550-556 | `x % y`: the `int`s go to the inherited arithmetic; the as-written `mod` on `Var(4242)`, `Var(100)` gives 42 |
| ArithmeticPlus.RunOverloadMultiply | src/test/java/org/apache/commons/jexl3/ArithmeticTest.java:558-564 | `x * y`: the `int`s go to the inherited arithmetic; `Var(6) * Var(7)` gives 42 |
| ArithmeticPlus.RunOverloadAdd | src/test/java/org/apache/commons/jexl3/ArithmeticTest.java:566-572 | `x + y`: the `int`s go to the inherited arithmetic; `Var(35) + Var(7)` gives 42 |
| ArithmeticPlus.RunOverloadSubtract | src/test/java/org/apache/commons/jexl3/ArithmeticTest.java:574-584 | `x - y`: both `int` pairs go to the inherited arithmetic, the strings give `"fooquux"`, the `Var`s give 42 |
| ArithmeticPlus.RunOverloadNegate | src/test/java/org/apache/commons/jexl3/ArithmeticTest.java:586-596 | `-x`: -42 and -142 go to the inherited arithmetic, `Var(-42)` gives 42, `"pizza"` gives `"azzip"` |

## Left out

- `Introspector`, `MethodKey` and reflective lookup are not part of this model. They are oracle inputs (`Reflection`, `MethodFinder`, `Invoker`).
- The accessor executors other than `DuckSetExecutor` are not part of this model. `PropertyGetExecutor`, `MapGetExecutor`, `FieldSetExecutor` and the rest appear only through their `discover` results. `castString` and `castInteger` are oracles.
- Reclaiming soft references is a nondeterministic step (`Uberspect.Reclaim`). Concurrency, `synchronized`, `volatile` and the concurrent map are not modelled. The model is sequential.
- Logging is not modelled.
- The internals of `ArrayIterator` and `EnumerationIterator` are not part of this model. The model only records which source was chosen.
- Iteration.GetIterator: the map branch's `values().iterator()` call (Uberspect.java:337) and the iterable branch's `iterator()` call (Uberspect.java:343) are not modelled; `MapValues` and `IterableIterator` stand for their results, which are taken to be non-null. In the source these calls sit outside the `try`, so they may return null and their exceptions reach the caller; only the fallback's lookup and call (Uberspect.java:345-357) have their exceptions turned into null.
- The commented-out `GetResolver` design note (Uberspect.java:443-501) is not live code.
- `SandboxTest` and `JXLTTest` are not modelled. They run end-to-end through the engine and the template engine.
- The rest of `ArithmeticTest` is not modelled: floating point, `BigDecimal`, parsing and the other arithmetic tests. The inherited `JexlArithmetic` operators appear only as the outcome `DefaultArithmetic`.
- Operators.Operator: `JexlArithmetic.Operator` is not part of this model. The enum holds only the fifteen operators that `ArithmeticPlus` declares methods for; their order plays no part, since the overload scan collects a set.
- Resolution.GetPropertyGet: the `base()` call (which may recreate the introspector and bump the version) is not modelled in the get, set and iterator chains. It is modelled in `GetMethods`, `GetArithmetic` and `GetOperator`.
- Resolution.GetPropertyGet: a null `obj` (a `NullPointerException` in the source) is excluded by the type `Instance`. The same holds for `Resolution.GetPropertySet` and `Iteration.GetIterator`.
- Introspection.Uberspect.GetVersion: `version` is a `nat`. The wrap-around of the source's `AtomicInteger` after 2^31 - 1 increments is not modelled.
- ArithmeticPlus.DiscoverOverload: method resolution matches the operands' runtime classes exactly against the methods `ArithmeticPlus` itself declares (`ArithmeticPlusMethods`). `MethodKey`'s most-specific-applicable search and the methods inherited from `JexlArithmetic`, such as the untyped `add(Object, Object)`, are not part of this model. Operands that match no declared signature, such as `int`s, which may reach an inherited method, are recorded only as the outcome `DefaultArithmetic`.
- ArithmeticPlus.Dispatch: the interpreter's per-call-site operator cache and the guard that revalidates a cached method (the engine's `cache(64)` and `cache(0)` settings) are not part of this model. Every call resolves afresh, so the model does not show that a cached method is reused or discarded correctly.
- ArithmeticPlus.NegateString: Java strings are sequences of UTF-16 code units and `charAt` reverses code units, so a supplementary character's two surrogate halves come out swapped. The model's `string` holds Unicode scalar values and keeps such a character whole. The two agree on strings without supplementary characters, such as the test's.
- ArithmeticPlus.SubtractStrings: indices and lengths count Unicode scalar values, not UTF-16 code units. The same holds for `ArithmeticPlus.IndexOfFrom` and `ArithmeticPlus.Reverse`. For strings without lone surrogates the resulting string is the same either way.
- ArithmeticPlus.Divide: requires a non-zero divisor. `Call` models the `ArithmeticException` of a zero divisor as the outcome `DivisionByZero`. The same holds for `ArithmeticPlus.Mod` and `ArithmeticPlus.ModAsWritten`.
- Introspection.Introspector.SetLoader: `Introspector` is not part of this model. The loader is stored as given.

## Findings

| source | as written | input that shows it | evidently intended | confidence | as-written member | corrected member |
|---|---|---|---|---|---|---|
| src/test/java/org/apache/commons/jexl3/ArithmeticTest.java:453-455 | `mod(Var, Var)` returns `lhs.value / rhs.value`, the quotient | `Var(7) % Var(2)` gives 3 | the remainder `lhs.value % rhs.value`, here 1; the test's only case (4242, 100) gives 42 either way | not executed | ArithmeticPlus.ModAsWrittenCounterexample | ArithmeticPlus.DivideModIdentity |
