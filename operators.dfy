/**
 * The arithmetic operators a script can overload, and the rule by which the
 * introspection layer decides, from an arithmetic class's public methods,
 * which of them that class overloads.
 */
module Operators {
  import opened Wrappers
  import opened Host

  /**
   * The operators of `JexlArithmetic.Operator` whose overload methods the
   * arithmetic of this model declares, each with its method name and arity.
   */
  datatype Operator =
    | Add | Subtract | Multiply | Divide | Mod
    | BitwiseAnd | BitwiseOr | BitwiseXor
    | Eq | Lt | Lte | Gt | Gte
    | Negate | BitwiseComplement

  /** The operators the overload scan walks through (`Operator.values()`); only the set matters. */
  const AllOperators: seq<Operator> :=
    [Add, Subtract, Multiply, Divide, Mod, BitwiseAnd, BitwiseOr, BitwiseXor,
     Eq, Lt, Lte, Gt, Gte, Negate, BitwiseComplement]

  /** `Operator.getMethodName()`: the name an overload method must have. */
  function MethodName(op: Operator): string {
    match op
    case Add => "add"
    case Subtract => "subtract"
    case Multiply => "multiply"
    case Divide => "divide"
    case Mod => "mod"
    case BitwiseAnd => "bitwiseAnd"
    case BitwiseOr => "bitwiseOr"
    case BitwiseXor => "bitwiseXor"
    case Eq => "equals"
    case Lt => "lessThan"
    case Lte => "lessThanOrEqual"
    case Gt => "greaterThan"
    case Gte => "greaterThanOrEqual"
    case Negate => "negate"
    case BitwiseComplement => "bitwiseComplement"
  }

  /** `Operator.getArity()`: how many operands the operator takes. */
  function Arity(op: Operator): nat {
    if op == Negate || op == BitwiseComplement then 1 else 2
  }

  /** Every operator is listed, and no two operators share a method name. */
  lemma OperatorTable(op: Operator)
    ensures op in AllOperators
    ensures forall other: Operator :: MethodName(other) == MethodName(op) ==> other == op
  {
  }

  /**
   * `Introspector.getMethods(c, name)`: the public methods of class `c` with
   * that name, or null.
   */
  type MethodTable = (ClassName, string) -> Option<seq<Method>>

  /** Every parameter is declared `java.lang.Object`: the untyped default form. */
  predicate RootSignature(m: Method) {
    forall q :: 0 <= q < |m.parameterTypes| ==> m.parameterTypes[q] == ObjectClass
  }

  /**
   * `m` overloads `op`: it takes exactly `op`'s number of parameters and is
   * not the untyped `method(Object)` / `method(Object, Object)` form.
   */
  predicate IsOverload(m: Method, op: Operator) {
    |m.parameterTypes| == Arity(op) && !RootSignature(m)
  }

  /** Some method of the (non-null) list overloads `op`. */
  predicate DeclaresOverload(methods: Option<seq<Method>>, op: Operator) {
    methods.Some? && exists k :: 0 <= k < |methods.value| && IsOverload(methods.value[k], op)
  }

  /** The operators the class `c` overloads, by the rule above. */
  function OverloadSet(table: MethodTable, c: ClassName): (ops: set<Operator>)
    ensures forall op :: op in ops <==> DeclaresOverload(table(c, MethodName(op)), op)
  {
    set op | op in AllOperators && DeclaresOverload(table(c, MethodName(op)), op)
  }

  /**
   * An operator is in a class's overload set exactly when some method of the
   * operator's name has the operator's arity and a parameter typed other than
   * `Object`.
   */
  lemma OverloadSetMembership(table: MethodTable, c: ClassName, op: Operator)
    ensures op in OverloadSet(table, c) <==>
      var ms := table(c, MethodName(op));
      ms.Some? && exists k, q :: 0 <= k < |ms.value| && 0 <= q < |ms.value[k].parameterTypes| &&
                                 |ms.value[k].parameterTypes| == Arity(op) &&
                                 ms.value[k].parameterTypes[q] != ObjectClass
  {
    OperatorTable(op);
    var ms := table(c, MethodName(op));
    if ms.Some? && (exists k :: 0 <= k < |ms.value| && IsOverload(ms.value[k], op)) {
      var k :| 0 <= k < |ms.value| && IsOverload(ms.value[k], op);
      var q :| 0 <= q < |ms.value[k].parameterTypes| && ms.value[k].parameterTypes[q] != ObjectClass;
    }
  }

  /**
   * A class whose methods of an operator's name all have the wrong arity or
   * only `Object` parameters (such as the inherited `add(Object, Object)`)
   * does not overload that operator.
   */
  lemma RootSignaturesDoNotOverload(table: MethodTable, c: ClassName, op: Operator)
    requires var ms := table(c, MethodName(op));
      ms.Some? ==> forall k :: 0 <= k < |ms.value| ==>
                     |ms.value[k].parameterTypes| != Arity(op) || RootSignature(ms.value[k])
    ensures op !in OverloadSet(table, c)
  {
  }
}
