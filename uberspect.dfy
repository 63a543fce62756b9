/**
 * The state of `Uberspect`: the introspector handle it recreates on demand,
 * the class loader it recreates it with, the version counter that tells
 * callers when cached accessors may be stale, and the per-class cache of
 * overloaded operators, with the operations that read and update them.
 */
module Introspection {
  import opened Wrappers
  import opened Host
  import opened Operators

  /** A class loader, by identity. */
  type Loader = string

  /** What reflection tells the introspector about host classes. */
  datatype Reflection = Reflection(
    // `Introspector.getMethods(c, name)`
    getMethods: MethodTable,
    // `MethodExecutor.discover(is, obj, name, args)`: the method of `obj`'s class best
    // matching the runtime types of `args`, if any
    discoverMethod: (Instance, string, seq<Value>) -> Option<Method>)

  /** The reflective cache of one class-loading context; only its loader is modelled. */
  class Introspector {
    var loader: Option<Loader>

    constructor (l: Option<Loader>)
      ensures loader == l
    {
      loader := l;
    }

    /** `setLoader`: from now on classes are resolved through `l`. */
    method SetLoader(l: Option<Loader>)
      modifies this
      ensures loader == l
    {
      loader := l;
    }
  }

  /**
   * `Uberspect.ArithmeticUberspect`: an arithmetic instance and the operators
   * its class overloads.
   */
  datatype ArithmeticUberspect = ArithmeticUberspect(arithmetic: Instance, overloads: set<Operator>) {
    /** `overloads(operator)`. */
    predicate Overloads(op: Operator)
      ensures Overloads(op) <==> op in overloads
    {
      op in overloads
    }
  }

  /** `getOperator` looks a method up only for an overloaded operator and non-null operands. */
  predicate OperatorApplies(au: ArithmeticUberspect, op: Operator, operands: seq<Value>) {
    au.Overloads(op) && forall k :: 0 <= k < |operands| ==> operands[k].Ref?
  }

  /**
   * Whether the parameter types are all `java.lang.Object`: the untyped
   * `method(Object)` / `method(Object, Object)` form that `getArithmetic`
   * does not count as an overload.
   */
  method IsRootSignature(parms: seq<ClassName>) returns (root: bool)
    ensures root <==> forall q :: 0 <= q < |parms| ==> parms[q] == ObjectClass
  {
    root := true;
    var p := 0;
    while root && p < |parms|
      invariant 0 <= p <= |parms|
      invariant root <==> forall q :: 0 <= q < p ==> parms[q] == ObjectClass
    {
      if parms[p] != ObjectClass {
        root := false;
      }
      p := p + 1;
    }
  }

  /** Whether some method of the list has the operator's arity and is not the untyped form. */
  method ScanMethods(ms: seq<Method>, op: Operator) returns (overloaded: bool)
    ensures overloaded <==> exists k :: 0 <= k < |ms| && IsOverload(ms[k], op)
  {
    overloaded := false;
    var j := 0;
    while j < |ms|
      invariant 0 <= j <= |ms|
      invariant overloaded <==> exists k :: 0 <= k < j && IsOverload(ms[k], op)
    {
      var parms := ms[j].parameterTypes;
      if |parms| == Arity(op) {
        // eliminate method(Object) and method(Object, Object)
        var root := IsRootSignature(parms);
        if !root {
          overloaded := true;
        }
      }
      j := j + 1;
    }
  }

  class Uberspect {
    const reflect: Reflection
    /** The soft reference to the introspector; `null` once collected or before first use. */
    var ref: Introspector?
    /** The soft reference to the class loader; `None` once collected. */
    var loader: Option<Loader>
    var version: nat
    /** `operatorMap`: arithmetic class to the operators it overloads. */
    var operatorMap: map<ClassName, set<Operator>>

    /** Every cached overload set is the non-empty set a scan of its class would give. */
    ghost predicate Valid()
      reads this
    {
      forall c :: c in operatorMap ==> operatorMap[c] == OverloadSet(reflect.getMethods, c) && operatorMap[c] != {}
    }

    /** `new Uberspect(log)`: no introspector yet, the loader of the `Uberspect` class itself. */
    constructor (reflection: Reflection, ownLoader: Option<Loader>)
      ensures Valid()
      ensures reflect == reflection && ref == null && loader == ownLoader
      ensures version == 0 && operatorMap == map[]
    {
      reflect := reflection;
      ref := null;
      loader := ownLoader;
      operatorMap := map[];
      version := 0;
    }

    /**
     * The garbage collector clearing the soft references: the introspector,
     * the class loader, or both.
     */
    method Reclaim(introspector: bool, classLoader: bool)
      modifies this
      ensures ref == (if introspector then null else old(ref))
      ensures loader == (if classLoader then None else old(loader))
      ensures version == old(version) && operatorMap == old(operatorMap)
    {
      if introspector {
        ref := null;
      }
      if classLoader {
        loader := None;
      }
    }

    /**
     * `base()`: the live introspector; when it was collected, a new one is
     * made with the current loader and the version is bumped.
     */
    method Base() returns (intro: Introspector)
      requires Valid()
      modifies this
      ensures Valid()
      ensures ref == intro && operatorMap == old(operatorMap)
      ensures old(ref) != null ==> intro == old(ref) && loader == old(loader) && version == old(version)
      ensures old(ref) == null ==> fresh(intro) && intro.loader == old(loader) && loader == old(loader) &&
                                   version == old(version) + 1
    {
      if ref != null {
        intro := ref;
      } else {
        intro := new Introspector(loader);
        ref := intro;
        loader := intro.loader;
        version := version + 1;
      }
    }

    /**
     * `setClassLoader(nloader)`: the live introspector is switched to the new
     * loader, or a new one is made with it; the operator cache is cleared and
     * the version always bumped.
     */
    method SetClassLoader(nloader: Option<Loader>)
      requires Valid()
      modifies this, ref
      ensures Valid()
      ensures ref != null && ref.loader == nloader && loader == nloader
      ensures old(ref) != null ==> ref == old(ref)
      ensures old(ref) == null ==> fresh(ref)
      ensures operatorMap == map[] && version == old(version) + 1
    {
      var intro := ref;
      if intro != null {
        intro.SetLoader(nloader);
      } else {
        intro := new Introspector(nloader);
        ref := intro;
      }
      loader := intro.loader;
      operatorMap := map[];
      version := version + 1;
    }

    /** `getVersion()`. */
    method GetVersion() returns (v: nat)
      ensures v == version
    {
      v := version;
    }

    /** `getMethods(c, name)`, through the introspector `base()` returns. */
    method GetMethods(c: ClassName, name: string) returns (methods: Option<seq<Method>>)
      requires Valid()
      modifies this
      ensures Valid()
      ensures methods == reflect.getMethods(c, name)
      ensures ref != null && operatorMap == old(operatorMap)
      ensures old(ref) != null ==> ref == old(ref) && loader == old(loader) && version == old(version)
      ensures old(ref) == null ==> version == old(version) + 1 && loader == old(loader)
    {
      var intro := Base();
      methods := reflect.getMethods(c, name);
    }

    /**
     * `getArithmetic(arithmetic)`: the operators the arithmetic's class
     * overloads, from the cache or by scanning its methods; an arithmetic
     * with at least one overload is registered in the cache, one with none
     * gives no `ArithmeticUberspect` and is scanned again on the next call.
     */
    method GetArithmetic(arithmetic: Value) returns (jau: Option<ArithmeticUberspect>)
      requires Valid()
      modifies this
      ensures Valid()
      ensures arithmetic.Null? ==> jau.None?
      ensures arithmetic.Ref? ==>
                var ops := OverloadSet(reflect.getMethods, arithmetic.obj.cls);
                (jau.Some? <==> ops != {}) &&
                (jau.Some? ==> jau.value == ArithmeticUberspect(arithmetic.obj, ops))
      ensures operatorMap ==
                if jau.Some? then old(operatorMap)[arithmetic.obj.cls := jau.value.overloads] else old(operatorMap)
      // the introspector is consulted, and possibly recreated, only on a cache miss
      ensures arithmetic.Null? || arithmetic.obj.cls in old(operatorMap) || old(ref) != null ==>
                ref == old(ref) && loader == old(loader) && version == old(version)
      ensures arithmetic.Ref? && arithmetic.obj.cls !in old(operatorMap) && old(ref) == null ==>
                ref != null && loader == old(loader) && version == old(version) + 1
    {
      jau := None;
      if arithmetic.Ref? {
        var cls := arithmetic.obj.cls;
        var ops: set<Operator>;
        if cls in operatorMap {
          ops := operatorMap[cls];
        } else {
          ops := ScanOverloads(cls);
        }
        if ops != {} {
          // the `ArithmeticUberspect` constructor registers the class
          operatorMap := operatorMap[cls := ops];
          jau := Some(ArithmeticUberspect(arithmetic.obj, ops));
        }
      }
    }

    /**
     * The scan `getArithmetic` makes on a cache miss: for every operator, the
     * methods of its name are fetched through the introspector and checked
     * for an overload.
     */
    method ScanOverloads(cls: ClassName) returns (ops: set<Operator>)
      requires Valid()
      modifies this
      ensures Valid() && operatorMap == old(operatorMap) && loader == old(loader)
      ensures ops == OverloadSet(reflect.getMethods, cls)
      ensures old(ref) != null ==> ref == old(ref) && version == old(version)
      ensures old(ref) == null ==> ref != null && version == old(version) + 1
    {
      ops := {};
      var i := 0;
      while i < |AllOperators|
        invariant Valid() && operatorMap == old(operatorMap)
        invariant 0 <= i <= |AllOperators|
        invariant ops == set op | op in AllOperators[..i] && DeclaresOverload(reflect.getMethods(cls, MethodName(op)), op)
        invariant i == 0 ==> ref == old(ref) && version == old(version)
        invariant old(ref) != null ==> ref == old(ref) && version == old(version)
        invariant i > 0 && old(ref) == null ==> ref != null && version == old(version) + 1
        invariant loader == old(loader)
      {
        var op := AllOperators[i];
        var methods := GetMethods(cls, MethodName(op));
        var before := ops;
        if methods.Some? {
          var overloaded := ScanMethods(methods.value, op);
          if overloaded {
            ops := ops + {op};
          }
        }
        ScanStep(cls, i, before, ops);
        i := i + 1;
      }
      assert AllOperators[..i] == AllOperators;
    }

    /** One more operator scanned: the overload set grows by it exactly when the class overloads it. */
    lemma ScanStep(cls: ClassName, i: nat, before: set<Operator>, after: set<Operator>)
      requires i < |AllOperators|
      requires before == set op | op in AllOperators[..i] && DeclaresOverload(reflect.getMethods(cls, MethodName(op)), op)
      requires var op := AllOperators[i];
        var methods := reflect.getMethods(cls, MethodName(op));
        after == before + if methods.Some? && exists k :: 0 <= k < |methods.value| && IsOverload(methods.value[k], op)
                          then {op} else {}
      ensures after == set op | op in AllOperators[..i + 1] && DeclaresOverload(reflect.getMethods(cls, MethodName(op)), op)
    {
      assert AllOperators[..i + 1] == AllOperators[..i] + [AllOperators[i]];
    }

    /**
     * `ArithmeticUberspect.getOperator(operator, operands...)`: no method
     * unless the operator is overloaded and every operand is non-null;
     * otherwise the arithmetic's method of the operator's name that best
     * matches the operands' runtime types, found through `base()`.
     */
    method GetOperator(au: ArithmeticUberspect, op: Operator, operands: seq<Value>) returns (m: Option<Method>)
      requires Valid()
      requires |operands| == 1 || |operands| == 2
      modifies this
      ensures Valid() && operatorMap == old(operatorMap)
      ensures !OperatorApplies(au, op, operands) ==>
                m.None? && ref == old(ref) && loader == old(loader) && version == old(version)
      ensures OperatorApplies(au, op, operands) ==>
                m == reflect.discoverMethod(au.arithmetic, MethodName(op), operands)
      ensures old(ref) != null ==> ref == old(ref) && loader == old(loader) && version == old(version)
      ensures OperatorApplies(au, op, operands) && old(ref) == null ==>
                ref != null && loader == old(loader) && version == old(version) + 1
    {
      m := None;
      if au.Overloads(op) && operands[0].Ref? && (|operands| == 1 || operands[1].Ref?) {
        var intro := Base();
        m := reflect.discoverMethod(au.arithmetic, MethodName(op), operands);
      }
    }
  }
}
