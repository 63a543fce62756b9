/**
 * `ArithmeticTest.Var` and `ArithmeticTest.ArithmeticPlus`: a value type and
 * an arithmetic whose typed methods overload the script operators for it,
 * plus string subtraction and string negation; and how a script operator
 * applied to live operands reaches those overloads.
 */
module ArithmeticPlus {
  import opened Wrappers
  import opened Host
  import opened JavaInt
  import opened Operators

  /** `ArithmeticTest.Var`: an immutable box around an `int`. */
  datatype Var = Var(value: Int32)

  // ---------------------------------------------------------------- comparisons

  /** `equals(Var, Var)`: two `Var`s are equal exactly when they box the same `int`. */
  function Equals(lhs: Var, rhs: Var): (r: bool)
    ensures r <==> lhs == rhs
  {
    lhs.value == rhs.value
  }

  /** `lessThan(Var, Var)`: strict, and of two different `Var`s exactly one is below the other. */
  function LessThan(lhs: Var, rhs: Var): (r: bool)
    ensures r ==> lhs.value < rhs.value
    ensures r ==> lhs != rhs
    ensures lhs != rhs && !r ==> rhs.value < lhs.value
  {
    lhs.value < rhs.value
  }

  /** `lessThanOrEqual(Var, Var)`: below or equal. */
  function LessThanOrEqual(lhs: Var, rhs: Var): (r: bool)
    ensures r <==> LessThan(lhs, rhs) || Equals(lhs, rhs)
  {
    lhs.value <= rhs.value
  }

  /** `greaterThan(Var, Var)`: `lessThan` with the operands swapped. */
  function GreaterThan(lhs: Var, rhs: Var): (r: bool)
    ensures r <==> LessThan(rhs, lhs)
  {
    lhs.value > rhs.value
  }

  /** `greaterThanOrEqual(Var, Var)`: not below. */
  function GreaterThanOrEqual(lhs: Var, rhs: Var): (r: bool)
    ensures r <==> !LessThan(lhs, rhs)
  {
    lhs.value >= rhs.value
  }

  /**
   * The five comparisons form one total order on `Var`s: exactly one of
   * `<`, `==`, `>` holds, `<` is transitive, and `>` is `<` with the
   * operands swapped.
   */
  lemma ComparisonsTotalOrder(a: Var, b: Var, c: Var)
    ensures LessThan(a, b) || Equals(a, b) || GreaterThan(a, b)
    ensures !(LessThan(a, b) && Equals(a, b)) && !(LessThan(a, b) && GreaterThan(a, b)) &&
            !(Equals(a, b) && GreaterThan(a, b))
    ensures LessThan(a, b) && LessThan(b, c) ==> LessThan(a, c)
    ensures LessThanOrEqual(a, b) && LessThanOrEqual(b, a) ==> a == b
  {
  }

  // ---------------------------------------------------------------- int operators

  /** `add(Var, Var)`: Java `int` addition, exact in range and congruent modulo 2^32 otherwise. */
  function Add(lhs: Var, rhs: Var): (r: Var)
    ensures (r.value - (lhs.value + rhs.value)) % TwoTo32 == 0
    ensures -TwoTo31 <= lhs.value + rhs.value < TwoTo31 ==> r.value == lhs.value + rhs.value
  {
    Var(Wrap(lhs.value + rhs.value))
  }

  /** `subtract(Var, Var)`: Java `int` subtraction. */
  function Subtract(lhs: Var, rhs: Var): (r: Var)
    ensures (r.value - (lhs.value - rhs.value)) % TwoTo32 == 0
    ensures -TwoTo31 <= lhs.value - rhs.value < TwoTo31 ==> r.value == lhs.value - rhs.value
  {
    Var(Wrap(lhs.value - rhs.value))
  }

  /** `multiply(Var, Var)`: Java `int` multiplication. */
  function Multiply(lhs: Var, rhs: Var): (r: Var)
    ensures (r.value - lhs.value * rhs.value) % TwoTo32 == 0
    ensures -TwoTo31 <= lhs.value * rhs.value < TwoTo31 ==> r.value == lhs.value * rhs.value
  {
    var p: int := lhs.value * rhs.value;
    Var(Wrap(p))
  }

  /**
   * `divide(Var, Var)`: Java `int` division, the exact quotient rounded
   * toward zero, except that the least `int` divided by -1 overflows back to
   * itself.
   */
  function Divide(lhs: Var, rhs: Var): (r: Var)
    requires rhs.value != 0
    ensures lhs.value == -TwoTo31 && rhs.value == -1 ==> r == lhs
    ensures !(lhs.value == -TwoTo31 && rhs.value == -1) ==> r.value == TruncDiv(lhs.value, rhs.value)
  {
    assert !(lhs.value == -TwoTo31 && rhs.value == -1) ==> -TwoTo31 <= TruncDiv(lhs.value, rhs.value) < TwoTo31 by {
      if !(lhs.value == -TwoTo31 && rhs.value == -1) {
        TruncDivInRange(lhs.value, rhs.value);
      }
    }
    Var(Wrap(TruncDiv(lhs.value, rhs.value)))
  }

  /** `negate(Var)`: Java `int` negation, which gives the least `int` back. */
  function Negate(arg: Var): (r: Var)
    ensures (r.value + arg.value) % TwoTo32 == 0
    ensures arg.value != -TwoTo31 ==> r.value == -(arg.value as int)
    ensures arg.value == -TwoTo31 ==> r == arg
  {
    Var(Wrap(-(arg.value as int)))
  }

  /** `bitwiseAnd(Var, Var)`: each of the 32 bits set iff it is set in both operands. */
  function BitwiseAnd(lhs: Var, rhs: Var): (r: Var)
    ensures forall k :: 0 <= k < 32 ==>
              (BitSet(Unsigned(r.value), k) <==> BitSet(Unsigned(lhs.value), k) && BitSet(Unsigned(rhs.value), k))
  {
    Var(IntBitwise(And, lhs.value, rhs.value))
  }

  /** `bitwiseOr(Var, Var)`: each of the 32 bits set iff it is set in either operand. */
  function BitwiseOr(lhs: Var, rhs: Var): (r: Var)
    ensures forall k :: 0 <= k < 32 ==>
              (BitSet(Unsigned(r.value), k) <==> BitSet(Unsigned(lhs.value), k) || BitSet(Unsigned(rhs.value), k))
  {
    Var(IntBitwise(Or, lhs.value, rhs.value))
  }

  /** `bitwiseXor(Var, Var)`: each of the 32 bits set iff it is set in exactly one operand. */
  function BitwiseXor(lhs: Var, rhs: Var): (r: Var)
    ensures forall k :: 0 <= k < 32 ==>
              (BitSet(Unsigned(r.value), k) <==> BitSet(Unsigned(lhs.value), k) != BitSet(Unsigned(rhs.value), k))
  {
    Var(IntBitwise(Xor, lhs.value, rhs.value))
  }

  /** `bitwiseComplement(Var)`: every one of the 32 bits flipped. */
  function BitwiseComplement(arg: Var): (r: Var)
    ensures forall k :: 0 <= k < 32 ==> (BitSet(Unsigned(r.value), k) <==> !BitSet(Unsigned(arg.value), k))
  {
    Var(IntComplement(arg.value))
  }

  /** Subtracting a `Var` is adding its negation, overflow included. */
  lemma SubtractIsAddNegate(a: Var, b: Var)
    ensures Subtract(a, b) == Add(a, Negate(b))
  {
    var s: int := a.value - b.value;
    var nb: int := -(b.value as int);
    var w: int := Wrap(nb);
    var t: int := a.value + w;
    var d: int := w - nb;
    assert d % TwoTo32 == 0;
    assert t - s == d;
    WrapCongruent(t, s);
    assert Subtract(a, b).value == Wrap(s);
    assert Add(a, Negate(b)).value == Wrap(t);
  }

  /** `^` undoes itself, `&` and `|` are idempotent, and `~` undoes itself. */
  lemma VarBitwiseLaws(a: Var, b: Var)
    ensures BitwiseXor(BitwiseXor(a, b), b) == a
    ensures BitwiseAnd(a, a) == a && BitwiseOr(a, a) == a
    ensures BitwiseComplement(BitwiseComplement(a)) == a
  {
    IntBitwiseLaws(a.value, b.value);
  }

  /** Integers that differ by a multiple of 2^32 wrap to the same `int`. */
  lemma WrapCongruent(x: int, y: int)
    requires (x - y) % TwoTo32 == 0
    ensures Wrap(x) == Wrap(y)
  {
    var k := (x - y) / TwoTo32;
    assert x == y + k * TwoTo32;
    assert x % TwoTo32 == y % TwoTo32;
  }

  // ---------------------------------------------------------------- mod

  /** `mod(Var, Var)` as written: it computes the quotient, exactly as `divide` does. */
  function ModAsWritten(lhs: Var, rhs: Var): (r: Var)
    requires rhs.value != 0
    ensures r == Divide(lhs, rhs)
  {
    Var(Wrap(TruncDiv(lhs.value, rhs.value)))
  }

  /** `mod(Var, Var)` as the `%` operator means it: Java's `int` remainder. */
  function Mod(lhs: Var, rhs: Var): (r: Var)
    requires rhs.value != 0
    ensures Abs(r.value) < Abs(rhs.value)
    ensures lhs.value >= 0 ==> r.value >= 0
    ensures lhs.value <= 0 ==> r.value <= 0
  {
    Var(TruncRem(lhs.value, rhs.value))
  }

  /**
   * The corrected `mod` completes `divide`: `(a / b) * b + a % b == a` in
   * `int` arithmetic, for every divisor other than zero.
   */
  lemma {:induction false} DivideModIdentity(a: Var, b: Var)
    requires b.value != 0
    ensures Wrap(Divide(a, b).value * b.value + Mod(a, b).value) == a.value
  {
    var bv: int := b.value;
    var q := TruncDiv(a.value, bv);
    var r := TruncRem(a.value, bv);
    DivRemIdentity(a.value, bv);
    var w: int := Wrap(q);
    var k := (w - q) / TwoTo32;
    assert w == q + k * TwoTo32;
    var j := k * bv;
    ShiftProduct(q, k, bv);
    assert (w * bv + r) - a.value == j * TwoTo32;
    WrapCongruent(w * bv + r, a.value);
  }

  /** Adding a multiple of 2^32 to one factor adds a multiple of 2^32 to the product. */
  lemma ShiftProduct(q: int, k: int, b: int)
    ensures (q + k * TwoTo32) * b == q * b + (k * b) * TwoTo32
  {
  }

  /**
   * The as-written `mod` disagrees with the remainder: `7 % 2` gives 3 rather
   * than 1. The only case the test checks, 4242 and 100, gives 42 either way.
   */
  lemma ModAsWrittenCounterexample()
    ensures ModAsWritten(Var(7), Var(2)) == Var(3)
    ensures Mod(Var(7), Var(2)) == Var(1)
    ensures ModAsWritten(Var(4242), Var(100)) == Mod(Var(4242), Var(100)) == Var(42)
  {
  }

  // ---------------------------------------------------------------- strings

  /** `y` occurs in `x` starting at index `i`. */
  predicate OccursAt(x: string, y: string, i: int) {
    0 <= i && i + |y| <= |x| && x[i..i + |y|] == y
  }

  /** `x.indexOf(y, from)`: the first occurrence at or after `from`, or -1. */
  function IndexOfFrom(x: string, y: string, from: nat): (ix: int)
    requires from <= |x|
    ensures ix == -1 || (from <= ix && OccursAt(x, y, ix))
    ensures ix == -1 ==> forall i :: from <= i ==> !OccursAt(x, y, i)
    ensures ix != -1 ==> forall i :: from <= i < ix ==> !OccursAt(x, y, i)
    decreases |x| - from
  {
    if from + |y| > |x| then -1
    else if x[from..from + |y|] == y then from
    else IndexOfFrom(x, y, from + 1)
  }

  /** `x.indexOf(y)`. */
  function IndexOf(x: string, y: string): int {
    IndexOfFrom(x, y, 0)
  }

  /**
   * `subtract(String x, String y)`: `x` unchanged when `y` does not occur in
   * it, otherwise `x` with the first occurrence of `y` cut out.
   */
  function SubtractStrings(x: string, y: string): (r: string)
    ensures r == x || exists i :: OccursAt(x, y, i) && r == x[..i] + x[i + |y|..]
    ensures (forall i :: !OccursAt(x, y, i)) ==> r == x
  {
    var ix := IndexOf(x, y);
    if ix < 0 then x
    else
      var strb := x[..ix];
      strb + x[ix + |y|..]
  }

  /**
   * `x - y` on strings leaves `x` alone when `y` does not occur in it, and
   * otherwise removes exactly the first occurrence of `y`, so the result is
   * `|y|` characters shorter.
   */
  lemma SubtractStringsSpec(x: string, y: string, ix: int)
    ensures (forall i :: !OccursAt(x, y, i)) ==> SubtractStrings(x, y) == x
    ensures OccursAt(x, y, ix) && (forall j :: 0 <= j < ix ==> !OccursAt(x, y, j)) ==>
              |SubtractStrings(x, y)| == |x| - |y| && SubtractStrings(x, y) == x[..ix] + x[ix + |y|..]
  {
    if OccursAt(x, y, ix) && (forall j :: 0 <= j < ix ==> !OccursAt(x, y, j)) {
      IndexOfFromFirst(x, y, 0, ix);
      SubtractAt(x, y, ix);
    }
  }

  /** Once the search has found `ix`, the subtraction cuts out the `|y|` characters there. */
  lemma SubtractAt(x: string, y: string, ix: int)
    requires ix >= 0 && IndexOf(x, y) == ix
    ensures SubtractStrings(x, y) == x[..ix] + x[ix + |y|..]
  {
  }

  /** An occurrence at `ix` with none from `from` up to it is what the search from `from` finds. */
  lemma {:induction false} IndexOfFromFirst(x: string, y: string, from: nat, ix: nat)
    requires from <= ix && OccursAt(x, y, ix)
    requires forall j :: from <= j < ix ==> !OccursAt(x, y, j)
    ensures IndexOfFrom(x, y, from) == ix
    decreases ix - from
  {
    if from < ix {
      assert !OccursAt(x, y, from);
      IndexOfFromFirst(x, y, from + 1, ix);
    }
  }

  /** `s` with its characters in the opposite order. */
  function Reverse(s: string): string {
    if s == [] then [] else Reverse(s[1..]) + [s[0]]
  }

  /** The reverse has the same length, and position `k` holds the `k`-th character from the end. */
  lemma {:induction false} ReverseAt(s: string)
    ensures |Reverse(s)| == |s|
    ensures forall k :: 0 <= k < |s| ==> Reverse(s)[k] == s[|s| - 1 - k]
  {
    if s != [] {
      ReverseAt(s[1..]);
      forall k | 0 <= k < |s| ensures Reverse(s)[k] == s[|s| - 1 - k] {
        if k < |s| - 1 {
          assert Reverse(s)[k] == Reverse(s[1..])[k] == s[1..][|s| - 2 - k];
        }
      }
    }
  }

  /** Negating a string twice gives it back. */
  lemma ReverseReverse(s: string)
    ensures Reverse(Reverse(s)) == s
  {
    ReverseAt(s);
    ReverseAt(Reverse(s));
  }

  /** Reversing the suffix from `c` appends `s[c]` to the reverse of the suffix after it. */
  lemma ReverseSuffix(s: string, c: nat)
    requires c < |s|
    ensures Reverse(s[c..]) == Reverse(s[c + 1..]) + [s[c]]
  {
    var tail := s[c..];
    assert tail[1..] == s[c + 1..];
  }

  /**
   * `negate(String str)`: appends the characters of `str` from the last to
   * the first, giving the reverse of `str`.
   */
  method NegateString(str: string) returns (r: string)
    ensures r == Reverse(str)
  {
    var length := |str|;
    var strb := "";
    var c := length - 1;
    assert str[c + 1..] == [];
    while c >= 0
      invariant -1 <= c < length
      invariant strb == Reverse(str[c + 1..])
    {
      ReverseSuffix(str, c);
      strb := strb + [str[c]];
      c := c - 1;
    }
    assert str[c + 1..] == str;
    r := strb;
  }

  /** The test's string subtraction: `"foobarquux" - "bar"` is `"fooquux"`. */
  lemma SubtractExample()
    ensures SubtractStrings("foobarquux", "bar") == "fooquux"
  {
    var x := "foobarquux";
    assert OccursAt(x, "bar", 3) by {
      assert x[3..6] == "bar";
    }
    assert !OccursAt(x, "bar", 0) by {
      assert x[0..3][0] == 'f';
    }
    assert !OccursAt(x, "bar", 1) by {
      assert x[1..4][0] == 'o';
    }
    assert !OccursAt(x, "bar", 2) by {
      assert x[2..5][0] == 'o';
    }
    IndexOfFromFirst(x, "bar", 0, 3);
    assert x[..3] + x[6..] == "fooquux";
  }

  /** The test's string negation: `-"pizza"` is `"azzip"`. */
  lemma ReverseExample()
    ensures Reverse("pizza") == "azzip"
  {
    ReverseAt("pizza");
  }

  // ---------------------------------------------------------------- the overload registry

  const ArithmeticPlusClass: ClassName := "org.apache.commons.jexl3.ArithmeticTest$ArithmeticPlus"
  const VarClass: ClassName := "org.apache.commons.jexl3.ArithmeticTest$Var"
  const StringClass: ClassName := "java.lang.String"
  const IntegerClass: ClassName := "java.lang.Integer"
  const BooleanType: ClassName := "boolean"

  /** A public method declared by `ArithmeticPlus`. */
  function Declared(name: string, params: seq<ClassName>, result: ClassName): Method {
    Method(ArithmeticPlusClass, name, params, result)
  }

  /** The methods `ArithmeticPlus` declares under each name (none under any other name). */
  function ArithmeticPlusMethods(c: ClassName, name: string): Option<seq<Method>> {
    if c != ArithmeticPlusClass then None
    else if name in {"equals", "lessThan", "lessThanOrEqual", "greaterThan", "greaterThanOrEqual"} then
      Some([Declared(name, [VarClass, VarClass], BooleanType)])
    else if name in {"add", "divide", "multiply", "mod", "bitwiseAnd", "bitwiseOr", "bitwiseXor"} then
      Some([Declared(name, [VarClass, VarClass], VarClass)])
    else if name == "subtract" then
      Some([Declared(name, [VarClass, VarClass], VarClass), Declared(name, [StringClass, StringClass], ObjectClass)])
    else if name == "negate" then
      Some([Declared(name, [VarClass], VarClass), Declared(name, [StringClass], ObjectClass)])
    else if name == "bitwiseComplement" then
      Some([Declared(name, [VarClass], VarClass)])
    else None
  }

  /** The registry marks each operator overloaded for `ArithmeticPlus`: its first method takes `Var`s. */
  lemma ArithmeticPlusOverloads(op: Operator)
    ensures op in OverloadSet(ArithmeticPlusMethods, ArithmeticPlusClass)
  {
    OperatorTable(op);
    var ms := ArithmeticPlusMethods(ArithmeticPlusClass, MethodName(op));
    assert ms.Some? && |ms.value| >= 1;
    assert ms.value[0].parameterTypes[0] == VarClass;
    assert IsOverload(ms.value[0], op);
  }

  // ---------------------------------------------------------------- dispatch

  /** A live operand of a script operator. */
  datatype Operand = IntOperand(i: Int32) | StringOperand(s: string) | VarOperand(v: Var) | BoolOperand(b: bool)

  /** `getClass()` of the operand. */
  function RuntimeClass(o: Operand): ClassName {
    match o
    case IntOperand(_) => IntegerClass
    case StringOperand(_) => StringClass
    case VarOperand(_) => VarClass
    case BoolOperand(_) => "java.lang.Boolean"
  }

  function RuntimeClasses(operands: seq<Operand>): seq<ClassName> {
    seq(|operands|, k requires 0 <= k < |operands| => RuntimeClass(operands[k]))
  }

  /** The first method of the list whose parameter types are exactly the operands' classes. */
  function FindExact(ms: seq<Method>, classes: seq<ClassName>): (m: Option<Method>)
    ensures m.Some? ==> m.value in ms && m.value.parameterTypes == classes
    ensures m.None? ==> forall k :: 0 <= k < |ms| ==> ms[k].parameterTypes != classes
  {
    if ms == [] then None
    else if ms[0].parameterTypes == classes then Some(ms[0])
    else FindExact(ms[1..], classes)
  }

  /**
   * The method of `ArithmeticPlus` chosen for the operands' runtime classes,
   * as the method resolution of `getOperator` finds it for the operands the
   * test passes (their classes match a declared signature exactly, or none).
   */
  function DiscoverOverload(name: string, operands: seq<Operand>): Option<Method> {
    match ArithmeticPlusMethods(ArithmeticPlusClass, name)
    case None => None
    case Some(ms) => FindExact(ms, RuntimeClasses(operands))
  }

  /** The result of a script operator. */
  datatype Evaluation =
    | Overloaded(result: Operand)    // an `ArithmeticPlus` method computed it
    | DivisionByZero                 // the method threw `ArithmeticException`
    | DefaultArithmetic              // no overload applies; the inherited arithmetic decides

  /** The `Var` form of a binary operator's method, applied to two `Var`s. */
  function VarBinary(op: Operator, a: Var, b: Var): Evaluation
    requires Arity(op) == 2
  {
    match op
    case Eq => Overloaded(BoolOperand(Equals(a, b)))
    case Lt => Overloaded(BoolOperand(LessThan(a, b)))
    case Lte => Overloaded(BoolOperand(LessThanOrEqual(a, b)))
    case Gt => Overloaded(BoolOperand(GreaterThan(a, b)))
    case Gte => Overloaded(BoolOperand(GreaterThanOrEqual(a, b)))
    case Add => Overloaded(VarOperand(Add(a, b)))
    case Subtract => Overloaded(VarOperand(Subtract(a, b)))
    case Multiply => Overloaded(VarOperand(Multiply(a, b)))
    case Divide => if b.value == 0 then DivisionByZero else Overloaded(VarOperand(Divide(a, b)))
    case Mod => if b.value == 0 then DivisionByZero else Overloaded(VarOperand(ModAsWritten(a, b)))
    case BitwiseAnd => Overloaded(VarOperand(BitwiseAnd(a, b)))
    case BitwiseOr => Overloaded(VarOperand(BitwiseOr(a, b)))
    case BitwiseXor => Overloaded(VarOperand(BitwiseXor(a, b)))
  }

  /** The `Var` form of a unary operator's method, applied to a `Var`. */
  function VarUnary(op: Operator, a: Var): Evaluation
    requires Arity(op) == 1
  {
    if op == Operator.Negate then Overloaded(VarOperand(Negate(a)))
    else Overloaded(VarOperand(BitwiseComplement(a)))
  }

  /**
   * Calls the `ArithmeticPlus` method for `op` whose parameter types are the
   * operands' runtime classes: the `Var` form on two (or one) `Var`s, the
   * `String` form of `subtract` and `negate` on strings.
   */
  function Call(op: Operator, operands: seq<Operand>): (r: Evaluation)
    requires |operands| == Arity(op)
    ensures (forall k :: 0 <= k < |operands| ==> operands[k].VarOperand?) ==> r != DefaultArithmetic
    ensures r.Overloaded? && r.result.StringOperand? ==> op == Operator.Subtract || op == Operator.Negate
  {
    if Arity(op) == 2 && operands[0].VarOperand? && operands[1].VarOperand? then
      VarBinary(op, operands[0].v, operands[1].v)
    else if Arity(op) == 1 && operands[0].VarOperand? then
      VarUnary(op, operands[0].v)
    else if op == Operator.Subtract && operands[0].StringOperand? && operands[1].StringOperand? then
      Overloaded(StringOperand(SubtractStrings(operands[0].s, operands[1].s)))
    else if op == Operator.Negate && operands[0].StringOperand? then
      Overloaded(StringOperand(Reverse(operands[0].s)))
    else DefaultArithmetic
  }

  /**
   * A script operator applied to live operands with `ArithmeticPlus` as the
   * arithmetic: an overloaded operator is resolved afresh against the
   * operands' runtime classes on every call; without a matching method the
   * inherited arithmetic applies. The uberspect's prior test that the
   * arithmetic overloads the operator at all is `GetOperator`'s guard, and
   * `ArithmeticPlusOverloads` shows every operator passes it here.
   */
  function Dispatch(op: Operator, operands: seq<Operand>): Evaluation
    requires |operands| == Arity(op)
  {
    match DiscoverOverload(MethodName(op), operands)
      case None => DefaultArithmetic
      case Some(_) => Call(op, operands)
  }

  /**
   * Operands that are all `int`s match no signature `ArithmeticPlus`
   * declares, so every operator on them is left to the inherited arithmetic.
   */
  lemma DispatchIntegers(op: Operator, operands: seq<Operand>)
    requires |operands| == Arity(op) && forall k :: 0 <= k < |operands| ==> operands[k].IntOperand?
    ensures DiscoverOverload(MethodName(op), operands).None?
    ensures Dispatch(op, operands) == DefaultArithmetic
  {
    var classes := RuntimeClasses(operands);
    assert classes[0] == IntegerClass;
    assert IntegerClass != VarClass by {
      assert IntegerClass[0] != VarClass[0];
    }
    assert IntegerClass != StringClass by {
      assert IntegerClass[10] != StringClass[10];
    }
    var ms := ArithmeticPlusMethods(ArithmeticPlusClass, MethodName(op));
    if ms.Some? {
      forall k | 0 <= k < |ms.value| ensures ms.value[k].parameterTypes != classes {
        assert ms.value[k].parameterTypes[0] in {VarClass, StringClass};
      }
    }
  }

  /** Operands that are all `Var`s match the `Var` signature of an operator of their number. */
  lemma DiscoverVars(op: Operator, operands: seq<Operand>)
    requires |operands| == Arity(op) && forall k :: 0 <= k < |operands| ==> operands[k].VarOperand?
    ensures DiscoverOverload(MethodName(op), operands).Some?
  {
    OperatorTable(op);
    assert RuntimeClasses(operands) == if Arity(op) == 1 then [VarClass] else [VarClass, VarClass];
  }

  /** Strings match the `String` forms of `subtract` and `negate`. */
  lemma DiscoverStrings(x: string, y: string)
    ensures DiscoverOverload("subtract", [StringOperand(x), StringOperand(y)]).Some?
    ensures DiscoverOverload("negate", [StringOperand(x)]).Some?
  {
    assert VarClass != StringClass by {
      assert VarClass[0] != StringClass[0];
    }
    var subtracts := [Declared("subtract", [VarClass, VarClass], VarClass),
                      Declared("subtract", [StringClass, StringClass], ObjectClass)];
    assert ArithmeticPlusMethods(ArithmeticPlusClass, "subtract") == Some(subtracts);
    assert RuntimeClasses([StringOperand(x), StringOperand(y)]) == [StringClass, StringClass];
    assert subtracts[0].parameterTypes != [StringClass, StringClass];
    assert subtracts[1..] == [subtracts[1]];
    var negates := [Declared("negate", [VarClass], VarClass), Declared("negate", [StringClass], ObjectClass)];
    assert ArithmeticPlusMethods(ArithmeticPlusClass, "negate") == Some(negates);
    assert RuntimeClasses([StringOperand(x)]) == [StringClass];
    assert negates[0].parameterTypes != [StringClass];
    assert negates[1..] == [negates[1]];
  }

  /**
   * Within one script, `x - y` reaches the inherited arithmetic for `int`s,
   * `subtract(String, String)` for strings and `subtract(Var, Var)` for
   * `Var`s, whatever operands earlier calls had.
   */
  lemma DispatchSubtractByRuntimeType(i: Int32, j: Int32, x: string, y: string, a: Var, b: Var)
    ensures Dispatch(Operator.Subtract, [IntOperand(i), IntOperand(j)]) == DefaultArithmetic
    ensures Dispatch(Operator.Subtract, [StringOperand(x), StringOperand(y)]) ==
              Overloaded(StringOperand(SubtractStrings(x, y)))
    ensures Dispatch(Operator.Subtract, [VarOperand(a), VarOperand(b)]) == Overloaded(VarOperand(Subtract(a, b)))
  {
    DispatchIntegers(Operator.Subtract, [IntOperand(i), IntOperand(j)]);
    assert Dispatch(Operator.Subtract, [StringOperand(x), StringOperand(y)]) ==
           Overloaded(StringOperand(SubtractStrings(x, y))) by {
      DiscoverStrings(x, y);
    }
    DispatchVars(Operator.Subtract, a, b);
  }

  /** Likewise `-x` reaches the inherited arithmetic for an `int`, and the overloads for a `Var` and a string. */
  lemma DispatchNegateByRuntimeType(i: Int32, x: string, a: Var)
    ensures Dispatch(Operator.Negate, [IntOperand(i)]) == DefaultArithmetic
    ensures Dispatch(Operator.Negate, [VarOperand(a)]) == Overloaded(VarOperand(Negate(a)))
    ensures Dispatch(Operator.Negate, [StringOperand(x)]) == Overloaded(StringOperand(Reverse(x)))
  {
    assert Dispatch(Operator.Negate, [IntOperand(i)]) == DefaultArithmetic by {
      DispatchIntegers(Operator.Negate, [IntOperand(i)]);
    }
    assert Dispatch(Operator.Negate, [VarOperand(a)]) == Overloaded(VarOperand(Negate(a))) by {
      DiscoverVars(Operator.Negate, [VarOperand(a)]);
    }
    assert Dispatch(Operator.Negate, [StringOperand(x)]) == Overloaded(StringOperand(Reverse(x))) by {
      DiscoverStrings(x, x);
    }
  }

  /** A binary operator on two `Var`s reaches its `Var` overload. */
  lemma DispatchVars(op: Operator, a: Var, b: Var)
    requires Arity(op) == 2
    ensures Dispatch(op, [VarOperand(a), VarOperand(b)]) == VarBinary(op, a, b)
  {
    DiscoverVars(op, [VarOperand(a), VarOperand(b)]);
  }

  /** A unary operator on a `Var` reaches its `Var` overload. */
  lemma DispatchVar(op: Operator, a: Var)
    requires Arity(op) == 1
    ensures Dispatch(op, [VarOperand(a)]) == VarUnary(op, a)
  {
    DiscoverVars(op, [VarOperand(a)]);
  }

  /**
   * `x % y` on two `Var`s reaches `mod(Var, Var)`, which as written returns
   * what `x / y` returns: the quotient, not the remainder.
   */
  lemma DispatchModIsDivide(a: Var, b: Var)
    ensures Dispatch(Operator.Mod, [VarOperand(a), VarOperand(b)]) == Dispatch(Operator.Divide, [VarOperand(a), VarOperand(b)])
    ensures b.value != 0 ==> Dispatch(Operator.Mod, [VarOperand(a), VarOperand(b)]) == Overloaded(VarOperand(Divide(a, b)))
    ensures Dispatch(Operator.Mod, [VarOperand(Var(7)), VarOperand(Var(2))]) == Overloaded(VarOperand(Var(3)))
  {
    assert Dispatch(Operator.Mod, [VarOperand(a), VarOperand(b)]) == VarBinary(Operator.Mod, a, b) by {
      DispatchVars(Operator.Mod, a, b);
    }
    assert Dispatch(Operator.Divide, [VarOperand(a), VarOperand(b)]) == VarBinary(Operator.Divide, a, b) by {
      DispatchVars(Operator.Divide, a, b);
    }
    assert Dispatch(Operator.Mod, [VarOperand(Var(7)), VarOperand(Var(2))]) == Overloaded(VarOperand(Var(3))) by {
      DispatchVars(Operator.Mod, Var(7), Var(2));
      ModAsWrittenCounterexample();
    }
  }

  // ---------------------------------------------------------------- the runOverload expectations

  /** `x < y`: the inherited arithmetic for `int`s, `lessThan(Var, Var)` for `Var`s. */
  lemma RunOverloadLessThan()
    ensures Dispatch(Lt, [IntOperand(42), IntOperand(43)]) == DefaultArithmetic
    ensures Dispatch(Lt, [IntOperand(43), IntOperand(42)]) == DefaultArithmetic
    ensures Dispatch(Lt, [VarOperand(Var(42)), VarOperand(Var(43))]) == Overloaded(BoolOperand(true))
    ensures Dispatch(Lt, [VarOperand(Var(43)), VarOperand(Var(42))]) == Overloaded(BoolOperand(false))
  {
    assert Dispatch(Lt, [IntOperand(42), IntOperand(43)]) == DefaultArithmetic by {
      DispatchIntegers(Lt, [IntOperand(42), IntOperand(43)]);
    }
    assert Dispatch(Lt, [IntOperand(43), IntOperand(42)]) == DefaultArithmetic by {
      DispatchIntegers(Lt, [IntOperand(43), IntOperand(42)]);
    }
    assert Dispatch(Lt, [VarOperand(Var(42)), VarOperand(Var(43))]) == Overloaded(BoolOperand(true)) by {
      DispatchVars(Lt, Var(42), Var(43));
    }
    assert Dispatch(Lt, [VarOperand(Var(43)), VarOperand(Var(42))]) == Overloaded(BoolOperand(false)) by {
      DispatchVars(Lt, Var(43), Var(42));
    }
  }


  /** `x <= y`: the inherited arithmetic for `int`s, `lessThanOrEqual(Var, Var)` for `Var`s. */
  lemma RunOverloadLessThanOrEqual()
    ensures Dispatch(Lte, [IntOperand(42), IntOperand(43)]) == DefaultArithmetic
    ensures Dispatch(Lte, [IntOperand(43), IntOperand(42)]) == DefaultArithmetic
    ensures Dispatch(Lte, [VarOperand(Var(42)), VarOperand(Var(43))]) == Overloaded(BoolOperand(true))
    ensures Dispatch(Lte, [VarOperand(Var(41)), VarOperand(Var(44))]) == Overloaded(BoolOperand(true))
    ensures Dispatch(Lte, [VarOperand(Var(45)), VarOperand(Var(40))]) == Overloaded(BoolOperand(false))
    ensures Dispatch(Lte, [VarOperand(Var(46)), VarOperand(Var(39))]) == Overloaded(BoolOperand(false))
  {
    assert Dispatch(Lte, [IntOperand(42), IntOperand(43)]) == DefaultArithmetic by {
      DispatchIntegers(Lte, [IntOperand(42), IntOperand(43)]);
    }
    assert Dispatch(Lte, [IntOperand(43), IntOperand(42)]) == DefaultArithmetic by {
      DispatchIntegers(Lte, [IntOperand(43), IntOperand(42)]);
    }
    assert Dispatch(Lte, [VarOperand(Var(42)), VarOperand(Var(43))]) == Overloaded(BoolOperand(true)) by {
      DispatchVars(Lte, Var(42), Var(43));
    }
    assert Dispatch(Lte, [VarOperand(Var(41)), VarOperand(Var(44))]) == Overloaded(BoolOperand(true)) by {
      DispatchVars(Lte, Var(41), Var(44));
    }
    assert Dispatch(Lte, [VarOperand(Var(45)), VarOperand(Var(40))]) == Overloaded(BoolOperand(false)) by {
      DispatchVars(Lte, Var(45), Var(40));
    }
    assert Dispatch(Lte, [VarOperand(Var(46)), VarOperand(Var(39))]) == Overloaded(BoolOperand(false)) by {
      DispatchVars(Lte, Var(46), Var(39));
    }
  }

  /** `x == y`: the inherited arithmetic for `int`s, `equals(Var, Var)` for `Var`s. */
  lemma RunOverloadEquals()
    ensures Dispatch(Eq, [IntOperand(42), IntOperand(43)]) == DefaultArithmetic
    ensures Dispatch(Eq, [IntOperand(43), IntOperand(42)]) == DefaultArithmetic
    ensures Dispatch(Eq, [VarOperand(Var(42)), VarOperand(Var(43))]) == Overloaded(BoolOperand(false))
    ensures Dispatch(Eq, [VarOperand(Var(41)), VarOperand(Var(44))]) == Overloaded(BoolOperand(false))
    ensures Dispatch(Eq, [VarOperand(Var(45)), VarOperand(Var(40))]) == Overloaded(BoolOperand(false))
    ensures Dispatch(Eq, [VarOperand(Var(46)), VarOperand(Var(39))]) == Overloaded(BoolOperand(false))
  {
    assert Dispatch(Eq, [IntOperand(42), IntOperand(43)]) == DefaultArithmetic by {
      DispatchIntegers(Eq, [IntOperand(42), IntOperand(43)]);
    }
    assert Dispatch(Eq, [IntOperand(43), IntOperand(42)]) == DefaultArithmetic by {
      DispatchIntegers(Eq, [IntOperand(43), IntOperand(42)]);
    }
    forall a: int, b: int | -TwoTo31 <= a < TwoTo31 && -TwoTo31 <= b < TwoTo31 && a != b
      ensures Dispatch(Eq, [VarOperand(Var(a)), VarOperand(Var(b))]) == Overloaded(BoolOperand(false))
    {
      DispatchVars(Eq, Var(a), Var(b));
    }
  }

  /**
   * `x % y`: the inherited arithmetic for `int`s; on `Var(4242)` and
   * `Var(100)` the as-written `mod` gives 42, the value the test expects,
   * which the remainder would give as well.
   */
  lemma RunOverloadMod()
    ensures Dispatch(Operator.Mod, [IntOperand(4242), IntOperand(100)]) == DefaultArithmetic
    ensures Dispatch(Operator.Mod, [VarOperand(Var(4242)), VarOperand(Var(100))]) == Overloaded(VarOperand(Var(42)))
  {
    assert Dispatch(Operator.Mod, [IntOperand(4242), IntOperand(100)]) == DefaultArithmetic by {
      DispatchIntegers(Operator.Mod, [IntOperand(4242), IntOperand(100)]);
    }
    assert Dispatch(Operator.Mod, [VarOperand(Var(4242)), VarOperand(Var(100))]) == Overloaded(VarOperand(Var(42))) by {
      DispatchVars(Operator.Mod, Var(4242), Var(100));
      ModAsWrittenCounterexample();
    }
  }


  /** `x * y`: the inherited arithmetic for `int`s, `multiply(Var, Var)` for `Var`s. */
  lemma RunOverloadMultiply()
    ensures Dispatch(Operator.Multiply, [IntOperand(6), IntOperand(7)]) == DefaultArithmetic
    ensures Dispatch(Operator.Multiply, [VarOperand(Var(6)), VarOperand(Var(7))]) == Overloaded(VarOperand(Var(42)))
  {
    assert Dispatch(Operator.Multiply, [IntOperand(6), IntOperand(7)]) == DefaultArithmetic by {
      DispatchIntegers(Operator.Multiply, [IntOperand(6), IntOperand(7)]);
    }
    assert Dispatch(Operator.Multiply, [VarOperand(Var(6)), VarOperand(Var(7))]) == Overloaded(VarOperand(Var(42))) by {
      DispatchVars(Operator.Multiply, Var(6), Var(7));
    }
  }


  /** `x + y`: the inherited arithmetic for `int`s, `add(Var, Var)` for `Var`s. */
  lemma RunOverloadAdd()
    ensures Dispatch(Operator.Add, [IntOperand(35), IntOperand(7)]) == DefaultArithmetic
    ensures Dispatch(Operator.Add, [VarOperand(Var(35)), VarOperand(Var(7))]) == Overloaded(VarOperand(Var(42)))
  {
    assert Dispatch(Operator.Add, [IntOperand(35), IntOperand(7)]) == DefaultArithmetic by {
      DispatchIntegers(Operator.Add, [IntOperand(35), IntOperand(7)]);
    }
    assert Dispatch(Operator.Add, [VarOperand(Var(35)), VarOperand(Var(7))]) == Overloaded(VarOperand(Var(42))) by {
      DispatchVars(Operator.Add, Var(35), Var(7));
    }
  }


  /** `x - y`: `int`s go to the inherited arithmetic, strings and `Var`s to their overloads. */
  lemma RunOverloadSubtract()
    ensures Dispatch(Operator.Subtract, [IntOperand(49), IntOperand(7)]) == DefaultArithmetic
    ensures Dispatch(Operator.Subtract, [IntOperand(50), IntOperand(8)]) == DefaultArithmetic
    ensures Dispatch(Operator.Subtract, [StringOperand("foobarquux"), StringOperand("bar")]) ==
              Overloaded(StringOperand("fooquux"))
    ensures Dispatch(Operator.Subtract, [VarOperand(Var(50)), VarOperand(Var(8))]) == Overloaded(VarOperand(Var(42)))
  {
    SubtractExample();
    assert Dispatch(Operator.Subtract, [IntOperand(50), IntOperand(8)]) == DefaultArithmetic by {
      DispatchIntegers(Operator.Subtract, [IntOperand(50), IntOperand(8)]);
    }
    DispatchSubtractByRuntimeType(49, 7, "foobarquux", "bar", Var(50), Var(8));
  }

  /** `-x`: `int`s go to the inherited arithmetic, `Var`s and strings to their overloads. */
  lemma RunOverloadNegate()
    ensures Dispatch(Operator.Negate, [IntOperand(-42)]) == DefaultArithmetic
    ensures Dispatch(Operator.Negate, [VarOperand(Var(-42))]) == Overloaded(VarOperand(Var(42)))
    ensures Dispatch(Operator.Negate, [StringOperand("pizza")]) == Overloaded(StringOperand("azzip"))
    ensures Dispatch(Operator.Negate, [IntOperand(-142)]) == DefaultArithmetic
  {
    assert Dispatch(Operator.Negate, [IntOperand(-142)]) == DefaultArithmetic by {
      DispatchIntegers(Operator.Negate, [IntOperand(-142)]);
    }
    ReverseExample();
    DispatchNegateByRuntimeType(-42, "pizza", Var(-42));
  }
}
