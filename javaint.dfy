/**
 * Java's 32-bit `int`: wrap-around on overflow, division truncating toward
 * zero, and the bitwise operators on the two's-complement representation.
 */
module JavaInt {

  const TwoTo31: int := 0x8000_0000
  const TwoTo32: int := 0x1_0000_0000

  /** A Java `int` value. */
  type Int32 = x: int | -0x8000_0000 <= x < 0x8000_0000

  /** The `int` that a mathematical integer wraps around to. */
  function Wrap(x: int): (r: Int32)
    ensures (r - x) % TwoTo32 == 0
    ensures -TwoTo31 <= x < TwoTo31 ==> r == x
  {
    var m := x % TwoTo32;
    if m < TwoTo31 then m else m - TwoTo32
  }

  function Abs(x: int): nat {
    if x < 0 then -x else x
  }

  /**
   * The exact quotient rounded toward zero, as Java's `/` computes it; the
   * one quotient that leaves the `int` range, the least `int` divided by -1,
   * is wrapped by the caller.
   */
  function TruncDiv(a: int, b: int): int
    requires b != 0
  {
    if (a < 0) == (b < 0) then Abs(a) / Abs(b) else -(Abs(a) / Abs(b))
  }

  /** Java's `%`: the remainder of the magnitudes, with the sign of the dividend. */
  function TruncRem(a: int, b: int): (r: int)
    requires b != 0
    ensures Abs(r) < Abs(b)
    ensures a >= 0 ==> r >= 0
    ensures a <= 0 ==> r <= 0
  {
    if a >= 0 then Abs(a) % Abs(b) else -(Abs(a) % Abs(b))
  }

  /** Java's `(a / b) * b + a % b == a`, for the unbounded operators. */
  lemma {:induction false} DivRemIdentity(a: int, b: int)
    requires b != 0
    ensures b * TruncDiv(a, b) + TruncRem(a, b) == a
  {
    var A, B := Abs(a), Abs(b);
    var q: int := A / B;
    var m: int := A % B;
    var bq: int := B * q;
    assert A == bq + m;
    if b < 0 {
      assert b * q == -bq by { assert b == -B; }
      assert b * -q == bq by { assert b == -B; }
    } else {
      assert b * q == bq;
      assert b * -q == -bq;
    }
  }

  /** The rounded-toward-zero quotient of two `int`s is an `int`, except for the least `int` divided by -1. */
  lemma TruncDivInRange(a: Int32, b: Int32)
    requires b != 0 && !(a == -TwoTo31 && b == -1)
    ensures -TwoTo31 <= TruncDiv(a, b) < TwoTo31
  {
    var A, B := Abs(a), Abs(b);
    var q := A / B;
    assert TruncDiv(a, b) == q || TruncDiv(a, b) == -q;
    assert A <= TwoTo31;
    if B == 1 {
      assert q == A;
      if b == -1 {
        assert A < TwoTo31;
      } else {
        assert TruncDiv(a, b) == a;
      }
    } else {
      QuotientBound(A, B);
      assert q <= TwoTo31 / 2;
    }
  }

  /** Dividing by at least two at least halves. */
  lemma QuotientBound(A: nat, B: nat)
    requires B >= 2
    ensures 2 * (A / B) <= A
  {
    var q := A / B;
    assert A == q * B + A % B;
    assert q * B >= q * 2;
  }

  function Pow2(n: nat): (p: nat)
    ensures p >= 1
  {
    if n == 0 then 1 else 2 * Pow2(n - 1)
  }

  lemma {:induction false} Pow2Add(m: nat, n: nat)
    ensures Pow2(m + n) == Pow2(m) * Pow2(n)
  {
    if n > 0 {
      Pow2Add(m, n - 1);
      assert Pow2(m + n) == 2 * Pow2(m + n - 1);
    }
  }

  /** Thirty-two bits hold exactly the values below 2^32. */
  lemma Pow2Of32()
    ensures Pow2(32) == TwoTo32
  {
    assert Pow2(2) == 4;
    Pow2Add(2, 2);
    Pow2Add(4, 4);
    Pow2Add(8, 8);
    Pow2Add(16, 16);
  }

  /** The unsigned reading of an `int`'s 32 bits. */
  function Unsigned(x: Int32): (u: nat)
    ensures u < TwoTo32
    ensures (u - x) % TwoTo32 == 0
  {
    if x < 0 then x + TwoTo32 else x
  }

  /** The `int` whose 32 bits read as `u`. */
  function Signed(u: nat): (x: Int32)
    requires u < TwoTo32
    ensures Unsigned(x) == u
  {
    if u < TwoTo31 then u else u - TwoTo32
  }

  /** The bitwise operators `&`, `|` and `^`. */
  datatype BitOp = And | Or | Xor

  function CombineBits(op: BitOp, x: bool, y: bool): bool {
    match op
    case And => x && y
    case Or => x || y
    case Xor => x != y
  }

  /** Bit `k` of `u`, counting from the lowest. */
  predicate BitSet(u: nat, k: nat) {
    (u / Pow2(k)) % 2 == 1
  }

  /** `x == q * d + s` with `0 <= s < d` fixes the quotient. */
  lemma DivUnique(x: nat, d: nat, q: nat, s: nat)
    requires d > 0 && x == q * d + s && s < d
    ensures x / d == q
  {
    var t := x / d - q;
    assert t * d == s - x % d;
    if t >= 1 {
      assert false;
    } else if t <= -1 {
      assert false;
    }
  }

  /** Bit 0 is the parity. */
  lemma BitZero(x: nat)
    ensures BitSet(x, 0) <==> x % 2 == 1
  {
    assert Pow2(0) == 1;
  }

  /** Bit `k` of `x` is bit `k - 1` of `x / 2`. */
  lemma BitOfHalf(x: nat, k: nat)
    requires k >= 1
    ensures BitSet(x, k) == BitSet(x / 2, k - 1)
  {
    var d := Pow2(k - 1);
    var q := (x / 2) / d;
    var s := (x / 2) % d;
    assert x / 2 == q * d + s;
    assert x == q * (2 * d) + (2 * s + x % 2);
    DivUnique(x, 2 * d, q, 2 * s + x % 2);
  }

  /** `op` applied to the low `n` bits of `a` and `b`, one bit at a time from the lowest. */
  function Bitwise(op: BitOp, a: nat, b: nat, n: nat): (r: nat)
    ensures r < Pow2(n)
  {
    if n == 0 then 0
    else 2 * Bitwise(op, a / 2, b / 2, n - 1) + (if CombineBits(op, a % 2 == 1, b % 2 == 1) then 1 else 0)
  }

  /** Each of the low `n` bits of the result is `op` applied to the same bit of the operands. */
  lemma {:induction false} BitwiseBit(op: BitOp, a: nat, b: nat, n: nat, k: nat)
    requires k < n
    ensures BitSet(Bitwise(op, a, b, n), k) <==> CombineBits(op, BitSet(a, k), BitSet(b, k))
  {
    var r := Bitwise(op, a, b, n);
    var r' := Bitwise(op, a / 2, b / 2, n - 1);
    assert r == 2 * r' + (if CombineBits(op, a % 2 == 1, b % 2 == 1) then 1 else 0);
    if k == 0 {
      BitZero(r);
      BitZero(a);
      BitZero(b);
    } else {
      BitwiseBit(op, a / 2, b / 2, n - 1, k - 1);
      BitOfHalf(r, k);
      BitOfHalf(a, k);
      BitOfHalf(b, k);
      assert r / 2 == r';
    }
  }

  /** Java's `lhs op rhs` on two `int`s: every one of the 32 bits combined by `op`. */
  function IntBitwise(op: BitOp, lhs: Int32, rhs: Int32): (r: Int32)
    ensures forall k :: 0 <= k < 32 ==>
              (BitSet(Unsigned(r), k) <==> CombineBits(op, BitSet(Unsigned(lhs), k), BitSet(Unsigned(rhs), k)))
  {
    Pow2Of32();
    var u := Bitwise(op, Unsigned(lhs), Unsigned(rhs), 32);
    assert forall k :: 0 <= k < 32 ==>
             (BitSet(u, k) <==> CombineBits(op, BitSet(Unsigned(lhs), k), BitSet(Unsigned(rhs), k))) by {
      forall k | 0 <= k < 32
        ensures BitSet(u, k) <==> CombineBits(op, BitSet(Unsigned(lhs), k), BitSet(Unsigned(rhs), k))
      {
        BitwiseBit(op, Unsigned(lhs), Unsigned(rhs), 32, k);
      }
    }
    Signed(u)
  }

  /** `Pow2(n) - 1 - u` has exactly the low `n` bits that `u` lacks. */
  lemma {:induction false} ComplementBit(u: nat, n: nat, k: nat)
    requires u < Pow2(n) && k < n
    ensures BitSet(Pow2(n) - 1 - u, k) <==> !BitSet(u, k)
  {
    var v := Pow2(n) - 1 - u;
    var h := Pow2(n - 1);
    assert v == 2 * (h - 1 - u / 2) + (1 - u % 2);
    if k > 0 {
      assert v / 2 == h - 1 - u / 2;
      ComplementBit(u / 2, n - 1, k - 1);
      BitOfHalf(v, k);
      BitOfHalf(u, k);
    }
  }

  /** Java's `~x` on an `int`: every one of the 32 bits flipped. */
  function IntComplement(x: Int32): (r: Int32)
    ensures forall k :: 0 <= k < 32 ==> (BitSet(Unsigned(r), k) <==> !BitSet(Unsigned(x), k))
  {
    Pow2Of32();
    var r: Int32 := -(x as int) - 1;
    assert Unsigned(r) == Pow2(32) - 1 - Unsigned(x);
    assert forall k :: 0 <= k < 32 ==> (BitSet(Unsigned(r), k) <==> !BitSet(Unsigned(x), k)) by {
      forall k | 0 <= k < 32 ensures BitSet(Unsigned(r), k) <==> !BitSet(Unsigned(x), k) {
        ComplementBit(Unsigned(x), 32, k);
      }
    }
    r
  }

  /** `^` with the same operand twice undoes itself: `(a ^ b) ^ b == a` on `n`-bit values. */
  lemma {:induction false} XorTwice(a: nat, b: nat, n: nat)
    requires a < Pow2(n)
    ensures Bitwise(Xor, Bitwise(Xor, a, b, n), b, n) == a
  {
    if n > 0 {
      var c := Bitwise(Xor, a, b, n);
      var c' := Bitwise(Xor, a / 2, b / 2, n - 1);
      assert c / 2 == c' && c % 2 == (if (a % 2 == 1) != (b % 2 == 1) then 1 else 0);
      XorTwice(a / 2, b / 2, n - 1);
    }
  }

  /** `&` and `|` of a value with itself give the value back, on `n`-bit values. */
  lemma {:induction false} AndOrIdempotent(a: nat, n: nat)
    requires a < Pow2(n)
    ensures Bitwise(And, a, a, n) == a && Bitwise(Or, a, a, n) == a
  {
    if n > 0 {
      AndOrIdempotent(a / 2, n - 1);
    }
  }

  /** On `int`s: `(x ^ y) ^ y == x`, `x & x == x` and `x | x == x`. */
  lemma IntBitwiseLaws(x: Int32, y: Int32)
    ensures IntBitwise(Xor, IntBitwise(Xor, x, y), y) == x
    ensures IntBitwise(And, x, x) == x && IntBitwise(Or, x, x) == x
  {
    Pow2Of32();
    XorTwice(Unsigned(x), Unsigned(y), 32);
    AndOrIdempotent(Unsigned(x), 32);
  }
}
