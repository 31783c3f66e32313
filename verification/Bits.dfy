/** Bitwise operations on unsigned integers, written arithmetically. */
module Bits {

  function Pow2(k: nat): (p: nat)
    ensures p > 0
  {
    if k == 0 then 1 else 2 * Pow2(k - 1)
  }

  /** Exclusive or of the low `n` bits. */
  function Xor(a: nat, b: nat, n: nat): (x: nat)
    ensures x < Pow2(n)
  {
    if n == 0 then 0 else (a + b) % 2 + 2 * Xor(a / 2, b / 2, n - 1)
  }

  lemma {:induction false} XorUndo(a: nat, b: nat, n: nat)
    requires a < Pow2(n)
    ensures Xor(Xor(a, b, n), b, n) == a
  {
    if n != 0 {
      var rest := Xor(a / 2, b / 2, n - 1);
      var x := (a + b) % 2 + 2 * rest;
      assert x / 2 == rest && (x + b) % 2 == a % 2;
      XorUndo(a / 2, b / 2, n - 1);
    }
  }

  /** Inclusive or of two unsigned integers. */
  function Or(a: nat, b: nat): nat
    decreases a + b
  {
    if a == 0 then b
    else if b == 0 then a
    else (if a % 2 == 1 || b % 2 == 1 then 1 else 0) + 2 * Or(a / 2, b / 2)
  }

  /** Fields that do not overlap are added: `a` fills the low `k` bits and `b` leaves them clear. */
  lemma {:induction false} OrDisjoint(a: nat, b: nat, k: nat)
    requires a < Pow2(k)
    ensures Or(a, b * Pow2(k)) == a + b * Pow2(k)
  {
    if a != 0 && b != 0 {
      assert b * Pow2(k) == 2 * (b * Pow2(k - 1));
      OrDisjoint(a / 2, b, k - 1);
    }
  }

  /** `x & (1 << k) != 0`. */
  predicate HasBit(x: nat, k: nat) {
    x / Pow2(k) % 2 == 1
  }

  /** `x | (1 << k)`. */
  function SetBit(x: nat, k: nat): nat {
    if HasBit(x, k) then x else x + Pow2(k)
  }

  /** `x &^ (1 << k)`. */
  function ClearBit(x: nat, k: nat): nat {
    if HasBit(x, k) then x - Pow2(k) else x
  }

  lemma ClearUndoesSet(x: nat, k: nat)
    ensures ClearBit(SetBit(x, k), k) == ClearBit(x, k)
  {
    if !HasBit(x, k) {
      OneMoreTurn(x, Pow2(k));
    }
  }

  lemma OneMoreTurn(x: nat, p: nat)
    requires p > 0
    ensures (x + p) / p == x / p + 1
  {
    assert x + p == (x / p + 1) * p + x % p;
    DivUnique(x + p, p, x / p + 1, x % p);
  }

  lemma DivUnique(n: nat, size: nat, q: nat, r: nat)
    requires n == q * size + r && r < size
    ensures n / size == q && n % size == r
  {
    var d := n / size - q;
    assert d * size == r - n % size;
    assert d >= 1 ==> d * size >= size;
    assert d <= -1 ==> d * size + size <= 0;
  }

  lemma DivDiv(n: nat, a: nat, b: nat)
    requires a > 0 && b > 0
    ensures a * b > 0 && n / a / b == n / (a * b)
  {
    DivMod(n, a);
    DivMod(n / a, b);
    Digits(n / a / b, b, n / a % b, a, n % a);
    DivUnique(n, a * b, n / a / b, n / a % b * a + n % a);
  }

  lemma DivMod(n: nat, a: nat)
    requires a > 0
    ensures n / a >= 0 && n == n / a * a + n % a && 0 <= n % a < a
  {
  }

  /** A number in mixed radix. */
  lemma Digits(q: nat, b: nat, r: nat, a: nat, s: nat)
    requires r < b && s < a
    ensures a * b > 0 && (q * b + r) * a + s == q * (a * b) + (r * a + s) && 0 <= r * a + s < a * b
  {
    assert (r + 1) * a <= b * a;
  }

  // ---------- bit by bit ----------

  lemma HasBitHalf(x: nat, k: nat)
    requires k > 0
    ensures HasBit(x, k) <==> HasBit(x / 2, k - 1)
  {
    var p := Pow2(k - 1);
    var q, r := x / 2 / p, x / 2 % p;
    assert x / 2 == q * p + r && x == 2 * (x / 2) + x % 2;
    assert x == q * (2 * p) + (2 * r + x % 2);
    DivUnique(x, 2 * p, q, 2 * r + x % 2);
  }

  lemma HasBitOfSum(low: nat, high: nat, k: nat)
    requires low < 2
    ensures HasBit(low + 2 * high, k) <==> if k == 0 then low == 1 else HasBit(high, k - 1)
  {
    if k > 0 {
      HasBitHalf(low + 2 * high, k);
    }
  }

  lemma LowBits(a: nat, b: nat)
    ensures HasBit(a, 0) <==> a % 2 == 1
    ensures HasBit(b, 0) <==> b % 2 == 1
    ensures (a + b) % 2 == 1 <==> (a % 2 == 1) != (b % 2 == 1)
  {
    assert Pow2(0) == 1;
    var ra, rb := a % 2, b % 2;
    assert a == 2 * (a / 2) + ra && b == 2 * (b / 2) + rb;
    assert a + b == 2 * (a / 2 + b / 2) + (ra + rb);
  }

  /** A bit of the exclusive or is set exactly when the two numbers differ in it. */
  lemma {:induction false} XorBits(a: nat, b: nat, n: nat, k: nat)
    requires k < n
    ensures HasBit(Xor(a, b, n), k) <==> HasBit(a, k) != HasBit(b, k)
  {
    HasBitOfSum((a + b) % 2, Xor(a / 2, b / 2, n - 1), k);
    if k == 0 {
      LowBits(a, b);
    } else {
      XorBits(a / 2, b / 2, n - 1, k - 1);
      HasBitHalf(a, k);
      HasBitHalf(b, k);
    }
  }

  /** A bit of the inclusive or is set exactly when it is set in one of the numbers. */
  lemma {:induction false} OrBits(a: nat, b: nat, k: nat)
    ensures HasBit(Or(a, b), k) <==> HasBit(a, k) || HasBit(b, k)
    decreases a + b
  {
    if a == 0 || b == 0 {
      ZeroHasNoBits(k);
    } else {
      HasBitOfSum(if a % 2 == 1 || b % 2 == 1 then 1 else 0, Or(a / 2, b / 2), k);
      if k > 0 {
        OrBits(a / 2, b / 2, k - 1);
        HasBitHalf(a, k);
        HasBitHalf(b, k);
      }
    }
  }

  lemma ZeroHasNoBits(k: nat)
    ensures !HasBit(0, k)
  {
    DivUnique(0, Pow2(k), 0, 0);
  }

  lemma {:induction false} XorCommutes(a: nat, b: nat, n: nat)
    ensures Xor(a, b, n) == Xor(b, a, n)
  {
    if n > 0 {
      XorCommutes(a / 2, b / 2, n - 1);
    }
  }

  lemma {:induction false} XorWithZero(b: nat, n: nat)
    requires b < Pow2(n)
    ensures Xor(0, b, n) == b
  {
    if n > 0 {
      XorWithZero(b / 2, n - 1);
    }
  }
}
