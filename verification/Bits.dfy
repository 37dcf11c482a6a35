/** Shifts and bitwise operators on unbounded integers, as Python has them. */
module Bits {

  function Pow2(n: nat): (r: nat)
    ensures r > 0
  {
    if n == 0 then 1 else 2 * Pow2(n - 1)
  }

  function ShiftLeft(x: nat, n: nat): nat {
    x * Pow2(n)
  }

  function BitOr(a: nat, b: nat): nat
    decreases a + b
  {
    if a == 0 && b == 0 then 0
    else (if a % 2 == 1 || b % 2 == 1 then 1 else 0) + 2 * BitOr(a / 2, b / 2)
  }

  /** `x` may be negative: it then stands for an infinite run of leading ones. */
  function BitAnd(x: int, mask: nat): nat
    decreases mask
  {
    if mask == 0 then 0 else (if x % 2 == 1 && mask % 2 == 1 then 1 else 0) + 2 * BitAnd(x / 2, mask / 2)
  }

  lemma {:induction false} Pow2Add(m: nat, n: nat)
    ensures Pow2(m + n) == Pow2(m) * Pow2(n)
  {
    if m > 0 {
      Pow2Add(m - 1, n);
      assert Pow2(m + n) == 2 * (Pow2(m - 1) * Pow2(n));
    }
  }

  lemma {:induction false} Pow2Monotone(m: nat, n: nat)
    requires m <= n
    ensures Pow2(m) <= Pow2(n)
  {
    if m < n {
      Pow2Monotone(m, n - 1);
    }
  }

  lemma {:induction false} OrZero(b: nat)
    ensures BitOr(0, b) == b
  {
    if b > 0 {
      OrZero(b / 2);
    }
  }

  /** Or-ing into bits that are still clear is addition. */
  lemma {:induction false} OrDisjoint(a: nat, b: nat, n: nat)
    requires a < Pow2(n)
    ensures BitOr(a, ShiftLeft(b, n)) == a + ShiftLeft(b, n)
  {
    if n == 0 {
      OrZero(b);
    } else {
      var h := ShiftLeft(b, n - 1);
      assert ShiftLeft(b, n) == 2 * h;
      OrDisjoint(a / 2, b, n - 1);
      if a != 0 || h != 0 {
        assert BitOr(a, 2 * h) == a % 2 + 2 * BitOr(a / 2, h);
      }
    }
  }

  /** Masking with n ones keeps the value modulo 2^n, for negative numbers too. */
  lemma {:induction false} AndMask(x: int, n: nat)
    ensures BitAnd(x, Pow2(n) - 1) == x % Pow2(n)
    decreases n
  {
    if n == 0 {
      assert x % 1 == 0;
    } else {
      hide BitAnd;
      AndMask(x / 2, n - 1);
      AndMaskStep(x, Pow2(n - 1), Pow2(n));
    }
  }

  lemma AndMaskStep(x: int, p: nat, q: nat)
    requires p > 0 && q == 2 * p && BitAnd(x / 2, p - 1) == (x / 2) % p
    ensures BitAnd(x, q - 1) == x % q
  {
    hide BitAnd;
    AndOdd(x, p - 1);
    assert q - 1 == 2 * (p - 1) + 1;
    ModHalf(x, p);
  }

  /** A mask with the lowest bit set keeps the lowest bit. */
  lemma AndOdd(x: int, k: nat)
    ensures BitAnd(x, 2 * k + 1) == x % 2 + 2 * BitAnd(x / 2, k)
  {
    assert (2 * k + 1) / 2 == k && (2 * k + 1) % 2 == 1;
  }

  lemma ModHalf(x: int, p: nat)
    requires p > 0
    ensures x % (2 * p) == x % 2 + 2 * ((x / 2) % p)
  {
    var q, r := (x / 2) / p, (x / 2) % p;
    assert x / 2 == q * p + r;
    ModUnique(x, 2 * p, q, x % 2 + 2 * r);
  }

  lemma ModUnique(x: int, d: nat, q: int, r: int)
    requires d > 0 && 0 <= r < d && x == q * d + r
    ensures x / d == q && x % d == r
  {
    var e := x / d - q;
    assert x % d == r - e * d;
    assert e >= 1 ==> e * d >= d;
    assert e <= -1 ==> e * d <= 0 - d;
  }
}
