/** Powers of two and bitwise operations on natural numbers. */
module Bits {
  function Pow2(n: nat): (r: nat)
    ensures r > 0
  {
    if n == 0 then 1 else 2 * Pow2(n - 1)
  }

  lemma {:induction false} Pow2Adds(a: nat, b: nat)
    ensures Pow2(a + b) == Pow2(a) * Pow2(b)
  {
    if a > 0 {
      Pow2Adds(a - 1, b);
    }
  }

  lemma {:induction false} Pow2Monotone(a: nat, b: nat)
    requires a <= b
    ensures 0 < Pow2(a) <= Pow2(b)
    decreases b
  {
    if b > 0 {
      Pow2Monotone(if a < b then a else a - 1, b - 1);
    }
  }

  function Or(a: nat, b: nat): nat
    decreases a
  {
    if a == 0 then b else 2 * Or(a / 2, b / 2) + if a % 2 == 1 || b % 2 == 1 then 1 else 0
  }

  function And(a: nat, b: nat): nat
    decreases a
  {
    if a == 0 then 0 else 2 * And(a / 2, b / 2) + if a % 2 == 1 && b % 2 == 1 then 1 else 0
  }

  /** Or with bits below a multiple's is addition. */
  lemma {:induction false} OrAdds(x: nat, k: nat, c: nat)
    requires c < Pow2(k)
    ensures Or(x * Pow2(k), c) == x * Pow2(k) + c
  {
    hide Or, Pow2;
    Pow2Doubles(k);
    if k == 0 {
      OrZero(x);
    } else {
      OrAdds(x, k - 1, c / 2);
      Twice(x, Pow2(k - 1));
      OrDoubles(x * Pow2(k), x * Pow2(k - 1), c);
    }
  }

  lemma Pow2Doubles(k: nat)
    ensures Pow2(k) == if k == 0 then 1 else 2 * Pow2(k - 1)
  {
  }

  lemma Twice(x: nat, p: nat)
    ensures x * (2 * p) == 2 * (x * p)
  {
  }

  lemma {:induction false} OrDoubles(a: nat, h: nat, c: nat)
    requires a == 2 * h && Or(h, c / 2) == h + c / 2
    ensures Or(a, c) == a + c
  {
    assert a / 2 == h && a % 2 == 0;
  }

  lemma {:induction false} OrZero(x: nat)
    ensures Or(x, 0) == x
  {
    if x > 0 {
      OrZero(x / 2);
    }
  }

  /** And with all ones keeps a number, and with all but the low bits clears those. */
  lemma {:induction false} AndOnes(u: nat, w: nat)
    requires u < Pow2(w)
    ensures And(u, Pow2(w) - 1) == u
  {
    if w > 0 {
      AndOnes(u / 2, w - 1);
    }
  }

  lemma {:induction false} AndHigh(u: nat, w: nat, b: nat)
    requires u < Pow2(w) && b <= w
    ensures Pow2(b) <= Pow2(w) && And(u, Pow2(w) - Pow2(b)) == u - u % Pow2(b)
  {
    hide And, Pow2;
    Pow2Monotone(b, w);
    Pow2Doubles(b);
    Pow2Doubles(w);
    if b == 0 {
      AndOnes(u, w);
    } else {
      Pow2Monotone(b - 1, w - 1);
      AndHigh(u / 2, w - 1, b - 1);
      HalfRemainder(u, Pow2(b - 1));
      AndEven(u, Pow2(w - 1) - Pow2(b - 1));
    }
  }

  lemma {:induction false} AndEven(u: nat, m: nat)
    ensures And(u, 2 * m) == 2 * And(u / 2, m)
  {
  }

  lemma HalfRemainder(u: nat, k: nat)
    requires k > 0
    ensures u % (2 * k) == 2 * (u / 2 % k) + u % 2
  {
    var q, r := u / 2 / k, u / 2 % k;
    assert u == 2 * (k * q + r) + u % 2;
    assert u == (2 * k) * q + (2 * r + u % 2);
    Remainder(u, 2 * k, q, 2 * r + u % 2);
  }

  lemma Remainder(x: int, k: nat, q: int, r: nat)
    requires k > 0 && x == k * q + r && r < k
    ensures x % k == r && x / k == q
  {
    assert x == k * (x / k) + x % k;
    SmallMultiple(k, q - x / k, x % k - r);
  }

  lemma SmallMultiple(k: int, d: int, e: int)
    requires k > 0 && k * d == e && -k < e < k
    ensures d == 0
  {
    LargerMultiple(k, 1, if d > 0 then d else 1);
    LargerMultiple(k, 1, if d < 0 then -d else 1);
  }

  lemma LargerMultiple(k: nat, a: int, b: int)
    requires a <= b
    ensures k * a <= k * b
  {
  }
}
