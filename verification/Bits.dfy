// Bit operations on unbounded naturals, and the arithmetic facts about powers
// of two and remainders that the rest of the project shares.
module Bits {

  function Pow2(n: nat): (r: nat)
    ensures r >= 1
  {
    if n == 0 then 1 else 2 * Pow2(n - 1)
  }

  /** `x >> s`. */
  function Shr(x: nat, s: nat): nat {
    if s == 0 then x else Shr(x / 2, s - 1)
  }

  /** `a ^ b`. */
  function Xor(a: nat, b: nat): nat {
    if a == 0 && b == 0 then 0 else (a + b) % 2 + 2 * Xor(a / 2, b / 2)
  }

  /** `a & b`. */
  function And(a: nat, b: nat): nat {
    if a == 0 || b == 0 then 0 else (a % 2) * (b % 2) + 2 * And(a / 2, b / 2)
  }

  lemma {:induction false} Pow2Add(a: nat, b: nat)
    ensures Pow2(a + b) == Pow2(a) * Pow2(b)
  {
    if a > 0 {
      Pow2Add(a - 1, b);
      assert Pow2(a + b) == 2 * Pow2(a - 1 + b);
      assert 2 * (Pow2(a - 1) * Pow2(b)) == (2 * Pow2(a - 1)) * Pow2(b);
    }
  }

  lemma {:induction false} Pow2Monotone(a: nat, b: nat)
    requires a < b
    ensures Pow2(a) < Pow2(b)
  {
    if a + 1 < b { Pow2Monotone(a, b - 1); }
  }

  lemma {:induction false} Pow2Of16()
    ensures Pow2(16) == 0x1_0000
  {
    assert Pow2(8) == 256;
    Pow2Add(8, 8);
  }

  lemma {:induction false} Pow2Of32()
    ensures Pow2(32) == 0x1_0000_0000
  {
    Pow2Of16();
    Pow2Add(16, 16);
  }

  lemma {:induction false} Pow2Of64()
    ensures Pow2(64) == 0x1_0000_0000_0000_0000
  {
    Pow2Of32();
    Pow2Add(32, 32);
  }

  // ----- remainders -----

  lemma MulMonotone(a: int, b: int, m: int)
    requires a <= b && m >= 0
    ensures a * m <= b * m
  {
    assert (b - a) * m >= 0;
  }

  /** Zero is the only multiple of `m` strictly between `-m` and `m`. */
  lemma NoSmallMultiple(d: int, m: int)
    requires -m < d * m < m
    ensures d == 0
  {
    if d >= 1 {
      MulMonotone(1, d, m);
    } else if d <= -1 {
      MulMonotone(d, -1, m);
    }
  }

  lemma DivModUnique(a: int, m: int, q: int, r: int)
    requires 0 <= r < m
    requires a == q * m + r
    ensures a / m == q && a % m == r
  {
    var q', r' := a / m, a % m;
    assert a == q' * m + r';
    assert (q - q') * m == q * m - q' * m;
    NoSmallMultiple(q - q', m);
  }

  lemma ModAddMultiple(a: int, m: int, t: int)
    requires m > 0
    ensures (a + t * m) % m == a % m
    ensures (a + t * m) / m == a / m + t
  {
    assert a + t * m == (a / m + t) * m + a % m;
    DivModUnique(a + t * m, m, a / m + t, a % m);
  }

  lemma ModEq(a: int, b: int, m: int) returns (t: int)
    requires m > 0 && a % m == b % m
    ensures a == b + t * m
  {
    t := a / m - b / m;
    assert a == (a / m) * m + a % m && b == (b / m) * m + b % m;
  }

  /** Congruent numbers stay congruent under `x -> x * c + d`. */
  lemma ModMulAdd(a: int, b: int, c: int, d: int, m: int)
    requires m > 0 && a % m == b % m
    ensures (a * c + d) % m == (b * c + d) % m
  {
    var t := ModEq(a, b, m);
    assert a * c + d == (b * c + d) + (t * c) * m;
    ModAddMultiple(b * c + d, m, t * c);
  }

  lemma ModOfMultiple(a: int, m: int, k: int)
    requires m > 0 && k > 0
    ensures a % (m * k) % m == a % m
  {
    assert m * k > 0;
    var q := a / (m * k);
    assert a == q * (m * k) + a % (m * k);
    assert q * (m * k) == (q * k) * m;
    ModAddMultiple(a % (m * k), m, q * k);
  }

  /** Two numbers less than `m` apart have equal remainders only when equal. */
  lemma ModWindow(a: int, b: int, m: int)
    requires m > 0 && -m < a - b < m
    ensures a % m == b % m <==> a == b
  {
    if a % m == b % m {
      var t := ModEq(a, b, m);
      NoSmallMultiple(t, m);
    }
  }

  /** The remainder `a % m`, defined by subtraction: ring indices use this form
      so that proofs about them need no nonlinear arithmetic. */
  function Mod(a: nat, m: nat): (r: nat)
    requires m > 0
    ensures r < m && r <= a
  {
    if a < m then a else Mod(a - m, m)
  }

  lemma {:induction false} ModIsRemainder(a: nat, m: nat)
    requires m > 0
    ensures Mod(a, m) == a % m
  {
    if a < m {
      DivModUnique(a, m, 0, a);
    } else {
      ModIsRemainder(a - m, m);
      ModAddMultiple(a - m, m, 1);
    }
  }

  /** Two positions less than `m` apart share a ring index only when equal. */
  lemma {:induction false} ModApart(a: nat, b: nat, m: nat)
    requires a - b < m && b - a < m
    ensures Mod(a, m) == Mod(b, m) <==> a == b
  {
    ModIsRemainder(a, m);
    ModIsRemainder(b, m);
    ModWindow(a, b, m);
  }

  lemma {:induction false} ModPlus(a: nat, b: nat, m: nat)
    requires m > 0
    ensures Mod(Mod(a, m) + b, m) == Mod(a + b, m)
  {
    if a >= m {
      ModPlus(a - m, b, m);
    }
  }

  lemma {:induction false} ShrIsDiv(x: nat, s: nat)
    ensures Shr(x, s) == x / Pow2(s)
  {
    if s > 0 {
      ShrIsDiv(x / 2, s - 1);
      ModDouble(x, Pow2(s - 1));
    }
  }

  // ----- exclusive or -----

  /** The low bit and the remaining bits of an exclusive or. */
  lemma {:induction false} XorStep(a: nat, b: nat)
    ensures Xor(a, b) % 2 == (a + b) % 2 && Xor(a, b) / 2 == Xor(a / 2, b / 2)
  {
    var low, high := (a + b) % 2, Xor(a / 2, b / 2);
    assert Xor(a, b) == low + 2 * high;
  }

  lemma {:induction false} XorCancel(a: nat, b: nat)
    ensures Xor(Xor(a, b), b) == a
  {
    var x := Xor(a, b);
    if a != 0 || b != 0 {
      XorCancel(a / 2, b / 2);
      XorStep(a, b);
      XorStep(x, b);
      hide Xor;
      Parity(x, a, b);
      Halves(Xor(x, b), a);
    }
  }

  lemma Parity(x: nat, a: nat, b: nat)
    requires x % 2 == (a + b) % 2
    ensures (x + b) % 2 == a % 2
  {
  }

  lemma Halves(x: nat, y: nat)
    requires x / 2 == y / 2 && x % 2 == y % 2
    ensures x == y
  {
  }

  lemma {:induction false} XorShr(a: nat, b: nat, s: nat)
    ensures Shr(Xor(a, b), s) == Xor(Shr(a, s), Shr(b, s))
  {
    if s > 0 {
      assert Xor(a, b) / 2 == Xor(a / 2, b / 2);
      XorShr(a / 2, b / 2, s - 1);
    }
  }

  lemma {:induction false} XorBound(a: nat, b: nat, k: nat)
    requires a < Pow2(k) && b < Pow2(k)
    ensures Xor(a, b) < Pow2(k)
  {
    if a != 0 || b != 0 {
      XorBound(a / 2, b / 2, k - 1);
    }
  }

  lemma {:induction false} ShrBound(x: nat, s: nat)
    ensures Shr(x, s) <= x
    ensures s > 0 && x > 0 ==> Shr(x, s) < x
  {
    if s > 0 { ShrBound(x / 2, s - 1); }
  }

  /** Bit `b` of `i`. */
  predicate Bit(i: nat, b: nat) {
    if b == 0 then i % 2 == 1 else Bit(i / 2, b - 1)
  }

  lemma XorHigh(i: nat, b: nat)
    requires b > 0
    ensures Xor(i, Pow2(b)) == 2 * Xor(i / 2, Pow2(b - 1)) + i % 2
  {
    XorStep(i, Pow2(b));
    hide Xor;
    assert (2 * Pow2(b - 1)) / 2 == Pow2(b - 1);
  }

  /** Flipping one bit adds or removes its weight. */
  lemma {:induction false} XorPow2(i: nat, b: nat)
    ensures Bit(i, b) ==> i >= Pow2(b)
    ensures Xor(i, Pow2(b)) == if Bit(i, b) then i - Pow2(b) else i + Pow2(b)
  {
    if b == 0 {
      XorZero(i / 2);
      XorStep(i, 1);
    } else {
      XorPow2(i / 2, b - 1);
      XorHigh(i, b);
      hide Xor;
    }
  }

  lemma {:induction false} XorZero(a: nat)
    ensures Xor(a, 0) == a
  {
    if a != 0 { XorZero(a / 2); }
  }

  /** `i & 2^b` is zero exactly when bit `b` of `i` is clear. */
  lemma {:induction false} AndPow2(i: nat, b: nat)
    ensures And(i, Pow2(b)) == 0 <==> !Bit(i, b)
  {
    if b > 0 {
      AndPow2(i / 2, b - 1);
      var p := Pow2(b - 1);
      assert Pow2(b) == 2 * p && (2 * p) / 2 == p && (2 * p) % 2 == 0;
      if i != 0 {
        assert And(i, 2 * p) == 2 * And(i / 2, p);
      }
    }
  }

  /** Masking with `2^k - 1` is taking the remainder modulo `2^k`. */
  lemma {:induction false} AndMask(x: nat, k: nat)
    ensures And(x, Pow2(k) - 1) == x % Pow2(k)
  {
    if k == 0 {
    } else if x == 0 {
      DivModUnique(0, Pow2(k), 0, 0);
    } else {
      var p := Pow2(k - 1);
      AndMask(x / 2, k - 1);
      assert And(x, 2 * p - 1) == x % 2 + 2 * And(x / 2, p - 1) by {
        assert (2 * p - 1) / 2 == p - 1 && (2 * p - 1) % 2 == 1;
      }
      ModDouble(x, p);
    }
  }

  lemma ModDouble(x: nat, p: nat)
    requires p > 0
    ensures x % (2 * p) == 2 * (x / 2 % p) + x % 2
    ensures x / (2 * p) == x / 2 / p
  {
    var q, r := x / 2 / p, x / 2 % p;
    assert x / 2 == q * p + r;
    assert 2 * (q * p) == q * (2 * p);
    DivModUnique(x, 2 * p, q, 2 * r + x % 2);
  }

  /** The classic test `n & (n - 1) == 0` accepts exactly the powers of two. */
  lemma {:induction false} PowerOfTwoTest(n: nat) returns (k: nat)
    requires n > 0 && And(n, n - 1) == 0
    ensures n == Pow2(k)
  {
    if n == 1 {
      k := 0;
    } else {
      assert n % 2 == 0 by {
        if n % 2 == 1 {
          assert And(n, n - 1) == 2 * And(n / 2, n / 2);
          AndSelf(n / 2);
          assert false;
        }
      }
      assert (n - 1) / 2 == n / 2 - 1 && (n - 1) % 2 == 1;
      assert And(n, n - 1) == 2 * And(n / 2, n / 2 - 1) by {
        if n / 2 - 1 > 0 {
        }
      }
      var j := PowerOfTwoTest(n / 2);
      k := j + 1;
    }
  }

  lemma {:induction false} AndSelf(n: nat)
    ensures And(n, n) == n
  {
    if n != 0 { AndSelf(n / 2); }
  }
}
