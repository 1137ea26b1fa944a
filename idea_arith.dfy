/**
 * The three group operations of IDEA on 16-bit words, as idea.c computes them:
 * multiplication modulo 2^16 + 1 (with the word 0 standing for 2^16), its
 * inverse by an extended binary GCD, and the additive inverse modulo 2^16.
 */
module IdeaArith {
  import opened Bits

  /** `mulMod`, the prime 2^16 + 1. */
  const MulMod: int := 0x1_0001

  /** `ones`, the 16-bit mask. */
  const Ones: int := 0xFFFF

  /** The element of the multiplicative group that a word stands for: 0 stands for 2^16. */
  function Elem(a: Word): (e: int)
    ensures 1 <= e <= 0x1_0000 && e % 0x1_0000 == a
  {
    if a == 0 then 0x1_0000 else a
  }

  /** Addition modulo 2^16. */
  function AddW(a: Word, b: Word): Word
  {
    (a + b) % 0x1_0000
  }

  /**
   * Multiplication in the group of the nonzero residues modulo 2^16 + 1, on
   * words: the product of the elements a and b stand for, reduced and then
   * written back as a word (2^16 becomes 0).
   */
  function MulW(a: Word, b: Word): Word
  {
    (Elem(a) * Elem(b) % MulMod) % 0x1_0000
  }

  /**
   * The group is closed: the product of two elements is never a multiple of
   * the prime 2^16 + 1, so the word MulW returns stands for the product.
   */
  lemma MulWElem(a: Word, b: Word)
    ensures Elem(MulW(a, b)) == Elem(a) * Elem(b) % MulMod
  {
    ProductNotMultiple(Elem(a), Elem(b));
  }

  /** `AddInv(x)`, that is `-x & ones`: the additive inverse modulo 2^16. */
  function AddInv(x: Word): (r: Word)
    ensures (x + r) % 0x1_0000 == 0
  {
    // -x in two's complement, masked to 16 bits
    (0x1_0000 - x) % 0x1_0000
  }

  // ---------------------------------------------------------------------
  // Number theory behind the group

  /** d is a positive divisor of n. */
  ghost predicate Divides(d: int, n: int)
  {
    d >= 1 && exists q :: n == d * q
  }

  /** 2^16 + 1 is prime: its only positive divisors are 1 and itself. */
  lemma MulModPrime(d: int)
    requires Divides(d, MulMod)
    ensures d == 1 || d == MulMod
  {
    var e :| MulMod == d * e;
    if d != 1 && d != MulMod {
      if e <= 1 {
        MulLe(e, d, 1);
      } else if d <= e {
        NoFactorization(d, e);
      } else {
        NoFactorization(e, d);
      }
    }
  }

  /**
   * 2^16 + 1 has no factorization d * e with 2 <= d <= e: the smaller
   * factor would be at most 256, and none of 2 .. 256 divides it.
   */
  lemma NoFactorization(d: int, e: int)
    requires 2 <= d <= e
    ensures d * e != MulMod
  {
    if 256 < d {
      MulLe(257, e, d);
      MulLe(257, 257, e);
    } else {
      SmallFactor(d, e);
    }
  }

  lemma SmallFactor(d: int, e: int)
    requires 2 <= d <= 256 && 2 <= e
    ensures d * e != MulMod
  {
  }

  /**
   * No product of two nonzero residues is a multiple of the prime 2^16 + 1.
   * By descent on x: if x * y were a multiple, so would be (MulMod % x) * y,
   * with a smaller nonzero first factor.
   */
  lemma {:induction false} ProductNotMultiple(x: int, y: int)
    requires 1 <= x < MulMod && 1 <= y < MulMod
    ensures (x * y) % MulMod != 0
    decreases x
  {
    if x > 1 && (x * y) % MulMod == 0 {
      var q, r := MulMod / x, MulMod % x;
      assert MulMod == x * q + r;
      if r == 0 {
        MulModPrime(x);
        assert false;
      }
      // r * y == MulMod * y - q * (x * y), a multiple of MulMod
      var k := (x * y) / MulMod;
      assert x * y == MulMod * k;
      assert r * y == (MulMod - q * x) * y;
      assert r * y == MulMod * (y - q * k);
      ProductNotMultiple(r, y);
      assert false;
    }
  }

  // ---------------------------------------------------------------------
  // Group laws on words

  lemma ElemInjective(a: Word, b: Word)
    requires Elem(a) == Elem(b)
    ensures a == b
  {
  }

  lemma MulWComm(a: Word, b: Word)
    ensures MulW(a, b) == MulW(b, a)
  {
  }

  /** 1 is the neutral element. */
  lemma MulWOne(a: Word)
    ensures MulW(a, 1) == a && MulW(1, a) == a
  {
    MulWElem(a, 1);
    MulWElem(1, a);
    assert Elem(a) * 1 % MulMod == Elem(a);
    ElemInjective(MulW(a, 1), a);
    ElemInjective(MulW(1, a), a);
  }

  /** Multiplying by k and then by an inverse of k gives the original word back. */
  lemma MulWCancel(x: Word, k: Word, k': Word)
    requires MulW(k, k') == 1
    ensures MulW(MulW(x, k), k') == x
  {
    var X, K, K' := Elem(x), Elem(k), Elem(k');
    assert K * K' % MulMod == 1;
    var y := MulW(x, k);
    MulWElem(k, k');
    MulWElem(x, k);
    MulWElem(y, k');
    assert Elem(y) == X * K % MulMod;
    ModMulAssoc(X, K, K');
    assert Elem(MulW(y, k')) == X % MulMod;
    ElemInjective(MulW(y, k'), x);
  }

  /** (X * K mod p) * K' mod p == X * (K * K' mod p) mod p. */
  lemma ModMulAssoc(x: int, k: int, k': int)
    requires x >= 0 && k >= 0 && k' >= 0
    ensures (x * k % MulMod) * k' % MulMod == x * (k * k' % MulMod) % MulMod
  {
    var u, v := x * k / MulMod, k * k' / MulMod;
    assert x * k == MulMod * u + x * k % MulMod;
    assert k * k' == MulMod * v + k * k' % MulMod;
    calc {
      (x * k % MulMod) * k';
      (x * k - MulMod * u) * k';
      x * (k * k') - MulMod * (u * k');
      x * (MulMod * v + k * k' % MulMod) - MulMod * (u * k');
      x * (k * k' % MulMod) + MulMod * (x * v - u * k');
    }
    ModShift(x * (k * k' % MulMod), x * v - u * k');
  }

  lemma ModShift(a: int, m: int)
    ensures (a + MulMod * m) % MulMod == a % MulMod
  {
  }

  /** A word has at most one multiplicative inverse. */
  lemma MulInverseUnique(k: Word, u: Word, v: Word)
    requires MulW(k, u) == 1 && MulW(k, v) == 1
    ensures u == v
  {
    MulWOne(u);
    MulWComm(k, u);
    MulWCancel(v, k, u);
    MulWComm(v, k);
  }

  /** The additive inverse is an involution. */
  lemma AddInvInvolution(x: Word)
    ensures AddInv(AddInv(x)) == x
  {
  }

  /** Adding k and then its additive inverse gives the original word back. */
  lemma AddWCancel(x: Word, k: Word)
    ensures AddW(AddW(x, k), AddInv(k)) == x
  {
  }

  // ---------------------------------------------------------------------
  // The Mul macro

  /**
   * `Mul(a, b)`: multiplies on 32-bit registers whose values fit in 16 bits,
   * folding the high half of the product back in (2^16 is -1 modulo
   * 2^16 + 1). The macro is incomplete on its own: only the low 16 bits of
   * the new `a` are the group product, so every caller masks it. It also
   * overwrites `b` with the high half of the product when both operands are
   * nonzero, which no caller reads again.
   */
  method Mul(a: Word32, b: Word32) returns (a': Word32, b': Word32)
    requires a <= Ones && b <= Ones
    ensures a == 0 ==> a' == MulMod - b && b' == b
    ensures a != 0 && b == 0 ==> a' == MulMod - a && b' == b
    ensures a != 0 && b != 0 ==>
      b' == a * b / 0x1_0000 &&
      a' == if a * b % 0x1_0000 >= b' then a * b - b' else a * b + MulMod - b'
    ensures a' % 0x1_0000 == MulW(a, b)
  {
    if a == 0 {
      a', b' := MulMod - b, b;
      MulByZero(b);
    } else if b == 0 {
      a', b' := MulMod - a, b;
      MulByZero(a);
      MulWComm(a, b);
    } else {
      var p := a * b;
      MulBound(a, b);
      b' := p / 0x1_0000;
      var low := p % 0x1_0000;
      MulFold(a, b, b', low);
      if low >= b' {
        a' := p - b';
      } else {
        a' := p + MulMod - b';
      }
    }
  }

  /** 0 stands for 2^16, which is -1 modulo 2^16 + 1. */
  lemma MulByZero(b: Word)
    ensures MulW(0, b) == (MulMod - b) % 0x1_0000
  {
    assert Elem(0) * Elem(b) == MulMod * Elem(b) - Elem(b);
    ModShift(-Elem(b), Elem(b));
  }

  /**
   * A product p == 2^16 * high + low is congruent to low - high modulo
   * 2^16 + 1, which is the reduction the macro performs.
   */
  lemma MulFold(a: Word, b: Word, high: int, low: int)
    requires 1 <= a && 1 <= b && a * b == 0x1_0000 * high + low
    requires 0 <= low < 0x1_0000 && 0 <= a * b <= Ones * Ones
    ensures 0 <= high < 0x1_0000
    ensures MulW(a, b) == (a * b - high + (if low >= high then 0 else MulMod)) % 0x1_0000
  {
    var p := a * b;
    var c := if low >= high then 0 else MulMod;
    var folded := low - high + c;
    DivUnique(p, MulMod, high - c / MulMod, folded);
    assert p % MulMod == folded;
    assert Elem(a) * Elem(b) == p;
    ModWord(folded, high);
  }

  /** Adding a multiple of 2^16 does not change the low 16 bits. */
  lemma ModWord(v: int, k: int)
    ensures (v + 0x1_0000 * k) % 0x1_0000 == v % 0x1_0000
  {
  }

  /** Masking an addend before a masked addition does not change the sum. */
  lemma AddMasked(x: nat, k: Word)
    ensures (x + k) % 0x1_0000 == AddW(x % 0x1_0000, k) == AddW(k, x % 0x1_0000)
  {
    ModWord(x % 0x1_0000 + k, x / 0x1_0000);
  }

  lemma MulBound(a: int, b: int)
    requires 0 <= a <= Ones && 0 <= b <= Ones
    ensures 0 <= a * b <= Ones * Ones
  {
    MulLe(a, b, Ones);
    MulLe(b, Ones, Ones);
  }

  lemma MulLe(a: int, b: int, c: int)
    requires 0 <= a <= c && 0 <= b
    ensures 0 <= a * b <= c * b
  {
    assert c * b == a * b + (c - a) * b;
  }

  // ---------------------------------------------------------------------
  // MulInv

  const Half: int := 0x8000

  /**
   * `MulInv(x)`: the multiplicative inverse by the extended binary (Stein)
   * GCD of x and 2^16 + 1 on signed 32-bit accumulators. The pairs
   * (a1, b1) and (a2, b2) keep n1 and n2 as combinations of x and 2^16 + 1,
   * so when the common divisor 1 is reached its coefficient of x is the
   * inverse. 0 and 1 are their own inverses and are returned unchanged.
   */
  method MulInv(x: Word) returns (r: Word)
    ensures MulW(x, r) == 1
    ensures x <= 1 ==> r == x
  {
    if x <= 1 {
      assert Elem(x) * Elem(x) % MulMod == 1;
      return x;
    }
    var N := x;
    var n1, n2 := x, MulMod;
    var a1, b2 := 1, 1;
    var a2, b1 := 0, 0;
    while true
      invariant CommonDivisors(N, n1, a1, b1, n2, a2, b2)
      invariant 1 <= n1 <= N && -MulMod <= a1 <= MulMod && (n1 % 2 == 0 || -Half <= a1 <= Half)
      decreases n1 + n2
    {
      var done;
      done, r, n1, a1, b1, n2, a2, b2 := ReduceOnce(N, n1, a1, b1, n2, a2, b2);
      if done {
        return;
      }
      if n1 == 0 {
        break;
      }
    }
    DividesSelf(n2);
    r := Inverse(N, n2, a2, b2);
  }

  /**
   * The state of MulInv's outer loop: n1 and n2 are combinations of x and
   * 2^16 + 1 with the given coefficients, n2 is odd and its coefficient of
   * x is within the half range, and every common divisor of n1 and n2
   * divides 2^16 + 1.
   */
  ghost predicate CommonDivisors(x: int, n1: int, a1: int, b1: int, n2: int, a2: int, b2: int)
  {
    && 2 <= x <= Ones && 0 <= n1 && 1 <= n2 <= MulMod && n2 % 2 == 1
    && n1 == a1 * x + b1 * MulMod && n2 == a2 * x + b2 * MulMod
    && -Half <= a2 <= Half
    && forall d :: Divides(d, n1) && Divides(d, n2) ==> Divides(d, MulMod)
  }

  /**
   * One pass of MulInv's outer loop: strip the factors 2 from n1, run the
   * inner loop when n1 < n2, then subtract n2 from n1. done reports that
   * the inner loop found the inverse r.
   */
  method ReduceOnce(N: int, n1: int, a1: int, b1: int, n2: int, a2: int, b2: int)
    returns (done: bool, r: Word, n1': int, a1': int, b1': int, n2': int, a2': int, b2': int)
    requires CommonDivisors(N, n1, a1, b1, n2, a2, b2)
    requires 1 <= n1 <= N && -MulMod <= a1 <= MulMod && (n1 % 2 == 0 || -Half <= a1 <= Half)
    ensures done ==> MulW(N, r) == 1
    ensures !done ==> CommonDivisors(N, n1', a1', b1', n2', a2', b2') && n1' + n2' < n1 + n2
    ensures !done && n1' != 0 ==> 1 <= n1' <= N && n1' % 2 == 0 && -MulMod <= a1' <= MulMod
    ensures !done && n1' == 0 ==> n2' <= N
  {
    n1', a1', b1' := HalveWhileEven(N, n1, a1, b1, n2);
    n2', a2', b2' := n2, a2, b2;
    if n1' < n2' {
      done, r, n2', a2', b2' := SubtractWhileAbove(N, n1', a1', b1', n2', a2', b2');
      if done {
        return;
      }
    }
    done, r := false, 0;
    SubtractDivisors(n2', n1');
    SubtractCombination(n1', a1', b1', n2', a2', b2', N);
    n1', a1', b1' := n1' - n2', a1' - a2', b1' - b2';
  }

  /**
   * The inner loop `do { ... } while (n1 <= n2)` of MulInv: subtracts the
   * odd n1 from n2 and strips the factors 2 from the difference until n2
   * drops below n1. When the difference is 0, n1 is the common divisor 1
   * and MulInv returns the inverse read from a1 (done).
   */
  method SubtractWhileAbove(N: int, n1: int, a1: int, b1: int, n2: int, a2: int, b2: int)
    returns (done: bool, r: Word, n2': int, a2': int, b2': int)
    requires 2 <= N <= Ones
    requires 1 <= n1 < n2 <= MulMod && n1 <= N && n1 % 2 == 1 && n2 % 2 == 1
    requires n1 == a1 * N + b1 * MulMod && n2 == a2 * N + b2 * MulMod
    requires -Half <= a1 <= Half && -Half <= a2 <= Half
    requires forall d :: Divides(d, n1) && Divides(d, n2) ==> Divides(d, MulMod)
    ensures done ==> MulW(N, r) == 1
    ensures !done ==> 1 <= n2' < n1 && n2' % 2 == 1 && n2' == a2' * N + b2' * MulMod && -Half <= a2' <= Half
    ensures !done ==> forall d :: Divides(d, n1) && Divides(d, n2') ==> Divides(d, MulMod)
  {
    n2', a2', b2' := n2, a2, b2;
    while true
      invariant 1 <= n1 <= n2' <= MulMod && n2' % 2 == 1
      invariant n2' == a2' * N + b2' * MulMod && -Half <= a2' <= Half
      invariant forall d :: Divides(d, n1) && Divides(d, n2') ==> Divides(d, MulMod)
      decreases n2'
    {
      SubtractDivisors(n1, n2');
      SubtractCombination(n2', a2', b2', n1, a1, b1, N);
      n2', a2', b2' := n2' - n1, a2' - a1, b2' - b1;
      if n2' == 0 {
        DividesSelf(n1);
        r := Inverse(N, n1, a1, b1);
        return true, r, n2', a2', b2';
      }
      n2', a2', b2' := HalveWhileEven(N, n2', a2', b2', n1);
      if !(n1 <= n2') {
        return false, 0, n2', a2', b2';
      }
    }
  }

  /**
   * The loop `while (!(n & 1))` that MulInv runs on either accumulator:
   * strips the factors 2 from n, keeping n == a * x + b * (2^16 + 1) by
   * first making a even (adding or subtracting 2^16 + 1, and x from b) and
   * then halving all three. It keeps the common divisors of n and the odd
   * other accumulator m, and leaves a within the half range.
   */
  method HalveWhileEven(x: int, n: int, a: int, b: int, ghost m: int) returns (n': int, a': int, b': int)
    requires 1 <= n && n == a * x + b * MulMod
    requires -MulMod <= a <= MulMod && (n % 2 == 0 || -Half <= a <= Half)
    requires forall d :: Divides(d, n) && Divides(d, m) ==> Divides(d, MulMod)
    ensures 1 <= n' <= n && n' % 2 == 1 && n' == a' * x + b' * MulMod
    ensures -Half <= a' <= Half
    ensures forall d :: Divides(d, n') && Divides(d, m) ==> Divides(d, MulMod)
  {
    n', a', b' := n, a, b;
    while n' % 2 == 0
      invariant 1 <= n' <= n
      invariant n' == a' * x + b' * MulMod
      invariant -MulMod <= a' <= MulMod && (n' % 2 == 0 || -Half <= a' <= Half)
      invariant forall d :: Divides(d, n') && Divides(d, m) ==> Divides(d, MulMod)
      decreases n'
    {
      n', a', b' := HalveOnce(x, n', a', b', m);
    }
  }

  /**
   * One pass of the inner loop: an odd coefficient of x is first made even
   * by moving 2^16 + 1 between the coefficients, then n and both
   * coefficients are halved.
   */
  method HalveOnce(x: int, n: int, a: int, b: int, ghost m: int) returns (n': int, a': int, b': int)
    requires 1 <= n && n % 2 == 0 && n == a * x + b * MulMod && -MulMod <= a <= MulMod
    requires forall d :: Divides(d, n) && Divides(d, m) ==> Divides(d, MulMod)
    ensures n' == n / 2 && n' == a' * x + b' * MulMod && -Half <= a' <= Half
    ensures forall d :: Divides(d, n') && Divides(d, m) ==> Divides(d, MulMod)
  {
    a', b' := a, b;
    if a' % 2 == 1 {
      if a' < 0 {
        ShiftCombination(n, a', b', x, 1);
        a', b' := a' + MulMod, b' - x;
      } else {
        ShiftCombination(n, a', b', x, -1);
        a', b' := a' - MulMod, b' + x;
      }
    }
    HalveCombination(n, a', b', x);
    HalveDivisors(n, m);
    n', a', b' := n / 2, a' / 2, b' / 2;
  }

  /**
   * The value MulInv returns once the common divisor g of x and 2^16 + 1 is
   * reached in an accumulator g == a * x + b * (2^16 + 1): g is 1, and a,
   * brought into 0 .. 2^16 and truncated to 16 bits, is the inverse of x.
   */
  method Inverse(x: int, g: int, a: int, b: int) returns (r: Word)
    requires 2 <= x <= Ones && 1 <= g <= x && g == a * x + b * MulMod
    requires Divides(g, MulMod)
    requires -Half <= a <= Half
    ensures MulW(x, r) == 1
  {
    MulModPrime(g);
    var c := if a < 0 then a + MulMod else a;
    r := c % 0x1_0000;
    assert x * c == 1 + MulMod * (if a < 0 then x - b else -b);
    ModShift(1, if a < 0 then x - b else -b);
    assert Elem(r) == c;
  }

  /** Halving an even combination whose coefficient of x is even keeps it a combination. */
  lemma HalveCombination(n: int, a: int, b: int, x: int)
    requires n == a * x + b * MulMod && n % 2 == 0 && a % 2 == 0
    ensures n / 2 == (a / 2) * x + (b / 2) * MulMod
  {
    var a', n' := a / 2, n / 2;
    assert a * x == 2 * (a' * x);
    assert b * MulMod == b + 0x1_0000 * b;
    assert b % 2 == 0;
  }

  /** Adding s * (2^16 + 1) to a and subtracting s * x from b keeps the combination. */
  lemma ShiftCombination(n: int, a: int, b: int, x: int, s: int)
    requires n == a * x + b * MulMod
    ensures n == (a + s * MulMod) * x + (b - s * x) * MulMod
  {
    assert (a + s * MulMod) * x == a * x + s * MulMod * x;
    assert (b - s * x) * MulMod == b * MulMod - s * x * MulMod;
  }

  /**
   * The difference of two odd combinations is an even combination whose
   * coefficients are the differences.
   */
  lemma SubtractCombination(n: int, a: int, b: int, m: int, c: int, e: int, x: int)
    requires n == a * x + b * MulMod && m == c * x + e * MulMod
    requires n % 2 == 1 && m % 2 == 1
    ensures n - m == (a - c) * x + (b - e) * MulMod && (n - m) % 2 == 0
  {
    OddDifference(n, m);
    Distribute(a, c, x);
  }

  lemma OddDifference(n: int, m: int)
    requires n % 2 == 1 && m % 2 == 1
    ensures (n - m) % 2 == 0
  {
    DivUnique(n - m, 2, n / 2 - m / 2, 0);
  }

  lemma Distribute(a: int, c: int, x: int)
    ensures (a - c) * x == a * x - c * x
  {
  }

  /** A common divisor of n / 2 and an odd m divides n and m. */
  lemma HalveDivisors(n: int, m: int)
    requires n % 2 == 0
    requires forall d :: Divides(d, n) && Divides(d, m) ==> Divides(d, MulMod)
    ensures forall d :: Divides(d, n / 2) && Divides(d, m) ==> Divides(d, MulMod)
  {
    forall d | Divides(d, n / 2) && Divides(d, m)
      ensures Divides(d, MulMod)
    {
      DividesTimes(d, n / 2, 2);
    }
  }

  /** A common divisor of n and m - n divides n and m. */
  lemma SubtractDivisors(n: int, m: int)
    requires forall d :: Divides(d, n) && Divides(d, m) ==> Divides(d, MulMod)
    ensures forall d :: Divides(d, n) && Divides(d, m - n) ==> Divides(d, MulMod)
  {
    forall d | Divides(d, n) && Divides(d, m - n)
      ensures Divides(d, MulMod)
    {
      DividesSum(d, n, m - n);
    }
  }

  lemma DividesSelf(n: int)
    requires n >= 1
    ensures Divides(n, n) && Divides(n, 0)
  {
    assert n == n * 1 && 0 == n * 0;
  }

  lemma DividesTimes(d: int, n: int, k: int)
    requires Divides(d, n)
    ensures Divides(d, n * k)
  {
    var q :| n == d * q;
    assert n * k == d * (q * k);
  }

  lemma DividesSum(d: int, n: int, m: int)
    requires Divides(d, n) && Divides(d, m)
    ensures Divides(d, n + m)
  {
    var q :| n == d * q;
    var p :| m == d * p;
    assert n + m == d * (q + p);
  }
}
