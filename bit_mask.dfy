/** Bitwise AND on non-negative integers, taken bit by bit from the lowest,
    and the fact that masking the low k bits leaves the remainder by 2^k. */
module BitMask {
  /** Bitwise AND of two non-negative integers, taken bit by bit from the lowest. */
  function BitAnd(a: nat, b: nat): (r: nat)
    ensures r <= a && r <= b
  {
    if a == 0 || b == 0 then 0
    else 2 * BitAnd(a / 2, b / 2) + (if a % 2 == 1 && b % 2 == 1 then 1 else 0)
  }

  /** 2 to the power k. */
  function Pow2(k: nat): (r: nat)
    ensures r >= 1
  {
    if k == 0 then 1 else 2 * Pow2(k - 1)
  }

  /** Euclidean division has one remainder: any m in [0, d) with x == d * q + m is it. */
  lemma DivModUnique(x: int, d: int, q: int, m: int)
    requires d > 0 && x == d * q + m && 0 <= m < d
    ensures x % d == m
  {
    var t := q - x / d;
    assert d * t == x % d - m;
    MultipleBound(d, t);
  }

  /** A non-zero multiple of d is at least d away from zero. */
  lemma {:induction false} MultipleBound(d: int, t: int)
    requires d > 0
    ensures t >= 1 ==> d * t >= d
    ensures t <= -1 ==> d * t <= -d
    decreases if t < 0 then -t else t
  {
    if t > 1 {
      MultipleBound(d, t - 1);
      assert d * t == d * (t - 1) + d;
    } else if t < -1 {
      MultipleBound(d, t + 1);
      assert d * t == d * (t + 1) - d;
    }
  }

  /** The remainder by 2p is the low bit plus twice the remainder of x / 2 by p. */
  lemma HalveRemainder(x: nat, p: nat, d: nat)
    requires p >= 1 && d == 2 * p
    ensures x % d == 2 * ((x / 2) % p) + x % 2
  {
    var q := x / 2;
    var a, b := q / p, q % p;
    assert q == p * a + b;
    assert x == d * a + (2 * b + x % 2);
    DivModUnique(x, d, a, 2 * b + x % 2);
  }

  /** Masking the low k bits leaves the remainder by 2^k. */
  lemma {:induction false} MaskIsRemainder(x: nat, k: nat)
    ensures BitAnd(x, Pow2(k) - 1) == x % Pow2(k)
  {
    var d := Pow2(k);
    if x == 0 {
      assert 0 % d == 0;
    } else if k == 0 {
      assert x % 1 == 0;
    } else {
      MaskIsRemainder(x / 2, k - 1);
      MaskStep(x, Pow2(k - 1), d);
    }
  }

  /** One more mask bit: the remainder by 2p from the remainder by p of x / 2. */
  lemma MaskStep(x: nat, p: nat, d: nat)
    requires x > 0 && p >= 1 && d == 2 * p
    requires BitAnd(x / 2, p - 1) == (x / 2) % p
    ensures BitAnd(x, d - 1) == x % d
  {
    BitAndOdd(x, p - 1, d - 1);
    HalveRemainder(x, p, d);
  }

  /** Against an odd mask the lowest bit of x is kept and the rest is x / 2 against the mask / 2. */
  lemma BitAndOdd(x: nat, m: nat, mask: nat)
    requires x > 0 && mask == 2 * m + 1
    ensures BitAnd(x, mask) == 2 * BitAnd(x / 2, m) + x % 2
  {
    assert mask / 2 == m && mask % 2 == 1;
  }
}
