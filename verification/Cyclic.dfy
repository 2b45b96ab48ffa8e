/** Positions on a ring of `n` slots, and the bit mask that the table uses to
    stay on it.  All ring arithmetic is linear: the only remainder taken is the
    one that maps a hash to its home slot. */
module Cyclic {

  function Next(i: nat, n: nat): (j: nat)
    requires i < n
    ensures j < n
  {
    if i + 1 == n then 0 else i + 1
  }

  function Prev(i: nat, n: nat): (j: nat)
    requires i < n
    ensures j < n && Next(j, n) == i
  {
    if i == 0 then n - 1 else i - 1
  }

  /** The slot `q` steps after slot `a`. */
  function At(a: nat, q: nat, n: nat): (j: nat)
    requires a < n && q < n
    ensures j < n
  {
    if a + q < n then a + q else a + q - n
  }

  /** The number of forward steps from slot `a` to slot `b`. */
  function Dist(a: nat, b: nat, n: nat): (d: nat)
    requires a < n && b < n
    ensures d < n && At(a, d, n) == b
  {
    if a <= b then b - a else b - a + n
  }

  // ---- powers of two ----

  function Exp2(k: nat): (r: nat)
    ensures r >= 1
  {
    if k == 0 then 1 else 2 * Exp2(k - 1)
  }

  ghost predicate IsPow2(n: nat) {
    exists k: nat :: Exp2(k) == n
  }

  lemma Pow2Double(n: nat)
    requires IsPow2(n)
    ensures IsPow2(2 * n)
  {
    var k: nat :| Exp2(k) == n;
    assert Exp2(k + 1) == 2 * n;
  }

  lemma Pow2Half(n: nat)
    requires IsPow2(n) && n > 1
    ensures IsPow2(n / 2) && n == 2 * (n / 2)
  {
    var k: nat :| Exp2(k) == n;
    assert Exp2(k - 1) == n / 2;
  }

  lemma Pow2Sixteen()
    ensures IsPow2(16)
  {
    assert Exp2(1) == 2;
    assert Exp2(2) == 4;
    assert Exp2(3) == 8;
    assert Exp2(4) == 16;
  }

  lemma {:induction false} Exp2Monotone(j: nat, k: nat)
    requires j < k
    ensures 2 * Exp2(j) <= Exp2(k)
  {
    if j + 1 < k {
      Exp2Monotone(j, k - 1);
    }
  }

  /** Between two consecutive powers of two there is no third one. */
  lemma Pow2Gap(a: nat, b: nat)
    requires IsPow2(a) && IsPow2(b) && a < b
    ensures 2 * a <= b
  {
    var j: nat :| Exp2(j) == a;
    var k: nat :| Exp2(k) == b;
    if k < j {
      Exp2Monotone(k, j);
    }
    Exp2Monotone(j, k);
  }

  // ---- masking ----

  /** Bitwise conjunction of two natural numbers. */
  function BitAnd(a: nat, b: nat): nat {
    if a == 0 || b == 0 then 0
    else 2 * BitAnd(a / 2, b / 2) + (if a % 2 == 1 && b % 2 == 1 then 1 else 0)
  }

  lemma MulGap(p: nat, q: nat, d: nat)
    requires p < q
    ensures p * d + d <= q * d
  {
    assert q * d == p * d + (q - p) * d;
    assert (q - p) * d == d + (q - p - 1) * d;
  }

  lemma ModUnique(x: nat, d: nat, q: nat, r: nat)
    requires r < d && x == q * d + r
    ensures x % d == r
  {
    var q', r' := x / d, x % d;
    assert x == q' * d + r' && r' < d;
    if q < q' {
      MulGap(q, q', d);
    } else if q' < q {
      MulGap(q', q, d);
    }
  }

  lemma ModDouble(h: nat, m: nat)
    requires m >= 1
    ensures h % (2 * m) == 2 * ((h / 2) % m) + h % 2
  {
    var q, r := (h / 2) / m, (h / 2) % m;
    assert h / 2 == q * m + r;
    assert h == q * (2 * m) + (2 * r + h % 2);
    ModUnique(h, 2 * m, q, 2 * r + h % 2);
  }

  lemma BitAndOdd(h: nat, m: nat)
    requires m >= 1 && h > 0
    ensures BitAnd(h, 2 * m - 1) == 2 * BitAnd(h / 2, m - 1) + h % 2
  {
    assert (2 * m - 1) / 2 == m - 1;
  }

  lemma MaskDouble(h: nat, m: nat)
    requires m >= 1 && BitAnd(h / 2, m - 1) == (h / 2) % m
    ensures BitAnd(h, 2 * m - 1) == h % (2 * m)
  {
    if h == 0 {
      ModUnique(0, 2 * m, 0, 0);
    } else {
      BitAndOdd(h, m);
      ModDouble(h, m);
    }
  }

  /** Masking with a power of two less one is the remainder by that power. */
  lemma {:induction false} MaskIsMod(h: nat, k: nat)
    ensures BitAnd(h, Exp2(k) - 1) == h % Exp2(k)
  {
    if k == 0 {
      ModUnique(h, 1, h, 0);
    } else {
      MaskIsMod(h / 2, k - 1);
      MaskDouble(h, Exp2(k - 1));
    }
  }

  lemma MaskHome(h: nat, n: nat)
    requires IsPow2(n)
    ensures n >= 1 && BitAnd(h, n - 1) == h % n
  {
    var k: nat :| Exp2(k) == n;
    MaskIsMod(h, k);
  }

  lemma MaskNext(i: nat, n: nat)
    requires IsPow2(n) && i < n
    ensures BitAnd(i + 1, n - 1) == Next(i, n)
  {
    MaskHome(i + 1, n);
    ModUnique(i + 1, n, if i + 1 == n then 1 else 0, Next(i, n));
  }
}
