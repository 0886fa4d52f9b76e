/** Masked addressing: `idx & (capacity - 1)` for a power-of-two capacity. */
module Bits {

  /** Bitwise and, bit by bit from the lowest. */
  function And(a: nat, b: nat): nat
    decreases a + b
  {
    if a == 0 || b == 0 then 0
    else 2 * And(a / 2, b / 2) + (if a % 2 == 1 && b % 2 == 1 then 1 else 0)
  }

  /** `n.is_power_of_two()`: exactly one bit is set. */
  predicate PowerOfTwo(n: nat) {
    n == 1 || (n > 1 && n % 2 == 0 && PowerOfTwo(n / 2))
  }

  lemma HalveMod(a: nat, m: nat)
    requires m > 0
    ensures a % (2 * m) == 2 * (a / 2 % m) + a % 2
  {
    var q, r := a / 2 / m, a / 2 % m;
    assert a / 2 == q * m + r;
    assert a == q * (2 * m) + (2 * r + a % 2);
    ModIs(a, 2 * m, q, 2 * r + a % 2);
  }

  lemma Multiples(d: int, m: int)
    requires m >= 0
    ensures d >= 1 ==> d * m >= m
    ensures d <= -1 ==> d * m <= -m
  {
    if d >= 1 {
      assert d * m == (d - 1) * m + m;
    } else if d <= -1 {
      assert d * m == (d + 1) * m - m;
    }
  }

  lemma ModIs(a: nat, m: nat, q: nat, r: nat)
    requires r < m && a == q * m + r
    ensures a % m == r
  {
    var d := a / m - q;
    assert a % m - r == -(d * m);
    Multiples(d, m);
  }

  /** Two indices with the same residue are a whole modulus apart. */
  lemma SameResidueGap(i: nat, j: nat, m: nat)
    requires m > 0 && i % m == j % m && i < j
    ensures i + m <= j
  {
    var d := j / m - i / m;
    assert j - i == d * m by {
      assert i == i / m * m + i % m && j == j / m * m + j % m;
    }
    Multiples(d, m);
  }

  /** Masking with `n - 1` is reduction modulo `n`. */
  lemma {:induction false} MaskIsModulo(a: nat, n: nat)
    requires PowerOfTwo(n)
    ensures And(a, n - 1) == a % n
    decreases n
  {
    if n > 1 {
      MaskIsModulo(a / 2, n / 2);
      HalveMod(a, n / 2);
      assert (n - 1) / 2 == n / 2 - 1 && (n - 1) % 2 == 1;
    }
  }

  /** Two indices less than `n` apart are masked to different slots. */
  lemma MaskSeparates(i: nat, j: nat, n: nat)
    requires PowerOfTwo(n) && i < j < i + n
    ensures And(i, n - 1) != And(j, n - 1)
  {
    MaskIsModulo(i, n);
    MaskIsModulo(j, n);
    if i % n == j % n {
      SameResidueGap(i, j, n);
    }
  }
}
