/** Fixed-width unsigned arithmetic as the engine's atomics use it, and the
    integer division of Rust's `i64`. Machine words are naturals below TWO_64. */
module MachineWords {

  const TWO_63: nat := 0x8000_0000_0000_0000
  const TWO_64: nat := 0x1_0000_0000_0000_0000

  function WrappingAdd(a: nat, b: nat): nat {
    (a + b) % TWO_64
  }

  function WrappingSub(a: nat, b: nat): nat {
    (a - b) % TWO_64
  }

  /** Rust's `/` on signed integers rounds toward zero. */
  function TruncDiv(a: int, b: int): int
    requires 0 < b
  {
    if 0 <= a then a / b else -((-a) / b)
  }

  function Pow2(k: nat): (p: nat)
    ensures 0 < p
  {
    if k == 0 then 1 else 2 * Pow2(k - 1)
  }

  /** Bitwise conjunction, bit by bit. */
  function BitAnd(a: nat, b: nat): nat {
    if a == 0 || b == 0 then 0 else 2 * BitAnd(a / 2, b / 2) + (a % 2) * (b % 2)
  }

  // ---------------------------------------------------------------------
  // Division and remainder
  // ---------------------------------------------------------------------

  lemma MulMonotone(d: nat, a: int, b: int)
    requires a <= b
    ensures d * a <= d * b
  {
  }

  lemma DivModUnique(x: int, d: int, q: int, r: int)
    requires 0 < d && x == d * q + r && 0 <= r < d
    ensures x / d == q && x % d == r
  {
    var q', r' := x / d, x % d;
    assert x == d * q' + r';
    if q < q' {
      MulMonotone(d, q + 1, q');
    } else if q' < q {
      MulMonotone(d, q' + 1, q);
    }
  }

  /** Two counters in one window of `d` consecutive values have different residues. */
  lemma ResiduesDiffer(i: nat, j: nat, d: nat)
    requires 0 < d && i < j < i + d
    ensures i % d != j % d
  {
    var k := j / d - i / d;
    assert j - i == d * k + (j % d - i % d);
    if k <= 0 {
      MulMonotone(d, k, 0);
    } else {
      MulMonotone(d, 1, k);
    }
  }

  lemma ResidueShift(i: int, d: nat)
    requires 0 < d
    ensures (i + d) % d == i % d
  {
    assert i + d == d * (i / d + 1) + i % d;
    DivModUnique(i + d, d, i / d + 1, i % d);
  }

  lemma ResidueOfResidue(x: nat, a: nat, b: nat)
    requires 0 < a && 0 < b
    ensures (x % (a * b)) % a == x % a
  {
    var q, r := x / (a * b), x % (a * b);
    assert 0 < a * b;
    assert x == (a * b) * q + r;
    assert x == a * (b * q + r / a) + r % a;
    DivModUnique(x, a, b * q + r / a, r % a);
  }

  /** Dividing twice is dividing once by the product. */
  lemma DivTwice(x: nat, a: nat, b: nat)
    requires 0 < a && 0 < b
    ensures 0 < a * b && x / (a * b) == (x / a) / b
  {
    var u := x / a;
    var q, r := u / b, u % b;
    assert x == a * u + x % a;
    assert u == b * q + r;
    assert x == (a * b) * q + (a * r + x % a);
    MulMonotone(a, r, b - 1);
    assert 0 <= a * r + x % a < a * b;
    DivModUnique(x, a * b, q, a * r + x % a);
  }

  lemma TruncDivTwice(x: int, a: nat, b: nat)
    requires 0 < a && 0 < b
    ensures 0 < a * b && TruncDiv(x, a * b) == TruncDiv(TruncDiv(x, a), b)
  {
    var y := if 0 <= x then x else -x;
    DivTwice(y, a, b);
    QuotientSign(y, a);
  }

  lemma QuotientSign(x: nat, a: nat)
    requires 0 < a
    ensures 0 <= x / a
  {
  }

  // ---------------------------------------------------------------------
  // Masks and wrapping counters
  // ---------------------------------------------------------------------

  lemma Pow2Add(j: nat, k: nat)
    ensures Pow2(j + k) == Pow2(j) * Pow2(k)
  {
    if j != 0 {
      Pow2Add(j - 1, k);
    }
  }

  lemma Pow2Of64()
    ensures Pow2(64) == TWO_64 && Pow2(63) == TWO_63
  {
    assert Pow2(8) == 256;
    Pow2Add(8, 8);
    Pow2Add(16, 16);
    Pow2Add(32, 32);
    assert Pow2(64) == 2 * Pow2(63);
  }

  lemma Pow2Monotone(j: nat, k: nat)
    requires j <= k
    ensures Pow2(j) <= Pow2(k)
  {
    if j < k {
      Pow2Monotone(j, k - 1);
    }
  }

  /** Masking with 2^k - 1 takes the remainder modulo 2^k. */
  lemma {:induction false} MaskIsRemainder(x: nat, k: nat)
    ensures BitAnd(x, Pow2(k) - 1) == x % Pow2(k)
  {
    if k > 0 {
      var p := Pow2(k - 1);
      MaskIsRemainder(x / 2, k - 1);
      MaskStep(x, p);
      RemainderStep(x, p);
    }
  }

  lemma MaskStep(x: nat, p: nat)
    requires 0 < p
    ensures BitAnd(x, 2 * p - 1) == 2 * BitAnd(x / 2, p - 1) + x % 2
  {
    assert (2 * p - 1) / 2 == p - 1 && (2 * p - 1) % 2 == 1;
  }

  lemma RemainderStep(x: nat, p: nat)
    requires 0 < p
    ensures x % (2 * p) == 2 * ((x / 2) % p) + x % 2
  {
    var q, r := (x / 2) / p, (x / 2) % p;
    assert x == (2 * p) * q + (2 * r + x % 2) by {
      assert x / 2 == p * q + r;
    }
    DivModUnique(x, 2 * p, q, 2 * r + x % 2);
  }

  /** The masked wrapped counter is the unbounded counter modulo the capacity. */
  lemma MaskedCounter(n: nat, k: nat)
    requires k <= 64
    ensures BitAnd(n % TWO_64, Pow2(k) - 1) == n % Pow2(k)
  {
    MaskIsRemainder(n % TWO_64, k);
    Pow2Of64();
    Pow2Add(k, 64 - k);
    ResidueOfResidue(n, Pow2(k), Pow2(64 - k));
  }

  /** Wrapping subtraction of two wrapped counters recovers their true distance. */
  lemma WrappedDistance(h: nat, t: nat)
    requires t <= h < t + TWO_64
    ensures WrappingSub(h % TWO_64, t % TWO_64) == h - t
  {
    var M := TWO_64;
    var x := h % M - t % M;
    assert h == M * (h / M) + h % M && t == M * (t / M) + t % M;
    DivModUnique(x, M, t / M - h / M, h - t);
  }

  lemma WrappedIncrement(n: nat, d: nat)
    ensures WrappingAdd(n % TWO_64, d) == (n + d) % TWO_64
  {
  }

  /** Wrapped counters closer than 2^64 agree only when the counters agree. */
  lemma WrappedEqual(a: nat, b: nat)
    requires a <= b < a + TWO_64
    ensures a % TWO_64 == b % TWO_64 <==> a == b
  {
    WrappedDistance(b, a);
  }
}
