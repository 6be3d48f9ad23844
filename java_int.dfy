/** Java's fixed-width integer arithmetic on top of Dafny's unbounded `int`:
    the `int` and `long` ranges, the narrowing that keeps the low bits, and
    the shift `1 << n`, whose count Java masks to five bits. */
module JavaInt {

  const TWO_31: int := 0x8000_0000
  const TWO_32: int := 0x1_0000_0000
  const TWO_63: int := 0x8000_0000_0000_0000
  const TWO_64: int := 0x1_0000_0000_0000_0000

  const MIN_INT: int := -TWO_31
  const MAX_INT: int := TWO_31 - 1
  const MIN_LONG: int := -TWO_63
  const MAX_LONG: int := TWO_63 - 1

  /** Values of Java's `int`. */
  type Int32 = x: int | -0x8000_0000 <= x < 0x8000_0000

  /** Values of Java's `long`. */
  type Int64 = x: int | -0x8000_0000_0000_0000 <= x < 0x8000_0000_0000_0000

  /** The `int` that Java's two's-complement arithmetic yields for the exact
      value `x`: the one value of the `int` range congruent to `x` modulo 2^32. */
  function ToInt32(x: int): (r: Int32)
    ensures (x - r) % TWO_32 == 0
    ensures MIN_INT <= x <= MAX_INT ==> r == x
  {
    (x + TWO_31) % TWO_32 - TWO_31
  }

  /** The `long` that Java's two's-complement arithmetic yields for `x`. */
  function ToInt64(x: int): (r: Int64)
    ensures (x - r) % TWO_64 == 0
    ensures MIN_LONG <= x <= MAX_LONG ==> r == x
  {
    (x + TWO_63) % TWO_64 - TWO_63
  }

  /** Two `int` values differ exactly when their wrapped difference is
      nonzero: a difference of two `int`s is narrower than 2^32 in magnitude. */
  lemma WrappedDifferenceZero(a: Int32, b: Int32)
    ensures ToInt32(a - b) == 0 <==> a == b
  {
    var d := a - b;
    if d < -TWO_31 {
      assert ToInt32(d) == d + TWO_32;
    } else if d > MAX_INT {
      assert ToInt32(d) == d - TWO_32;
    }
  }

  /** 2^k. */
  function Pow2(k: nat): (p: nat)
  {
    if k == 0 then 1 else 2 * Pow2(k - 1)
  }

  lemma {:induction false} Pow2Positive(k: nat)
    ensures Pow2(k) >= 1
  {
    if k > 0 {
      Pow2Positive(k - 1);
    }
  }

  lemma {:induction false} Pow2Add(a: nat, b: nat)
    ensures Pow2(a + b) == Pow2(a) * Pow2(b)
  {
    if a > 0 {
      Pow2Add(a - 1, b);
      calc {
        Pow2(a + b);
        2 * Pow2((a - 1) + b);
        2 * (Pow2(a - 1) * Pow2(b));
        (2 * Pow2(a - 1)) * Pow2(b);
      }
    }
  }

  /** The power that Java's `int` cannot hold: 2^31 is one past MAX_INT. */
  lemma Pow2ThirtyOne()
    ensures Pow2(31) == TWO_31
  {
    assert Pow2(7) == 0x80;
    assert Pow2(8) == 0x100;
    Pow2Add(8, 8);
    assert Pow2(16) == 0x1_0000;
    Pow2Add(16, 8);
    assert Pow2(24) == 0x100_0000;
    Pow2Add(24, 7);
  }

  lemma {:induction false} Pow2StrictlyIncreasing(j: nat, k: nat)
    requires j < k
    ensures Pow2(j) < Pow2(k)
  {
    Pow2Positive(k - 1);
    if j < k - 1 {
      Pow2StrictlyIncreasing(j, k - 1);
    }
  }

  /** The shift count Java actually uses for `x << n` on `int`: `n & 31`,
      which for two's complement is Dafny's Euclidean `n % 32`. */
  function ShiftCount(n: Int32): (k: nat)
    ensures k < 32
    ensures 0 <= n < 32 ==> k == n
  {
    n % 32
  }

  /** Java's `1 << n` on `int`: the low 32 bits of 2^k for the masked count
      k, read as two's complement. So it is 2^k, except that a count of 31
      sets only the sign bit. */
  function OneShiftedLeft(n: Int32): (r: Int32)
    ensures r == ToInt32(Pow2(ShiftCount(n)))
    ensures ShiftCount(n) < 31 ==> r == Pow2(ShiftCount(n))
    ensures ShiftCount(n) == 31 ==> r == MIN_INT
  {
    var k := ShiftCount(n);
    if k == 31 then
      Pow2ThirtyOne();
      assert ToInt32(TWO_31) == MIN_INT;
      MIN_INT
    else
      Pow2StrictlyIncreasing(k, 31);
      Pow2ThirtyOne();
      Pow2(k)
  }

  /** `1 << n` is positive exactly when the masked count is below 31, so in
      particular for every count from 0 to 30, where it is 2^n. */
  lemma OneShiftedLeftSign(n: Int32)
    ensures OneShiftedLeft(n) != 0
    ensures OneShiftedLeft(n) > 0 <==> ShiftCount(n) != 31
    ensures 0 <= n <= 30 ==> OneShiftedLeft(n) == Pow2(n) > 0
  {
    if ShiftCount(n) != 31 {
      Pow2Positive(ShiftCount(n));
    }
  }

  /** On counts 0..30 the shift is strictly monotone, so it tells the counts apart. */
  lemma OneShiftedLeftStrictlyIncreasing(j: Int32, k: Int32)
    requires 0 <= j < k <= 30
    ensures OneShiftedLeft(j) < OneShiftedLeft(k)
  {
    Pow2StrictlyIncreasing(j, k);
  }
}
