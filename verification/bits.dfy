/**
 Byte-level building blocks of the bit array: the single-bit masks the
 operations combine with `|`, `&` and `^`, the reference meaning of bit `k`
 of a byte as the weight 2^k, and the per-byte population count that
 `set_size` sums.
 */
module BitOps {

  /** 2^k, the value contributed by bit k of a byte (bit 0 is 1, bit 7 is 128). */
  function Pow2(k: nat): (r: nat)
    ensures r > 0
  {
    if k == 0 then 1 else 2 * Pow2(k - 1)
  }

  /** The single-bit mask `1 << k`. */
  function Mask(k: nat): bv8
    requires k < 8
  {
    (1 as bv8) << k
  }

  /** The source's bit test: `byte & (1 << k) != 0`. */
  predicate Test(b: bv8, k: nat)
    requires k < 8
  {
    b & Mask(k) != 0
  }

  /** The eight bits of a byte, least significant first. */
  function ByteBits(b: bv8): (r: seq<bool>)
    ensures |r| == 8
    ensures forall k | 0 <= k < 8 :: r[k] == Test(b, k)
  {
    seq(8, k requires 0 <= k < 8 => Test(b, k))
  }

  /** Number of `true` entries in a sequence of bits. */
  function Count(s: seq<bool>): (n: nat)
    ensures n <= |s|
  {
    if |s| == 0 then 0 else (if s[0] then 1 else 0) + Count(s[1..])
  }

  /** A sequence of n cleared bits. */
  function Falses(n: nat): (r: seq<bool>)
    ensures |r| == n
    ensures forall i | 0 <= i < n :: !r[i]
  {
    seq(n, _ => false)
  }

  /** Number of set bits among positions 0 .. n-1 of a byte. */
  function CountBelow(b: bv8, n: nat): (c: nat)
    requires n <= 8
    ensures c <= n
  {
    if n == 0 then 0 else CountBelow(b, n - 1) + (if Test(b, n - 1) then 1 else 0)
  }

  /** Population count of one byte: how many of its eight bits are 1. */
  function Popcount(b: bv8): (c: nat)
    ensures c <= 8
    ensures c == Count(ByteBits(b))
    ensures c == 0 <==> b == 0
  {
    PopcountIsCount(b, 8);
    assert ByteBits(b)[..8] == ByteBits(b);
    PopcountZero(b);
    CountBelow(b, 8)
  }

  /** Only the zero byte has no set bit. */
  lemma PopcountZero(b: bv8)
    ensures CountBelow(b, 8) == 0 <==> b == 0
  {
    if CountBelow(b, 8) == 0 {
      NoneBelow(b, 8);
      forall j | 0 <= j < 8
        ensures Test(b, j) == Test(0, j)
      {
      }
      Extensional(b, 0);
    }
  }

  // ---------------------------------------------------------------------
  // The mask test agrees with the arithmetic weight of each bit.
  // ---------------------------------------------------------------------

  /** One more shift to the right halves the value again. */
  lemma ShiftStep(b: bv8, k: nat)
    requires 0 < k <= 8
    ensures (b >> k) as int == (b >> (k - 1)) as int / 2
  {
  }

  lemma TestIsLowBitOfShift(b: bv8, k: nat)
    requires k < 8
    ensures Test(b, k) <==> (b >> k) as int % 2 == 1
  {
  }

  lemma MulAtLeast(d: int, m: int)
    requires d > 0 && m >= 1
    ensures d * m >= d
  {
  }

  /** Euclidean division has a unique quotient. */
  lemma DivUnique(n: int, d: int, q: int, r: int)
    requires d > 0 && n == d * q + r && 0 <= r < d
    ensures n / d == q
  {
    var q', r' := n / d, n % d;
    assert n == d * q' + r';
    if q' > q {
      assert d * q' == d * q + d * (q' - q);
      MulAtLeast(d, q' - q);
    } else if q' < q {
      assert d * q == d * q' + d * (q - q');
      MulAtLeast(d, q - q');
    }
  }

  /** Dividing by 2q is dividing by q and then by 2. */
  lemma DivTwice(n: nat, q: nat)
    requires q > 0
    ensures n / (2 * q) == (n / q) / 2
  {
    var a := n / q;
    var c := a / 2;
    assert n == q * a + n % q;
    if a % 2 == 0 {
      assert a == 2 * c;
      assert q * a == (2 * q) * c;
      DivUnique(n, 2 * q, c, n % q);
    } else {
      assert a == 2 * c + 1;
      assert q * a == (2 * q) * c + q;
      DivUnique(n, 2 * q, c, q + n % q);
    }
  }

  /** Shifting a byte right by k divides its value by 2^k. */
  lemma {:induction false} ShiftIsDivision(b: bv8, k: nat)
    requires k <= 8
    ensures (b >> k) as int == b as int / Pow2(k)
  {
    if k == 0 {
      assert b >> 0 == b;
    } else {
      ShiftIsDivision(b, k - 1);
      ShiftStep(b, k);
      DivTwice(b as int, Pow2(k - 1));
      assert Pow2(k) == 2 * Pow2(k - 1);
    }
  }

  /** Bit k of a byte is set exactly when the byte's value, divided by 2^k, is odd. */
  lemma TestIsWeight(b: bv8, k: nat)
    requires k < 8
    ensures Test(b, k) <==> (b as int / Pow2(k)) % 2 == 1
  {
    TestIsLowBitOfShift(b, k);
    ShiftIsDivision(b, k);
  }

  // ---------------------------------------------------------------------
  // Effect of the three single-bit updates on every bit of the byte.
  // ---------------------------------------------------------------------

  /** `b | (1 << k)` sets bit k and keeps the others. */
  lemma OrMask(b: bv8, k: nat, j: nat)
    requires k < 8 && j < 8
    ensures Test(b | Mask(k), j) <==> j == k || Test(b, j)
  {
  }

  /** `b & (255 ^ (1 << k))` clears bit k and keeps the others. */
  lemma ClearMask(b: bv8, k: nat, j: nat)
    requires k < 8 && j < 8
    ensures Test(b & (255 ^ Mask(k)), j) <==> j != k && Test(b, j)
  {
  }

  /** `b ^ (1 << k)` flips bit k and keeps the others. */
  lemma XorMask(b: bv8, k: nat, j: nat)
    requires k < 8 && j < 8
    ensures Test(b ^ Mask(k), j) <==> (if j == k then !Test(b, j) else Test(b, j))
  {
    if j == k {
      assert (b ^ Mask(k)) & Mask(k) == (b & Mask(k)) ^ Mask(k);
    } else {
      assert (b ^ Mask(k)) & Mask(j) == b & Mask(j);
    }
  }

  /** A byte is determined by its eight bits. */
  lemma Extensional(b: bv8, c: bv8)
    requires forall j | 0 <= j < 8 :: Test(b, j) == Test(c, j)
    ensures b == c
  {
    assert Test(b, 0) == Test(c, 0);
    assert Test(b, 1) == Test(c, 1);
    assert Test(b, 2) == Test(c, 2);
    assert Test(b, 3) == Test(c, 3);
    assert Test(b, 4) == Test(c, 4);
    assert Test(b, 5) == Test(c, 5);
    assert Test(b, 6) == Test(c, 6);
    assert Test(b, 7) == Test(c, 7);
  }

  // ---------------------------------------------------------------------
  // Counting.
  // ---------------------------------------------------------------------

  lemma {:induction false} PopcountIsCount(b: bv8, n: nat)
    requires n <= 8
    ensures CountBelow(b, n) == Count(ByteBits(b)[..n])
  {
    if n > 0 {
      PopcountIsCount(b, n - 1);
      var s := ByteBits(b);
      assert s[..n] == s[..n - 1] + [s[n - 1]];
      CountAppend(s[..n - 1], [s[n - 1]]);
    }
  }

  lemma {:induction false} NoneBelow(b: bv8, n: nat)
    requires n <= 8
    requires CountBelow(b, n) == 0
    ensures forall j | 0 <= j < n :: !Test(b, j)
  {
    if n > 0 {
      NoneBelow(b, n - 1);
    }
  }

  /** Counting distributes over concatenation. */
  lemma {:induction false} CountAppend(s: seq<bool>, t: seq<bool>)
    ensures Count(s + t) == Count(s) + Count(t)
  {
    if |s| > 0 {
      assert (s + t)[1..] == s[1..] + t;
      CountAppend(s[1..], t);
    } else {
      assert s + t == t;
    }
  }

  /** A sequence with no set bit counts zero. */
  lemma {:induction false} CountNone(s: seq<bool>)
    requires forall i | 0 <= i < |s| :: !s[i]
    ensures Count(s) == 0
  {
    if |s| > 0 {
      CountNone(s[1..]);
    }
  }

  /** Writing bit i changes the count by one exactly when the bit changes. */
  lemma {:induction false} CountUpdate(s: seq<bool>, i: nat, v: bool)
    requires i < |s|
    ensures Count(s[i := v]) == Count(s) - (if s[i] then 1 else 0) + (if v then 1 else 0)
  {
    if i == 0 {
      assert s[i := v][1..] == s[1..];
    } else {
      assert s[i := v][1..] == s[1..][i - 1 := v];
      CountUpdate(s[1..], i - 1, v);
    }
  }
}
