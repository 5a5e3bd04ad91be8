/**
 A model of `Barray::BitArray`: a fixed-size bit array packed into a byte
 buffer of ceil(size / 8) bytes. Bit i lives in byte i / 8 at bit position
 i % 8, bit 0 being the least significant bit of its byte.

 The Ruby object mutates its buffer in place; here every operation is a pure
 function from the current array to a new one. An operation that raises in
 Ruby returns `Err` and no new array, so the caller keeps the old one
 unchanged, which models `ensure_position!` running before `setbyte`.
 */
module Barray {
  import opened BitOps

  /** The two exception classes of the library. */
  datatype Error = InvalidPosition | LossyOperation

  datatype Result<+T> = Ok(value: T) | Err(error: Error)

  datatype Outcome = Pass | Fail(error: Error)

  /** Number of bytes needed for `size` bits: ceil(size / 8). */
  function ByteSize(size: nat): (n: nat)
    ensures 8 * n >= size && 8 * n < size + 8
  {
    (size + 7) / 8
  }

  datatype Store = Store(size: nat, data: seq<bv8>)

  /** A bit array: the buffer always holds exactly ceil(size / 8) bytes. */
  type BitArray = s: Store | |s.data| == ByteSize(s.size) witness Store(0, [])

  // ---------------------------------------------------------------------
  // The bit-level view of a buffer.
  // ---------------------------------------------------------------------

  /** Bit i of a packed buffer: bit i % 8 of byte i / 8. */
  predicate BitAt(data: seq<bv8>, i: nat)
    requires i < 8 * |data|
  {
    Test(data[i / 8], i % 8)
  }

  /** Every bit of the buffer, the padding bits of the last byte included. */
  ghost function RawBits(data: seq<bv8>): (r: seq<bool>)
    ensures |r| == 8 * |data|
    ensures forall i | 0 <= i < |r| :: r[i] == BitAt(data, i)
  {
    seq(8 * |data|, i requires 0 <= i < 8 * |data| => BitAt(data, i))
  }

  /** The `size` logical bits of the array, index 0 first. */
  ghost function Bits(a: BitArray): (r: seq<bool>)
    ensures |r| == a.size
  {
    RawBits(a.data)[..a.size]
  }

  /** A byte string whose bits at or beyond `size` are all zero. */
  ghost predicate CleanPayload(size: nat, d: seq<bv8>)
  {
    forall i | size <= i < 8 * |d| :: !RawBits(d)[i]
  }

  /** The bits of the last byte that lie at or beyond `size` are all zero. */
  ghost predicate PaddingClean(a: BitArray)
  {
    CleanPayload(a.size, a.data)
  }

  // ---------------------------------------------------------------------
  // Construction.
  // ---------------------------------------------------------------------

  /** `init_data`: a buffer of n zero bytes. */
  function InitData(n: nat): (z: seq<bv8>)
    ensures |z| == n
    ensures forall i | 0 <= i < n :: z[i] == 0
  {
    seq(n, _ => 0)
  }

  /** `BitArray.new(size)`: ceil(size / 8) zero bytes, so every bit reads 0. */
  function New(size: nat): (a: BitArray)
    ensures a.size == size
    ensures 8 * |a.data| >= size && 8 * |a.data| < size + 8
    ensures forall i | 0 <= i < |a.data| :: a.data[i] == 0
    ensures RawBits(a.data) == Falses(8 * ByteSize(size))
    ensures PaddingClean(a)
  {
    var a: BitArray := Store(size, InitData(ByteSize(size)));
    ZerosAreClear(a.data);
    a
  }

  /** `reset`: a fresh zero buffer of the same size; earlier state is discarded. */
  function Reset(a: BitArray): (r: BitArray)
    ensures r.size == a.size
    ensures |r.data| == |a.data|
    ensures forall i | 0 <= i < |r.data| :: r.data[i] == 0
    ensures RawBits(r.data) == Falses(8 * |a.data|)
    ensures PaddingClean(r)
  {
    var r: BitArray := Store(a.size, InitData(ByteSize(a.size)));
    ZerosAreClear(r.data);
    r
  }

  // ---------------------------------------------------------------------
  // Bit access.
  // ---------------------------------------------------------------------

  /** `ensure_position!`: only positions below `size` are accepted. */
  function EnsurePosition(a: BitArray, p: nat): (o: Outcome)
    ensures o.Pass? <==> p < a.size
    ensures o.Pass? ==> p / 8 < |a.data|
    ensures o.Fail? ==> o.error == InvalidPosition
  {
    if p >= a.size then Fail(InvalidPosition) else Pass
  }

  /** `get`: 1 when the bit is set, 0 otherwise. */
  function Get(a: BitArray, p: nat): (r: Result<nat>)
    ensures r.Err? <==> p >= a.size
    ensures r.Err? ==> r.error == InvalidPosition
    ensures r.Ok? ==> r.value <= 1
    ensures r.Ok? ==> (r.value == 1 <==> (a.data[p / 8] as int / Pow2(p % 8)) % 2 == 1)
    ensures r.Ok? ==> (r.value == 1 <==> Bits(a)[p])
  {
    match EnsurePosition(a, p)
    case Fail(e) => Err(e)
    case Pass =>
      TestIsWeight(a.data[p / 8], p % 8);
      Ok(if Test(a.data[p / 8], p % 8) then 1 else 0)
  }

  /** `set?`: whether `get` reads a nonzero value. */
  function IsSet(a: BitArray, p: nat): (r: Result<bool>)
    ensures r.Err? <==> p >= a.size
    ensures r.Err? ==> r.error == InvalidPosition
    ensures r.Ok? ==> (r.value <==> Bits(a)[p])
    ensures r.Ok? ==> Get(a, p) == Ok(if r.value then 1 else 0)
  {
    match EnsurePosition(a, p)
    case Fail(e) => Err(e)
    case Pass => Ok(Get(a, p).value != 0)
  }

  /** `set`: ORs the single-bit mask into the bit's byte. */
  function Set(a: BitArray, p: nat): (r: Result<BitArray>)
    ensures r.Err? <==> p >= a.size
    ensures r.Err? ==> r.error == InvalidPosition
    ensures r.Ok? ==> r.value.size == a.size
    ensures r.Ok? ==> RawBits(r.value.data) == RawBits(a.data)[p := true]
  {
    match EnsurePosition(a, p)
    case Fail(e) => Err(e)
    case Pass =>
      var i, k := p / 8, p % 8;
      var b := a.data[i] | Mask(k);
      forall j | 0 <= j < 8
        ensures Test(b, j) == (if j == k then true else Test(a.data[i], j))
      {
        OrMask(a.data[i], k, j);
      }
      ReplaceByte(a.data, p, b, true);
      var r: BitArray := Store(a.size, a.data[i := b]);
      Ok(r)
  }

  /** `unset`: ANDs the byte with `255 ^ (1 << k)`, which clears bit k only. */
  function Unset(a: BitArray, p: nat): (r: Result<BitArray>)
    ensures r.Err? <==> p >= a.size
    ensures r.Err? ==> r.error == InvalidPosition
    ensures r.Ok? ==> r.value.size == a.size
    ensures r.Ok? ==> RawBits(r.value.data) == RawBits(a.data)[p := false]
  {
    match EnsurePosition(a, p)
    case Fail(e) => Err(e)
    case Pass =>
      var i, k := p / 8, p % 8;
      var b := a.data[i] & (255 ^ Mask(k));
      forall j | 0 <= j < 8
        ensures Test(b, j) == (if j == k then false else Test(a.data[i], j))
      {
        ClearMask(a.data[i], k, j);
      }
      ReplaceByte(a.data, p, b, false);
      var r: BitArray := Store(a.size, a.data[i := b]);
      Ok(r)
  }

  /** `toggle`: XORs the single-bit mask into the bit's byte. */
  function Toggle(a: BitArray, p: nat): (r: Result<BitArray>)
    ensures r.Err? <==> p >= a.size
    ensures r.Err? ==> r.error == InvalidPosition
    ensures r.Ok? ==> r.value.size == a.size
    ensures r.Ok? ==> RawBits(r.value.data) == RawBits(a.data)[p := !RawBits(a.data)[p]]
  {
    match EnsurePosition(a, p)
    case Fail(e) => Err(e)
    case Pass =>
      var i, k := p / 8, p % 8;
      var b := a.data[i] ^ Mask(k);
      forall j | 0 <= j < 8
        ensures Test(b, j) == (if j == k then !Test(a.data[i], k) else Test(a.data[i], j))
      {
        XorMask(a.data[i], k, j);
      }
      ReplaceByte(a.data, p, b, !Test(a.data[i], k));
      var r: BitArray := Store(a.size, a.data[i := b]);
      Ok(r)
  }

  // ---------------------------------------------------------------------
  // Enumeration and counting.
  // ---------------------------------------------------------------------

  /** The values `get(0), ..., get(n - 1)`, in that order. */
  function YieldBits(a: BitArray, n: nat): (r: seq<nat>)
    requires n <= a.size
    ensures |r| == n
    ensures forall i | 0 <= i < n :: Get(a, i) == Ok(r[i])
  {
    if n == 0 then [] else YieldBits(a, n - 1) + [Get(a, n - 1).value]
  }

  /** `each_bit`: exactly `size` values, `get(0)` first. */
  function EachBit(a: BitArray): (r: seq<nat>)
    ensures |r| == a.size
    ensures forall i | 0 <= i < a.size :: Get(a, i) == Ok(r[i])
    ensures forall i | 0 <= i < a.size :: r[i] == (if Bits(a)[i] then 1 else 0)
  {
    YieldBits(a, a.size)
  }

  /** The `each_byte` loop of `set_size`: zero bytes are skipped, every other byte adds its popcount. */
  function CountBytes(data: seq<bv8>): (n: nat)
    ensures n == Count(RawBits(data))
  {
    if |data| == 0 then
      assert RawBits(data) == [];
      0
    else
      var b, rest := data[0], data[1..];
      RawBitsAppend([b], rest);
      assert [b] + rest == data;
      CountAppend(RawBits([b]), RawBits(rest));
      assert RawBits([b]) == ByteBits(b);
      assert Count(RawBits(data)) == Popcount(b) + Count(RawBits(rest));
      (if b == 0 then 0 else Popcount(b)) + CountBytes(rest)
  }

  /** `set_size`: number of 1 bits in the whole buffer; the array's own bits when the padding is clean. */
  function SetSize(a: BitArray): (n: nat)
    ensures n == Count(RawBits(a.data))
    ensures n <= 8 * |a.data|
    ensures PaddingClean(a) ==> n == Count(Bits(a)) && n <= a.size
  {
    var n := CountBytes(a.data);
    var raw := RawBits(a.data);
    assert raw == raw[..a.size] + raw[a.size..];
    CountAppend(raw[..a.size], raw[a.size..]);
    PaddingCountsZero(a);
    n
  }

  /** `unset_size`: `size - set_size`, the number of 0 bits when the padding is clean. */
  function UnsetSize(a: BitArray): (n: int)
    ensures n + Count(RawBits(a.data)) == a.size
    ensures PaddingClean(a) ==> 0 <= n && n == a.size - Count(Bits(a))
  {
    a.size - SetSize(a)
  }

  // ---------------------------------------------------------------------
  // Serialisation.
  // ---------------------------------------------------------------------

  /** `dump`: a copy of the buffer, ceil(size / 8) bytes long. */
  function Dump(a: BitArray): (d: seq<bv8>)
    ensures 8 * |d| >= a.size && 8 * |d| < a.size + 8
    ensures RawBits(d) == RawBits(a.data)
    ensures RawBits(d)[..a.size] == Bits(a)
  {
    a.data
  }

  /** `load`: refuses input longer than the buffer, otherwise zero-pads it to the buffer's length. */
  function Load(a: BitArray, d: seq<bv8>): (r: Result<BitArray>)
    ensures r.Err? <==> |d| > ByteSize(a.size)
    ensures r.Err? ==> r.error == LossyOperation
    ensures r.Ok? ==> r.value.size == a.size && r.value.data[..|d|] == d
    ensures r.Ok? ==> forall j | |d| <= j < |r.value.data| :: r.value.data[j] == 0
    ensures r.Ok? ==> RawBits(r.value.data) == RawBits(d) + Falses(8 * (|a.data| - |d|))
  {
    if |d| > ByteSize(a.size) then
      Err(LossyOperation)
    else
      var pad := InitData(ByteSize(a.size) - |d|);
      RawBitsAppend(d, pad);
      ZerosAreClear(pad);
      assert (d + pad)[..|d|] == d;
      var r: BitArray := Store(a.size, d + pad);
      Ok(r)
  }

  // ---------------------------------------------------------------------
  // Helper lemmas about the bit view.
  // ---------------------------------------------------------------------

  lemma PaddingCountsZero(a: BitArray)
    ensures PaddingClean(a) ==> Count(RawBits(a.data)[a.size..]) == 0
  {
    if PaddingClean(a) {
      CountNone(RawBits(a.data)[a.size..]);
    }
  }

  lemma ZerosAreClear(z: seq<bv8>)
    requires forall i | 0 <= i < |z| :: z[i] == 0
    ensures RawBits(z) == Falses(8 * |z|)
  {
  }

  /** Replacing the byte that holds bit p by one that differs only in that bit updates bit p alone. */
  lemma ReplaceByte(data: seq<bv8>, p: nat, b: bv8, v: bool)
    requires p < 8 * |data|
    requires forall j | 0 <= j < 8 :: Test(b, j) == (if j == p % 8 then v else Test(data[p / 8], j))
    ensures RawBits(data[p / 8 := b]) == RawBits(data)[p := v]
  {
    var d' := data[p / 8 := b];
    forall i | 0 <= i < 8 * |data|
      ensures RawBits(d')[i] == RawBits(data)[p := v][i]
    {
      if i / 8 == p / 8 {
        assert i == p <==> i % 8 == p % 8;
      }
    }
  }

  /** The bit view of a concatenation is the concatenation of the bit views. */
  lemma RawBitsAppend(d: seq<bv8>, e: seq<bv8>)
    ensures RawBits(d + e) == RawBits(d) + RawBits(e)
  {
    var l, r := RawBits(d + e), RawBits(d) + RawBits(e);
    forall i | 0 <= i < |l|
      ensures l[i] == r[i]
    {
      if i >= 8 * |d| {
        var i' := i - 8 * |d|;
        assert i / 8 == |d| + i' / 8 && i % 8 == i' % 8;
      }
    }
  }
}
