/**
 Properties of the bit array that relate several operations: reading back
 what was written, idempotence and involution of the single-bit updates,
 how the population count moves, what `reset` leaves behind, the
 `dump`/`load` round trip, and which sequences of operations keep the
 padding bits of the last byte zero.
 */
module BarrayProperties {
  import opened BitOps
  import opened Barray

  // ---------------------------------------------------------------------
  // Buffers are determined by their bits.
  // ---------------------------------------------------------------------

  lemma RawBitsInjective(d: seq<bv8>, e: seq<bv8>)
    requires |d| == |e|
    requires RawBits(d) == RawBits(e)
    ensures d == e
  {
    forall i | 0 <= i < |d|
      ensures d[i] == e[i]
    {
      forall j | 0 <= j < 8
        ensures Test(d[i], j) == Test(e[i], j)
      {
        var p := 8 * i + j;
        assert p / 8 == i && p % 8 == j;
        assert RawBits(d)[p] == RawBits(e)[p];
      }
      Extensional(d[i], e[i]);
    }
  }

  /** Two arrays of the same size with the same bits, padding included, are equal. */
  lemma SameBitsSameArray(a: BitArray, b: BitArray)
    requires a.size == b.size
    requires RawBits(a.data) == RawBits(b.data)
    ensures a == b
  {
    RawBitsInjective(a.data, b.data);
  }

  // ---------------------------------------------------------------------
  // Construction.
  // ---------------------------------------------------------------------

  /** A new array reads 0 everywhere, counts no set bit and dumps ceil(size / 8) bytes. */
  lemma NewReadsZero(size: nat)
    ensures forall p | 0 <= p < size :: Get(New(size), p) == Ok(0)
    ensures SetSize(New(size)) == 0
    ensures UnsetSize(New(size)) == size
    ensures |Dump(New(size))| == ByteSize(size)
  {
    CountNone(RawBits(New(size).data));
  }

  // ---------------------------------------------------------------------
  // Single-bit updates.
  // ---------------------------------------------------------------------

  /** Every indexed operation refuses a position at or beyond `size`. */
  lemma OutOfRange(a: BitArray, p: nat)
    requires p >= a.size
    ensures Get(a, p) == Err(InvalidPosition)
    ensures IsSet(a, p) == Err(InvalidPosition)
    ensures Set(a, p) == Err(InvalidPosition)
    ensures Unset(a, p) == Err(InvalidPosition)
    ensures Toggle(a, p) == Err(InvalidPosition)
  {
  }

  /** After `set(p)`, bit p reads 1 and every other position reads as before. */
  lemma SetThenGet(a: BitArray, p: nat, q: nat)
    requires p < a.size
    ensures Get(Set(a, p).value, q) == if q == p then Ok(1) else Get(a, q)
  {
  }

  /** Setting a bit twice is the same as setting it once. */
  lemma SetIdempotent(a: BitArray, p: nat)
    ensures Set(a, p).Ok? ==> Set(Set(a, p).value, p) == Set(a, p)
  {
    if p < a.size {
      var b := Set(a, p).value;
      SameBitsSameArray(Set(b, p).value, b);
    }
  }

  /** After `unset(p)`, bit p reads 0 and every other position reads as before. */
  lemma UnsetThenGet(a: BitArray, p: nat, q: nat)
    requires p < a.size
    ensures Get(Unset(a, p).value, q) == if q == p then Ok(0) else Get(a, q)
  {
  }

  /** Clearing a bit twice is the same as clearing it once. */
  lemma UnsetIdempotent(a: BitArray, p: nat)
    ensures Unset(a, p).Ok? ==> Unset(Unset(a, p).value, p) == Unset(a, p)
  {
    if p < a.size {
      var b := Unset(a, p).value;
      SameBitsSameArray(Unset(b, p).value, b);
    }
  }

  /** After `toggle(p)`, bit p reads the opposite value and every other position reads as before. */
  lemma ToggleThenGet(a: BitArray, p: nat, q: nat)
    requires p < a.size
    ensures Get(Toggle(a, p).value, q) == if q == p then Ok(1 - Get(a, p).value) else Get(a, q)
  {
  }

  /** Toggling a bit twice restores the original buffer. */
  lemma ToggleInvolution(a: BitArray, p: nat)
    requires p < a.size
    ensures Toggle(Toggle(a, p).value, p) == Ok(a)
  {
    var b := Toggle(a, p).value;
    SameBitsSameArray(Toggle(b, p).value, a);
  }

  /** Clearing a bit that was just set restores the array when the bit was 0 before. */
  lemma UnsetUndoesSet(a: BitArray, p: nat)
    requires p < a.size
    requires Get(a, p) == Ok(0)
    ensures Unset(Set(a, p).value, p) == Ok(a)
  {
    var b := Set(a, p).value;
    assert Bits(a)[p] == RawBits(a.data)[p];
    SameBitsSameArray(Unset(b, p).value, a);
  }

  /** The padding bits stay zero under every single-bit update, since positions are natural numbers below `size`. */
  lemma UpdatesKeepPaddingClean(a: BitArray, p: nat)
    requires PaddingClean(a)
    ensures Set(a, p).Ok? ==> PaddingClean(Set(a, p).value)
    ensures Unset(a, p).Ok? ==> PaddingClean(Unset(a, p).value)
    ensures Toggle(a, p).Ok? ==> PaddingClean(Toggle(a, p).value)
  {
  }

  // ---------------------------------------------------------------------
  // Counting.
  // ---------------------------------------------------------------------

  /** `set` raises `set_size` by one exactly when the bit was clear. */
  lemma SetSizeAfterSet(a: BitArray, p: nat)
    requires p < a.size
    ensures SetSize(Set(a, p).value) == SetSize(a) + (if Get(a, p) == Ok(1) then 0 else 1)
  {
    assert Bits(a)[p] == RawBits(a.data)[p];
    CountUpdate(RawBits(a.data), p, true);
  }

  /** `unset` lowers `set_size` by one exactly when the bit was set. */
  lemma SetSizeAfterUnset(a: BitArray, p: nat)
    requires p < a.size
    ensures SetSize(Unset(a, p).value) == SetSize(a) - (if Get(a, p) == Ok(1) then 1 else 0)
  {
    assert Bits(a)[p] == RawBits(a.data)[p];
    CountUpdate(RawBits(a.data), p, false);
  }

  /** `toggle` moves `set_size` by one, up when the bit was clear and down when it was set. */
  lemma SetSizeAfterToggle(a: BitArray, p: nat)
    requires p < a.size
    ensures SetSize(Toggle(a, p).value) == SetSize(a) + (if Get(a, p) == Ok(1) then -1 else 1)
  {
    assert Bits(a)[p] == RawBits(a.data)[p];
    CountUpdate(RawBits(a.data), p, !RawBits(a.data)[p]);
  }

  /** `set_size` and `unset_size` always add up to `size`; both lie in 0 .. size when the padding is clean. */
  lemma CountsAddUp(a: BitArray)
    ensures SetSize(a) + UnsetSize(a) == a.size
    ensures PaddingClean(a) ==> SetSize(a) <= a.size && 0 <= UnsetSize(a) <= a.size
  {
  }

  /** After `reset` every bit reads 0, `set_size` is 0, and the array equals a new one of the same size. */
  lemma ResetClears(a: BitArray)
    ensures forall p | 0 <= p < a.size :: Get(Reset(a), p) == Ok(0)
    ensures SetSize(Reset(a)) == 0
    ensures UnsetSize(Reset(a)) == a.size
    ensures Reset(a) == New(a.size)
  {
    CountNone(RawBits(Reset(a).data));
    SameBitsSameArray(Reset(a), New(a.size));
  }

  // ---------------------------------------------------------------------
  // Serialisation.
  // ---------------------------------------------------------------------

  /** Loading an array's own dump gives back the same array. */
  lemma ReloadOwnDump(a: BitArray)
    ensures Load(a, Dump(a)) == Ok(a)
  {
    var d := Dump(a);
    assert Falses(8 * (|a.data| - |d|)) == [];
    assert RawBits(d) + [] == RawBits(a.data);
    SameBitsSameArray(Load(a, d).value, a);
  }

  /** Loading a clean array's dump into an array at least as large copies its bits and clears the rest. */
  lemma LoadDumpIntoLarger(a: BitArray, b: BitArray)
    requires PaddingClean(a)
    requires a.size <= b.size
    ensures Load(b, Dump(a)).Ok?
    ensures forall i | 0 <= i < b.size :: Get(Load(b, Dump(a)).value, i) == if i < a.size then Get(a, i) else Ok(0)
    ensures PaddingClean(Load(b, Dump(a)).value)
    ensures SetSize(Load(b, Dump(a)).value) == SetSize(a)
  {
    var d := Dump(a);
    assert |d| <= ByteSize(b.size);
    var c := Load(b, d).value;
    var pad := Falses(8 * (|b.data| - |d|));
    assert RawBits(c.data) == RawBits(a.data) + pad;
    forall i | 0 <= i < b.size
      ensures Get(c, i) == if i < a.size then Get(a, i) else Ok(0)
    {
      assert Bits(c)[i] == RawBits(c.data)[i];
      if i < a.size {
        assert Bits(a)[i] == RawBits(a.data)[i];
      }
    }
    CountAppend(RawBits(a.data), pad);
    CountNone(pad);
  }

  /** A dump too long for the receiving array is refused. */
  lemma LoadLargerDumpFails(a: BitArray, b: BitArray)
    requires ByteSize(a.size) > ByteSize(b.size)
    ensures Load(b, Dump(a)) == Err(LossyOperation)
  {
  }

  // ---------------------------------------------------------------------
  // Reachable states.
  // ---------------------------------------------------------------------

  /** The mutating calls a client can make on one array. */
  datatype Op = SetOp(p: nat) | UnsetOp(p: nat) | ToggleOp(p: nat) | ResetOp | LoadOp(d: seq<bv8>)

  /** The state after one call; a call that raises leaves the array as it was. */
  function Apply(a: BitArray, op: Op): (r: BitArray)
    ensures r.size == a.size
  {
    var res := match op
      case SetOp(p) => Set(a, p)
      case UnsetOp(p) => Unset(a, p)
      case ToggleOp(p) => Toggle(a, p)
      case ResetOp => Ok(Reset(a))
      case LoadOp(d) => Load(a, d);
    if res.Ok? then res.value else a
  }

  /** The state after a sequence of calls, first call first. */
  function Run(a: BitArray, ops: seq<Op>): (r: BitArray)
    ensures r.size == a.size
    decreases |ops|
  {
    if |ops| == 0 then a else Run(Apply(a, ops[0]), ops[1..])
  }

  /** Every operation keeps the padding clean, a load provided that its input is clean. */
  lemma ApplyKeepsPaddingClean(a: BitArray, op: Op)
    requires PaddingClean(a)
    requires op.LoadOp? ==> CleanPayload(a.size, op.d)
    ensures PaddingClean(Apply(a, op))
  {
    match op
    case LoadOp(d) =>
      if |d| <= ByteSize(a.size) {
        var c := Load(a, d).value;
        forall i | a.size <= i < 8 * |c.data|
          ensures !RawBits(c.data)[i]
        {
          if i < 8 * |d| {
            assert RawBits(c.data)[i] == RawBits(d)[i];
          }
        }
      }
    case _ =>
  }

  /** From a clean array, any run whose loads carry clean inputs keeps `set_size` and `unset_size` within 0 .. size. */
  lemma {:induction false} RunKeepsCountsInRange(a: BitArray, ops: seq<Op>)
    requires PaddingClean(a)
    requires forall i | 0 <= i < |ops| :: ops[i].LoadOp? ==> CleanPayload(a.size, ops[i].d)
    ensures PaddingClean(Run(a, ops))
    ensures SetSize(Run(a, ops)) <= a.size
    ensures 0 <= UnsetSize(Run(a, ops)) <= a.size
    decreases |ops|
  {
    if |ops| > 0 {
      ApplyKeepsPaddingClean(a, ops[0]);
      RunKeepsCountsInRange(Apply(a, ops[0]), ops[1..]);
    }
  }

  /** `load` copies its input verbatim, so it can set padding bits: then `set_size` exceeds `size` and `unset_size` is negative. */
  lemma LoadCanDirtyPadding()
    ensures Load(New(1), [255]).Ok?
    ensures !PaddingClean(Load(New(1), [255]).value)
    ensures SetSize(Load(New(1), [255]).value) == 8
    ensures UnsetSize(Load(New(1), [255]).value) == -7
  {
    var c := Load(New(1), [255]).value;
    assert c.data == [255];
    assert RawBits(c.data)[1];
    forall i | 0 <= i < 8
      ensures RawBits(c.data)[i]
    {
      assert Test(255, i);
    }
    assert RawBits(c.data) == [true, true, true, true, true, true, true, true];
  }

  // ---------------------------------------------------------------------
  // Worked examples.
  // ---------------------------------------------------------------------

  /** A size-10 array with bits 2 and 9 set dumps to the bytes 4 and 2. */
  lemma DumpExample()
    ensures Dump(Set(Set(New(10), 2).value, 9).value) == [4, 2]
  {
  }

  /** A size-5 array with bits 1 and 3 set enumerates as 0, 1, 0, 1, 0. */
  lemma EachBitExample()
    ensures EachBit(Set(Set(New(5), 1).value, 3).value) == [0, 1, 0, 1, 0]
  {
  }

  /** A size-10 array with bits 2, 5 and 9 set counts 3 set and 7 unset bits. */
  lemma CountExample()
    ensures SetSize(Set(Set(Set(New(10), 2).value, 5).value, 9).value) == 3
    ensures UnsetSize(Set(Set(Set(New(10), 2).value, 5).value, 9).value) == 7
  {
    var a0 := New(10);
    var a1 := Set(a0, 2).value;
    var a2 := Set(a1, 5).value;
    var a3 := Set(a2, 9).value;
    NewReadsZero(10);
    SetSizeAfterSet(a0, 2);
    assert SetSize(a1) == 1;
    SetThenGet(a0, 2, 5);
    SetSizeAfterSet(a1, 5);
    assert SetSize(a2) == 2;
    SetThenGet(a0, 2, 9);
    SetThenGet(a1, 5, 9);
    SetSizeAfterSet(a2, 9);
    assert SetSize(a3) == 3;
    CountsAddUp(a3);
  }

  /** A size-5 array with bit 3 set reads 0, 0, 0, 1, 0 and dumps to the single byte 8. */
  lemma SingleBitExample()
    ensures EachBit(Set(New(5), 3).value) == [0, 0, 0, 1, 0]
    ensures Dump(Set(New(5), 3).value) == [8]
  {
  }
}
