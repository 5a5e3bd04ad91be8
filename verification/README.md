# barray in Dafny

A model of `Barray::BitArray` (Ruby), a fixed-size bit array packed into a
byte buffer of ceil(size / 8) bytes, and proofs about it.

- Bit `i` lives in byte `i / 8` at bit position `i % 8`, bit 0 being the
  least significant bit (value 1) and bit 7 the most significant (value 128).
- `get`, `set?`, `set`, `unset` and `toggle` first run `ensure_position!`,
  which raises `InvalidPositionError` for a position at or beyond `size`.
- `set` ORs the mask `1 << k` into the byte, `unset` ANDs it with
  `255 ^ (1 << k)`, `toggle` XORs the mask. Bytes are `bv8` values, so
  every byte stays within 0 .. 255.
- `reset` replaces the buffer by zero bytes.
- `each_bit` yields `get(0) .. get(size - 1)`.
- `set_size` sums per-byte popcounts over the whole buffer and skips zero
  bytes. `unset_size` is `size - set_size`.
- `dump` returns a copy of the buffer.
- `load` raises `LossyOperationError` for input longer than the buffer.
  Otherwise it copies the input and appends zero bytes up to the buffer's
  length. This holds for input in an ASCII-compatible encoding; the
  exception for other encodings is listed under "Left out".

Layout of the project:

- `bits.dfy`, module `BitOps`: single-bit masks, the bit test, the
  arithmetic weight of each bit, and the per-byte popcount.
- `barray.dfy`, module `Barray`: the error kinds, `Result`, the `BitArray`
  type and every operation of the class.
- `properties.dfy`, module `BarrayProperties`: lemmas that relate several
  operations, reachable states, and the worked examples of the test suite.

The Ruby object mutates its buffer in place. Here a `BitArray` is an
immutable value: a size and a `seq<bv8>` whose length is always
`ByteSize(size)`, which is enforced by a subset type. A mutating operation
returns `Result<BitArray>`. A call that raises in Ruby returns `Err` and no
new array. The caller keeps the old value, and that is the model of "the
buffer is left unmodified".

Contracts are stated against two views of a buffer:

- `RawBits(data)`: all `8 * |data|` bits, padding included.
- `Bits(a)`: the first `size` of them.

`PaddingClean(a)` says that the bits at or beyond `size` in the last byte
are zero.

Nothing in the class clears the bits at or beyond `size` in the last byte.
`set_size` counts raw bits over the whole buffer, so it equals the logical
count only while those bits are zero. For non-negative positions, `set`,
`unset` and `toggle` keep them zero, because positions at or beyond `size`
are rejected; `reset` zeroes the whole buffer. `load` copies the caller's
bytes verbatim (lib/barray.rb:23), so it can set them. Therefore
`set_size <= size` and `unset_size >= 0` are proved only under
`PaddingClean`. `LoadCanDirtyPadding` shows a case where they fail: a size-1
array loaded with the byte 255 has `set_size` 8 and `unset_size` -7.

## Model

| member | source | states |
|---|---|---|
| Barray.ByteSize | lib/barray.rb:12 | the byte count n is ceil(size / 8): 8n >= size and 8n < size + 8 |
| Barray.InitData | lib/barray.rb:84-86 | the new buffer has exactly n bytes and every one of them is zero |
| Barray.New | lib/barray.rb:10-14 | a new array has the given size and ceil(size / 8) zero bytes; every bit, padding included, is 0 |
| Barray.Reset | lib/barray.rb:46-48 | after reset the size is kept, every byte is 0, every bit reads 0 and the padding is clean |
| Barray.EnsurePosition | lib/barray.rb:88-90 | a position passes exactly when it is below size, and then its byte exists; otherwise the error is InvalidPosition |
| Barray.Get | lib/barray.rb:41-44 | fails with InvalidPosition iff position >= size; otherwise returns 0 or 1, and 1 exactly when byte p/8 divided by 2^(p%8) is odd, i.e. logical bit p is set |
| Barray.IsSet | lib/barray.rb:36-39 | fails with InvalidPosition iff position >= size; otherwise true exactly when bit p is set, which is when get reads nonzero |
| Barray.Set | lib/barray.rb:26-29 | fails with InvalidPosition iff position >= size; otherwise keeps the size and the buffer's bits are the old ones with bit p set to 1 and nothing else changed |
| Barray.Unset | lib/barray.rb:31-34 | fails with InvalidPosition iff position >= size; otherwise the buffer's bits are the old ones with bit p cleared and nothing else changed |
| Barray.Toggle | lib/barray.rb:50-53 | fails with InvalidPosition iff position >= size; otherwise the buffer's bits are the old ones with bit p inverted and nothing else changed |
| Barray.YieldBits | lib/barray.rb:58-60 | the first n yielded values are exactly get(0), ..., get(n-1) in order |
| Barray.EachBit | lib/barray.rb:55-61 | each_bit yields exactly size values; value i equals get(i) and is 1 exactly when bit i is set |
| Barray.CountBytes | lib/barray.rb:66-70 | the byte loop, zero bytes skipped, totals the number of 1 bits in the whole buffer |
| Barray.SetSize | lib/barray.rb:63-73 | set_size is the number of 1 bits in the whole buffer, padding included; with clean padding it is the number of set logical bits and at most size |
| Barray.UnsetSize | lib/barray.rb:75-77 | unset_size plus the raw 1-bit count is size; with clean padding it is the number of 0 logical bits and not negative |
| Barray.Dump | lib/barray.rb:16-18 | the dump has ceil(size / 8) bytes and carries exactly the array's bits |
| Barray.Load | lib/barray.rb:20-24 | fails with LossyOperation iff the input is longer than the buffer; otherwise keeps the size, the input is a prefix of the new buffer, the rest is zero bytes, and the bits are the input's bits followed by zeros |
| BitOps.TestIsWeight | lib/barray.rb:43 | the mask test byte & (1 << k) != 0 holds exactly when the byte's value divided by 2^k is odd |
| BitOps.OrMask | lib/barray.rb:28 | ORing with 1 << k sets bit k and keeps every other bit |
| BitOps.ClearMask | lib/barray.rb:33 | ANDing with 255 ^ (1 << k) clears bit k and keeps every other bit |
| BitOps.XorMask | lib/barray.rb:52 | XORing with 1 << k inverts bit k and keeps every other bit |
| BitOps.Popcount | lib/barray.rb:69 | the popcount of a byte is its number of 1 bits, at most 8, and 0 exactly for the zero byte |
| BitOps.PopcountZero | lib/barray.rb:67 | a byte has no 1 bit exactly when it is zero, so skipping zero bytes loses no count |
| BarrayProperties.NewReadsZero | lib/barray.rb:10-14 | a new array reads 0 at every position, set_size is 0, unset_size is size, and the dump has ceil(size / 8) bytes |
| BarrayProperties.OutOfRange | spec/barray_spec.rb:2-9 | get, set?, set, unset and toggle all fail with InvalidPosition at any position >= size |
| BarrayProperties.SetThenGet | spec/barray_spec.rb:11-21 | after set(p), get(p) is 1 and get(q) is unchanged for every other q |
| BarrayProperties.SetIdempotent | spec/barray_spec.rb:23-29 | setting a bit twice gives the same array as setting it once |
| BarrayProperties.UnsetThenGet | spec/barray_spec.rb:32-41 | after unset(p), get(p) is 0 and get(q) is unchanged for every other q |
| BarrayProperties.UnsetIdempotent | spec/barray_spec.rb:43-50 | clearing a bit twice gives the same array as clearing it once |
| BarrayProperties.ToggleThenGet | spec/barray_spec.rb:53-63 | after toggle(p), get(p) is 1 - its old value and get(q) is unchanged for every other q |
| BarrayProperties.ToggleInvolution | lib/barray.rb:50-53 | toggling the same bit twice gives back the original array |
| BarrayProperties.UnsetUndoesSet | lib/barray.rb:26-34 | unset after set of a bit that was 0 gives back the original array |
| BarrayProperties.UpdatesKeepPaddingClean | lib/barray.rb:26-53 | set, unset and toggle keep the padding bits zero |
| BarrayProperties.SetSizeAfterSet | lib/barray.rb:26-29 | set raises set_size by one exactly when the bit was 0 |
| BarrayProperties.SetSizeAfterUnset | lib/barray.rb:31-34 | unset lowers set_size by one exactly when the bit was 1 |
| BarrayProperties.SetSizeAfterToggle | lib/barray.rb:50-53 | toggle lowers set_size by one when the bit was 1 and raises it by one when it was 0 |
| BarrayProperties.CountsAddUp | lib/barray.rb:63-77 | set_size + unset_size == size always; with clean padding both lie in 0 .. size |
| BarrayProperties.ResetClears | spec/barray_spec.rb:79-93 | after reset every bit reads 0, set_size is 0, unset_size is size, and the array equals a new one of that size |
| BarrayProperties.ReloadOwnDump | lib/barray.rb:16-24 | loading an array's own dump gives back the same array |
| BarrayProperties.LoadDumpIntoLarger | spec/barray_spec.rb:139-154 | loading a clean array's dump into an array at least as large succeeds; bits below the smaller size are copied, all higher bits read 0, the padding stays clean and set_size is preserved |
| BarrayProperties.LoadLargerDumpFails | spec/barray_spec.rb:156-160 | loading a dump with more bytes than the receiving buffer fails with LossyOperation |
| BarrayProperties.Apply | lib/barray.rb:20-53 | one mutating call keeps the size |
| BarrayProperties.ApplyKeepsPaddingClean | lib/barray.rb:20-24 | every mutating call keeps the padding clean; for load this holds when the input has no bit set at or beyond size |
| BarrayProperties.RunKeepsCountsInRange | lib/barray.rb:63-77 | from a clean array, any sequence of calls whose loads carry clean input keeps the padding clean, set_size <= size and unset_size within 0 .. size |
| BarrayProperties.LoadCanDirtyPadding | lib/barray.rb:20-24 | load copies bytes verbatim: a size-1 array loaded with byte 255 has dirty padding, set_size 8 and unset_size -7 |
| BarrayProperties.DumpExample | spec/barray_spec.rb:105-114 | a size-10 array with bits 2 and 9 set dumps to the bytes [4, 2] |
| BarrayProperties.EachBitExample | spec/barray_spec.rb:95-102 | a size-5 array with bits 1 and 3 set enumerates as [0, 1, 0, 1, 0] |
| BarrayProperties.CountExample | spec/barray_spec.rb:117-136 | a size-10 array with bits 2, 5 and 9 set has set_size 3 and unset_size 7 |
| BarrayProperties.SingleBitExample | spec/barray_spec.rb:11-21 | a size-5 array with bit 3 set enumerates as [0, 0, 0, 1, 0] and dumps to [8] |

## Left out

- Negative positions: `ensure_position!` only rejects `position >= size`. In Ruby `-1 / 8 == -1` and `-1 % 8 == 7`, so a negative position reaches `getbyte`/`setbyte` with a negative index and touches a byte counted from the end. For example, `BitArray.new(5).set(-1)` ORs 128 into byte 0, which is a padding bit; afterwards `set_size` is 1 while `each_bit` yields only zeros. This is a second way, besides `load`, to dirty the padding. That holds only for -8 * byte_size <= position < 0. Below that, `getbyte` returns `nil` (lib/barray.rb:28, 33, 43, 52). `get` then computes `nil & mask`, which is `false`, and `false != 0` is true, so `get` returns 1 and `set?` returns true; for example `BitArray.new(5).get(-9)` is 1. `set`, `unset` and `toggle` instead pass `true` or `false` to `setbyte` at an out-of-range index and raise `IndexError`. Positions are `nat` here, so none of these paths is modelled.
- Barray.Load: a `seq<bv8>` has no encoding, so the model returns `Ok` for every input of at most byte_size bytes. In Ruby, lib/barray.rb:23 appends the UTF-8 string `"\u0000" * (byte_size - data_in.bytesize)` to a copy of the input with `<<`. When the input is non-empty, shorter than the buffer, and in an encoding that is not ASCII-compatible (UTF-16LE/BE, UTF-32LE/BE), `<<` raises `Encoding::CompatibilityError` before the buffer is replaced. For example, `BitArray.new(24).load("a".encode("UTF-16LE"))` raises.
- Non-integer sizes and positions: Ruby accepts any object. Here `size` and positions are natural numbers.
- `(size / 8.0).ceil` is computed in floating point. It is modelled as the integer `(size + 7) / 8`, which agrees for every size a Ruby float represents exactly.
- The buffer is a Ruby `String` (built by `"\u0000" * byte_size`, so UTF-8 encoded, and used only through `bytesize`, `getbyte`, `setbyte`, `each_byte`, `dup` and `<<`). It is modelled as an immutable `seq<bv8>`, so copying and aliasing are not modelled.
- `each_bit` without a block returns a lazy `enum_for` enumerator. The model builds the whole sequence of values eagerly.
- `set_size` counts the `'1'` characters of `byte.to_s(2)`. The model uses a popcount over the byte's eight bits, which counts the same thing.
- The exception classes and their `StandardError` hierarchy become the two constructors of `Error`. `require 'barray/version'` and the `size` reader need no modelling.
- Return values of the mutators are not modelled. In Ruby, `set`, `unset` and `toggle` return the byte written. `reset` and `load` return the string that has just become the internal buffer (lib/barray.rb:23, 85): the live buffer, not a copy. A caller holding it can append to it and break the rule that the buffer holds exactly ceil(size / 8) bytes, which the `BitArray` subset type takes as always true. That aliasing leak is outside the model.
- Thread safety is not modelled. The class has none.

Each mutating call is modelled as a function that returns a new array, so contracts cannot speak of in-place mutation. "The buffer is unchanged after an error" is stated as: the result is `Err` and carries no array.
