// 64-bit machine words, and the two address formats a stack slot can hold.

module Words {
  const TWO_24: int := 0x100_0000
  const TWO_30: int := 0x4000_0000
  const TWO_32: int := 0x1_0000_0000
  const TWO_48: int := 0x1_0000_0000_0000
  const TWO_64: int := 0x1_0000_0000_0000_0000

  type Word = w: int | 0 <= w < 0x1_0000_0000_0000_0000
  type U8 = n: int | 0 <= n < 0x100
  type U16 = n: int | 0 <= n < 0x1_0000
  type U24 = n: int | 0 <= n < 0x100_0000
  type U32 = n: int | 0 <= n < 0x1_0000_0000

  const ALL_ONES: Word := 0xFFFF_FFFF_FFFF_FFFF

  /** `as_sint`: the two's complement reading of a word. */
  function Signed(w: Word): (s: int)
    ensures s % 0x1_0000_0000_0000_0000 == w
  {
    if w < 0x8000_0000_0000_0000 then w else w - 0x1_0000_0000_0000_0000
  }

  /** Pointer arithmetic wraps at 64 bits. */
  function Wrap(n: int): Word {
    n % 0x1_0000_0000_0000_0000
  }

  // ----- addresses: allocation in the low 30 bits, then 2 bits of generation, then the offset -----

  function AddressAllocation(w: Word): (a: nat)
    ensures a < TWO_30
  {
    w % 0x4000_0000
  }

  function AddressGeneration(w: Word): (g: nat)
    ensures g < 4
  {
    (w / 0x4000_0000) % 4
  }

  function AddressOffset(w: Word): U32 {
    w / 0x1_0000_0000
  }

  function MakeAddress(allocation: nat, generation: nat, offset: U32): Word {
    (allocation % 0x4000_0000) + (generation % 4) * 0x4000_0000 + offset * 0x1_0000_0000
  }

  lemma AddressRoundTrip(allocation: nat, generation: nat, offset: U32)
    requires allocation < TWO_30
    ensures AddressAllocation(MakeAddress(allocation, generation, offset)) == allocation
    ensures AddressGeneration(MakeAddress(allocation, generation, offset)) == generation % 4
    ensures AddressOffset(MakeAddress(allocation, generation, offset)) == offset
  {
    var g := generation % 4;
    var w := MakeAddress(allocation, generation, offset);
    assert w == allocation + 0x4000_0000 * (g + 4 * offset);
    assert w / 0x4000_0000 == g + 4 * offset;
  }

  /** `address.offset += delta` on the 32-bit offset field; the other fields keep their bits. */
  function AddToOffset(w: Word, delta: int): Word {
    w % 0x1_0000_0000 + ((w / 0x1_0000_0000 + delta) % 0x1_0000_0000) * 0x1_0000_0000
  }

  // ----- function addresses: 16 bits of index, 8 of input count, 8 of output count -----

  function FunctionIndex(w: Word): nat { w % 0x1_0000 }

  function FunctionInputs(w: Word): U8 { (w / 0x1_0000) % 0x100 }

  function FunctionOutputs(w: Word): U8 { (w / 0x100_0000) % 0x100 }

  function MakeFunctionAddress(index: U16, inputs: U8, outputs: U8): U32 {
    index + inputs * 0x1_0000 + outputs * 0x100_0000
  }

  /** The lower 32 bits, all that a function address has. */
  function LowHalf(w: Word): U32 { w % 0x1_0000_0000 }

  /** A function address written to a cell whose upper half is `high`, which stays as it was. */
  function WithHigh(address: U32, high: U32): Word {
    address + high * 0x1_0000_0000
  }

  /** The fields of either kind of address that lie in the lower half. */
  lemma PartsOfLow(low: U32, high: U32)
    ensures FunctionIndex(WithHigh(low, high)) == low % 0x1_0000
    ensures FunctionInputs(WithHigh(low, high)) == (low / 0x1_0000) % 0x100
    ensures FunctionOutputs(WithHigh(low, high)) == low / 0x100_0000
    ensures AddressAllocation(WithHigh(low, high)) == low % 0x4000_0000
    ensures AddressGeneration(WithHigh(low, high)) == low / 0x4000_0000
    ensures AddressOffset(WithHigh(low, high)) == high && LowHalf(WithHigh(low, high)) == low
  {
    var w := WithHigh(low, high);
    assert w / 0x1_0000 == low / 0x1_0000 + high * 0x1_0000;
    assert w / 0x100_0000 == low / 0x100_0000 + high * 0x100;
    assert w / 0x4000_0000 == low / 0x4000_0000 + high * 4;
  }

  /** Words that agree in the lower half agree in the fields that lie there. */
  lemma SameParts(v: Word, w: Word)
    requires LowHalf(v) == LowHalf(w)
    ensures FunctionIndex(v) == FunctionIndex(w)
    ensures FunctionInputs(v) == FunctionInputs(w) && FunctionOutputs(v) == FunctionOutputs(w)
    ensures AddressAllocation(v) == AddressAllocation(w) && AddressGeneration(v) == AddressGeneration(w)
  {
    PartsOfLow(LowHalf(v), v / 0x1_0000_0000);
    PartsOfLow(LowHalf(w), w / 0x1_0000_0000);
  }

  // ----- bitwise or -----

  function Pow2(n: nat): (p: nat)
    ensures p > 0
  {
    if n == 0 then 1 else 2 * Pow2(n - 1)
  }

  lemma Pow2At24()
    ensures Pow2(24) == TWO_24
  {
    Pow2Sum(8, 8);
    Pow2Sum(16, 8);
  }

  lemma Pow2At48()
    ensures Pow2(48) == TWO_48
  {
    Pow2At24();
    Pow2Sum(24, 24);
  }

  lemma Pow2At64()
    ensures Pow2(64) == TWO_64
  {
    Pow2At48();
    Pow2Sum(8, 8);
    Pow2Sum(48, 16);
  }

  lemma {:induction false} Pow2Sum(m: nat, n: nat)
    ensures Pow2(m + n) == Pow2(m) * Pow2(n)
  {
    if n > 0 {
      Pow2Sum(m, n - 1);
      assert Pow2(m + n) == 2 * Pow2(m + (n - 1));
    }
  }

  /** Bitwise or. */
  function Or(a: nat, b: nat): nat {
    if a == 0 then b
    else 2 * Or(a / 2, b / 2) + (if a % 2 == 1 || b % 2 == 1 then 1 else 0)
  }

  function OrWord(a: Word, b: Word): Word {
    Pow2At64();
    OrBound(a, b, 64);
    Or(a, b)
  }

  lemma {:induction false} OrBound(a: nat, b: nat, bits: nat)
    requires a < Pow2(bits) && b < Pow2(bits)
    ensures Or(a, b) < Pow2(bits)
  {
    if a != 0 && bits > 0 {
      OrBound(a / 2, b / 2, bits - 1);
    }
  }

  /** Or-ing in bits above the ones in use is addition. */
  lemma {:induction false} OrDisjoint(a: nat, high: nat, low: nat)
    requires a < Pow2(low)
    ensures Or(a, high * Pow2(low)) == a + high * Pow2(low)
  {
    if a != 0 {
      assert high * Pow2(low) == 2 * (high * Pow2(low - 1)) by {
        assert high * (2 * Pow2(low - 1)) == 2 * (high * Pow2(low - 1));
      }
      OrDisjoint(a / 2, high, low - 1);
    }
  }

  /** Or never clears a bit. */
  lemma {:induction false} OrAtLeast(a: nat, b: nat)
    ensures a <= Or(a, b)
  {
    if a != 0 {
      OrAtLeast(a / 2, b / 2);
    }
  }
}
