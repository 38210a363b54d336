/** Numbers from bytes, the most significant first. */
module BigEndian {
  import opened Basics
  import Bits

  function FromBe(b: Bytes): nat
    decreases |b|
  {
    if b == [] then 0 else 0x100 * FromBe(b[..|b| - 1]) + b[|b| - 1]
  }

  lemma {:induction false} FromBeBound(b: Bytes)
    ensures FromBe(b) < Bits.Pow2(8 * |b|)
    decreases |b|
  {
    if b != [] {
      FromBeBound(b[..|b| - 1]);
      assert Bits.Pow2(8 * |b|) == 0x100 * Bits.Pow2(8 * (|b| - 1)) by {
        Bits.Pow2Adds(8, 8 * (|b| - 1));
        Bits.WordSizes();
      }
    }
  }
}
