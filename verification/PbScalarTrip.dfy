/** Reading back a scalar: varints, zigzag, little-endian words. */
module PbScalarTrip {
  import opened Basics
  import opened PbTypes
  import opened PbEncoding
  import opened PbDecoding
  import Bits

  lemma OrShiftedAdds(result: nat, x: nat, bitpos: nat, width: nat)
    requires result < Bits.Pow2(bitpos) && Bits.Shl(x, bitpos) < Bits.Pow2(width) && bitpos <= width
    ensures result < Bits.Pow2(width)
    ensures OrShifted(result, x, bitpos, width) == result + Bits.Shl(x, bitpos)
  {
    Bits.Pow2Monotone(bitpos, width);
    Bits.OrAdds(result, x, bitpos);
    Bits.Quotient(Bits.Shl(x, bitpos), Bits.Pow2(width), 0, Bits.Shl(x, bitpos));
  }

  lemma SplitProduct(n: nat, p: nat)
    ensures (n % 128) * p + (n / 128) * (128 * p) == n * p
    ensures (n % 128) * p <= 127 * p
    ensures n >= 128 ==> (n / 128) * (128 * p) >= 128 * p
  {
    var q, r := n / 128, n % 128;
    assert n == 128 * q + r;
    assert (128 * q + r) * p == 128 * (q * p) + r * p;
    assert q * (128 * p) == 128 * (q * p);
    MulUp(r, 127, p);
    if n >= 128 {
      MulUp(1, q, p);
    }
  }

  lemma MulUp(a: nat, b: nat, p: nat)
    requires a <= b
    ensures a * p <= b * p
  {
  }

  /** The arithmetic of one septet: low seven bits now, the rest seven places up. */
  lemma Septet(n: nat, result: nat, bitpos: nat, width: nat)
    requires result < Bits.Pow2(bitpos) && bitpos < width && Bits.Shl(n, bitpos) < Bits.Pow2(width)
    ensures Bits.Shl(n % 128, bitpos) < Bits.Pow2(width)
            && result + Bits.Shl(n % 128, bitpos) < Bits.Pow2(bitpos + 7)
            && Bits.Shl(n / 128, bitpos + 7) < Bits.Pow2(width)
            && result + Bits.Shl(n % 128, bitpos) + Bits.Shl(n / 128, bitpos + 7) == result + Bits.Shl(n, bitpos)
            && (n >= 128 ==> bitpos + 7 < width)
  {
    var p := Bits.Pow2(bitpos);
    assert Bits.Pow2(bitpos + 7) == 128 * p by {
      Bits.Pow2Adds(7, bitpos);
      Bits.WordSizes();
    }
    hide Bits.Pow2;
    SplitProduct(n, p);
    if bitpos + 7 >= width {
      Bits.Pow2Monotone(width, bitpos + 7);
    }
    assert (n % 128) * p >= 0 && (n / 128) * (128 * p) >= 0;
  }

  lemma {:induction false} ReadsVarint64(n: nat, bitpos: nat, result: nat, tail: Bytes)
    requires result < Bits.Pow2(bitpos) && bitpos < 64 && Bits.Shl(n, bitpos) < Bits.Pow2(64)
    ensures result < TWO_64
    ensures Varint64From(Varint64(n) + tail, bitpos, result) == Got(result + Bits.Shl(n, bitpos), tail)
    decreases n
  {
    hide Bits.Pow2, Bits.Shl, OrShifted;
    Bits.WordSizes();
    Septet(n, result, bitpos, 64);
    OrShiftedAdds(result, n % 128, bitpos, 64);
    var b := Varint64(n) + tail;
    if n < 128 {
      assert b[1..] == tail;
    } else {
      assert b[1..] == Varint64(n / 128) + tail;
      assert b[0] == n % 128 + 128;
      ReadsVarint64(n / 128, bitpos + 7, result + Bits.Shl(n % 128, bitpos), tail);
    }
  }

  lemma VarintTrip(n: nat, tail: Bytes)
    requires n < TWO_64
    ensures ReadVarint64(Varint64(n) + tail) == Got(n, tail)
  {
    Bits.WordSizes();
    ReadsVarint64(n, 0, 0, tail);
  }

  /** One turn of the 32-bit loop below bit 32. */
  lemma OneByte32(b: Bytes, bitpos: nat, result: nat)
    requires b != [] && bitpos < 32 && result < TWO_32 == Bits.Pow2(32)
    ensures var next := OrShifted(result, b[0] % 128, bitpos, 32);
            && (b[0] >= 128 ==> Varint32From(b, bitpos, result) == Varint32From(b[1..], bitpos + 7, next))
            && (b[0] < 128 && (bitpos == 28 ==> b[0] < 16) ==> Varint32From(b, bitpos, result) == Got(next, b[1..]))
  {
    hide OrShifted, Bits.Pow2;
  }

  lemma NextByte32(n: nat, bitpos: nat, result: nat, tail: Bytes)
    requires n >= 128 && bitpos < 32 && result < TWO_32 == Bits.Pow2(32)
    ensures Varint32From(Varint64(n) + tail, bitpos, result)
         == Varint32From(Varint64(n / 128) + tail, bitpos + 7, OrShifted(result, n % 128, bitpos, 32))
  {
    hide OrShifted, Varint32From;
    var b := Varint64(n) + tail;
    assert b[1..] == Varint64(n / 128) + tail && b[0] == n % 128 + 128;
    OneByte32(b, bitpos, result);
  }

  lemma LastByte32(n: nat, bitpos: nat, result: nat, tail: Bytes)
    requires n < 128 && bitpos < 32 && result < TWO_32 == Bits.Pow2(32) && (bitpos == 28 ==> n < 16)
    ensures Varint32From(Varint64(n) + tail, bitpos, result) == Got(OrShifted(result, n, bitpos, 32), tail)
  {
    hide OrShifted, Varint32From;
    var b := Varint64(n) + tail;
    assert b[1..] == tail && b[0] == n;
    OneByte32(b, bitpos, result);
  }

  lemma LastReads32(n: nat, bitpos: nat, result: nat, tail: Bytes)
    requires n < 128 && bitpos < 32 && result < Bits.Pow2(bitpos) && result < TWO_32 == Bits.Pow2(32)
    requires Bits.Shl(n, bitpos) < Bits.Pow2(32)
    ensures Varint32From(Varint64(n) + tail, bitpos, result) == Got(result + Bits.Shl(n, bitpos), tail)
  {
    hide Bits.Pow2, Bits.Shl, OrShifted, Varint32From, Varint64;
    OrShiftedAdds(result, n, bitpos, 32);
    if bitpos == 28 {
      TopSeptet(n);
    }
    LastByte32(n, bitpos, result, tail);
  }

  /** One septet and what it leaves to read. */
  lemma NextReads32(n: nat, bitpos: nat, result: nat, tail: Bytes) returns (next: nat)
    requires n >= 128 && bitpos < 32 && result < Bits.Pow2(bitpos) && result < TWO_32 == Bits.Pow2(32)
    requires Bits.Shl(n, bitpos) < Bits.Pow2(32)
    ensures bitpos + 7 < 32 && next < Bits.Pow2(bitpos + 7) && Bits.Shl(n / 128, bitpos + 7) < Bits.Pow2(32)
    ensures next < TWO_32 && next + Bits.Shl(n / 128, bitpos + 7) == result + Bits.Shl(n, bitpos)
    ensures Varint32From(Varint64(n) + tail, bitpos, result) == Varint32From(Varint64(n / 128) + tail, bitpos + 7, next)
  {
    hide Bits.Pow2, Bits.Shl, OrShifted, Varint32From, Varint64;
    Septet(n, result, bitpos, 32);
    OrShiftedAdds(result, n % 128, bitpos, 32);
    NextByte32(n, bitpos, result, tail);
    next := result + Bits.Shl(n % 128, bitpos);
    BelowWord(bitpos + 7, next);
  }

  lemma {:induction false} ReadsVarint32(n: nat, bitpos: nat, result: nat, tail: Bytes)
    requires bitpos < 32 && result < Bits.Pow2(bitpos) && Bits.Shl(n, bitpos) < Bits.Pow2(32)
    ensures result < TWO_32
    ensures Varint32From(Varint64(n) + tail, bitpos, result) == Got(result + Bits.Shl(n, bitpos), tail)
    decreases n
  {
    BelowWord(bitpos, result);
    hide Bits.Pow2, Bits.Shl, OrShifted, Varint32From, Varint64;
    if n < 128 {
      LastReads32(n, bitpos, result, tail);
    } else {
      var next := NextReads32(n, bitpos, result, tail);
      ReadsVarint32(n / 128, bitpos + 7, next, tail);
    }
  }

  lemma BelowWord(bitpos: nat, result: nat)
    requires bitpos < 32 && result < Bits.Pow2(bitpos)
    ensures result < TWO_32 == Bits.Pow2(32)
  {
    Bits.Pow2Monotone(bitpos, 32);
    Bits.WordSizes();
  }

  /** In the fifth byte only four bits are left for a 32-bit value. */
  lemma TopSeptet(n: nat)
    requires Bits.Shl(n, 28) < Bits.Pow2(32)
    ensures n < 16
  {
    Bits.Pow2Adds(28, 4);
    Bits.WordSizes();
    if n >= 16 {
      MulUp(16, n, Bits.Pow2(28));
      assert false;
    }
  }

  lemma FirstByte32(n: nat, tail: Bytes)
    requires n >= 128
    ensures ReadVarint32(Varint64(n) + tail) == Varint32From(Varint64(n / 128) + tail, 7, n % 128)
  {
    hide Varint32From;
    var b := Varint64(n) + tail;
    assert b[1..] == Varint64(n / 128) + tail && b[0] == n % 128 + 128;
  }

  lemma Varint32Trip(n: nat, tail: Bytes)
    requires n < TWO_32
    ensures ReadVarint32(Varint64(n) + tail) == Got(n, tail)
  {
    if n < 128 {
      assert (Varint64(n) + tail)[1..] == tail;
    } else {
      FirstByte32(n, tail);
      assert Bits.Pow2(7) == 128 && Bits.Pow2(32) == TWO_32 by { Bits.WordSizes(); }
      hide Bits.Pow2, Varint32From, Varint64, ReadVarint32;
      ReadsVarint32(n / 128, 7, n % 128, tail);
    }
  }

  lemma TagTrip(number: nat, wireType: nat, tail: Bytes)
    requires 1 <= number < 0x2000_0000 && wireType < 8
    ensures ReadTag(Tag(number, wireType) + tail) == GotTag(number, wireType, tail)
  {
    Varint32Trip(8 * number + wireType, tail);
  }

  lemma {:induction false} LittleEndianTrip(n: nat, width: nat)
    requires n < Bits.Pow2(8 * width)
    ensures FromLittleEndian(LittleEndian(n, width)) == n
    decreases width
  {
    if width > 0 {
      assert Bits.Pow2(8 * width) == 256 * Bits.Pow2(8 * (width - 1)) by {
        Bits.Pow2Adds(8, 8 * (width - 1));
        Bits.WordSizes();
      }
      hide Bits.Pow2;
      LittleEndianTrip(n / 256, width - 1);
      var rest := LittleEndian(n / 256, width - 1);
      hide LittleEndian;
      assert ([n % 256] + rest)[1..] == rest;
    }
  }

  lemma ZigZagTrip(n: int)
    ensures UnZigZag(ZigZag(n)) == n
    ensures -0x8000_0000_0000_0000 <= n < 0x8000_0000_0000_0000 ==> ZigZag(n) < TWO_64
  {
    if n < 0 {
      assert ZigZag(n) == 2 * (-n - 1) + 1 && ZigZag(n) / 2 == -n - 1;
    } else {
      assert ZigZag(n) == 2 * n && ZigZag(n) / 2 == n;
    }
  }

  lemma CastTrip(size: nat, n: int)
    requires HalfRange(size) > 0 && -HalfRange(size) <= n < HalfRange(size)
    ensures Cast(size, n) == n
  {
  }

  /** A negative value survives the trip through uint64_t, and through int32_t when its
      field is no wider. */
  lemma UnsignedTrip(size: nat, n: int)
    requires size in {1, 2, 4, 8} && -HalfRange(size) <= n < HalfRange(size)
    ensures (if size == 8 then Cast(8, Unsigned64(n)) else Cast(4, Unsigned64(n))) == n
  {
    if size == 8 {
      assert Cast(8, Unsigned64(n)) == n by {
        assert Unsigned64(n) % TWO_64 == Unsigned64(n);
      }
    } else if n < 0 {
      Quotient32(n);
    }
  }

  lemma Quotient32(n: int)
    requires -0x8000_0000 <= n < 0
    ensures (n + TWO_64) % TWO_32 == n + TWO_32
  {
    assert n + TWO_64 == TWO_32 * 0xFFFF_FFFF + (n + TWO_32);
  }

  lemma ScalarTrip(ty: Ty, v: Val, tail: Bytes)
    requires Packable(ty) && SoundTy(ty) && HasType(ty, v)
    ensures ReadScalar(ty, Scalar(ty, v) + tail) == Got(v, tail)
  {
    hide Varint64, Varint64From, ReadVarint64, ReadFixed, LittleEndian, ZigZag, UnZigZag, Unsigned64, Cast, Bits.Pow2;
    match ty
    case Varint(size) =>
      VarintTrip(Unsigned64(v.n), tail);
      UnsignedTrip(size, v.n);
      CastTrip(size, v.n);
    case Uvarint(size) =>
      VarintTrip(v.n, tail);
      assert v.n % (2 * HalfRange(size)) == v.n;
    case Svarint(size) =>
      ZigZagTrip(v.n);
      VarintTrip(ZigZag(v.n), tail);
      CastTrip(size, v.n);
    case Fixed32 => FixedTrip(v.n, 4, tail) by { Bits.WordSizes(); }
    case Fixed64 => FixedTrip(v.n, 8, tail) by { Bits.WordSizes(); }
  }

  lemma FixedTrip(n: nat, width: nat, tail: Bytes)
    requires 0 < width && n < Bits.Pow2(8 * width)
    ensures ReadFixed(LittleEndian(n, width) + tail, width) == Got(Num(n), tail)
  {
    LittleEndianTrip(n, width);
    var b := LittleEndian(n, width) + tail;
    assert b[..width] == LittleEndian(n, width) && b[width..] == tail;
  }
}
