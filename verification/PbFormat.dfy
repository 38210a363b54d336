/**
 The wire format of protocol buffers, as its own documentation puts it: what nanopb's encoder writes
 has it, and what numbers its decoder refuses.
 */
module PbFormat {
  import opened Basics
  import opened PbTypes
  import opened PbEncoding
  import opened PbDecoding
  import opened PbScalarTrip
  import Bits

  /** The number in groups of seven bits, the least significant first. */
  function Septets(b: Bytes): nat {
    if b == [] then 0 else b[0] % 128 + 128 * Septets(b[1..])
  }

  /** Every byte but the last says that more follow, and none is there for nothing. */
  predicate IsVarint(b: Bytes) {
    && b != [] && (forall i | 0 <= i < |b| - 1 :: b[i] >= 128) && b[|b| - 1] < 128
    && (|b| > 1 ==> b[|b| - 1] != 0)
  }

  lemma {:induction false} VarintForm(n: nat)
    ensures IsVarint(Varint64(n)) && Septets(Varint64(n)) == n
  {
    var b := Varint64(n);
    if n >= 128 {
      VarintForm(n / 128);
      assert b[1..] == Varint64(n / 128) && b[|b| - 1] == b[1..][|b| - 2];
      forall i | 0 <= i < |b| - 1 ensures b[i] >= 128 {
        assert i > 0 ==> b[i] == b[1..][i - 1];
      }
      if |b| == 2 {
        assert Varint64(n / 128) == [n / 128];
      }
    } else {
      assert b[1..] == [];
    }
  }

  /** The field's number and, in the lowest three bits, its wire type. */
  lemma TagForm(number: nat, wireType: nat)
    requires wireType < 8
    ensures var b := Tag(number, wireType); IsVarint(b) && Septets(b) / 8 == number && Septets(b) % 8 == wireType
  {
    VarintForm(8 * number + wireType);
  }

  /** Its length and then the content. */
  lemma StrForm(content: Bytes) returns (length: Bytes)
    requires |content| < TWO_64
    ensures Str(content) == length + content && IsVarint(length) && Septets(length) == |content|
  {
    assert |content| % TWO_64 == |content|;
    length := Varint64(|content|);
    VarintForm(|content|);
    hide Varint64, IsVarint, Septets;
  }

  /** Two's complement in ten bytes for a negative number, zigzag for a signed one, and four or eight
      bytes from the least significant on. */
  lemma ScalarForm(ty: Ty, v: Val)
    requires Packable(ty) && SoundTy(ty) && HasType(ty, v)
    ensures var b := Scalar(ty, v);
            match ty
            case Varint(_) => IsVarint(b) && Septets(b) == if v.n < 0 then v.n + TWO_64 else v.n
            case Uvarint(_) => IsVarint(b) && Septets(b) == v.n
            case Svarint(_) => IsVarint(b) && Septets(b) == if v.n < 0 then 2 * -v.n - 1 else 2 * v.n
            case Fixed32 => b == [v.n % 256, v.n / 256 % 256, v.n / 256 / 256 % 256, v.n / 256 / 256 / 256 % 256]
            case Fixed64 => |b| == 8 && b[0] == v.n % 256 && b[1..] == LittleEndian(v.n / 256, 7)
  {
    match ty
    case Varint(_) => VarintForm(Unsigned64(v.n));
    case Uvarint(_) => VarintForm(v.n);
    case Svarint(_) => VarintForm(ZigZag(v.n));
    case Fixed32 => FourBytes(v.n);
    case Fixed64 =>
  }

  lemma FourBytes(n: nat)
    ensures LittleEndian(n, 4) == [n % 256, n / 256 % 256, n / 256 / 256 % 256, n / 256 / 256 / 256 % 256]
  {
    var a, b, c := n / 256, n / 256 / 256, n / 256 / 256 / 256;
    assert LittleEndian(c, 1) == [c % 256] + LittleEndian(c / 256, 0) == [c % 256];
    assert LittleEndian(b, 2) == [b % 256, c % 256];
    assert LittleEndian(a, 3) == [a % 256, b % 256, c % 256];
  }

  // What is refused.

  /** The first byte that says no more follow is at `j`. */
  predicate EndsAt(b: Bytes, j: nat) {
    j < |b| && b[j] < 128 && forall i | 0 <= i < j :: b[i] >= 128
  }

  lemma {:induction false} Varint64FromEnds(b: Bytes, bitpos: nat, result: nat, j: nat)
    requires result < TWO_64 && EndsAt(b, j)
    ensures var r := Varint64From(b, bitpos, result);
            if bitpos + 7 * j < 64 then r.Got? && r.rest == b[j + 1..] else r.Fail?
    decreases j
  {
    if bitpos < 64 && j > 0 {
      Bits.WordSizes();
      assert b[1..][j..] == b[j + 1..];
      Varint64FromEnds(b[1..], bitpos + 7, OrShifted(result, b[0] % 128, bitpos, 64), j - 1);
    }
    hide OrShifted, Bits.Pow2;
  }

  lemma {:induction false} NoEndFails(b: Bytes, bitpos: nat, result: nat)
    requires result < TWO_64 && forall i | 0 <= i < |b| :: b[i] >= 128
    ensures Varint64From(b, bitpos, result).Fail?
    decreases |b|
  {
    if bitpos < 64 && b != [] {
      Bits.WordSizes();
      NoEndFails(b[1..], bitpos + 7, OrShifted(result, b[0] % 128, bitpos, 64));
    }
    hide OrShifted, Bits.Pow2;
  }

  /** A varint is read up to its end, and refused if it has none or is longer than ten bytes. */
  lemma VarintEnds(b: Bytes, j: nat)
    ensures EndsAt(b, j) ==> if j < 10 then ReadVarint64(b).Got? && ReadVarint64(b).rest == b[j + 1..]
                             else ReadVarint64(b).Fail?
    ensures (forall i | 0 <= i < |b| :: b[i] >= 128) ==> ReadVarint64(b).Fail?
  {
    hide Varint64From;
    if EndsAt(b, j) {
      Varint64FromEnds(b, 0, 0, j);
    }
    if forall i | 0 <= i < |b| :: b[i] >= 128 {
      NoEndFails(b, 0, 0);
    }
  }

  /** 2 to the power of 63 less `bitpos`. */
  function Above(bitpos: nat): nat {
    match bitpos
    case 7 => 0x100_0000_0000_0000
    case 14 => 0x2_0000_0000_0000
    case 21 => 0x400_0000_0000
    case 28 => 0x8_0000_0000
    case 35 => 0x1000_0000
    case 42 => 0x20_0000
    case 49 => 0x4000
    case _ => 0x80
  }

  /** 2 to the power of 32 less `bitpos`. */
  function Below(bitpos: nat): nat {
    match bitpos
    case 7 => 0x200_0000
    case 14 => 0x4_0000
    case 21 => 0x800
    case _ => 0x10
  }

  lemma Shrinks(m: nat, bitpos: nat)
    requires m >= 128
    ensures bitpos in {7, 14, 21, 28, 35, 42, 49, 56} && m < Above(bitpos) ==>
              bitpos < 56 && m / 128 < Above(bitpos + 7)
    ensures bitpos in {7, 14, 21} && Below(bitpos) <= m ==> Below(bitpos + 7) <= m / 128
  {
  }

  /** One turn of the 32-bit loop above bit 32. */
  lemma OneHighByte(b: Bytes, bitpos: nat, result: nat)
    requires b != [] && 32 <= bitpos < 63 && result < TWO_32
    ensures 0 < b[0] < 128 ==> Varint32From(b, bitpos, result).Fail?
    ensures var r := Varint32From(b, bitpos, result);
            b[0] >= 128 ==> r.Fail? || r == Varint32From(b[1..], bitpos + 7, result)
  {
    hide OrShifted;
  }

  lemma HighByte(m: nat, bitpos: nat, result: nat, tail: Bytes)
    requires 1 <= m && 32 <= bitpos < 63 && result < TWO_32
    ensures var r := Varint32From(Varint64(m) + tail, bitpos, result);
            r.Fail? || (m >= 128 && r == Varint32From(Varint64(m / 128) + tail, bitpos + 7, result))
  {
    var b := Varint64(m) + tail;
    OneHighByte(b, bitpos, result);
    hide Varint32From;
    if m >= 128 {
      assert b[0] == m % 128 + 128 && b[1..] == Varint64(m / 128) + tail;
    } else {
      assert b[0] == m;
    }
  }

  lemma LowByte(m: nat, bitpos: nat, result: nat, tail: Bytes) returns (next: nat)
    requires m >= 128 && bitpos < 32 && result < TWO_32
    ensures next < TWO_32
    ensures Varint32From(Varint64(m) + tail, bitpos, result) == Varint32From(Varint64(m / 128) + tail, bitpos + 7, next)
  {
    Bits.WordSizes();
    next := OrShifted(result, m % 128, bitpos, 32);
    NextByte32(m, bitpos, result, tail);
    hide Varint32From, OrShifted, Bits.Pow2;
  }

  lemma FifthByteTooBig(b: Bytes, result: nat)
    requires b != [] && 16 <= b[0] < 128 && result < TWO_32
    ensures Varint32From(b, 28, result).Fail?
  {
    assert b[0] / 16 % 8 != 0;
    hide OrShifted;
  }

  lemma LastLowByte(m: nat, result: nat, tail: Bytes)
    requires 16 <= m < 128 && result < TWO_32
    ensures Varint32From(Varint64(m) + tail, 28, result).Fail?
  {
    assert (Varint64(m) + tail)[0] == m;
    FifthByteTooBig(Varint64(m) + tail, result);
    hide Varint32From;
  }

  lemma {:induction false} HighPartFails(m: nat, bitpos: nat, result: nat, tail: Bytes)
    requires bitpos in {35, 42, 49, 56} && 1 <= m < Above(bitpos) && result < TWO_32
    ensures Varint32From(Varint64(m) + tail, bitpos, result).Fail?
    decreases m
  {
    hide Varint64, Varint32From;
    HighByte(m, bitpos, result, tail);
    if m >= 128 {
      Shrinks(m, bitpos);
      HighPartFails(m / 128, bitpos + 7, result, tail);
    }
  }

  lemma {:induction false} LowPartFails(m: nat, bitpos: nat, result: nat, tail: Bytes)
    requires bitpos in {7, 14, 21, 28} && Below(bitpos) <= m < Above(bitpos) && result < TWO_32
    ensures Varint32From(Varint64(m) + tail, bitpos, result).Fail?
    decreases m
  {
    hide Varint64, Varint32From;
    if m < 128 {
      LastLowByte(m, result, tail);
    } else {
      Shrinks(m, bitpos);
      var next := LowByte(m, bitpos, result, tail);
      if bitpos == 28 {
        HighPartFails(m / 128, 35, next, tail);
      } else {
        LowPartFails(m / 128, bitpos + 7, next, tail);
      }
    }
  }

  /** The 32-bit decoder refuses what needs more, up to 63 bits: tags and lengths are not cut. */
  lemma TooBigFails(n: nat, tail: Bytes)
    requires TWO_32 <= n < 0x8000_0000_0000_0000
    ensures ReadVarint32(Varint64(n) + tail).Fail?
  {
    FirstByte32(n, tail);
    assert Below(7) <= n / 128 < Above(7);
    hide Varint64, Varint32From, ReadVarint32;
    LowPartFails(n / 128, 7, n % 128, tail);
  }

  lemma ShiftedZero(bitpos: nat)
    requires bitpos < 32
    ensures OrShifted(0, 0, bitpos, 32) == 0
  {
    assert Bits.Pow2(32) == TWO_32 by { Bits.WordSizes(); }
    assert Bits.Shl(0, bitpos) == 0;
    hide Bits.Pow2, Bits.Shl;
  }

  lemma OneSeptet(x: byte, rest: Bytes)
    ensures Septets([x] + rest) == x % 128 + 128 * Septets(rest)
    ensures ([x] + rest)[0] == x && ([x] + rest)[1..] == rest
  {
    assert ([x] + rest)[1..] == rest;
  }

  lemma ShiftedOut()
    ensures OrShifted(0, 0x70, 28, 32) == 0
  {
    assert Bits.Pow2(32) == 16 * Bits.Pow2(28) && Bits.Pow2(32) == TWO_32 by {
      Bits.Pow2Adds(4, 28);
      Bits.WordSizes();
    }
    hide Bits.Pow2;
    assert Bits.Shl(0x70, 28) == 7 * TWO_32;
  }

  lemma EmptySeptets()
    ensures Septets([]) == 0
  {
  }

  lemma ShiftedAway(x: byte, bitpos: nat)
    requires bitpos < 32 && (x == 0x80 || (x == 0xF0 && bitpos == 28))
    ensures OrShifted(0, x % 128, bitpos, 32) == 0 && Bits.Pow2(32) == TWO_32
  {
    if x == 0x80 {
      ShiftedZero(bitpos);
    } else {
      ShiftedOut();
    }
    assert Bits.Pow2(32) == TWO_32 by { Bits.WordSizes(); }
    hide OrShifted, Bits.Pow2;
  }

  /** One byte that leaves a zero result as it is. */
  lemma Continued(x: byte, bitpos: nat, rest: Bytes) returns (b: Bytes)
    requires bitpos < 32 && (x == 0x80 || (x == 0xF0 && bitpos == 28))
    ensures b == [x] + rest && Varint32From(b, bitpos, 0) == Varint32From(rest, bitpos + 7, 0)
    ensures Septets(b) == x % 128 + 128 * Septets(rest)
  {
    ShiftedAway(x, bitpos);
    OneSeptet(x, rest);
    hide *;
    b := [x] + rest;
    OneByte32(b, bitpos, 0);
  }

  /** In a form that is longer than it need be, a number that does not fit is cut, though: its bits 32
      to 34, in the fifth byte, are looked at only if that byte is the last. */
  lemma OverlongIsCut()
    ensures var b: Bytes := [0x80, 0x80, 0x80, 0x80, 0xF0, 0x00];
            Septets(b) == 7 * TWO_32 && ReadVarint32(b) == Got(0, [])
  {
    hide OrShifted, Bits.Pow2;
    var b5: Bytes := [0x00] + [];
    assert Varint32From(b5, 35, 0) == Got(0, []);
    hide Varint32From, Septets;
    OneSeptet(0, []);
    var b4 := Continued(0xF0, 28, b5);
    var b3 := Continued(0x80, 21, b4);
    var b2 := Continued(0x80, 14, b3);
    var b1 := Continued(0x80, 7, b2);
    OneSeptet(0x80, b1);
    assert Septets([]) == 0 by { EmptySeptets(); }
    assert [0x80] + b1 == [0x80, 0x80, 0x80, 0x80, 0xF0, 0x00];
  }

  /** The number that a field's type makes of a varint: itself, zigzag undone, or its low 64 or 32 bits
      in two's complement. */
  function Meant(ty: Ty, n: nat): int
    requires ty.Varint? || ty.Uvarint? || ty.Svarint?
  {
    match ty
    case Uvarint(_) => n
    case Svarint(_) => if n % 2 == 0 then n / 2 else -(n + 1) / 2
    case Varint(size) =>
      if size == 8 then (if n % TWO_64 < 0x8000_0000_0000_0000 then n % TWO_64 else n % TWO_64 - TWO_64)
      else (if n % TWO_32 < 0x8000_0000 then n % TWO_32 else n % TWO_32 - TWO_32)
  }

  /** A number is stored as it is meant or not at all: what does not fit in the field fails. */
  lemma ScalarIsExact(ty: Ty, b: Bytes)
    requires SoundTy(ty) && (ty.Varint? || ty.Uvarint? || ty.Svarint?)
    ensures var g := ReadVarint64(b);
            ReadScalar(ty, b) == if g.Got? && HasType(ty, Num(Meant(ty, g.v))) then Got(Num(Meant(ty, g.v)), g.rest)
                                 else Fail
  {
    hide ReadVarint64;
    var g := ReadVarint64(b);
    if g.Got? {
      match ty
      case Uvarint(size) => Fits(2 * HalfRange(size), g.v);
      case Svarint(size) =>
        ZigZagMeans(g.v);
        CastFits(size, UnZigZag(g.v));
      case Varint(size) => CastFits(size, Meant(ty, g.v));
    }
  }

  lemma Fits(range: nat, n: nat)
    requires range > 0
    ensures n % range == n <==> n < range
  {
  }

  lemma CastFits(size: nat, n: int)
    requires size in {1, 2, 4, 8}
    ensures Cast(size, n) == n <==> -HalfRange(size) <= n < HalfRange(size)
  {
  }

  lemma ZigZagMeans(n: nat)
    ensures UnZigZag(n) == if n % 2 == 0 then n / 2 else -(n + 1) / 2
  {
    if n % 2 == 1 {
      assert n == 2 * (n / 2) + 1;
    }
  }

  /** A blob that is read is the whole payload: bytes as they are, text up to its first NUL, and for
      fixed-length bytes all of them, or zeros where there was nothing. None is cut to fit. */
  lemma BlobIsExact(ty: Ty, b: Bytes)
    requires (ty.BytesArray? || ty.Text? || ty.FixedBytes?) && ReadBlob(ty, b).Got?
    ensures var n, r := ReadVarint32(b), ReadBlob(ty, b);
            && n.Got? && n.v <= |n.rest| && r.rest == n.rest[n.v..]
            && var payload, held := n.rest[..n.v], r.v.bytes;
               if ty.BytesArray? then held == payload
               else if ty.Text? then held <= payload && 0 !in held && (held == payload || payload[|held|] == 0)
               else |held| == ty.length && (held == payload || (payload == [] && held == Zeros(ty.length)))
  {
    hide ReadVarint32;
    var n := ReadVarint32(b);
    if ty.Text? {
      UpToNul(n.rest[..n.v]);
    }
  }

  lemma {:induction false} UpToNul(b: Bytes)
    ensures var s := CString(b); s <= b && (s == b || b[|s|] == 0)
    decreases |b|
  {
    if b != [] && b[0] != 0 {
      UpToNul(b[1..]);
    }
  }
}
