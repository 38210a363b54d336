/** The definite-length DER that sessions are written in: the writers' loops (cbb.c), the
    readers (cbs.c), and that the second undo the first. */
module Der {
  import opened Basics
  import opened BigEndian
  import Bits

  const MAX_LENGTH: nat := 0xFFFF_FFFE

  const INTEGER: byte := 0x02
  const BOOLEAN: byte := 0x01
  const OCTET_STRING: byte := 0x04
  const SEQUENCE: byte := 0x30

  // Big-endian numbers without leading zeros.

  function Digits(n: nat): (d: Bytes)
    ensures d != [] ==> d[0] != 0
    ensures n > 0 ==> d != []
  {
    if n == 0 then [] else Digits(n / 0x100) + [n % 0x100]
  }

  lemma {:induction false} NumberOfDigits(n: nat)
    ensures FromBe(Digits(n)) == n
  {
    if n > 0 {
      var d := Digits(n);
      assert d[..|d| - 1] == Digits(n / 0x100);
      NumberOfDigits(n / 0x100);
    }
  }

  lemma {:induction false} DigitsFit(n: nat, k: nat)
    requires n < Bits.Pow2(8 * k)
    ensures |Digits(n)| <= k
    decreases k
  {
    if n > 0 {
      assert Bits.Pow2(8 * k) == 0x100 * Bits.Pow2(8 * (k - 1)) by {
        Bits.Pow2Adds(8, 8 * (k - 1));
        Bits.WordSizes();
      }
      DigitsFit(n / 0x100, k - 1);
    }
  }

  lemma LengthDigits(n: nat)
    requires n <= MAX_LENGTH
    ensures |Digits(n)| <= 4
  {
    Bits.WordSizes();
    DigitsFit(n, 4);
  }

  // Elements.

  /** CBB_flush's length octets: short form below 128, else as few as it takes. */
  function Length(n: nat): Bytes
    requires n <= MAX_LENGTH
  {
    LengthDigits(n);
    if n <= 0x7F then [n] else [0x80 + |Digits(n)|] + Digits(n)
  }

  function Element(tag: byte, content: Bytes): Bytes
    requires |content| <= MAX_LENGTH
  {
    [tag] + Length(|content|) + content
  }

  datatype Read = Read(tag: byte, header: nat, content: Bytes, rest: Bytes)

  /** CBS_get_any_asn1_element: lengths in definite, minimal form; tag numbers below 31. */
  function ReadElement(b: Bytes): (r: Option<Read>)
    ensures r.Some? ==> r.value.header + |r.value.content| + |r.value.rest| == |b| && r.value.header >= 2
  {
    if |b| < 2 || b[0] % 0x20 == 0x1F then None
    else if b[1] < 0x80 then Cut(b, 2, b[1])
    else
      var k := b[1] - 0x80;
      if k == 0 || k > 4 || |b| - 2 < k then None
      else
        var n := FromBe(b[2..2 + k]);
        if n < 128 || b[2] == 0 then None else Cut(b, 2 + k, n)
  }

  function Cut(b: Bytes, header: nat, n: nat): (r: Option<Read>)
    requires 2 <= header <= |b|
    ensures r.Some? ==> r.value.header + |r.value.content| + |r.value.rest| == |b| && r.value.header == header
  {
    if |b| - header < n then None else Some(Read(b[0], header, b[header..header + n], b[header + n..]))
  }

  lemma ElementTrip(tag: byte, content: Bytes, tail: Bytes)
    requires |content| <= MAX_LENGTH && tag % 0x20 != 0x1F
    ensures var r := ReadElement(Element(tag, content) + tail);
            r.Some? && r.value.tag == tag && r.value.content == content && r.value.rest == tail
  {
    var n, b := |content|, Element(tag, content) + tail;
    if n <= 0x7F {
      assert b[2..2 + n] == content && b[2 + n..] == tail;
    } else {
      var d := Digits(n);
      LengthDigits(n);
      NumberOfDigits(n);
      assert b[2..2 + |d|] == d;
      assert b[2 + |d|..2 + |d| + n] == content && b[2 + |d| + n..] == tail;
    }
  }

  /** CBS_get_asn1. */
  function Get(b: Bytes, tag: byte): Option<(Bytes, Bytes)> {
    var r := ReadElement(b);
    if r.Some? && r.value.tag == tag then Some((r.value.content, r.value.rest)) else None
  }

  /** An element that is all there is. */
  function GetOnly(b: Bytes, tag: byte): Option<Bytes> {
    var r := Get(b, tag);
    if r.Some? && r.value.1 == [] then Some(r.value.0) else None
  }

  lemma GetTrip(tag: byte, content: Bytes, tail: Bytes)
    requires |content| <= MAX_LENGTH && tag % 0x20 != 0x1F
    ensures Get(Element(tag, content) + tail, tag) == Some((content, tail))
    ensures GetOnly(Element(tag, content), tag) == Some(content)
  {
    ElementTrip(tag, content, tail);
    ElementTrip(tag, content, []);
    assert Element(tag, content) + [] == Element(tag, content);
  }

  // Nothing else is read.

  lemma {:induction false} DigitsOf(b: Bytes)
    requires b != [] ==> b[0] != 0
    ensures Digits(FromBe(b)) == b
    decreases |b|
  {
    if b != [] {
      var c := b[..|b| - 1];
      DigitsOf(c);
      if c == [] {
        assert FromBe(c) == 0 && b == [b[0]];
      }
    }
  }

  lemma ShortForm(b: Bytes, r: Read)
    requires |b| >= 2 && b[1] < 0x80 && Cut(b, 2, b[1]) == Some(r)
    ensures b == Element(b[0], r.content) + r.rest && r.tag == b[0]
  {
    assert b[..2] == [b[0]] + [b[1]];
    Sides(b, 2, b[1]);
  }

  lemma LongForm(b: Bytes, k: nat, r: Read)
    requires 0 < k <= 4 && |b| >= 2 + k && b[1] == 0x80 + k && b[2] != 0
    requires var n := FromBe(b[2..2 + k]); 128 <= n <= MAX_LENGTH && Cut(b, 2 + k, n) == Some(r)
    ensures b == Element(b[0], r.content) + r.rest && r.tag == b[0]
  {
    var d := b[2..2 + k];
    DigitsOf(d);
    Sides(b, 2 + k, FromBe(d));
    hide Digits, FromBe;
    assert b[..2 + k] == [b[0]] + ([b[1]] + d);
    LengthOf(|r.content|, d);
  }

  lemma LengthOf(n: nat, d: Bytes)
    requires 128 <= n <= MAX_LENGTH && Digits(n) == d && |d| <= 4
    ensures Length(n) == [0x80 + |d|] + d
  {
  }

  lemma Sides(b: Bytes, header: nat, n: nat)
    requires header + n <= |b|
    ensures b == b[..header] + b[header..header + n] + b[header + n..]
  {
  }

  /** What is read as an element is what would have been written: no length has a second form. */
  lemma ElementIsCanonical(b: Bytes)
    requires ReadElement(b).Some? && |ReadElement(b).value.content| <= MAX_LENGTH
    ensures var r := ReadElement(b).value; b == Element(r.tag, r.content) + r.rest && r.tag % 0x20 != 0x1F
  {
    var r := ReadElement(b).value;
    if b[1] < 0x80 {
      ShortForm(b, r);
    } else {
      assert |r.content| == FromBe(b[2..2 + (b[1] - 0x80)]);
      LongForm(b, b[1] - 0x80, r);
    }
    hide Element, FromBe;
  }

  // Integers.

  function Content(n: nat): (d: Bytes)
    ensures |d| >= 1
  {
    if n == 0 then [0] else if Digits(n)[0] >= 0x80 then [0] + Digits(n) else Digits(n)
  }

  /** What CBS_get_asn1_uint64 makes of an INTEGER's content. */
  function Uint64(d: Bytes): Option<nat> {
    if d == [] || d[0] >= 0x80 || (d[0] == 0 && |d| > 1 && d[1] < 0x80) then None
    else if FromBe(d) >= TWO_64 then None
    else Some(FromBe(d))
  }

  lemma Uint64Trip(n: nat)
    requires n < TWO_64
    ensures Uint64(Content(n)) == Some(n) && |Content(n)| <= 9
  {
    NumberOfDigits(n);
    assert n < Bits.Pow2(8 * 8) by {
      Bits.WordSizes();
    }
    DigitsFit(n, 8);
    if n > 0 && Digits(n)[0] >= 0x80 {
      LeadingZero(Digits(n));
    }
    hide Bits.Pow2;
    assert n == 0 ==> FromBe([0]) == 0 by {
      assert [0][..0] == [];
    }
  }

  /** Nor has a number. */
  lemma UintIsCanonical(d: Bytes)
    requires Uint64(d).Some?
    ensures d == Content(Uint64(d).value)
  {
    if d[0] != 0 {
      DigitsOf(d);
    } else if |d| > 1 {
      LeadingZero(d[1..]);
      assert d == [0] + d[1..];
      DigitsOf(d[1..]);
    } else {
      assert d == [0] && d[..0] == [];
    }
  }

  lemma {:induction false} LeadingZero(d: Bytes)
    ensures FromBe([0] + d) == FromBe(d)
    decreases |d|
  {
    if d == [] {
      assert ([0] + d)[..0] == [];
    } else {
      var c := d[..|d| - 1];
      assert ([0] + d)[..|d|] == [0] + c;
      LeadingZero(c);
    }
  }

  /** CBB_add_asn1_uint64: eight bytes from the top, skipping zeros until one starts. */
  method AddUint64(value: nat) returns (content: Bytes)
    requires value < TWO_64
    ensures content == Content(value)
  {
    content := [];
    var started := false;
    NothingAbove(value);
    hide Shifted, Content, Digits;
    for i := 0 to 8
      invariant started <==> Shifted(value, 8 - i) > 0
      invariant if started then content == Content(Shifted(value, 8 - i)) else content == []
    {
      NextByte(value, 7 - i);
      var b := Shifted(value, 7 - i) % 0x100;
      if !started {
        if b == 0 {
          continue;
        }
        if b >= 0x80 {
          content := content + [0];
        }
        started := true;
      }
      content := content + [b];
    }
    if !started {
      content := content + [0];
    }
  }

  /** value >> 8 * k. */
  function Shifted(value: nat, k: nat): nat {
    Bits.DivNat(value, Bits.Pow2(8 * k));
    value / Bits.Pow2(8 * k)
  }

  lemma NothingAbove(value: nat)
    requires value < TWO_64
    ensures Shifted(value, 8) == 0 && Shifted(value, 0) == value && Content(0) == [0]
  {
    Bits.WordSizes();
    Bits.Quotient(value, Bits.Pow2(64), 0, value);
  }

  /** One more byte of a number from the top. */
  lemma NextByte(value: nat, k: nat)
    ensures var high, low := Shifted(value, k + 1), Shifted(value, k);
            && low == 0x100 * high + low % 0x100
            && (high > 0 ==> Content(low) == Content(high) + [low % 0x100])
            && (high == 0 && low > 0 ==> Content(low) == if low >= 0x80 then [0] + [low] else [low])
  {
    assert Bits.Pow2(8 * (k + 1)) == 0x100 * Bits.Pow2(8 * k) by {
      Bits.Pow2Adds(8, 8 * k);
      Bits.WordSizes();
    }
    Bits.DivByte(value, Bits.Pow2(8 * k));
    hide Bits.Pow2;
    var high, low := Shifted(value, k + 1), Shifted(value, k);
    assert low / 0x100 == high;
    hide Shifted;
    assert low > 0 ==> Digits(low) == Digits(high) + [low % 0x100];
    if high > 0 {
      assert [0] + (Digits(high) + [low % 0x100]) == [0] + Digits(high) + [low % 0x100];
    }
  }

  /** The loop of CBS_get_asn1_uint64, which stops before the top byte would be lost. */
  method ReadUint64(d: Bytes) returns (value: Option<nat>)
    ensures value == Uint64(d)
  {
    if |d| == 0 || d[0] >= 0x80 || (d[0] == 0 && |d| > 1 && d[1] < 0x80) {
      return None;
    }
    var out := 0;
    for i := 0 to |d|
      invariant out == FromBe(d[..i]) && out < TWO_64
    {
      assert d[..i + 1][..i] == d[..i];
      if out / 0x100_0000_0000_0000 != 0 {
        Grows(d, i + 1);
        assert d[..|d|] == d;
        return None;
      }
      out := 0x100 * out + d[i];
    }
    assert d[..|d|] == d;
    return Some(out);
  }

  lemma {:induction false} Grows(d: Bytes, i: nat)
    requires i <= |d|
    ensures FromBe(d) >= FromBe(d[..i])
    decreases |d|
  {
    if i < |d| {
      Grows(d[..|d| - 1], i);
      assert d[..|d| - 1][..i] == d[..i];
    } else {
      assert d[..i] == d;
    }
  }
}
