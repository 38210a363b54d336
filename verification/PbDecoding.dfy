/** What nanopb's decoder reads, as functions of the remaining bytes (pb_decode.c). */
module PbDecoding {
  import opened Basics
  import opened PbTypes
  import Bits

  /** A read that fails, or a value and what is left of the stream. */
  datatype Got<+T> = Fail | Got(v: T, rest: Bytes)

  // Varints. `bitpos` is a uint_fast8_t.

  function Varint64From(b: Bytes, bitpos: nat, result: nat): (r: Got<nat>)
    requires result < TWO_64
    ensures r.Got? ==> r.v < TWO_64 && |r.rest| < |b|
    decreases |b|
  {
    if bitpos >= 64 || b == [] then Fail
    else
      Bits.WordSizes();
      var result' := OrShifted(result, b[0] % 128, bitpos, 64);
      if b[0] >= 128 then Varint64From(b[1..], bitpos + 7, result') else Got(result', b[1..])
  }

  /** result | (x << bitpos), in a word of `width` bits. */
  function OrShifted(result: nat, x: nat, bitpos: nat, width: nat): (r: nat)
    requires result < Bits.Pow2(width)
    ensures r < Bits.Pow2(width)
  {
    var shifted := Bits.Shl(x, bitpos) % Bits.Pow2(width);
    Bits.OrBound(result, shifted, width);
    Bits.Or(result, shifted)
  }

  function ReadVarint64(b: Bytes): (r: Got<nat>)
    ensures r.Got? ==> r.v < TWO_64 && |r.rest| < |b|
  {
    Varint64From(b, 0, 0)
  }

  function Varint32From(b: Bytes, bitpos: nat, result: nat): (r: Got<nat>)
    requires bitpos < 256 && result < TWO_32
    ensures r.Got? ==> r.v < TWO_32 && |r.rest| < |b|
    decreases |b|
  {
    if b == [] then Fail
    else
      var byte := b[0];
      var signExtension := if bitpos < 63 then 0xFF else 0x01;
      if bitpos >= 32 && byte % 128 != 0 && (result < 0x8000_0000 || byte != signExtension) then Fail
      else
        Bits.WordSizes();
        var result' := if bitpos >= 32 then result else OrShifted(result, byte % 128, bitpos, 32);
        var bitpos' := (bitpos + 7) % 256;
        if byte >= 128 then Varint32From(b[1..], bitpos', result')
        else if bitpos' == 35 && byte / 16 % 8 != 0 then Fail
        else Got(result', b[1..])
  }

  function ReadVarint32(b: Bytes): (r: Got<nat>)
    ensures r.Got? ==> r.v < TWO_32 && |r.rest| < |b|
  {
    if b == [] then Fail
    else if b[0] < 128 then Got(b[0], b[1..])
    else Varint32From(b[1..], 7, b[0] % 128)
  }

  /** pb_decode_tag: a zero tag ends the message. */
  datatype TagRead = BadTag | EndOfMessage(rest: Bytes) | GotTag(tag: nat, wireType: nat, rest: Bytes)

  function ReadTag(b: Bytes): (r: TagRead)
    ensures r.GotTag? ==> |r.rest| < |b|
  {
    var t := ReadVarint32(b);
    if t.Fail? then BadTag
    else if t.v == 0 then EndOfMessage(t.rest)
    else GotTag(t.v / 8, t.v % 8, t.rest)
  }

  function ReadBytes(b: Bytes, n: nat): (r: Got<Bytes>)
    ensures r.Got? ==> |r.v| == n && b == r.v + r.rest
  {
    if |b| < n then Fail else Got(b[..n], b[n..])
  }

  // Unknown fields.

  function SkipVarint(b: Bytes): (r: Got<()>)
    ensures r.Got? ==> |r.rest| < |b|
    decreases |b|
  {
    if b == [] then Fail else if b[0] >= 128 then SkipVarint(b[1..]) else Got((), b[1..])
  }

  function SkipBytes(b: Bytes, n: nat): (r: Got<()>)
    ensures r.Got? ==> |r.rest| <= |b|
  {
    if |b| < n then Fail else Got((), b[n..])
  }

  function SkipField(wireType: nat, b: Bytes): (r: Got<()>)
    ensures r.Got? ==> |r.rest| <= |b|
  {
    match wireType
    case 0 => SkipVarint(b)
    case 1 => SkipBytes(b, 8)
    case 2 => var n := ReadVarint32(b); if n.Fail? then Fail else SkipBytes(n.rest, n.v)
    case 5 => SkipBytes(b, 4)
    case _ => Fail
  }

  // Scalars.

  /** The cast to a signed integer of `size` bytes. */
  function Cast(size: nat, n: int): int
    requires HalfRange(size) > 0
  {
    var m := n % (2 * HalfRange(size));
    if m < HalfRange(size) then m else m - 2 * HalfRange(size)
  }

  function UnZigZag(n: nat): int {
    if n % 2 == 1 then -(n / 2) - 1 else n / 2
  }

  function FromLittleEndian(b: Bytes): (n: nat)
    decreases |b|
  {
    if b == [] then 0 else b[0] + 256 * FromLittleEndian(b[1..])
  }

  function ReadFixed(b: Bytes, width: nat): (r: Got<Val>)
    requires width > 0
    ensures r.Got? ==> |r.rest| < |b|
  {
    var g := ReadBytes(b, width);
    if g.Fail? then Fail else Got(Num(FromLittleEndian(g.v)), g.rest)
  }

  function ReadScalar(ty: Ty, b: Bytes): (r: Got<Val>)
    requires Packable(ty)
    ensures r.Got? ==> |r.rest| < |b|
  {
    if ty.Fixed32? then ReadFixed(b, 4)
    else if ty.Fixed64? then ReadFixed(b, 8)
    else
      var g := ReadVarint64(b);
      if g.Fail? || HalfRange(ty.size) == 0 then Fail
      else
        match ty
        case Varint(size) =>
          var svalue := if size == 8 then Cast(8, g.v) else Cast(4, g.v);
          if Cast(size, svalue) == svalue then Got(Num(svalue), g.rest) else Fail
        case Uvarint(size) =>
          if g.v % (2 * HalfRange(size)) == g.v then Got(Num(g.v), g.rest) else Fail
        case Svarint(size) =>
          var value := UnZigZag(g.v);
          if Cast(size, value) == value then Got(Num(value), g.rest) else Fail
  }

  /** The content of a char array up to its first NUL. */
  function CString(b: Bytes): (s: Bytes)
    ensures |s| <= |b| && 0 !in s && (0 !in b ==> s == b)
    decreases |b|
  {
    if b == [] || b[0] == 0 then [] else [b[0]] + CString(b[1..])
  }

  /** size + 1 for the terminator, in uint32_t. */
  function AllocSize(size: nat): nat {
    (size + 1) % TWO_32
  }

  /** The value of a length-delimited type other than a submessage. */
  function ReadBlob(ty: Ty, b: Bytes): (r: Got<Val>)
    requires ty.BytesArray? || ty.Text? || ty.FixedBytes?
    ensures r.Got? ==> |r.rest| < |b| && HasType(ty, r.v) && FitsVal(ty, r.v)
  {
    var n := ReadVarint32(b);
    if n.Fail? then Fail
    else
      match ty
      case BytesArray(capacity) =>
        if n.v > PB_SIZE_MAX || n.v > capacity then Fail
        else
          var g := ReadBytes(n.rest, n.v);
          if g.Fail? then Fail else Got(Blob(g.v), g.rest)
      case Text(capacity) =>
        if AllocSize(n.v) < n.v || AllocSize(n.v) > capacity then Fail
        else
          var g := ReadBytes(n.rest, n.v);
          if g.Fail? then Fail else Got(Blob(CString(g.v)), g.rest)
      case FixedBytes(length) =>
        if n.v > PB_SIZE_MAX then Fail
        else if n.v == 0 then Got(Blob(Zeros(length)), n.rest)
        else if n.v != length then Fail
        else
          var g := ReadBytes(n.rest, n.v);
          if g.Fail? then Fail else Got(Blob(g.v), g.rest)
  }

  lemma ScalarTyped(ty: Ty, b: Bytes)
    requires Packable(ty) && SoundTy(ty)
    ensures var r := ReadScalar(ty, b); r.Got? ==> HasType(ty, r.v)
  {
    if ty.Fixed32? || ty.Fixed64? {
      var g := ReadBytes(b, if ty.Fixed32? then 4 else 8);
      if g.Got? {
        LittleEndianBound(g.v);
        assert Bits.Pow2(32) == TWO_32 && Bits.Pow2(64) == TWO_64 by { Bits.WordSizes(); }
      }
    }
    hide Bits.Pow2, FromLittleEndian, ReadVarint64, ReadBytes;
  }

  lemma {:induction false} LittleEndianBound(b: Bytes)
    ensures FromLittleEndian(b) < Bits.Pow2(8 * |b|)
    decreases |b|
  {
    if b != [] {
      LittleEndianBound(b[1..]);
      Bits.Pow2Adds(8, 8 * |b[1..]|);
    }
  }

  /** Packed items are read while the payload lasts and the array has room. */
  function ReadPacked(ty: Ty, arraySize: nat, items: seq<Val>, b: Bytes): (r: Option<seq<Val>>)
    requires Packable(ty)
    decreases |b|
  {
    if b == [] then Some(items)
    else if |items| >= arraySize then None
    else
      var g := ReadScalar(ty, b);
      if g.Fail? then None else ReadPacked(ty, arraySize, items + [g.v], g.rest)
  }

  // Fields and messages.

  /** pb_field_iter_find: where the field with this tag is. */
  function Find(fields: seq<Field>, tag: nat): (r: Option<nat>)
    ensures r.Some? ==> r.value < |fields| && fields[r.value].tag == tag
    ensures r.None? ==> forall i | 0 <= i < |fields| :: fields[i].tag != tag
  {
    FindFrom(fields, tag, 0)
  }

  function FindFrom(fields: seq<Field>, tag: nat, i: nat): (r: Option<nat>)
    requires i <= |fields|
    ensures r.Some? ==> i <= r.value < |fields| && fields[r.value].tag == tag
    ensures r.None? ==> forall j | i <= j < |fields| :: fields[j].tag != tag
    decreases |fields| - i
  {
    if i == |fields| then None else if fields[i].tag == tag then Some(i) else FindFrom(fields, tag, i + 1)
  }

  /** required_field_index: the number of required fields before position `i`. */
  function RequiredBefore(fields: seq<Field>, i: nat): nat
    requires i <= |fields|
  {
    if i == 0 then 0 else RequiredBefore(fields, i - 1) + if fields[i - 1].rule.Required? then 1 else 0
  }

  function Saw(fields: seq<Field>, i: nat, seen: set<nat>): set<nat>
    requires i < |fields|
  {
    if fields[i].rule.Required? && RequiredBefore(fields, i) < PB_MAX_REQUIRED_FIELDS
    then seen + {RequiredBefore(fields, i)} else seen
  }

  function Tracked(fields: seq<Field>): nat {
    if RequiredBefore(fields, |fields|) > PB_MAX_REQUIRED_FIELDS then PB_MAX_REQUIRED_FIELDS
    else RequiredBefore(fields, |fields|)
  }

  predicate AllSeen(fields: seq<Field>, seen: set<nat>) {
    forall k: nat | k < Tracked(fields) :: k in seen
  }

  /** Storing a oneof's member takes the union from the other members. */
  function Choose(fields: seq<Field>, cells: seq<Cell>, i: nat, v: Val): (r: seq<Cell>)
    requires |cells| == |fields| && i < |fields|
    ensures |r| == |fields|
  {
    seq(|cells|, j requires 0 <= j < |cells| =>
      if j == i then Member(Some(v)) else if fields[j].rule == fields[i].rule then Member(None) else cells[j])
  }

  function ReadVal(ty: Ty, prior: Val, b: Bytes): (r: Got<Val>)
    requires SoundTy(ty) && HasType(ty, prior)
    ensures r.Got? ==> |r.rest| < |b| && HasType(ty, r.v)
    decreases |b|, 0
  {
    match ty
    case BytesArray(_) | Text(_) | FixedBytes(_) => ReadBlob(ty, b)
    case Submessage(fields) =>
      var n := ReadVarint32(b);
      if n.Fail? || |n.rest| < n.v then Fail
      else
        assert Sound(fields) && Typed(fields, prior.cells);
        var m := ReadFields(fields, prior.cells, {}, n.rest[..n.v]);
        if m.Fail? then Fail else Got(Msg(m.v), n.rest[n.v..])
    case _ => ScalarTyped(ty, b); ReadScalar(ty, b)
  }

  /** decode_static_field on the field found at `i`. */
  function ReadField(fields: seq<Field>, cells: seq<Cell>, i: nat, wireType: nat, b: Bytes): (r: Got<seq<Cell>>)
    requires Sound(fields) && Typed(fields, cells) && i < |fields|
    ensures r.Got? ==> |r.rest| < |b| && Typed(fields, r.v)
    decreases |b|, 1
  {
    var f, c := fields[i], cells[i];
    assert SoundField(f) && CellTyped(f, c);
    match f.rule
    case Required | Singular =>
      var g := ReadVal(f.ty, c.v, b);
      if g.Fail? then Fail else Got(cells[i := One(g.v)], g.rest)
    case Optional =>
      InitialIsTyped(f);
      var g := ReadVal(f.ty, if c.o.Some? then c.o.value else InitialVal(f), b);
      if g.Fail? then Fail else Got(cells[i := Maybe(Some(g.v))], g.rest)
    case Repeated(arraySize) =>
      if wireType == 2 && Packable(f.ty) then
        var n := ReadVarint32(b);
        if n.Fail? || |n.rest| < n.v then Fail
        else
          var p := ReadPacked(f.ty, arraySize, c.items, n.rest[..n.v]);
          PackedTyped(f.ty, arraySize, c.items, n.rest[..n.v]);
          if p.None? then Fail else Got(cells[i := Many(p.value)], n.rest[n.v..])
      else if |c.items| >= arraySize then Fail
      else
        ZeroIsTyped(f.ty);
        var g := ReadVal(f.ty, Zero(f.ty), b);
        if g.Fail? then Fail else Got(cells[i := Many(c.items + [g.v])], g.rest)
    case OneOf(_) =>
      ZeroIsTyped(f.ty);
      var g := ReadVal(f.ty, Zero(f.ty), b);
      if g.Fail? then Fail else
      ChooseTyped(fields, cells, i, g.v);
      Got(Choose(fields, cells, i, g.v), g.rest)
  }

  /** pb_decode_noinit: `rest` is what a zero tag left unread. */
  function ReadFields(fields: seq<Field>, cells: seq<Cell>, seen: set<nat>, b: Bytes): (r: Got<seq<Cell>>)
    requires Sound(fields) && Typed(fields, cells)
    ensures r.Got? ==> Typed(fields, r.v)
    decreases |b|, 2
  {
    if b == [] then Finish(fields, cells, seen, b)
    else
      match ReadTag(b)
      case BadTag => Fail
      case EndOfMessage(rest) => Finish(fields, cells, seen, rest)
      case GotTag(tag, wireType, rest) =>
        if fields == [] && tag == 0 then Fail  // the terminator itself is found: no such size
        else
          var at := Find(fields, tag);
          if at.None? then
            var s := SkipField(wireType, rest);
            if s.Fail? then Fail else ReadFields(fields, cells, seen, s.rest)
          else
            var g := ReadField(fields, cells, at.value, wireType, rest);
            if g.Fail? then Fail else ReadFields(fields, g.v, Saw(fields, at.value, seen), g.rest)
  }

  function Finish(fields: seq<Field>, cells: seq<Cell>, seen: set<nat>, rest: Bytes): Got<seq<Cell>> {
    if AllSeen(fields, seen) then Got(cells, rest) else Fail
  }

  /** pb_decode. */
  function Decode(fields: seq<Field>, b: Bytes): (r: Got<seq<Cell>>)
    requires Sound(fields)
    ensures r.Got? ==> Typed(fields, r.v)
  {
    DefaultsTyped(fields);
    ReadFields(fields, Defaults(fields), {}, b)
  }

  lemma {:induction false} PackedTyped(ty: Ty, arraySize: nat, items: seq<Val>, b: Bytes)
    requires Packable(ty) && SoundTy(ty) && forall i | 0 <= i < |items| :: HasType(ty, items[i])
    ensures var p := ReadPacked(ty, arraySize, items, b);
            p.Some? ==>
              && (forall i | 0 <= i < |p.value| :: HasType(ty, p.value[i]))
              && (|items| <= arraySize ==> |p.value| <= arraySize)
    decreases |b|
  {
    if b != [] && |items| < arraySize {
      var g := ReadScalar(ty, b);
      ScalarTyped(ty, b);
      if g.Got? {
        PackedTyped(ty, arraySize, items + [g.v], g.rest);
      }
    }
  }

  lemma ChooseTyped(fields: seq<Field>, cells: seq<Cell>, i: nat, v: Val)
    requires Typed(fields, cells) && i < |fields| && fields[i].rule.OneOf? && HasType(fields[i].ty, v)
    ensures Typed(fields, Choose(fields, cells, i, v))
  {
    var r := Choose(fields, cells, i, v);
    forall j | 0 <= j < |fields| ensures CellTyped(fields[j], r[j]) {
      assert CellTyped(fields[j], cells[j]);
    }
  }
}
