/** What nanopb's encoder writes, as functions of descriptor and struct (pb_encode.c). */
module PbEncoding {
  import opened Basics
  import opened PbTypes

  // Scalars.

  function Varint64(n: nat): (b: Bytes)
    ensures |b| >= 1
  {
    if n < 128 then [n] else [n % 128 + 128] + Varint64(n / 128)
  }

  /** The cast of a signed value to uint64_t. */
  function Unsigned64(n: int): (u: nat)
    requires -0x8000_0000_0000_0000 <= n < TWO_64
    ensures u < TWO_64
  {
    if n < 0 then n + TWO_64 else n
  }

  function ZigZag(n: int): nat {
    if n < 0 then -2 * n - 1 else 2 * n
  }

  function LittleEndian(n: nat, width: nat): (b: Bytes)
    ensures |b| == width
  {
    if width == 0 then [] else [n % 256] + LittleEndian(n / 256, width - 1)
  }

  /** Length, cast to 64 bits, and content. */
  function Str(b: Bytes): Bytes {
    Varint64(|b| % TWO_64) + b
  }

  const WT_VARINT: nat := 0
  const WT_64BIT: nat := 1
  const WT_STRING: nat := 2
  const WT_32BIT: nat := 5

  function WireType(ty: Ty): nat {
    match ty
    case Varint(_) | Uvarint(_) | Svarint(_) => WT_VARINT
    case Fixed32 => WT_32BIT
    case Fixed64 => WT_64BIT
    case _ => WT_STRING
  }

  function Tag(number: nat, wireType: nat): Bytes {
    Varint64(8 * number + wireType)
  }

  function FieldTag(f: Field): Bytes {
    Tag(f.tag, WireType(f.ty))
  }

  function Scalar(ty: Ty, v: Val): Bytes
    requires Packable(ty) && HasType(ty, v)
  {
    match ty
    case Varint(_) => Varint64(Unsigned64(v.n))
    case Uvarint(_) => Varint64(v.n)
    case Svarint(_) => Varint64(ZigZag(v.n))
    case Fixed32 => LittleEndian(v.n, 4)
    case Fixed64 => LittleEndian(v.n, 8)
  }

  // Values, fields and messages. None is an encoder that returns false.

  function Join(a: Option<Bytes>, b: Option<Bytes>): Option<Bytes> {
    if a.Some? && b.Some? then Some(a.value + b.value) else None
  }

  /** pb_check_proto3_default_value. */
  predicate IsDefault(f: Field, c: Cell)
    requires CellTyped(f, c)
    decreases f, 1
  {
    match f.rule
    case Required => false
    case Repeated(_) => c.items == []
    case OneOf(_) => c.o.None?
    case Optional => c.o.None?
    case Singular => IsDefaultVal(f.ty, c.v)
  }

  predicate IsDefaultVal(ty: Ty, v: Val)
    requires HasType(ty, v)
    decreases ty
  {
    match ty
    case BytesArray(_) | Text(_) => v.bytes == []
    case FixedBytes(n) => n == 0
    case Submessage(fields) =>
      assert Typed(fields, v.cells);
      forall i | 0 <= i < |fields| :: IsDefault(fields[i], v.cells[i])
    case _ => v.n == 0
  }

  /** A field that is never found default: a required one, fixed-length bytes that have a
      length, whatever they hold, and a submessage with such a field inside. */
  predicate NeverDefault(f: Field)
    decreases f, 1
  {
    f.rule.Required? || (f.rule.Singular? && NeverDefaultTy(f.ty))
  }

  predicate NeverDefaultTy(ty: Ty)
    decreases ty
  {
    match ty
    case FixedBytes(n) => n > 0
    case Submessage(fields) => exists i :: 0 <= i < |fields| && NeverDefault(fields[i])
    case _ => false
  }

  /** Default exactly for what decoding gives an absent field, except in the fields that are
      always encoded. */
  lemma {:induction false} DefaultExactly(f: Field, c: Cell)
    requires SoundField(f) && CellTyped(f, c)
    ensures IsDefault(f, c) <==> c == InitialCell(f) && !NeverDefault(f)
    decreases f, 1
  {
    match f.rule
    case Singular => DefaultIsZero(f.ty, c.v);
    case Required =>
    case Repeated(_) =>
    case OneOf(_) =>
    case Optional =>
  }

  lemma {:induction false} DefaultIsZero(ty: Ty, v: Val)
    requires SoundTy(ty) && HasType(ty, v)
    ensures IsDefaultVal(ty, v) <==> v == Zero(ty) && !NeverDefaultTy(ty)
    decreases ty, 0
  {
    if ty.Submessage? {
      var fields := ty.fields;
      assert Sound(fields) && Typed(fields, v.cells);
      forall i | 0 <= i < |fields|
        ensures IsDefault(fields[i], v.cells[i]) <==> v.cells[i] == Defaults(fields)[i] && !NeverDefault(fields[i]) {
        assert SoundField(fields[i]) && CellTyped(fields[i], v.cells[i]);
        DefaultExactly(fields[i], v.cells[i]);
      }
      if IsDefaultVal(ty, v) {
        assert v.cells == Defaults(fields);
      }
    }
  }

  /** Two zero bytes of fixed length are encoded although decoding would give them anyway. */
  lemma ZeroesAreEncoded()
    ensures var f := Field(1, FixedBytes(2), Singular, None);
            SoundField(f) && CellTyped(f, InitialCell(f)) && !IsDefault(f, InitialCell(f))
  {
  }

  function Value(ty: Ty, v: Val): Option<Bytes>
    requires HasType(ty, v)
    decreases ty
  {
    match ty
    case BytesArray(capacity) => if |v.bytes| > capacity then None else Some(Str(v.bytes))
    case Text(_) | FixedBytes(_) => Some(Str(v.bytes))
    case Submessage(fields) =>
      var payload := Message(fields, v.cells);
      if payload.Some? then Some(Str(payload.value)) else None
    case _ => Some(Scalar(ty, v))
  }

  function Scalars(ty: Ty, items: seq<Val>): Bytes
    requires Packable(ty) && forall i | 0 <= i < |items| :: HasType(ty, items[i])
  {
    if items == [] then [] else Scalar(ty, items[0]) + Scalars(ty, items[1..])
  }

  function Tagged(f: Field, v: Val): Option<Bytes>
    requires HasType(f.ty, v)
    decreases f, 0
  {
    Join(Some(FieldTag(f)), Value(f.ty, v))
  }

  function Each(f: Field, items: seq<Val>): Option<Bytes>
    requires forall i | 0 <= i < |items| :: HasType(f.ty, items[i])
    decreases f, 1, |items|
  {
    if items == [] then Some([]) else Join(Tagged(f, items[0]), Each(f, items[1..]))
  }

  function FieldOf(f: Field, c: Cell): Option<Bytes>
    requires CellTyped(f, c)
    decreases f, 2
  {
    match f.rule
    case Required => Tagged(f, c.v)
    case Singular => if IsDefault(f, c) then Some([]) else Tagged(f, c.v)
    case Optional | OneOf(_) => if c.o.None? then Some([]) else Tagged(f, c.o.value)
    case Repeated(arraySize) =>
      if c.items == [] then Some([])
      else if |c.items| > arraySize then None
      else if Packable(f.ty) then Some(Tag(f.tag, WT_STRING) + Str(Scalars(f.ty, c.items)))
      else Each(f, c.items)
  }

  function From(fields: seq<Field>, cells: seq<Cell>, i: nat): Option<Bytes>
    requires Typed(fields, cells) && i <= |fields|
    decreases fields, |fields| - i
  {
    if i == |fields| then Some([]) else Join(FieldOf(fields[i], cells[i]), From(fields, cells, i + 1))
  }

  function Message(fields: seq<Field>, cells: seq<Cell>): Option<Bytes>
    requires Typed(fields, cells)
    decreases fields, |fields| + 1
  {
    From(fields, cells, 0)
  }
}
