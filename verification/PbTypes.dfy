/**
 nanopb's field descriptors and message structs, abstractly: a struct is a list of cells
 addressed by the descriptor's fields, without offsets or padding (pb.h).
 */
module PbTypes {
  import opened Basics

  /** pb_size_t is 32 bits wide (PB_FIELD_32BIT). */
  const PB_SIZE_MAX: nat := 0xFFFF_FFFF
  const PB_MAX_REQUIRED_FIELDS: nat := 64

  /** LTYPE with data_size. `capacity` is data_size less what is not payload: the size
      field of a bytes array, nothing for a string (whose terminator does count). */
  datatype Ty =
    | Varint(size: nat) | Uvarint(size: nat) | Svarint(size: nat)
    | Fixed32 | Fixed64
    | BytesArray(capacity: nat) | Text(capacity: nat) | FixedBytes(length: nat)
    | Submessage(fields: seq<Field>)

  /** HTYPE: Optional has a has_ flag, Singular (proto3) has none; the members of one oneof
      share a group. */
  datatype Rule = Required | Optional | Singular | Repeated(arraySize: nat) | OneOf(group: nat)

  /** `preset` is a non-null default value for anything but a submessage. */
  datatype Field = Field(tag: nat, ty: Ty, rule: Rule, preset: Option<Val>)

  datatype Val = Num(n: int) | Blob(bytes: Bytes) | Msg(cells: seq<Cell>)

  /** The content of one field of a struct. What lies under a cleared has_ flag, beyond
      an array's count or behind another member of a oneof is not represented. */
  datatype Cell = One(v: Val) | Maybe(o: Option<Val>) | Many(items: seq<Val>) | Member(o: Option<Val>)

  predicate Packable(ty: Ty) {
    ty.Varint? || ty.Uvarint? || ty.Svarint? || ty.Fixed32? || ty.Fixed64?
  }

  // pb_message_set_to_defaults.

  function Zeros(n: nat): (z: Bytes)
    ensures |z| == n
  {
    seq(n, i => 0)
  }

  function Zero(ty: Ty): Val {
    match ty
    case BytesArray(_) | Text(_) => Blob([])
    case FixedBytes(n) => Blob(Zeros(n))
    case Submessage(fields) => Msg(Defaults(fields))
    case _ => Num(0)
  }

  function InitialVal(f: Field): Val
    decreases f, 0
  {
    if f.ty.Submessage? || f.preset.None? then Zero(f.ty) else f.preset.value
  }

  function InitialCell(f: Field): Cell
    decreases f, 1
  {
    match f.rule
    case Required | Singular => One(InitialVal(f))
    case Optional => Maybe(None)
    case Repeated(_) => Many([])
    case OneOf(_) => Member(None)
  }

  function Defaults(fields: seq<Field>): (cells: seq<Cell>)
    ensures |cells| == |fields|
  {
    seq(|fields|, i requires 0 <= i < |fields| => InitialCell(fields[i]))
  }

  // What generated descriptors satisfy, and what a struct of their type can hold.

  function HalfRange(size: nat): int {
    match size
    case 1 => 0x80
    case 2 => 0x8000
    case 4 => 0x8000_0000
    case 8 => 0x8000_0000_0000_0000
    case _ => 0
  }

  predicate SoundTy(ty: Ty) {
    match ty
    case Fixed32 | Fixed64 => true
    case BytesArray(n) => n <= PB_SIZE_MAX
    case Text(n) => 1 <= n <= PB_SIZE_MAX
    case FixedBytes(n) => n <= PB_SIZE_MAX
    case Submessage(fields) => Sound(fields)
    case _ => ty.size in {1, 2, 4, 8}
  }

  predicate SoundField(f: Field) {
    1 <= f.tag < 0x2000_0000 && SoundTy(f.ty) && (f.rule.Singular? ==> f.preset.None?)
    && (f.preset.Some? && !f.ty.Submessage? ==> HasType(f.ty, f.preset.value) && FitsVal(f.ty, f.preset.value))
  }

  predicate Sound(fields: seq<Field>) {
    && (forall i | 0 <= i < |fields| :: SoundField(fields[i]))
    && (forall i, j | 0 <= i < j < |fields| :: fields[i].tag != fields[j].tag)
  }

  predicate HasType(ty: Ty, v: Val) {
    match ty
    case Varint(n) => v.Num? && -HalfRange(n) <= v.n < HalfRange(n)
    case Svarint(n) => v.Num? && -HalfRange(n) <= v.n < HalfRange(n)
    case Uvarint(n) => v.Num? && 0 <= v.n < 2 * HalfRange(n)
    case Fixed32 => v.Num? && 0 <= v.n < TWO_32
    case Fixed64 => v.Num? && 0 <= v.n < TWO_64
    case BytesArray(_) => v.Blob?
    case Text(n) => v.Blob? && |v.bytes| <= n && 0 !in v.bytes
    case FixedBytes(n) => v.Blob? && |v.bytes| == n
    case Submessage(fields) => v.Msg? && Typed(fields, v.cells)
  }

  predicate CellTyped(f: Field, c: Cell)
    decreases f
  {
    match f.rule
    case Required | Singular => c.One? && HasType(f.ty, c.v)
    case Optional => c.Maybe? && (c.o.Some? ==> HasType(f.ty, c.o.value))
    case Repeated(_) => c.Many? && forall i | 0 <= i < |c.items| :: HasType(f.ty, c.items[i])
    case OneOf(_) => c.Member? && (c.o.Some? ==> HasType(f.ty, c.o.value))
  }

  /** Of the members of one oneof at most one is chosen. */
  predicate OneChoice(fields: seq<Field>, cells: seq<Cell>)
    requires |cells| == |fields|
  {
    forall i, j | 0 <= i < j < |fields| && fields[i].rule.OneOf? && fields[j].rule == fields[i].rule ::
      cells[i].Member? && cells[j].Member? && !(cells[i].o.Some? && cells[j].o.Some?)
  }

  predicate Typed(fields: seq<Field>, cells: seq<Cell>) {
    && |cells| == |fields|
    && (forall i | 0 <= i < |fields| :: CellTyped(fields[i], cells[i]))
    && OneChoice(fields, cells)
  }

  // What fits in the allocated struct: bytes and items within their bounds, strings
  // with their terminator.

  predicate FitsVal(ty: Ty, v: Val) {
    match ty
    case BytesArray(n) => v.Blob? && |v.bytes| <= n
    case Text(n) => v.Blob? && |v.bytes| < n
    case Submessage(fields) => v.Msg? && Fits(fields, v.cells)
    case _ => true
  }

  predicate FitsCell(f: Field, c: Cell)
    decreases f
  {
    match c
    case One(v) => FitsVal(f.ty, v)
    case Maybe(o) => o.Some? ==> FitsVal(f.ty, o.value)
    case Member(o) => o.Some? ==> FitsVal(f.ty, o.value)
    case Many(items) =>
      (f.rule.Repeated? ==> |items| <= f.rule.arraySize) && forall i | 0 <= i < |items| :: FitsVal(f.ty, items[i])
  }

  predicate Fits(fields: seq<Field>, cells: seq<Cell>) {
    |cells| == |fields| && forall i | 0 <= i < |fields| :: FitsCell(fields[i], cells[i])
  }

  lemma {:induction false} ZeroIsTyped(ty: Ty)
    requires SoundTy(ty)
    ensures HasType(ty, Zero(ty)) && FitsVal(ty, Zero(ty))
    decreases ty
  {
    match ty
    case Submessage(fields) => DefaultsTyped(fields);
    case _ =>
  }

  lemma {:induction false} InitialIsTyped(f: Field)
    requires SoundField(f)
    ensures HasType(f.ty, InitialVal(f)) && FitsVal(f.ty, InitialVal(f))
    ensures CellTyped(f, InitialCell(f)) && FitsCell(f, InitialCell(f))
    decreases f
  {
    ZeroIsTyped(f.ty);
  }

  lemma {:induction false} DefaultsTyped(fields: seq<Field>)
    requires Sound(fields)
    ensures Typed(fields, Defaults(fields)) && Fits(fields, Defaults(fields))
    decreases fields
  {
    forall i | 0 <= i < |fields| ensures CellTyped(fields[i], Defaults(fields)[i])
      && FitsCell(fields[i], Defaults(fields)[i]) {
      InitialIsTyped(fields[i]);
    }
  }
}
