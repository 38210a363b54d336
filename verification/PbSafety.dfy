/**
 Decoding arbitrary bytes: whatever comes back fits in the struct it was decoded into, and
 success means that the tracked required fields were all there, in the message itself and in
 every submessage that was read, however deep.
 */
module PbSafety {
  import opened Basics
  import opened PbTypes
  import opened PbDecoding

  lemma {:induction false} ValStaysInBounds(ty: Ty, prior: Val, b: Bytes)
    requires SoundTy(ty) && HasType(ty, prior) && FitsVal(ty, prior)
    ensures var r := ReadVal(ty, prior, b); r.Got? ==> FitsVal(ty, r.v)
    decreases |b|, 0
  {
    match ty
    case Submessage(fields) =>
      var n := ReadVarint32(b);
      if n.Got? && n.v <= |n.rest| {
        assert Sound(fields) && Typed(fields, prior.cells);
        FieldsStayInBounds(fields, prior.cells, {}, n.rest[..n.v]);
      }
    case _ =>
  }

  lemma {:induction false} FieldStaysInBounds(fields: seq<Field>, cells: seq<Cell>, i: nat, wireType: nat, b: Bytes)
    requires Sound(fields) && Typed(fields, cells) && Fits(fields, cells) && i < |fields|
    ensures var r := ReadField(fields, cells, i, wireType, b); r.Got? ==> Fits(fields, r.v)
    decreases |b|, 1
  {
    var f, c := fields[i], cells[i];
    assert SoundField(f) && CellTyped(f, c) && FitsCell(f, c);
    InitialIsTyped(f);
    ZeroIsTyped(f.ty);
    match f.rule
    case Required => ValStaysInBounds(f.ty, c.v, b);
    case Singular => ValStaysInBounds(f.ty, c.v, b);
    case Optional => ValStaysInBounds(f.ty, if c.o.Some? then c.o.value else InitialVal(f), b);
    case OneOf(_) => ValStaysInBounds(f.ty, Zero(f.ty), b);
    case Repeated(n) =>
      if wireType == 2 && Packable(f.ty) {
        var len := ReadVarint32(b);
        if len.Got? && len.v <= |len.rest| {
          PackedTyped(f.ty, n, c.items, len.rest[..len.v]);
        }
      } else {
        ValStaysInBounds(f.ty, Zero(f.ty), b);
      }
  }

  /** No array, bytes field or string is written past its bound. */
  lemma {:induction false} FieldsStayInBounds(fields: seq<Field>, cells: seq<Cell>, seen: set<nat>, b: Bytes)
    requires Sound(fields) && Typed(fields, cells) && Fits(fields, cells)
    ensures var r := ReadFields(fields, cells, seen, b); r.Got? ==> Fits(fields, r.v)
    decreases |b|, 2
  {
    if b != [] {
      match ReadTag(b)
      case BadTag =>
      case EndOfMessage(rest) =>
      case GotTag(tag, wireType, rest) =>
        var at := Find(fields, tag);
        if at.None? {
          var s := SkipField(wireType, rest);
          if s.Got? {
            FieldsStayInBounds(fields, cells, seen, s.rest);
          }
        } else {
          FieldStaysInBounds(fields, cells, at.value, wireType, rest);
          var g := ReadField(fields, cells, at.value, wireType, rest);
          if g.Got? {
            FieldsStayInBounds(fields, g.v, Saw(fields, at.value, seen), g.rest);
          }
        }
    }
  }

  lemma DecodeStaysInBounds(fields: seq<Field>, b: Bytes)
    requires Sound(fields)
    ensures var r := Decode(fields, b); r.Got? ==> Typed(fields, r.v) && Fits(fields, r.v)
  {
    DefaultsTyped(fields);
    FieldsStayInBounds(fields, Defaults(fields), {}, b);
  }

  /** The positions of the fields a decoding of `b` stores into. */
  function Stored(fields: seq<Field>, cells: seq<Cell>, b: Bytes): set<nat>
    requires Sound(fields) && Typed(fields, cells)
    decreases |b|
  {
    if b == [] then {}
    else
      match ReadTag(b)
      case BadTag => {}
      case EndOfMessage(_) => {}
      case GotTag(tag, wireType, rest) =>
        var at := Find(fields, tag);
        if at.None? then
          var s := SkipField(wireType, rest);
          if s.Fail? then {} else Stored(fields, cells, s.rest)
        else
          var g := ReadField(fields, cells, at.value, wireType, rest);
          if g.Fail? then {} else {at.value} + Stored(fields, g.v, g.rest)
  }

  lemma {:induction false} SeenWasStored(fields: seq<Field>, cells: seq<Cell>, seen: set<nat>, b: Bytes, i: nat)
    requires Sound(fields) && Typed(fields, cells) && ReadFields(fields, cells, seen, b).Got?
    requires i < |fields| && fields[i].rule.Required? && RequiredBefore(fields, i) < PB_MAX_REQUIRED_FIELDS
    requires RequiredBefore(fields, i) !in seen
    ensures i in Stored(fields, cells, b)
    decreases |b|
  {
    if b == [] {
      Tracks(fields, i);
    } else {
      hide ReadTag, ReadField, SkipField, Find, Typed, Sound, Saw, RequiredBefore;
      match ReadTag(b)
      case EndOfMessage(rest) => Tracks(fields, i);
      case GotTag(tag, wireType, rest) =>
        var at := Find(fields, tag);
        if at.None? {
          SeenWasStored(fields, cells, seen, SkipField(wireType, rest).rest, i);
        } else if at.value != i {
          var g := ReadField(fields, cells, at.value, wireType, rest);
          SawOther(fields, at.value, i, seen);
          SeenWasStored(fields, g.v, Saw(fields, at.value, seen), g.rest, i);
        }
    }
  }

  lemma {:induction false} RequiredGrows(fields: seq<Field>, i: nat, j: nat)
    requires i < j <= |fields|
    ensures RequiredBefore(fields, i) + (if fields[i].rule.Required? then 1 else 0) <= RequiredBefore(fields, j)
    decreases j
  {
    if i < j - 1 {
      RequiredGrows(fields, i, j - 1);
    }
  }

  lemma Tracks(fields: seq<Field>, i: nat)
    requires i < |fields| && fields[i].rule.Required? && RequiredBefore(fields, i) < PB_MAX_REQUIRED_FIELDS
    ensures RequiredBefore(fields, i) < Tracked(fields)
  {
    RequiredGrows(fields, i, |fields|);
  }

  lemma OtherIndex(fields: seq<Field>, i: nat, j: nat)
    requires i < |fields| && j < |fields| && i != j && fields[i].rule.Required? && fields[j].rule.Required?
    ensures RequiredBefore(fields, i) != RequiredBefore(fields, j)
  {
    if i < j {
      RequiredGrows(fields, i, j);
    } else {
      RequiredGrows(fields, j, i);
    }
  }

  lemma SawOther(fields: seq<Field>, at: nat, i: nat, seen: set<nat>)
    requires at < |fields| && i < |fields| && at != i && fields[i].rule.Required? && RequiredBefore(fields, i) !in seen
    ensures RequiredBefore(fields, i) !in Saw(fields, at, seen)
  {
    if fields[at].rule.Required? {
      OtherIndex(fields, at, i);
    }
  }

  // The same in the submessages.

  ghost predicate RequiredStored(fields: seq<Field>, cells: seq<Cell>, b: Bytes)
    requires Sound(fields) && Typed(fields, cells)
  {
    forall i | 0 <= i < |fields| && fields[i].rule.Required? && RequiredBefore(fields, i) < PB_MAX_REQUIRED_FIELDS ::
      i in Stored(fields, cells, b)
  }

  /** Reading one value: if it is a submessage, the required fields of its payload are stored,
      and so on inside. */
  ghost predicate CompleteVal(ty: Ty, prior: Val, b: Bytes)
    requires SoundTy(ty) && HasType(ty, prior)
    decreases |b|, 0
  {
    ty.Submessage? ==>
      var n := ReadVarint32(b);
      n.Got? && n.v <= |n.rest| ==>
        assert Sound(ty.fields) && Typed(ty.fields, prior.cells);
        Complete(ty.fields, prior.cells, n.rest[..n.v])
  }

  /** The value that the field at `i` is read into. */
  function Prior(f: Field, c: Cell): (v: Val)
    requires SoundField(f) && CellTyped(f, c)
    ensures HasType(f.ty, v)
  {
    InitialIsTyped(f);
    ZeroIsTyped(f.ty);
    match f.rule
    case Required | Singular => c.v
    case Optional => if c.o.Some? then c.o.value else InitialVal(f)
    case _ => Zero(f.ty)
  }

  /** Reading a message: its required fields are stored, and every value read on the way is
      complete in turn. */
  ghost predicate Complete(fields: seq<Field>, cells: seq<Cell>, b: Bytes)
    requires Sound(fields) && Typed(fields, cells)
    decreases |b|, 2
  {
    RequiredStored(fields, cells, b) && CompleteWithin(fields, cells, b)
  }

  ghost predicate CompleteWithin(fields: seq<Field>, cells: seq<Cell>, b: Bytes)
    requires Sound(fields) && Typed(fields, cells)
    decreases |b|, 1
  {
    b != [] ==>
      match ReadTag(b)
      case BadTag => true
      case EndOfMessage(_) => true
      case GotTag(tag, wireType, rest) =>
        var at := Find(fields, tag);
        if at.None? then
          var s := SkipField(wireType, rest);
          s.Got? ==> CompleteWithin(fields, cells, s.rest)
        else
          var g := ReadField(fields, cells, at.value, wireType, rest);
          g.Got? ==>
            assert SoundField(fields[at.value]) && CellTyped(fields[at.value], cells[at.value]);
            CompleteVal(fields[at.value].ty, Prior(fields[at.value], cells[at.value]), rest) &&
            CompleteWithin(fields, g.v, g.rest)
  }

  lemma {:induction false} ValIsComplete(ty: Ty, prior: Val, b: Bytes)
    requires SoundTy(ty) && HasType(ty, prior) && ReadVal(ty, prior, b).Got?
    ensures CompleteVal(ty, prior, b)
    decreases |b|, 0
  {
    if ty.Submessage? {
      var n := ReadVarint32(b);
      assert Sound(ty.fields) && Typed(ty.fields, prior.cells);
      MessageIsComplete(ty.fields, prior.cells, n.rest[..n.v]);
    }
  }

  /** A field that has been read has read its value as `ReadVal` does, except a packed array,
      which holds no submessages. */
  lemma FieldReadsVal(fields: seq<Field>, cells: seq<Cell>, i: nat, wireType: nat, b: Bytes)
    requires Sound(fields) && Typed(fields, cells) && i < |fields| && ReadField(fields, cells, i, wireType, b).Got?
    ensures |cells| == |fields| && SoundField(fields[i]) && CellTyped(fields[i], cells[i])
    ensures fields[i].ty.Submessage? ==> ReadVal(fields[i].ty, Prior(fields[i], cells[i]), b).Got?
  {
  }

  lemma {:induction false} MessageIsComplete(fields: seq<Field>, cells: seq<Cell>, b: Bytes)
    requires Sound(fields) && Typed(fields, cells) && ReadFields(fields, cells, {}, b).Got?
    ensures Complete(fields, cells, b)
    decreases |b|, 2
  {
    hide ReadFields, Stored, CompleteWithin;
    forall i | 0 <= i < |fields| && fields[i].rule.Required? && RequiredBefore(fields, i) < PB_MAX_REQUIRED_FIELDS
      ensures i in Stored(fields, cells, b) {
      SeenWasStored(fields, cells, {}, b, i);
    }
    InsideIsComplete(fields, cells, {}, b);
  }

  lemma {:induction false} InsideIsComplete(fields: seq<Field>, cells: seq<Cell>, seen: set<nat>, b: Bytes)
    requires Sound(fields) && Typed(fields, cells) && ReadFields(fields, cells, seen, b).Got?
    ensures CompleteWithin(fields, cells, b)
    decreases |b|, 1
  {
    hide ReadTag, ReadField, SkipField, Find, Typed, Sound, Saw, CompleteVal, Prior, ReadVal, SoundField, CellTyped;
    if b != [] {
      match ReadTag(b)
      case EndOfMessage(rest) =>
      case GotTag(tag, wireType, rest) =>
        var at := Find(fields, tag);
        if at.None? {
          InsideIsComplete(fields, cells, seen, SkipField(wireType, rest).rest);
        } else {
          var i, g := at.value, ReadField(fields, cells, at.value, wireType, rest);
          FieldReadsVal(fields, cells, i, wireType, rest);
          if fields[i].ty.Submessage? {
            ValIsComplete(fields[i].ty, Prior(fields[i], cells[i]), rest);
          } else {
            ScalarIsComplete(fields[i].ty, Prior(fields[i], cells[i]), rest);
          }
          InsideIsComplete(fields, g.v, Saw(fields, i, seen), g.rest);
        }
    }
  }

  lemma ScalarIsComplete(ty: Ty, prior: Val, b: Bytes)
    requires SoundTy(ty) && HasType(ty, prior) && !ty.Submessage?
    ensures CompleteVal(ty, prior, b)
  {
  }

  /** Success implies that each of the first 64 required fields was stored, and that the same
      holds of every submessage read on the way, at every depth. */
  lemma DecodedHasRequired(fields: seq<Field>, b: Bytes)
    requires Sound(fields) && Decode(fields, b).Got?
    ensures Typed(fields, Defaults(fields)) && Complete(fields, Defaults(fields), b)
    ensures RequiredStored(fields, Defaults(fields), b)
  {
    DefaultsTyped(fields);
    MessageIsComplete(fields, Defaults(fields), b);
  }
}
