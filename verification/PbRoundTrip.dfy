/** Decoding what was encoded gives the message back, through any nesting. */
module PbRoundTrip {
  import opened Basics
  import opened PbTypes
  import opened PbEncoding
  import opened PbDecoding
  import opened PbScalarTrip

  // Length-delimited values.

  lemma StrTrip(b: Bytes, tail: Bytes)
    requires |b| < TWO_32
    ensures ReadVarint32(Str(b) + tail) == Got(|b|, b + tail)
    ensures ReadBytes(b + tail, |b|) == Got(b, tail)
    ensures (b + tail)[..|b|] == b && (b + tail)[|b|..] == tail
  {
    assert |b| % TWO_64 == |b| && Str(b) + tail == Varint64(|b|) + (b + tail);
    Varint32Trip(|b|, b + tail);
  }

  lemma BlobTrip(ty: Ty, v: Val, tail: Bytes)
    requires ty.BytesArray? || ty.Text? || ty.FixedBytes?
    requires SoundTy(ty) && HasType(ty, v) && FitsVal(ty, v) && |v.bytes| < TWO_32
    ensures ReadBlob(ty, Str(v.bytes) + tail) == Got(v, tail)
  {
    hide ReadBlob, ReadVarint32, ReadBytes, Str;
    StrTrip(v.bytes, tail);
    if ty.FixedBytes? {
      FixedTrip(ty.length, v, Str(v.bytes) + tail, tail);
    } else {
      SizedTrip(ty, v, Str(v.bytes) + tail, tail);
    }
  }

  lemma SizedTrip(ty: Ty, v: Val, b: Bytes, tail: Bytes)
    requires (ty.BytesArray? || ty.Text?) && SoundTy(ty) && HasType(ty, v) && FitsVal(ty, v)
    requires ReadVarint32(b) == Got(|v.bytes|, v.bytes + tail)
    requires ReadBytes(v.bytes + tail, |v.bytes|) == Got(v.bytes, tail)
    ensures ReadBlob(ty, b) == Got(v, tail)
  {
    hide ReadVarint32, ReadBytes;
    if ty.Text? {
      assert AllocSize(|v.bytes|) == |v.bytes| + 1;
      assert CString(v.bytes) == v.bytes;
    }
  }

  lemma FixedTrip(n: nat, v: Val, b: Bytes, tail: Bytes)
    requires SoundTy(FixedBytes(n)) && HasType(FixedBytes(n), v)
    requires ReadVarint32(b) == Got(|v.bytes|, v.bytes + tail)
    requires ReadBytes(v.bytes + tail, |v.bytes|) == Got(v.bytes, tail)
    ensures ReadBlob(FixedBytes(n), b) == Got(v, tail)
  {
    hide ReadVarint32, ReadBytes;
    if n == 0 {
      assert v.bytes == Zeros(0) && v.bytes + tail == tail;
    }
  }

  lemma PackedItem(ty: Ty, arraySize: nat, done: seq<Val>, v: Val, rest: Bytes)
    requires Packable(ty) && SoundTy(ty) && HasType(ty, v) && |done| < arraySize
    ensures ReadPacked(ty, arraySize, done, Scalar(ty, v) + rest) == ReadPacked(ty, arraySize, done + [v], rest)
  {
    ScalarNonEmpty(ty, v);
    ScalarTrip(ty, v, rest);
    hide ReadScalar, Scalar, HasType, SoundTy;
  }

  lemma ScalarsHead(ty: Ty, items: seq<Val>)
    requires Packable(ty) && items != [] && forall i | 0 <= i < |items| :: HasType(ty, items[i])
    ensures Scalars(ty, items) == Scalar(ty, items[0]) + Scalars(ty, items[1..])
  {
  }

  lemma {:induction false} PackedTrip(ty: Ty, arraySize: nat, done: seq<Val>, items: seq<Val>)
    requires Packable(ty) && SoundTy(ty) && |done| + |items| <= arraySize
    requires forall i | 0 <= i < |items| :: HasType(ty, items[i])
    ensures ReadPacked(ty, arraySize, done, Scalars(ty, items)) == Some(done + items)
    decreases |items|
  {
    hide HasType, SoundTy, Scalar;
    if items == [] {
      assert done + items == done;
    } else {
      hide ReadPacked, Scalars;
      assert Scalars(ty, items) == Scalar(ty, items[0]) + Scalars(ty, items[1..]) by { ScalarsHead(ty, items); }
      PackedItem(ty, arraySize, done, items[0], Scalars(ty, items[1..]));
      PackedTrip(ty, arraySize, done + [items[0]], items[1..]);
      assert done + [items[0]] + items[1..] == done + items;
    }
  }

  lemma ScalarNonEmpty(ty: Ty, v: Val)
    requires Packable(ty) && HasType(ty, v)
    ensures |Scalar(ty, v)| > 0
  {
  }

  // Decoding in step with the encoder: after field `i` the struct holds the first `i`
  // cells and defaults behind them, and the required ones among them have been seen.

  function Partial(fields: seq<Field>, cells: seq<Cell>, i: nat): (r: seq<Cell>)
    requires |cells| == |fields| && i <= |fields|
    ensures |r| == |fields|
  {
    cells[..i] + Defaults(fields)[i..]
  }

  function SeenBefore(fields: seq<Field>, i: nat): set<nat>
    requires i <= |fields|
  {
    if i == 0 then {} else Saw(fields, i - 1, SeenBefore(fields, i - 1))
  }

  lemma PartialTyped(fields: seq<Field>, cells: seq<Cell>, i: nat)
    requires Sound(fields) && Typed(fields, cells) && i <= |fields|
    ensures Typed(fields, Partial(fields, cells, i))
  {
    DefaultsTyped(fields);
    var p := Partial(fields, cells, i);
    forall j | 0 <= j < |fields| ensures CellTyped(fields[j], p[j]) {
      assert CellTyped(fields[j], cells[j]) && CellTyped(fields[j], Defaults(fields)[j]);
    }
    forall j, k | 0 <= j < k < |fields| && fields[j].rule.OneOf? && fields[k].rule == fields[j].rule
      ensures p[j].Member? && p[k].Member? && !(p[j].o.Some? && p[k].o.Some?)
    {
      assert CellTyped(fields[j], p[j]) && CellTyped(fields[k], p[k]);
      assert k >= i ==> p[k] == InitialCell(fields[k]);
    }
  }

  /** A known tag: the field is found and read. */
  lemma TakesTag(fields: seq<Field>, cells: seq<Cell>, seen: set<nat>, i: nat, wireType: nat, body: Bytes)
    requires Sound(fields) && Typed(fields, cells) && i < |fields| && wireType < 8
    ensures var g := ReadField(fields, cells, i, wireType, body);
            ReadFields(fields, cells, seen, Tag(fields[i].tag, wireType) + body)
            == if g.Fail? then Fail else ReadFields(fields, g.v, Saw(fields, i, seen), g.rest)
  {
    assert SoundField(fields[i]);
    TagTrip(fields[i].tag, wireType, body);
    assert Tag(fields[i].tag, wireType) + body != [];
    assert Find(fields, fields[i].tag) == Some(i);
    hide ReadTag, Tag, Find, ReadField, Typed, Sound;
  }

  lemma {:induction false} RequiredAreSeen(fields: seq<Field>, i: nat, k: nat)
    requires i <= |fields| && k < RequiredBefore(fields, i) && k < PB_MAX_REQUIRED_FIELDS
    ensures k in SeenBefore(fields, i)
    decreases i
  {
    if k < RequiredBefore(fields, i - 1) {
      RequiredAreSeen(fields, i - 1, k);
    }
  }

  lemma OthersAreNone(fields: seq<Field>, cells: seq<Cell>, j: nat, i: nat)
    requires |cells| == |fields| && OneChoice(fields, cells) && j < i < |fields|
    requires fields[i].rule.OneOf? && cells[i].Member? && cells[i].o.Some?
    ensures fields[j].rule == fields[i].rule ==> cells[j] == Member(None)
  {
  }

  lemma PartialAt(fields: seq<Field>, cells: seq<Cell>, i: nat, j: nat)
    requires |cells| == |fields| && i <= |fields| && j < |fields|
    ensures Partial(fields, cells, i)[j] == if j < i then cells[j] else InitialCell(fields[j])
  {
  }

  lemma ChoiceAt(fields: seq<Field>, cells: seq<Cell>, i: nat, j: nat)
    requires |cells| == |fields| && OneChoice(fields, cells) && i < |fields| && j < |fields|
    requires fields[i].rule.OneOf? && cells[i].Member? && cells[i].o.Some?
    ensures Choose(fields, Partial(fields, cells, i), i, cells[i].o.value)[j] == Partial(fields, cells, i + 1)[j]
  {
    PartialAt(fields, cells, i, j);
    PartialAt(fields, cells, i + 1, j);
    if j < i {
      OthersAreNone(fields, cells, j, i);
    }
    hide Partial, OneChoice;
  }

  lemma TakesChoice(fields: seq<Field>, cells: seq<Cell>, i: nat)
    requires Typed(fields, cells) && i < |fields| && fields[i].rule.OneOf? && cells[i].Member? && cells[i].o.Some?
    ensures Choose(fields, Partial(fields, cells, i), i, cells[i].o.value) == Partial(fields, cells, i + 1)
  {
    var r := Choose(fields, Partial(fields, cells, i), i, cells[i].o.value);
    assert OneChoice(fields, cells);
    hide *;
    forall j | 0 <= j < |fields| ensures r[j] == Partial(fields, cells, i + 1)[j] {
      ChoiceAt(fields, cells, i, j);
    }
  }

  lemma Skips(fields: seq<Field>, cells: seq<Cell>, i: nat)
    requires |cells| == |fields| && i < |fields| && cells[i] == InitialCell(fields[i])
    ensures Partial(fields, cells, i + 1) == Partial(fields, cells, i)
  {
  }

  lemma Advances(fields: seq<Field>, cells: seq<Cell>, i: nat)
    requires |cells| == |fields| && i < |fields|
    ensures Partial(fields, cells, i)[i] == InitialCell(fields[i])
    ensures Partial(fields, cells, i)[i := cells[i]] == Partial(fields, cells, i + 1)
  {
  }

  lemma {:induction false} ValTrip(ty: Ty, v: Val, prior: Val, tail: Bytes)
    requires SoundTy(ty) && HasType(ty, v) && FitsVal(ty, v) && HasType(ty, prior)
             && (ty.Submessage? ==> prior == Zero(ty))
    requires Value(ty, v).Some? && |Value(ty, v).value| < TWO_32
    ensures ReadVal(ty, prior, Value(ty, v).value + tail) == Got(v, tail)
    decreases ty, 0
  {
    match ty
    case Submessage(fields) =>
      var payload := Message(fields, v.cells).value;
      StrTrip(payload, tail);
      MessageTrip(fields, v.cells, 0);
      assert Partial(fields, v.cells, 0) == Defaults(fields);
      hide ReadVarint32, Str;
    case BytesArray(_) => BlobTrip(ty, v, tail);
    case Text(_) => BlobTrip(ty, v, tail);
    case FixedBytes(_) => BlobTrip(ty, v, tail);
    case _ => ScalarTrip(ty, v, tail);
  }

  lemma {:induction false} MessageTrip(fields: seq<Field>, cells: seq<Cell>, i: nat)
    requires Sound(fields) && Typed(fields, cells) && Fits(fields, cells) && i <= |fields|
    requires From(fields, cells, i).Some? && |From(fields, cells, i).value| < TWO_32
    ensures Typed(fields, Partial(fields, cells, i))
    ensures ReadFields(fields, Partial(fields, cells, i), SeenBefore(fields, i), From(fields, cells, i).value)
            == Got(cells, [])
    decreases fields, |fields| - i, 2
  {
    PartialTyped(fields, cells, i);
    if i == |fields| {
      assert Partial(fields, cells, i) == cells;
      forall k: nat | k < Tracked(fields) ensures k in SeenBefore(fields, i) {
        RequiredAreSeen(fields, i, k);
      }
    } else {
      FieldTrip(fields, cells, i, From(fields, cells, i + 1).value);
      MessageTrip(fields, cells, i + 1);
    }
  }

  lemma {:induction false} FieldTrip(fields: seq<Field>, cells: seq<Cell>, i: nat, tail: Bytes)
    requires Sound(fields) && Typed(fields, cells) && Fits(fields, cells) && i < |fields|
    requires FieldOf(fields[i], cells[i]).Some? && |FieldOf(fields[i], cells[i]).value| < TWO_32
    ensures Typed(fields, Partial(fields, cells, i)) && Typed(fields, Partial(fields, cells, i + 1))
    ensures ReadFields(fields, Partial(fields, cells, i), SeenBefore(fields, i), FieldOf(fields[i], cells[i]).value
            + tail)
         == ReadFields(fields, Partial(fields, cells, i + 1), SeenBefore(fields, i + 1), tail)
    decreases fields, |fields| - i, 1
  {
    PartialTyped(fields, cells, i);
    PartialTyped(fields, cells, i + 1);
    var f, c := fields[i], cells[i];
    assert SoundField(f) && CellTyped(f, c) && FitsCell(f, c);
    hide ReadFields, Sound, Fits, Partial, SeenBefore, Value, Each, IsDefault;
    if NothingWritten(f, c) {
      SkipTrip(fields, cells, i, tail);
    } else if f.rule.Repeated? {
      if Packable(f.ty) {
        PackedFieldTrip(fields, cells, i, tail);
      } else {
        assert c.items[0..] == c.items;
        NoItemsYet(fields, cells, i);
        EachTrip(fields, cells, i, 0, tail);
      }
    } else {
      OneTrip(fields, cells, i, Held(c), tail);
    }
  }

  lemma NoItemsYet(fields: seq<Field>, cells: seq<Cell>, i: nat)
    requires |cells| == |fields| && i < |fields| && cells[i].Many? && fields[i].rule.Repeated?
    ensures WithItems(fields, cells, i, 0) == Partial(fields, cells, i)
  {
    assert cells[i].items[..0] == [];
    Advances(fields, cells, i);
  }

  /** An absent, empty or default field writes nothing. */
  predicate NothingWritten(f: Field, c: Cell)
    requires CellTyped(f, c)
  {
    match f.rule
    case Required => false
    case Singular => IsDefault(f, c)
    case Optional | OneOf(_) => c.o.None?
    case Repeated(_) => c.items == []
  }

  lemma SkipTrip(fields: seq<Field>, cells: seq<Cell>, i: nat, tail: Bytes)
    requires Sound(fields) && Typed(fields, cells) && i < |fields| && CellTyped(fields[i], cells[i])
             && NothingWritten(fields[i], cells[i])
    ensures FieldOf(fields[i], cells[i]) == Some([])
    ensures [] + tail == tail
    ensures Partial(fields, cells, i + 1) == Partial(fields, cells, i)
            && SeenBefore(fields, i + 1) == SeenBefore(fields, i)
  {
    assert SoundField(fields[i]);
    if fields[i].rule.Singular? {
      DefaultExactly(fields[i], cells[i]);
    }
    Skips(fields, cells, i);
  }

  lemma {:induction false} FieldValTrip(f: Field, v: Val, prior: Val, tail: Bytes)
    requires SoundTy(f.ty) && HasType(f.ty, v) && FitsVal(f.ty, v) && HasType(f.ty, prior)
             && (f.ty.Submessage? ==> prior == Zero(f.ty))
    requires Value(f.ty, v).Some? && |Value(f.ty, v).value| < TWO_32
    ensures ReadVal(f.ty, prior, Value(f.ty, v).value + tail) == Got(v, tail)
    decreases f, 0
  {
    ValTrip(f.ty, v, prior, tail);
  }

  /** The value of a cell that has one. */
  function Held(c: Cell): Val
    requires c.One? || (c.Maybe? && c.o.Some?) || (c.Member? && c.o.Some?)
  {
    if c.One? then c.v else c.o.value
  }

  /** A single value is read into the initial cell of its field. */
  lemma {:induction false} OneTrip(fields: seq<Field>, cells: seq<Cell>, i: nat, v: Val, tail: Bytes)
    requires Sound(fields) && Typed(fields, cells) && Fits(fields, cells) && i < |fields| && !fields[i].rule.Repeated?
    requires cells[i].One? || (cells[i].Maybe? && cells[i].o.Some?) || (cells[i].Member? && cells[i].o.Some?)
    requires v == Held(cells[i]) && HasType(fields[i].ty, v)
    requires Tagged(fields[i], v).Some? && |Tagged(fields[i], v).value| < TWO_32
    ensures Typed(fields, Partial(fields, cells, i)) && Typed(fields, Partial(fields, cells, i + 1))
    ensures ReadFields(fields, Partial(fields, cells, i), SeenBefore(fields, i), Tagged(fields[i], v).value + tail)
         == ReadFields(fields, Partial(fields, cells, i + 1), SeenBefore(fields, i + 1), tail)
    decreases fields, |fields| - i, 0
  {
    PartialTyped(fields, cells, i);
    PartialTyped(fields, cells, i + 1);
    var f := fields[i];
    var body := Value(f.ty, v).value;
    assert SoundField(f) && CellTyped(f, cells[i]) && FitsCell(f, cells[i]);
    assert FieldTag(f) + body + tail == FieldTag(f) + (body + tail);
    InitialIsTyped(f);
    ZeroIsTyped(f.ty);
    FieldValTrip(f, v, if f.rule.OneOf? then Zero(f.ty) else InitialVal(f), tail);
    TakesTag(fields, Partial(fields, cells, i), SeenBefore(fields, i), i, WireType(f.ty), body + tail);
    if f.rule.OneOf? {
      TakesChoice(fields, cells, i);
    } else {
      Advances(fields, cells, i);
    }
    hide ReadFields, ReadVal, Typed, Sound, Value, Partial, SeenBefore;
  }

  lemma PackedFieldTrip(fields: seq<Field>, cells: seq<Cell>, i: nat, tail: Bytes)
    requires Sound(fields) && Typed(fields, cells) && Fits(fields, cells) && i < |fields|
    requires fields[i].rule.Repeated? && Packable(fields[i].ty) && cells[i].Many? && cells[i].items != []
    requires FieldOf(fields[i], cells[i]).Some? && |FieldOf(fields[i], cells[i]).value| < TWO_32
    ensures Typed(fields, Partial(fields, cells, i)) && Typed(fields, Partial(fields, cells, i + 1))
    ensures ReadFields(fields, Partial(fields, cells, i), SeenBefore(fields, i), FieldOf(fields[i], cells[i]).value
            + tail)
         == ReadFields(fields, Partial(fields, cells, i + 1), SeenBefore(fields, i + 1), tail)
  {
    PartialTyped(fields, cells, i);
    PartialTyped(fields, cells, i + 1);
    var f, items := fields[i], cells[i].items;
    assert SoundField(f) && CellTyped(f, cells[i]) && FitsCell(f, cells[i]);
    var payload := Scalars(f.ty, items);
    assert Tag(f.tag, WT_STRING) + Str(payload) + tail == Tag(f.tag, WT_STRING) + (Str(payload) + tail);
    StrTrip(payload, tail);
    PackedTrip(f.ty, f.rule.arraySize, [], items);
    assert [] + items == items;
    Advances(fields, cells, i);
    TakesTag(fields, Partial(fields, cells, i), SeenBefore(fields, i), i, WT_STRING, Str(payload) + tail);
    hide ReadFields, ReadVarint32, ReadPacked, Typed, Sound, Partial, Scalars, Str, Tag, SeenBefore;
  }

  /** Items with a tag each, from the `k`-th on. */
  lemma {:induction false} EachTrip(fields: seq<Field>, cells: seq<Cell>, i: nat, k: nat, tail: Bytes)
    requires Sound(fields) && Typed(fields, cells) && Fits(fields, cells) && i < |fields|
    requires fields[i].rule.Repeated? && !Packable(fields[i].ty) && cells[i].Many? && k <= |cells[i].items|
    requires forall j | 0 <= j < |cells[i].items| :: HasType(fields[i].ty, cells[i].items[j])
    requires Each(fields[i], cells[i].items[k..]).Some? && |Each(fields[i], cells[i].items[k..]).value| < TWO_32
    ensures Typed(fields, WithItems(fields, cells, i, k)) && Typed(fields, Partial(fields, cells, i + 1))
    ensures ReadFields(fields, WithItems(fields, cells, i, k), SeenBefore(fields, i),
            Each(fields[i], cells[i].items[k..]).value + tail)
         == ReadFields(fields, Partial(fields, cells, i + 1), SeenBefore(fields, i + 1), tail)
    decreases fields, |fields| - i, 0, |cells[i].items| - k
  {
    PartialTyped(fields, cells, i + 1);
    WithItemsTyped(fields, cells, i, k);
    var f, items := fields[i], cells[i].items;
    assert SoundField(f) && CellTyped(f, cells[i]) && FitsCell(f, cells[i]);
    if k == |items| {
      assert items[..k] == items && items[k..] == [];
      Advances(fields, cells, i);
      assert [] + tail == tail;
    } else {
      WithItemsTyped(fields, cells, i, k + 1);
      assert items[k..][0] == items[k] && items[k..][1..] == items[k + 1..];
      var body, after := Value(f.ty, items[k]).value, Each(f, items[k + 1..]).value;
      assert FieldTag(f) + body + after + tail == FieldTag(f) + (body + (after + tail));
      ItemTrip(fields, cells, i, k, after + tail);
      hide ReadFields, Typed, Sound, Value, WithItems, SeenBefore, Partial;
      EachTrip(fields, cells, i, k + 1, tail);
    }
  }

  lemma {:induction false} ItemTrip(fields: seq<Field>, cells: seq<Cell>, i: nat, k: nat, rest: Bytes)
    requires Sound(fields) && Typed(fields, cells) && i < |fields| && SoundField(fields[i])
    requires fields[i].rule.Repeated? && !Packable(fields[i].ty) && cells[i].Many?
             && k < |cells[i].items| <= fields[i].rule.arraySize
    requires HasType(fields[i].ty, cells[i].items[k]) && FitsVal(fields[i].ty, cells[i].items[k])
    requires Value(fields[i].ty, cells[i].items[k]).Some? && |Value(fields[i].ty, cells[i].items[k]).value| < TWO_32
    ensures Typed(fields, WithItems(fields, cells, i, k)) && Typed(fields, WithItems(fields, cells, i, k + 1))
    ensures ReadFields(fields, WithItems(fields, cells, i, k), SeenBefore(fields, i), FieldTag(fields[i])
            + (Value(fields[i].ty, cells[i].items[k]).value + rest))
         == ReadFields(fields, WithItems(fields, cells, i, k + 1), SeenBefore(fields, i), rest)
    decreases fields, |fields| - i, 0, |cells[i].items| - k, 0
  {
    WithItemsTyped(fields, cells, i, k);
    WithItemsTyped(fields, cells, i, k + 1);
    var f, items := fields[i], cells[i].items;
    ZeroIsTyped(f.ty);
    FieldValTrip(f, items[k], Zero(f.ty), rest);
    ItemAdded(fields, cells, i, k);
    hide ReadFields, ReadVal, Typed, Sound, Value, WithItems, SeenBefore, Partial, HasType, FitsVal;
    ReadsItem(fields, WithItems(fields, cells, i, k), i, items[..k], items[k], Value(f.ty, items[k]).value
      + rest, rest);
    TakesTag(fields, WithItems(fields, cells, i, k), SeenBefore(fields, i), i, WireType(f.ty),
      Value(f.ty, items[k]).value + rest);
    hide ReadField;
  }

  lemma ReadsItem(fields: seq<Field>, cells: seq<Cell>, i: nat, items: seq<Val>, v: Val, b: Bytes, rest: Bytes)
    requires Sound(fields) && Typed(fields, cells) && i < |fields| && SoundTy(fields[i].ty)
             && HasType(fields[i].ty, Zero(fields[i].ty))
    requires fields[i].rule.Repeated? && !Packable(fields[i].ty) && cells[i] == Many(items)
             && |items| < fields[i].rule.arraySize
    requires ReadVal(fields[i].ty, Zero(fields[i].ty), b) == Got(v, rest)
    ensures ReadField(fields, cells, i, WireType(fields[i].ty), b) == Got(cells[i := Many(items + [v])], rest)
  {
    hide ReadVal, Typed, Sound, HasType, SoundTy;
  }

  function WithItems(fields: seq<Field>, cells: seq<Cell>, i: nat, k: nat): (r: seq<Cell>)
    requires |cells| == |fields| && i < |fields| && cells[i].Many? && k <= |cells[i].items|
    ensures |r| == |fields|
  {
    Partial(fields, cells, i)[i := Many(cells[i].items[..k])]
  }

  lemma ItemAdded(fields: seq<Field>, cells: seq<Cell>, i: nat, k: nat)
    requires |cells| == |fields| && i < |fields| && cells[i].Many? && k < |cells[i].items|
    ensures WithItems(fields, cells, i, k)[i] == Many(cells[i].items[..k])
    ensures WithItems(fields, cells, i, k)[i := Many(cells[i].items[..k] + [cells[i].items[k]])]
            == WithItems(fields, cells, i, k + 1)
  {
    assert cells[i].items[..k] + [cells[i].items[k]] == cells[i].items[..k + 1];
  }

  lemma WithItemsTyped(fields: seq<Field>, cells: seq<Cell>, i: nat, k: nat)
    requires Sound(fields) && Typed(fields, cells) && i < |fields| && fields[i].rule.Repeated?
    requires cells[i].Many? && k <= |cells[i].items|
    ensures Typed(fields, WithItems(fields, cells, i, k))
  {
    PartialTyped(fields, cells, i);
    var p, q := Partial(fields, cells, i), WithItems(fields, cells, i, k);
    assert CellTyped(fields[i], cells[i]);
    forall j | 0 <= j < |fields| ensures CellTyped(fields[j], q[j]) {
      assert CellTyped(fields[j], p[j]);
    }
  }

  // A struct whose contents fit in their storage can always be encoded.

  lemma {:induction false} ValueEncodes(ty: Ty, v: Val)
    requires HasType(ty, v) && FitsVal(ty, v)
    ensures Value(ty, v).Some?
    decreases ty, 0
  {
    if ty.Submessage? {
      assert Typed(ty.fields, v.cells) && Fits(ty.fields, v.cells);
      MessageEncodes(ty.fields, v.cells, 0);
    }
  }

  lemma {:induction false} FieldEncodes(f: Field, c: Cell)
    requires CellTyped(f, c) && FitsCell(f, c)
    ensures FieldOf(f, c).Some?
    decreases f, 1
  {
    if c.Many? {
      EachEncodes(f, c.items);
    } else if c.One? || c.o.Some? {
      ValueEncodes(f.ty, Held(c));
    }
  }

  lemma {:induction false} EachEncodes(f: Field, items: seq<Val>)
    requires forall i | 0 <= i < |items| :: HasType(f.ty, items[i]) && FitsVal(f.ty, items[i])
    ensures Each(f, items).Some?
    decreases f, 0, |items|
  {
    if items != [] {
      ValueEncodes(f.ty, items[0]);
      EachEncodes(f, items[1..]);
    }
  }

  lemma {:induction false} MessageEncodes(fields: seq<Field>, cells: seq<Cell>, i: nat)
    requires Typed(fields, cells) && Fits(fields, cells) && i <= |fields|
    ensures From(fields, cells, i).Some?
    decreases fields, |fields| - i, 2
  {
    if i < |fields| {
      FieldEncodes(fields[i], cells[i]);
      MessageEncodes(fields, cells, i + 1);
    }
  }

  /** pb_decode of pb_encode's output restores the message: every present value, has-flag,
      array and oneof choice, and it reads all of it. The lengths on the wire are 32-bit. */
  lemma RoundTrip(fields: seq<Field>, cells: seq<Cell>)
    requires Sound(fields) && Typed(fields, cells) && Fits(fields, cells)
    ensures Message(fields, cells).Some?
    ensures var wire := Message(fields, cells).value;
            |wire| < TWO_32 ==> Decode(fields, wire) == Got(cells, [])
  {
    MessageEncodes(fields, cells, 0);
    if |Message(fields, cells).value| < TWO_32 {
      MessageTrip(fields, cells, 0);
      assert Partial(fields, cells, 0) == Defaults(fields);
    }
  }
}
