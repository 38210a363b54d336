/**
 Fields a decoder does not know: whatever they hold they leave no mark, so a message reads the
 same with a descriptor that lacks some of its writer's fields.
 */
module PbUnknown {
  import opened Basics
  import opened PbTypes
  import opened PbEncoding
  import opened PbDecoding
  import opened PbScalarTrip
  import opened PbRoundTrip

  predicate Unknown(fields: seq<Field>, tag: nat) {
    forall i | 0 <= i < |fields| :: fields[i].tag != tag
  }

  /** The wire types, by their numbers: varints 0, eight bytes 1, a length and so many bytes 2,
      four bytes 5. */
  lemma TagSays(f: Field, tail: Bytes)
    requires SoundField(f)
    ensures ReadTag(FieldTag(f) + tail) == GotTag(f.tag,
        match f.ty
        case Varint(_) | Uvarint(_) | Svarint(_) => 0
        case Fixed64 => 1
        case Fixed32 => 5
        case BytesArray(_) | Text(_) | FixedBytes(_) | Submessage(_) => 2, tail)
  {
    TagTrip(f.tag, WireType(f.ty), tail);
    hide ReadTag, Tag;
  }

  // What is skipped.

  lemma {:induction false} VarintIsSkipped(n: nat, tail: Bytes)
    ensures SkipVarint(Varint64(n) + tail) == Got((), tail)
  {
    var b := Varint64(n) + tail;
    if n < 128 {
      assert b[1..] == tail;
    } else {
      assert b[0] == n % 128 + 128 && b[1..] == Varint64(n / 128) + tail;
      VarintIsSkipped(n / 128, tail);
    }
  }

  lemma BytesAreSkipped(b: Bytes, tail: Bytes)
    ensures SkipBytes(b + tail, |b|) == Got((), tail)
  {
  }

  lemma StrIsSkipped(b: Bytes, tail: Bytes)
    requires |b| < TWO_32
    ensures SkipField(2, Str(b) + tail) == Got((), tail)
  {
    StrTrip(b, tail);
    BytesAreSkipped(b, tail);
    hide ReadVarint32, Str, SkipBytes;
  }

  lemma ScalarIsSkipped(ty: Ty, v: Val, tail: Bytes)
    requires Packable(ty) && HasType(ty, v)
    ensures SkipField(WireType(ty), Scalar(ty, v) + tail) == Got((), tail)
  {
    match ty
    case Varint(_) => VarintIsSkipped(Unsigned64(v.n), tail);
    case Uvarint(_) => VarintIsSkipped(v.n, tail);
    case Svarint(_) => VarintIsSkipped(ZigZag(v.n), tail);
    case Fixed32 => BytesAreSkipped(LittleEndian(v.n, 4), tail);
    case Fixed64 => BytesAreSkipped(LittleEndian(v.n, 8), tail);
  }

  /** Any value is skipped by its wire type alone. */
  lemma ValueIsSkipped(ty: Ty, v: Val, tail: Bytes)
    requires HasType(ty, v) && Value(ty, v).Some? && |Value(ty, v).value| < TWO_32
    ensures SkipField(WireType(ty), Value(ty, v).value + tail) == Got((), tail)
  {
    match ty
    case BytesArray(_) => StrIsSkipped(v.bytes, tail);
    case Text(_) => StrIsSkipped(v.bytes, tail);
    case FixedBytes(_) => StrIsSkipped(v.bytes, tail);
    case Submessage(fields) => StrIsSkipped(Message(fields, v.cells).value, tail);
    case _ => ScalarIsSkipped(ty, v, tail);
  }

  // What decoding makes of it.

  lemma SkipsTag(fields: seq<Field>, cells: seq<Cell>, seen: set<nat>, tag: nat, wireType: nat, body: Bytes)
    requires Sound(fields) && Typed(fields, cells) && Unknown(fields, tag)
    requires 1 <= tag < 0x2000_0000 && wireType < 8
    ensures var s := SkipField(wireType, body);
            ReadFields(fields, cells, seen, Tag(tag, wireType) + body)
            == if s.Fail? then Fail else ReadFields(fields, cells, seen, s.rest)
  {
    TagTrip(tag, wireType, body);
    assert Tag(tag, wireType) + body != [];
    assert Find(fields, tag) == None;
    hide ReadTag, Tag, Find, SkipField, Typed, Sound;
  }

  /** Wire types that do not exist, or the groups that nanopb does not read, end the decoding. */
  lemma OtherWireTypesFail(fields: seq<Field>, cells: seq<Cell>, seen: set<nat>, tag: nat, wireType: nat, body: Bytes)
    requires Sound(fields) && Typed(fields, cells) && Unknown(fields, tag)
    requires 1 <= tag < 0x2000_0000 && wireType in {3, 4, 6, 7}
    ensures ReadFields(fields, cells, seen, Tag(tag, wireType) + body).Fail?
  {
    SkipsTag(fields, cells, seen, tag, wireType, body);
    hide ReadFields;
  }

  lemma UnknownValue(fields: seq<Field>, cells: seq<Cell>, seen: set<nat>, g: Field, v: Val, tail: Bytes)
    requires Sound(fields) && Typed(fields, cells) && SoundField(g) && Unknown(fields, g.tag)
    requires HasType(g.ty, v) && Tagged(g, v).Some? && |Tagged(g, v).value| < TWO_32
    ensures ReadFields(fields, cells, seen, Tagged(g, v).value + tail) == ReadFields(fields, cells, seen, tail)
  {
    var body := Value(g.ty, v).value;
    assert FieldTag(g) + body + tail == FieldTag(g) + (body + tail);
    ValueIsSkipped(g.ty, v, tail);
    SkipsTag(fields, cells, seen, g.tag, WireType(g.ty), body + tail);
    hide ReadFields, SkipField, Value, Typed, Sound;
  }

  lemma {:induction false} UnknownItems(fields: seq<Field>, cells: seq<Cell>, seen: set<nat>, g: Field, items: seq<Val>,
      tail: Bytes)
    requires Sound(fields) && Typed(fields, cells) && SoundField(g) && Unknown(fields, g.tag)
    requires forall i | 0 <= i < |items| :: HasType(g.ty, items[i])
    requires Each(g, items).Some? && |Each(g, items).value| < TWO_32
    ensures ReadFields(fields, cells, seen, Each(g, items).value + tail) == ReadFields(fields, cells, seen, tail)
    decreases |items|
  {
    hide ReadFields, Typed, Sound, Tagged;
    if items == [] {
      assert Each(g, items).value + tail == tail;
    } else {
      var first, others := Tagged(g, items[0]).value, Each(g, items[1..]).value;
      assert first + others + tail == first + (others + tail);
      UnknownValue(fields, cells, seen, g, items[0], others + tail);
      UnknownItems(fields, cells, seen, g, items[1..], tail);
    }
  }

  lemma UnknownPacked(fields: seq<Field>, cells: seq<Cell>, seen: set<nat>, g: Field, items: seq<Val>, tail: Bytes)
    requires Sound(fields) && Typed(fields, cells) && SoundField(g) && Unknown(fields, g.tag) && Packable(g.ty)
    requires forall i | 0 <= i < |items| :: HasType(g.ty, items[i])
    requires |Tag(g.tag, WT_STRING) + Str(Scalars(g.ty, items))| < TWO_32
    ensures ReadFields(fields, cells, seen, Tag(g.tag, WT_STRING) + Str(Scalars(g.ty, items)) + tail)
         == ReadFields(fields, cells, seen, tail)
  {
    var payload := Scalars(g.ty, items);
    assert Tag(g.tag, WT_STRING) + Str(payload) + tail == Tag(g.tag, WT_STRING) + (Str(payload) + tail);
    StrIsSkipped(payload, tail);
    SkipsTag(fields, cells, seen, g.tag, WT_STRING, Str(payload) + tail);
    hide ReadFields, SkipField, Typed, Sound, Scalars, Tag;
  }

  /** Whatever a field the decoder does not know holds, what comes behind it is read as if it were
      not there. */
  lemma UnknownField(fields: seq<Field>, cells: seq<Cell>, seen: set<nat>, g: Field, c: Cell, tail: Bytes)
    requires Sound(fields) && Typed(fields, cells) && SoundField(g) && Unknown(fields, g.tag)
    requires CellTyped(g, c) && FieldOf(g, c).Some? && |FieldOf(g, c).value| < TWO_32
    ensures ReadFields(fields, cells, seen, FieldOf(g, c).value + tail) == ReadFields(fields, cells, seen, tail)
  {
    hide ReadFields, Typed, Sound, Tagged, Each, Scalars, IsDefault, Str, Tag;
    assert [] + tail == tail;
    if NothingWritten(g, c) {
    } else if !g.rule.Repeated? {
      UnknownValue(fields, cells, seen, g, Held(c), tail);
    } else if Packable(g.ty) {
      UnknownPacked(fields, cells, seen, g, c.items, tail);
    } else {
      UnknownItems(fields, cells, seen, g, c.items, tail);
    }
  }

  // A reader that lacks some of the writer's fields.

  function Known(all: seq<Field>, tags: set<nat>): seq<Field> {
    if all == [] then []
    else
      var n := |all| - 1;
      Known(all[..n], tags) + if all[n].tag in tags then [all[n]] else []
  }

  /** What the writer's struct holds in those fields. */
  function KnownCells(all: seq<Field>, cells: seq<Cell>, tags: set<nat>): (r: seq<Cell>)
    requires |all| == |cells|
    ensures |r| == |Known(all, tags)|
    decreases |all|
  {
    if all == [] then []
    else
      var n := |all| - 1;
      KnownCells(all[..n], cells[..n], tags) + if all[n].tag in tags then [cells[n]] else []
  }

  /** Where the reader's j-th field stands among the writer's. */
  function Origin(all: seq<Field>, cells: seq<Cell>, tags: set<nat>, j: nat): (i: nat)
    requires |all| == |cells| && j < |Known(all, tags)|
    ensures i < |all| && Known(all, tags)[j] == all[i] && KnownCells(all, cells, tags)[j] == cells[i]
    ensures all[i].tag in tags
    decreases |all|
  {
    var n := |all| - 1;
    if j < |Known(all[..n], tags)| then Origin(all[..n], cells[..n], tags, j) else n
  }

  lemma {:induction false} OriginAscends(all: seq<Field>, cells: seq<Cell>, tags: set<nat>, j: nat, k: nat)
    requires |all| == |cells| && j < k < |Known(all, tags)|
    ensures Origin(all, cells, tags, j) < Origin(all, cells, tags, k)
    decreases |all|
  {
    var n := |all| - 1;
    if k < |Known(all[..n], tags)| {
      OriginAscends(all[..n], cells[..n], tags, j, k);
    }
  }

  lemma KnownIsSound(all: seq<Field>, cells: seq<Cell>, tags: set<nat>)
    requires Sound(all) && Typed(all, cells) && Fits(all, cells)
    ensures var known, held := Known(all, tags), KnownCells(all, cells, tags);
            Sound(known) && Typed(known, held) && Fits(known, held)
  {
    var known, held := Known(all, tags), KnownCells(all, cells, tags);
    hide Known, KnownCells, Origin, SoundField, CellTyped, FitsCell;
    forall j | 0 <= j < |known|
      ensures SoundField(known[j]) && CellTyped(known[j], held[j]) && FitsCell(known[j], held[j]) {
      var i := Origin(all, cells, tags, j);
      assert SoundField(all[i]) && CellTyped(all[i], cells[i]) && FitsCell(all[i], cells[i]);
    }
    forall j, k | 0 <= j < k < |known|
      ensures known[j].tag != known[k].tag
      ensures known[j].rule.OneOf? && known[k].rule == known[j].rule ==>
              held[j].Member? && held[k].Member? && !(held[j].o.Some? && held[k].o.Some?) {
      OriginAscends(all, cells, tags, j, k);
      var i, i' := Origin(all, cells, tags, j), Origin(all, cells, tags, k);
      assert all[i].tag != all[i'].tag;
    }
  }

  lemma {:induction false} KnownPrefix(all: seq<Field>, cells: seq<Cell>, tags: set<nat>, i: nat)
    requires |all| == |cells| && i <= |all|
    ensures Known(all[..i], tags) <= Known(all, tags)
    ensures KnownCells(all[..i], cells[..i], tags) <= KnownCells(all, cells, tags)
    decreases |all|
  {
    var n := |all| - 1;
    if i == |all| {
      assert all[..i] == all && cells[..i] == cells;
    } else {
      assert all[..n][..i] == all[..i] && cells[..n][..i] == cells[..i];
      KnownPrefix(all[..n], cells[..n], tags, i);
    }
  }

  /** The writer's i-th field, to the reader. */
  lemma KnownAt(all: seq<Field>, cells: seq<Cell>, tags: set<nat>, i: nat)
    requires |all| == |cells| && i < |all|
    ensures var known, j := Known(all, tags), |Known(all[..i], tags)|;
            if all[i].tag in tags then
              && j < |known| && known[j] == all[i] && KnownCells(all, cells, tags)[j] == cells[i]
              && |Known(all[..i + 1], tags)| == j + 1
            else Unknown(known, all[i].tag) && |Known(all[..i + 1], tags)| == j
  {
    assert all[..i + 1][..i] == all[..i] && cells[..i + 1][..i] == cells[..i];
    KnownPrefix(all, cells, tags, i + 1);
    if all[i].tag !in tags {
      var known := Known(all, tags);
      forall j | 0 <= j < |known| ensures known[j].tag != all[i].tag {
        assert all[Origin(all, cells, tags, j)].tag in tags;
      }
    }
  }

  lemma {:induction false} OlderTrip(all: seq<Field>, cells: seq<Cell>, tags: set<nat>, i: nat)
    requires Sound(all) && Typed(all, cells) && Fits(all, cells) && i <= |all|
    requires From(all, cells, i).Some? && |From(all, cells, i).value| < TWO_32
    ensures var known, held, j := Known(all, tags), KnownCells(all, cells, tags), |Known(all[..i], tags)|;
            && Sound(known) && j <= |known| && Typed(known, Partial(known, held, j))
            && ReadFields(known, Partial(known, held, j), SeenBefore(known, j), From(all, cells, i).value)
               == Got(held, [])
    decreases |all| - i
  {
    var known, held, j := Known(all, tags), KnownCells(all, cells, tags), |Known(all[..i], tags)|;
    KnownIsSound(all, cells, tags);
    KnownPrefix(all, cells, tags, i);
    PartialTyped(known, held, j);
    hide Known, KnownCells, Partial, SeenBefore, ReadFields, Typed, Sound, Fits, FieldOf;
    if i == |all| {
      assert all[..i] == all;
      MessageTrip(known, held, j);
    } else {
      KnownAt(all, cells, tags, i);
      OlderTrip(all, cells, tags, i + 1);
      OlderField(all, cells, tags, i, From(all, cells, i + 1).value);
    }
  }

  lemma OlderField(all: seq<Field>, cells: seq<Cell>, tags: set<nat>, i: nat, tail: Bytes)
    requires Sound(all) && Typed(all, cells) && Fits(all, cells) && i < |all|
    requires FieldOf(all[i], cells[i]).Some? && |FieldOf(all[i], cells[i]).value| < TWO_32
    ensures var known, held := Known(all, tags), KnownCells(all, cells, tags);
            var j, j' := |Known(all[..i], tags)|, |Known(all[..i + 1], tags)|;
            && Sound(known) && j <= j' <= |known|
            && Typed(known, Partial(known, held, j)) && Typed(known, Partial(known, held, j'))
            && ReadFields(known, Partial(known, held, j), SeenBefore(known, j),
                          FieldOf(all[i], cells[i]).value + tail)
               == ReadFields(known, Partial(known, held, j'), SeenBefore(known, j'), tail)
  {
    var known, held, j := Known(all, tags), KnownCells(all, cells, tags), |Known(all[..i], tags)|;
    KnownIsSound(all, cells, tags);
    KnownPrefix(all, cells, tags, i);
    KnownAt(all, cells, tags, i);
    assert SoundField(all[i]) && CellTyped(all[i], cells[i]);
    PartialTyped(known, held, j);
    hide Known, KnownCells, Partial, SeenBefore, ReadFields, Typed, Sound, Fits, FieldOf, Unknown;
    if all[i].tag in tags {
      FieldTrip(known, held, j, tail);
    } else {
      UnknownField(known, Partial(known, held, j), SeenBefore(known, j), all[i], cells[i], tail);
    }
  }

  /** A reader whose descriptor has only some of the writer's fields decodes every message of the
      writer to what it holds in those. */
  lemma OlderReader(all: seq<Field>, cells: seq<Cell>, tags: set<nat>)
    requires Sound(all) && Typed(all, cells) && Fits(all, cells)
    requires Message(all, cells).Some? && |Message(all, cells).value| < TWO_32
    ensures Sound(Known(all, tags))
    ensures Decode(Known(all, tags), Message(all, cells).value) == Got(KnownCells(all, cells, tags), [])
  {
    var known, held := Known(all, tags), KnownCells(all, cells, tags);
    KnownIsSound(all, cells, tags);
    OlderTrip(all, cells, tags, 0);
    assert all[..0] == [];
    assert Partial(known, held, 0) == Defaults(known);
    hide ReadFields;
  }
}
