/** The encoder over a buffer or as a sizing pass, with its loops (pb_encode.c). */
module PbEncode {
  import opened Basics
  import opened PbTypes
  import opened PbEncoding
  import PbCommon
  import Bits

  function Septets(n: nat): nat {
    if n == 0 then 0 else 1 + Septets(n / 128)
  }

  /** `d` with `b` written over it from `at` on. */
  function Splice(d: Bytes, at: nat, b: Bytes): (r: Bytes)
    requires at + |b| <= |d|
    ensures |r| == |d|
  {
    d[..at] + b + d[at + |b|..]
  }

  lemma SpliceTwice(d: Bytes, at: nat, a: Bytes, b: Bytes)
    requires at + |a| + |b| <= |d|
    ensures Splice(Splice(d, at, a), at + |a|, b) == Splice(d, at, a + b)
  {
    assert Splice(d, at, a)[..at + |a|] == d[..at] + a;
    assert Splice(d, at, a)[at + |a| + |b|..] == d[at + |a| + |b|..];
  }

  lemma SpliceNothing(d: Bytes, at: nat)
    requires at <= |d|
    ensures Splice(d, at, []) == d
  {
  }

  /** A stream as a value: what encoding steps are specified on. */
  datatype Mark = Mark(sizing: bool, data: Bytes, state: nat, written: nat, max: nat) {
    predicate Valid() {
      !sizing ==> written <= max && state + (max - written) <= |data|
    }

    predicate Room(count: nat) {
      sizing || written + count <= max
    }

    /** Exactly `b` was counted and, in a buffer, written at the cursor; the rest of the
        buffer is as it was. */
    predicate Grew(b: Bytes, m: Mark)
      requires Valid() && Room(|b|)
    {
      && m.sizing == sizing && m.max == max && m.written == written + |b|
      && if sizing then m.data == data && m.state == state
         else m.state == state + |b| && m.data == Splice(data, state, b)
    }

    /** The contract of every encoding step: it succeeds iff there is an encoding and it
        fits, and then writes exactly that. */
    predicate Encoded(ok: bool, e: Option<Bytes>, m: Mark)
      requires Valid()
    {
      && m.Valid() && m.sizing == sizing && m.max == max && |m.data| == |data|
      && ok == (e.Some? && Room(|e.value|))
      && (ok ==> Grew(e.value, m))
    }
  }

  lemma GrewThen(m0: Mark, a: Bytes, m1: Mark, b: Bytes, m2: Mark)
    requires m0.Valid() && m0.Room(|a|) && m0.Grew(a, m1) && m1.Valid() && m1.Room(|b|) && m1.Grew(b, m2)
    ensures m0.Room(|a + b|) && m0.Grew(a + b, m2)
  {
    if !m0.sizing {
      SpliceTwice(m0.data, m0.state, a, b);
    }
  }

  lemma Counted(m: Mark, b: Bytes, m': Mark)
    requires m.sizing && m' == m.(written := m.written + |b|)
    ensures m.Valid() && m.Room(|b|) && m.Grew(b, m')
  {
  }

  lemma GrewNothing(m: Mark)
    requires m.Valid()
    ensures m.Room(0) && m.Grew([], m)
  {
    if !m.sizing {
      SpliceNothing(m.data, m.state);
    }
  }

  /** One more septet, with the top bit set for now. */
  lemma OneSeptet(value: nat, done: Bytes, v: nat)
    requires 0 < v && Varint64(value) == done + Varint64(v)
    ensures var d := v % 128;
            && Septets(v) == 1 + Septets(v / 128)
            && (v / 128 > 0 ==> Varint64(value) == done + [d + 128] + Varint64(v / 128))
            && (v / 128 == 0 ==> Varint64(value) == done + [d])
  {
    if v / 128 > 0 {
      assert done + ([v % 128 + 128] + Varint64(v / 128)) == done + [v % 128 + 128] + Varint64(v / 128);
    }
  }

  /** The loop of pb_encode_varint: septets with the top bit set, cleared on the last. */
  method FillVarint(value: nat) returns (buffer: array<byte>, i: nat)
    requires 0 < value < TWO_64
    ensures fresh(buffer) && i <= buffer.Length == 10 && buffer[..i] == Varint64(value)
  {
    buffer := new byte[10];
    var v: nat;
    i, v := 0, value;
    SeptetsBound(value);
    assert [] + Varint64(value) == Varint64(value);
    hide Septets, Varint64;
    while v != 0
      invariant i + Septets(v) <= 10 && (v == value > 0 || i > 0)
      invariant v > 0 ==> Varint64(value) == buffer[..i] + Varint64(v)
      invariant v == 0 ==> buffer[i - 1] >= 128 && Varint64(value) == buffer[..i - 1] + [buffer[i - 1] - 128]
      decreases v
    {
      ghost var done := buffer[..i];
      OneSeptet(value, done, v);
      buffer[i] := v % 128 + 128;
      assert buffer[..i] == done && buffer[..i + 1] == done + [buffer[i]];
      v := v / 128;
      i := i + 1;
    }
    buffer[i - 1] := buffer[i - 1] - 128;
    assert buffer[..i] == buffer[..i - 1] + [buffer[i - 1]];
  }

  /** `dest == null` is a sizing stream, which counts and writes nothing. */
  class OStream {
    const dest: array?<byte>
    const maxSize: nat
    var state: nat
    var bytesWritten: nat

    function Buffer(): set<object> {
      if dest == null then {} else {dest}
    }

    function Here(): (m: Mark)
      reads this, Buffer()
    {
      Mark(dest == null, if dest == null then [] else dest[..], state, bytesWritten, maxSize)
    }

    predicate Valid()
      reads this, Buffer()
    {
      Here().Valid()
    }

    constructor Sizing()
      ensures Valid() && dest == null && bytesWritten == 0
    {
      dest, maxSize, state, bytesWritten := null, 0, 0, 0;
    }

    constructor FromBuffer(buf: array<byte>)
      ensures Valid() && dest == buf && maxSize == buf.Length && state == 0 && bytesWritten == 0
    {
      dest, maxSize, state, bytesWritten := buf, buf.Length, 0, 0;
    }

    constructor Substream(stream: OStream, size: nat)
      requires stream.dest != null && stream.Valid() && stream.bytesWritten + size <= stream.maxSize
      ensures Valid() && dest == stream.dest && maxSize == size && state == stream.state && bytesWritten == 0
    {
      dest, maxSize, state, bytesWritten := stream.dest, size, stream.state, 0;
    }

    /** buf_write. */
    method BufWrite(buf: Bytes)
      requires dest != null && state + |buf| <= dest.Length
      modifies this, Buffer()
      ensures state == old(state) + |buf| && bytesWritten == old(bytesWritten)
      ensures dest[..] == Splice(old(dest[..]), old(state), buf)
    {
      ghost var was := dest[..];
      for i := 0 to |buf|
        invariant dest[..] == was[..state] + buf[..i] + was[state + i..]
        modifies dest
      {
        dest[state + i] := buf[i];
      }
      state := state + |buf|;
    }

    method Write(buf: Bytes) returns (ok: bool)
      requires Valid()
      modifies this, Buffer()
      ensures old(Here()).Encoded(ok, Some(buf), Here())
    {
      if dest != null {
        if bytesWritten + |buf| > maxSize {
          return false;
        }
        BufWrite(buf);
      }
      bytesWritten := bytesWritten + |buf|;
      return true;
    }

    /** pb_write of nothing but a length, on a sizing stream. */
    method Count(size: nat)
      requires Valid() && dest == null
      modifies this
      ensures Valid() && state == old(state) && bytesWritten == old(bytesWritten) + size
    {
      bytesWritten := bytesWritten + size;
    }

    method EncodeVarint(value: nat) returns (ok: bool)
      requires Valid() && value < TWO_64
      modifies this, Buffer()
      ensures old(Here()).Encoded(ok, Some(Varint64(value)), Here())
    {
      if value <= 0x7F {
        ok := Write([value]);
        return;
      }
      var buffer, n := FillVarint(value);
      ok := Write(buffer[..n]);
    }

    method EncodeTag(wireType: nat, number: nat) returns (ok: bool)
      requires Valid() && 8 * number + wireType < TWO_64
      modifies this, Buffer()
      ensures old(Here()).Encoded(ok, Some(Tag(number, wireType)), Here())
    {
      ok := EncodeVarint(8 * number + wireType);
    }

    method EncodeTagForField(f: Field) returns (ok: bool)
      requires Valid() && SoundField(f)
      modifies this, Buffer()
      ensures old(Here()).Encoded(ok, Some(FieldTag(f)), Here())
    {
      ok := EncodeTag(WireType(f.ty), f.tag);
    }

    method EncodeString(b: Bytes) returns (ok: bool)
      requires Valid()
      modifies this, Buffer()
      ensures old(Here()).Encoded(ok, Some(Str(b)), Here())
    {
      hide Mark.Grew, Varint64;
      ghost var m0 := Here();
      ok := EncodeVarint(|b| % TWO_64);
      if ok {
        ghost var m1 := Here();
        ok := Write(b);
        RoomThen(m0, Varint64(|b| % TWO_64), m1, |b|);
        if ok {
          GrewThen(m0, Varint64(|b| % TWO_64), m1, b, Here());
        }
      }
    }

    method EncodeScalar(ty: Ty, v: Val) returns (ok: bool)
      requires Valid() && Packable(ty) && SoundTy(ty) && HasType(ty, v)
      modifies this, Buffer()
      ensures old(Here()).Encoded(ok, Some(Scalar(ty, v)), Here())
    {
      match ty
      case Varint(_) => ok := EncodeVarint(Unsigned64(v.n));
      case Uvarint(_) => ok := EncodeVarint(v.n);
      case Svarint(_) => ok := EncodeVarint(ZigZag(v.n));
      case Fixed32 => ok := Write(LittleEndian(v.n, 4));
      case Fixed64 => ok := Write(LittleEndian(v.n, 8));
    }

    // Values, fields and messages.

    method EncodeValue(ty: Ty, v: Val) returns (ok: bool)
      requires Valid() && SoundTy(ty) && HasType(ty, v)
      modifies this, Buffer()
      ensures old(Here()).Encoded(ok, Value(ty, v), Here())
      decreases ty, 0
    {
      match ty
      case BytesArray(capacity) =>
        if |v.bytes| > capacity {
          return false;
        }
        ok := EncodeString(v.bytes);
      case Text(_) | FixedBytes(_) => ok := EncodeString(v.bytes);
      case Submessage(fields) =>
        assert Sound(fields) && Typed(fields, v.cells);
        ok := EncodeSubmessage(fields, v.cells);
      case _ => ok := EncodeScalar(ty, v);
    }

    /** The size comes from a sizing pass over the same struct, so the writing pass into a
        substream of that size always ends exactly there: "submsg size changed" cannot be
        reported. */
    method EncodeSubmessage(fields: seq<Field>, cells: seq<Cell>) returns (ok: bool)
      requires Valid() && Sound(fields) && Typed(fields, cells)
      modifies this, Buffer()
      ensures old(Here()).Encoded(ok, Delimited(Message(fields, cells)), Here())
      decreases fields, |fields| + 2
    {
      ghost var m0, e := Here(), Message(fields, cells);
      var substream := new OStream.Sizing();
      ok := substream.Encode(fields, cells);
      if !ok {
        return;
      }
      var size := substream.bytesWritten;
      assert e.Some? && size == |e.value|;
      ok := EncodeVarint(size % TWO_64);
      if !ok {
        return;
      }
      ghost var m1 := Here();
      RoomThen(m0, Varint64(size % TWO_64), m1, size);
      if dest == null {
        Count(size);
        return true;
      }
      if bytesWritten + size > maxSize {
        return false;
      }
      substream := new OStream.Substream(this, size);
      ghost var s1 := substream.Here();
      ok := substream.Encode(fields, cells);
      bytesWritten := bytesWritten + substream.bytesWritten;
      state := substream.state;
      assert ok && substream.bytesWritten == size;
      GrewThen(m0, Varint64(size % TWO_64), m1, e.value, Here());
    }

    method Encode(fields: seq<Field>, cells: seq<Cell>) returns (ok: bool)
      requires Valid() && Sound(fields) && Typed(fields, cells)
      modifies this, Buffer()
      ensures old(Here()).Encoded(ok, Message(fields, cells), Here())
      decreases fields, |fields| + 1
    {
      GrewNothing(Here());
      var iter := new PbCommon.FieldIter(fields);
      var more := iter.Begin();
      if !more {
        return true;
      }
      hide FieldOf, Mark.Grew;
      ghost var m0, i: nat, done: Bytes := Here(), 0, [];
      assert From(fields, cells, 0) == Message(fields, cells);
      JoinNothing(From(fields, cells, 0));
      hide Message;
      while more
        invariant iter.Valid() && iter.fields == fields && i <= |fields|
                  && (if more then iter.pos == i < |fields| else i == |fields|)
        invariant Valid() && m0.Valid() && m0.Room(|done|) && m0.Grew(done, Here())
        invariant Message(fields, cells) == Join(Some(done), From(fields, cells, i))
        decreases |fields| - i
      {
        ghost var m1 := Here();
        assert SoundField(fields[i]) && CellTyped(fields[i], cells[i]);
        ghost var e := FieldOf(fields[i], cells[i]);
        JoinMoves(done, e, From(fields, cells, i + 1));
        RoomForAll(m0, done, m1, e);
        ok := EncodeField(fields[iter.pos], cells[iter.pos]);
        if !ok {
          return;
        }
        GrewThen(m0, done, m1, e.value, Here());
        done := done + e.value;
        i := i + 1;
        more := iter.Next();
      }
      JoinNothing(Some(done));
      return true;
    }

    /** encode_basic_field. */
    method EncodeField(f: Field, c: Cell) returns (ok: bool)
      requires Valid() && SoundField(f) && CellTyped(f, c)
      modifies this, Buffer()
      ensures old(Here()).Encoded(ok, FieldOf(f, c), Here())
      decreases f, 2
    {
      GrewNothing(Here());
      match f.rule
      case Required => ok := EncodeTagged(f, c.v);
      case Singular =>
        var implicitHas := CheckDefault(f, c);
        implicitHas := !implicitHas;
        if implicitHas {
          ok := EncodeTagged(f, c.v);
        } else {
          ok := true;
        }
      case Optional | OneOf(_) =>
        if c.o.Some? {
          ok := EncodeTagged(f, c.o.value);
        } else {
          ok := true;
        }
      case Repeated(_) => ok := EncodeArray(f, c);
    }

    method EncodeTagged(f: Field, v: Val) returns (ok: bool)
      requires Valid() && SoundField(f) && HasType(f.ty, v)
      modifies this, Buffer()
      ensures old(Here()).Encoded(ok, Tagged(f, v), Here())
      decreases f, 0
    {
      ghost var m0 := Here();
      ok := EncodeTagForField(f);
      if ok {
        ghost var m1 := Here();
        RoomForAll(m0, FieldTag(f), m1, Value(f.ty, v));
        ok := EncodeValue(f.ty, v);
        if ok {
          GrewThen(m0, FieldTag(f), m1, Value(f.ty, v).value, Here());
        }
      }
    }

    method EncodeArray(f: Field, c: Cell) returns (ok: bool)
      requires Valid() && SoundField(f) && CellTyped(f, c) && f.rule.Repeated?
      modifies this, Buffer()
      ensures old(Here()).Encoded(ok, FieldOf(f, c), Here())
      decreases f, 1
    {
      hide Mark.Grew, Tagged;
      var items := c.items;
      GrewNothing(Here());
      if |items| == 0 {
        return true;
      }
      if |items| > f.rule.arraySize {
        return false;
      }
      if Packable(f.ty) {
        ok := EncodePacked(f, items);
        return;
      }
      ghost var m0, done: Bytes := Here(), [];
      assert items[0..] == items;
      JoinNothing(Each(f, items));
      for i := 0 to |items|
        invariant Valid() && m0.Valid() && m0.Room(|done|) && m0.Grew(done, Here())
        invariant Each(f, items) == Join(Some(done), Each(f, items[i..]))
      {
        ghost var m1, e := Here(), Tagged(f, items[i]);
        assert items[i..][0] == items[i] && items[i..][1..] == items[i + 1..];
        JoinMoves(done, e, Each(f, items[i + 1..]));
        RoomForAll(m0, done, m1, e);
        ok := EncodeTagged(f, items[i]);
        if !ok {
          return;
        }
        GrewThen(m0, done, m1, e.value, Here());
        done := done + e.value;
      }
      assert items[|items|..] == [] && Each(f, []) == Some([]);
      JoinNothing(Some(done));
      return true;
    }

    method EncodePacked(f: Field, items: seq<Val>) returns (ok: bool)
      requires Valid() && SoundField(f) && Packable(f.ty) && forall i | 0 <= i < |items| :: HasType(f.ty, items[i])
      modifies this, Buffer()
      ensures old(Here()).Encoded(ok, Some(Tag(f.tag, WT_STRING) + Str(Scalars(f.ty, items))), Here())
    {
      hide Mark.Grew, Varint64, Scalars, Tag;
      ghost var m0, a, payload := Here(), Tag(f.tag, WT_STRING), Scalars(f.ty, items);
      var size := PackedSize(f.ty, items);
      ghost var b := Varint64(size % TWO_64);
      assert a + (b + payload) == a + b + payload;
      ok := EncodeTag(WT_STRING, f.tag);
      if !ok {
        return;
      }
      ghost var m1 := Here();
      RoomThen(m0, a, m1, |b|);
      ok := EncodeVarint(size % TWO_64);
      if !ok {
        return;
      }
      ghost var m2 := Here();
      GrewThen(m0, a, m1, b, m2);
      RoomThen(m0, a + b, m2, size);
      if dest == null {
        Count(size);
        Counted(m0, a + b + payload, Here());
        return true;
      }
      ok := EncodeItems(f.ty, items);
      if ok {
        GrewThen(m0, a + b, m2, payload, Here());
      }
    }

    method EncodeItems(ty: Ty, items: seq<Val>) returns (ok: bool)
      requires Valid() && SoundTy(ty) && Packable(ty) && forall i | 0 <= i < |items| :: HasType(ty, items[i])
      modifies this, Buffer()
      ensures old(Here()).Encoded(ok, Some(Scalars(ty, items)), Here())
    {
      hide Scalar, HasType, Mark.Grew;
      ghost var m0, done: Bytes := Here(), [];
      GrewNothing(m0);
      assert items[0..] == items;
      for i := 0 to |items|
        invariant Valid() && m0.Valid() && m0.Room(|done|) && m0.Grew(done, Here())
        invariant Scalars(ty, items) == done + Scalars(ty, items[i..])
      {
        ghost var m1, e, rest := Here(), Scalar(ty, items[i]), Scalars(ty, items[i + 1..]);
        assert items[i..][0] == items[i] && items[i..][1..] == items[i + 1..];
        assert done + (e + rest) == done + e + rest;
        RoomThen(m0, done, m1, |e|);
        ok := EncodeScalar(ty, items[i]);
        if !ok {
          return;
        }
        GrewThen(m0, done, m1, e, Here());
        done := done + e;
      }
      assert items[|items|..] == [] && Scalars(ty, []) == [] && done + [] == done;
      return true;
    }

    /** pb_check_proto3_default_value. */
    method CheckDefault(f: Field, c: Cell) returns (r: bool)
      requires SoundField(f) && CellTyped(f, c)
      ensures r == IsDefault(f, c)
      ensures r <==> c == InitialCell(f) && !NeverDefault(f)
      decreases f
    {
      DefaultExactly(f, c);
      match f.rule
      case Required => return false;
      case Repeated(_) => return c.items == [];
      case OneOf(_) => return c.o.None?;
      case Optional => return c.o.None?;
      case Singular => r := CheckDefaultVal(f.ty, c.v);
    }

    method CheckDefaultVal(ty: Ty, v: Val) returns (r: bool)
      requires SoundTy(ty) && HasType(ty, v)
      ensures r == IsDefaultVal(ty, v)
      decreases ty
    {
      match ty
      case BytesArray(_) | Text(_) => return v.bytes == [];
      case FixedBytes(n) => return n == 0;
      case Submessage(fields) =>
        assert Typed(fields, v.cells) && Sound(fields);
        for i := 0 to |fields|
          invariant forall j | 0 <= j < i :: CellTyped(fields[j], v.cells[j]) && IsDefault(fields[j], v.cells[j])
        {
          var isDefault := CheckDefault(fields[i], v.cells[i]);
          if !isDefault {
            return false;
          }
        }
        return true;
      case _ => return v.n == 0;
    }
  }

  method GetEncodedSize(fields: seq<Field>, cells: seq<Cell>) returns (ok: bool, size: nat)
    requires Sound(fields) && Typed(fields, cells)
    ensures ok == Message(fields, cells).Some? && (ok ==> size == |Message(fields, cells).value|)
  {
    var stream := new OStream.Sizing();
    ok := stream.Encode(fields, cells);
    return ok, stream.bytesWritten;
  }

  /** The two passes agree: writing into `capacity` bytes succeeds iff sizing succeeds with
      no more than that, and writes exactly the bytes the sizing pass counted. */
  lemma SizingAndWritingAgree(e: Option<Bytes>, sizing: Mark, sized: bool, sizing': Mark, writing: Mark, wrote: bool,
      writing': Mark)
    requires sizing == Mark(true, [], 0, 0, 0) && sizing.Encoded(sized, e, sizing')
    requires !writing.sizing && writing.state == writing.written == 0 && writing.max == |writing.data|
    requires writing.Encoded(wrote, e, writing')
    ensures wrote <==> sized && sizing'.written <= writing.max
    ensures wrote ==> writing'.written == writing'.state == sizing'.written
    ensures wrote ==> writing'.data[..sizing'.written] == e.value
    ensures wrote ==> writing'.data[sizing'.written..] == writing.data[sizing'.written..]
  {
  }

  /** Sizing a message and then writing it into a buffer: the second succeeds iff the first does
      with no more than the buffer holds, and writes as many bytes as the first counted. */
  method SizeThenWrite(fields: seq<Field>, cells: seq<Cell>, buf: array<byte>)
    returns (sized: bool, size: nat, wrote: bool, written: nat)
    requires Sound(fields) && Typed(fields, cells)
    modifies buf
    ensures sized <==> Message(fields, cells).Some?
    ensures wrote <==> sized && size <= buf.Length
    ensures wrote ==> written == size && Message(fields, cells) == Some(buf[..size]) && buf[size..] == old(buf[size..])
  {
    sized, size := GetEncodedSize(fields, cells);
    var stream := new OStream.FromBuffer(buf);
    ghost var writing := stream.Here();
    wrote := stream.Encode(fields, cells);
    written := stream.bytesWritten;
    SizingAndWritingAgree(Message(fields, cells), Mark(true, [], 0, 0, 0), sized, Mark(true, [], 0, size, 0),
                          writing, wrote, stream.Here());
  }

  /** The payload of a packed array, by arithmetic or by a sizing pass. */
  method PackedSize(ty: Ty, items: seq<Val>) returns (size: nat)
    requires SoundTy(ty) && Packable(ty) && forall i | 0 <= i < |items| :: HasType(ty, items[i])
    ensures size == |Scalars(ty, items)|
  {
    if ty.Fixed32? || ty.Fixed64? {
      FixedSize(ty, items);
      return (if ty.Fixed32? then 4 else 8) * |items|;
    }
    var sizestream := new OStream.Sizing();
    var _ := sizestream.EncodeItems(ty, items);
    return sizestream.bytesWritten;
  }

  lemma {:induction false} FixedSize(ty: Ty, items: seq<Val>)
    requires ty.Fixed32? || ty.Fixed64?
    requires forall i | 0 <= i < |items| :: HasType(ty, items[i])
    ensures |Scalars(ty, items)| == (if ty.Fixed32? then 4 else 8) * |items|
    decreases |items|
  {
    if items != [] {
      FixedSize(ty, items[1..]);
    }
  }

  function Delimited(e: Option<Bytes>): Option<Bytes> {
    if e.Some? then Some(Str(e.value)) else None
  }

  lemma JoinMoves(done: Bytes, e: Option<Bytes>, rest: Option<Bytes>)
    ensures Join(Some(done), Join(e, rest)) == if e.Some? then Join(Some(done + e.value), rest) else None
  {
    if e.Some? && rest.Some? {
      assert done + (e.value + rest.value) == done + e.value + rest.value;
    }
  }

  lemma JoinNothing(e: Option<Bytes>)
    ensures Join(Some([]), e) == e && Join(e, Some([])) == e
  {
    if e.Some? {
      assert [] + e.value == e.value && e.value + [] == e.value;
    }
  }

  lemma RoomForAll(m0: Mark, done: Bytes, m1: Mark, e: Option<Bytes>)
    requires m0.Valid() && m0.Room(|done|) && m0.Grew(done, m1)
    ensures e.Some? ==> (m1.Room(|e.value|) <==> m0.Room(|done + e.value|))
  {
  }

  lemma RoomThen(m0: Mark, a: Bytes, m1: Mark, count: nat)
    requires m0.Valid() && m0.Room(|a|) && m0.Grew(a, m1)
    ensures m1.Room(count) <==> m0.Room(|a| + count)
  {
  }

  lemma SeptetsBound(n: nat)
    requires n < TWO_64
    ensures Septets(n) <= 10
  {
    assert TWO_64 == Bits.Pow2(64) <= Bits.Pow2(70) by {
      Bits.WordSizes();
      Bits.Pow2Monotone(64, 70);
    }
    SeptetsBelow(n, 10);
  }

  lemma {:induction false} SeptetsBelow(n: nat, k: nat)
    requires n < Bits.Pow2(7 * k)
    ensures Septets(n) <= k
    decreases k
  {
    if n > 0 {
      assert Bits.Pow2(7 * k) == 128 * Bits.Pow2(7 * (k - 1)) by {
        Bits.Pow2Adds(7, 7 * (k - 1));
        Bits.WordSizes();
      }
      SeptetsBelow(n / 128, k - 1);
    }
  }
}
