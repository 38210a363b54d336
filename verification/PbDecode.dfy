/** The decoder over a buffer stream, with its cursor, substreams and loops (pb_decode.c). */
module PbDecode {
  import opened Basics
  import opened PbTypes
  import opened PbDecoding
  import PbCommon
  import PbSafety
  import Bits

  /** A length was read and that much is there. */
  predicate Delimited(n: Got<nat>) {
    n.Got? && n.v <= |n.rest|
  }

  class IStream {
    const data: Bytes
    var state: nat
    var bytesLeft: nat

    predicate Valid()
      reads this
    {
      state + bytesLeft <= |data|
    }

    function Rest(): (r: Bytes)
      requires Valid()
      reads this
      ensures |r| == bytesLeft
    {
      data[state..state + bytesLeft]
    }

    /** Where the stream ends in the buffer. */
    function End(): nat
      reads this
    {
      state + bytesLeft
    }

    constructor FromBuffer(buf: Bytes)
      ensures Valid() && Rest() == buf && data == buf
    {
      data, state, bytesLeft := buf, 0, |buf|;
    }

    constructor Copy(stream: IStream)
      requires stream.Valid()
      ensures Valid() && data == stream.data && state == stream.state && bytesLeft == stream.bytesLeft
    {
      data, state, bytesLeft := stream.data, stream.state, stream.bytesLeft;
    }

    /** pb_read, into a buffer or to skip. */
    method Read(count: nat) returns (ok: bool, bytes: Bytes)
      requires Valid()
      modifies this
      ensures Valid() && End() == old(End())
      ensures ok <==> count <= old(bytesLeft)
      ensures ok ==> bytes == old(Rest())[..count] && Rest() == old(Rest())[count..]
      ensures !ok ==> bytesLeft == old(bytesLeft)
    {
      if bytesLeft < count {
        return false, [];
      }
      bytes := data[state..state + count];
      state, bytesLeft := state + count, bytesLeft - count;
      return true, bytes;
    }

    method ReadByte() returns (ok: bool, b: byte)
      requires Valid()
      modifies this
      ensures Valid() && End() == old(End())
      ensures ok <==> old(bytesLeft) > 0
      ensures ok ==> b == old(Rest())[0] && Rest() == old(Rest())[1..]
      ensures !ok ==> bytesLeft == old(bytesLeft)
    {
      if bytesLeft == 0 {
        return false, 0;
      }
      b := data[state];
      state, bytesLeft := state + 1, bytesLeft - 1;
      return true, b;
    }

    method DecodeVarint() returns (ok: bool, value: nat)
      requires Valid()
      modifies this
      ensures Valid() && End() == old(End())
      ensures var g := ReadVarint64(old(Rest())); ok == g.Got? && (ok ==> value == g.v && Rest() == g.rest)
    {
      var bitpos: nat, result: nat, more := 0, 0, true;
      assert Bits.Pow2(64) == TWO_64 by { Bits.WordSizes(); }
      hide Bits.Pow2, OrShifted;
      while more
        invariant Valid() && End() == old(End()) && result < TWO_64
        invariant ReadVarint64(old(Rest())) == if more then Varint64From(Rest(), bitpos, result)
                  else Got(result, Rest())
        decreases more, bytesLeft
      {
        if bitpos >= 64 {
          return false, 0;
        }
        var got, b := ReadByte();
        if !got {
          return false, 0;
        }
        result := OrShifted(result, b % 128, bitpos, 64);
        bitpos := bitpos + 7;
        more := b >= 128;
      }
      return true, result;
    }

    method DecodeVarint32Eof() returns (ok: bool, value: nat, eof: bool)
      requires Valid()
      modifies this
      ensures Valid() && End() == old(End())
      ensures var g := ReadVarint32(old(Rest())); ok == g.Got? && (ok ==> value == g.v && Rest() == g.rest)
      ensures eof <==> old(bytesLeft) == 0
    {
      var got, b := ReadByte();
      if !got {
        return false, 0, true;
      }
      if b < 128 {
        return true, b, false;
      }
      var bitpos: nat, result: nat, more := 7, b % 128, true;
      assert Bits.Pow2(32) == TWO_32 by { Bits.WordSizes(); }
      hide Bits.Pow2, OrShifted;
      while more
        invariant Valid() && End() == old(End()) && result < TWO_32 && bitpos < 256
        invariant ReadVarint32(old(Rest())) ==
          if more then Varint32From(Rest(), bitpos, result)
          else if bitpos == 35 && b / 16 % 8 != 0 then Fail else Got(result, Rest())
        decreases more, bytesLeft
      {
        got, b := ReadByte();
        if !got {
          return false, 0, false;
        }
        if bitpos >= 32 {
          var signExtension := if bitpos < 63 then 0xFF else 0x01;
          if b % 128 != 0 && (result < 0x8000_0000 || b != signExtension) {
            return false, 0, false;
          }
        } else {
          result := OrShifted(result, b % 128, bitpos, 32);
        }
        bitpos := (bitpos + 7) % 256;
        more := b >= 128;
      }
      if bitpos == 35 && b / 16 % 8 != 0 {
        return false, 0, false;
      }
      return true, result, false;
    }

    method DecodeTag() returns (ok: bool, tag: nat, wireType: nat, eof: bool)
      requires Valid()
      modifies this
      ensures Valid() && End() == old(End())
      ensures match ReadTag(old(Rest()))
              case BadTag => !ok && (eof <==> old(bytesLeft) == 0)
              case EndOfMessage(rest) => !ok && eof && Rest() == rest
              case GotTag(t, w, rest) => ok && tag == t && wireType == w && Rest() == rest
    {
      var temp;
      ok, temp, eof := DecodeVarint32Eof();
      tag, wireType := 0, 0;
      if !ok {
        return;
      }
      if temp == 0 {
        return false, 0, 0, true;
      }
      return true, temp / 8, temp % 8, eof;
    }

    method Skip(count: nat) returns (ok: bool)
      requires Valid()
      modifies this
      ensures Valid() && End() == old(End())
      ensures var g := SkipBytes(old(Rest()), count); ok == g.Got? && (ok ==> Rest() == g.rest)
    {
      var bytes;
      ok, bytes := Read(count);
    }

    method SkipVarintBytes() returns (ok: bool)
      requires Valid()
      modifies this
      ensures Valid() && End() == old(End())
      ensures var g := SkipVarint(old(Rest())); ok == g.Got? && (ok ==> Rest() == g.rest)
    {
      var more := true;
      while more
        invariant Valid() && End() == old(End())
        invariant SkipVarint(old(Rest())) == if more then SkipVarint(Rest()) else Got((), Rest())
        decreases more, bytesLeft
      {
        var got, bytes := Read(1);
        if !got {
          return false;
        }
        more := bytes[0] >= 128;
      }
      return true;
    }

    method SkipUnknown(wireType: nat) returns (ok: bool)
      requires Valid()
      modifies this
      ensures Valid() && End() == old(End())
      ensures var g := SkipField(wireType, old(Rest())); ok == g.Got? && (ok ==> Rest() == g.rest)
    {
      match wireType
      case 0 => ok := SkipVarintBytes();
      case 1 => ok := Skip(8);
      case 2 =>
        var length, eof;
        ok, length, eof := DecodeVarint32Eof();
        if ok {
          ok := Skip(length);
        }
      case 5 => ok := Skip(4);
      case _ => ok := false;
    }

    /** pb_make_string_substream: the substream has the payload, this stream what follows
        it, but its cursor moves only when the substream is closed. */
    method MakeSubstream() returns (ok: bool, substream: IStream)
      requires Valid()
      modifies this
      ensures Valid() && substream.Valid() && fresh(substream) && substream.data == data
      ensures ok == Delimited(ReadVarint32(old(Rest())))
      ensures End() <= old(End())
      ensures ok ==> substream.state == state && substream.End() + bytesLeft == old(End()) <= |data|
      ensures ok ==>
        var n := ReadVarint32(old(Rest()));
        && substream.Rest() == n.rest[..n.v]
        && data[substream.End()..substream.End() + bytesLeft] == n.rest[n.v..]
    {
      var size, eof;
      ok, size, eof := DecodeVarint32Eof();
      substream := new IStream.Copy(this);
      if !ok {
        return;
      }
      if substream.bytesLeft < size {
        return false, substream;
      }
      substream.bytesLeft := size;
      bytesLeft := bytesLeft - size;
    }

    method CloseSubstream(substream: IStream)
      requires substream != this && substream.data == data && substream.Valid() && substream.End() + bytesLeft <= |data|
      modifies this, substream
      ensures Valid() && bytesLeft == old(bytesLeft) && state == old(substream.End())
    {
      if substream.bytesLeft != 0 {
        var _, _ := substream.Read(substream.bytesLeft);
      }
      state := substream.state;
    }

    // Values.

    method DecodeScalar(ty: Ty) returns (ok: bool, v: Val)
      requires Valid() && Packable(ty) && SoundTy(ty)
      modifies this
      ensures Valid() && End() == old(End())
      ensures var g := ReadScalar(ty, old(Rest())); ok == g.Got? && (ok ==> v == g.v && Rest() == g.rest)
    {
      v := Num(0);
      if ty.Fixed32? || ty.Fixed64? {
        var bytes;
        ok, bytes := Read(if ty.Fixed32? then 4 else 8);
        if ok {
          v := Num(FromLittleEndian(bytes));
        }
        return;
      }
      var n;
      ok, n := DecodeVarint();
      if !ok {
        return;
      }
      match ty
      case Varint(size) =>
        var svalue := if size == 8 then Cast(8, n) else Cast(4, n);
        var clamped := Cast(size, svalue);
        ok, v := clamped == svalue, Num(svalue);
      case Uvarint(size) =>
        var clamped := n % (2 * HalfRange(size));
        ok, v := clamped == n, Num(n);
      case Svarint(size) =>
        var value := UnZigZag(n);
        var clamped := Cast(size, value);
        ok, v := clamped == value, Num(value);
    }

    /** pb_dec_bytes, pb_dec_string and pb_dec_fixed_length_bytes. */
    method DecodeBlob(ty: Ty) returns (ok: bool, v: Val)
      requires Valid() && (ty.BytesArray? || ty.Text? || ty.FixedBytes?)
      modifies this
      ensures Valid() && End() == old(End())
      ensures var g := ReadBlob(ty, old(Rest())); ok == g.Got? && (ok ==> v == g.v && Rest() == g.rest)
    {
      hide ReadVarint32, CString, AllocSize;
      v := Num(0);
      var size, eof, bytes;
      ok, size, eof := DecodeVarint32Eof();
      if !ok {
        return;
      }
      match ty
      case BytesArray(capacity) =>
        if size > PB_SIZE_MAX || size > capacity {
          return false, v;
        }
        ok, bytes := Read(size);
        v := Blob(bytes);
      case Text(capacity) =>
        var allocSize := AllocSize(size);
        if allocSize < size || allocSize > capacity {
          return false, v;
        }
        ok, bytes := Read(size);
        v := Blob(CString(bytes));
      case FixedBytes(length) =>
        if size > PB_SIZE_MAX {
          return false, v;
        }
        if size == 0 {
          return true, Blob(Zeros(length));
        }
        if size != length {
          return false, v;
        }
        ok, bytes := Read(length);
        v := Blob(bytes);
    }

    method DecodeValue(ty: Ty, prior: Val) returns (ok: bool, v: Val)
      requires Valid() && SoundTy(ty) && HasType(ty, prior)
      modifies this
      ensures Valid() && End() <= old(End()) && (ok ==> End() == old(End()))
      ensures var g := ReadVal(ty, prior, old(Rest())); ok == g.Got? && (ok ==> v == g.v && Rest() == g.rest)
      decreases bytesLeft, 0
    {
      match ty
      case BytesArray(_) | Text(_) | FixedBytes(_) => ok, v := DecodeBlob(ty);
      case Submessage(fields) =>
        var substream, cells;
        ok, substream := MakeSubstream();
        if !ok {
          return false, prior;
        }
        assert Sound(fields) && Typed(fields, prior.cells);
        ok, cells := substream.DecodeNoInit(fields, prior.cells);
        CloseSubstream(substream);
        v := if ok then Msg(cells) else prior;
      case _ => ok, v := DecodeScalar(ty);
    }

    /** decode_static_field on the field the iterator found. */
    method DecodeStaticField(fields: seq<Field>, cells: seq<Cell>, i: nat, wireType: nat) returns (ok: bool,
        r: seq<Cell>)
      requires Valid() && Sound(fields) && Typed(fields, cells) && i < |fields|
      modifies this
      ensures Valid() && End() <= old(End()) && (ok ==> End() == old(End()))
      ensures var g := ReadField(fields, cells, i, wireType, old(Rest()));
              ok == g.Got? && (ok ==> r == g.v && Rest() == g.rest)
      decreases bytesLeft, 1
    {
      var f, c, v := fields[i], cells[i], Num(0);
      assert SoundField(f) && CellTyped(f, c);
      r := cells;
      match f.rule
      case Required | Singular =>
        ok, v := DecodeValue(f.ty, c.v);
        r := cells[i := One(v)];
      case Optional =>
        InitialIsTyped(f);
        ok, v := DecodeValue(f.ty, if c.o.Some? then c.o.value else InitialVal(f));
        r := cells[i := Maybe(Some(v))];
      case Repeated(arraySize) =>
        var items := c.items;
        if wireType == 2 && Packable(f.ty) {
          ok, items := DecodePacked(f.ty, arraySize, items);
          r := cells[i := Many(items)];
        } else {
          if |items| >= arraySize {
            return false, cells;
          }
          ZeroIsTyped(f.ty);
          ok, v := DecodeValue(f.ty, Zero(f.ty));
          r := cells[i := Many(items + [v])];
        }
      case OneOf(_) =>
        ZeroIsTyped(f.ty);
        ok, v := DecodeValue(f.ty, Zero(f.ty));
        r := Choose(fields, cells, i, v);
    }

    method DecodePacked(ty: Ty, arraySize: nat, oldItems: seq<Val>) returns (ok: bool, items: seq<Val>)
      requires Valid() && Packable(ty) && SoundTy(ty)
      modifies this
      ensures Valid() && End() <= old(End()) && (ok ==> End() == old(End()))
      ensures var n := ReadVarint32(old(Rest()));
              if Delimited(n) then
                var p := ReadPacked(ty, arraySize, oldItems, n.rest[..n.v]);
                ok == p.Some? && (ok ==> items == p.value && Rest() == n.rest[n.v..])
              else !ok
    {
      items := oldItems;
      var substream, status, v;
      ok, substream := MakeSubstream();
      if !ok {
        return;
      }
      ghost var payload, end := substream.Rest(), substream.End();
      status := true;
      while substream.bytesLeft > 0 && |items| < arraySize
        modifies substream
        invariant substream.Valid() && substream.End() == end
        invariant ReadPacked(ty, arraySize, oldItems, payload)
               == if status then ReadPacked(ty, arraySize, items, substream.Rest()) else None
        decreases substream.bytesLeft, status
      {
        status, v := substream.DecodeScalar(ty);
        if !status {
          break;
        }
        items := items + [v];
      }
      if substream.bytesLeft != 0 {
        return false, items;
      }
      CloseSubstream(substream);
      ok := status;
    }

    /** One turn of pb_decode_noinit's loop: a field read or skipped (`more`), the end of the
        message (`ok`), or a failure. */
    method DecodeNext(fields: seq<Field>, cells: seq<Cell>, iter: PbCommon.FieldIter, fieldsSeen: FieldsSeen)
      returns (more: bool, ok: bool, next: seq<Cell>)
      requires Valid() && Sound(fields) && Typed(fields, cells) && bytesLeft != 0
      requires iter.Valid() && iter.fields == fields && fieldsSeen.Valid()
      requires forall k | k in fieldsSeen.seen :: k < Tracked(fields)
      modifies this, iter, fieldsSeen, fieldsSeen.words
      ensures Valid() && End() <= old(End()) && iter.Valid() && iter.fields == fields && fieldsSeen.Valid()
      ensures forall k | k in fieldsSeen.seen :: k < Tracked(fields)
      ensures more ==> End() == old(End()) && bytesLeft < old(bytesLeft) && Typed(fields, next)
      ensures !more && ok ==> End() == old(End()) && next == cells
      ensures var g := ReadFields(fields, cells, old(fieldsSeen.seen), old(Rest()));
              if more then g == ReadFields(fields, next, fieldsSeen.seen, Rest())
              else if ok then g == Finish(fields, cells, fieldsSeen.seen, Rest())
              else g.Fail?
      decreases bytesLeft, 2
    {
      hide ReadField, ReadTag, SkipField, RequiredBefore, AllSeen, Finish, FieldsSeen.Valid, PbCommon.FieldIter.Valid;
      next := cells;
      var got, tag, wireType, eof := DecodeTag();
      if !got {
        return false, eof, next;
      }
      var found := iter.Find(tag);
      if !found {
        more := SkipUnknown(wireType);
        return more, false, next;
      }
      if iter.pos == |fields| {
        // The terminator of an empty message: its data_size is no integer's.
        return false, false, next;
      }
      FoundIsFind(fields, iter.pos);
      if fields[iter.pos].rule.Required? && iter.requiredFieldIndex < PB_MAX_REQUIRED_FIELDS {
        fieldsSeen.Mark(iter.requiredFieldIndex);
        PbSafety.Tracks(fields, iter.pos);
      }
      more, next := DecodeStaticField(fields, cells, iter.pos, wireType);
      ok := false;
    }

    /** pb_decode_noinit: the main loop, then the check for missing required fields. */
    method DecodeNoInit(fields: seq<Field>, initial: seq<Cell>) returns (ok: bool, cells: seq<Cell>)
      requires Valid() && Sound(fields) && Typed(fields, initial)
      modifies this
      ensures Valid() && End() <= old(End()) && (ok ==> End() == old(End()))
      ensures var g := ReadFields(fields, initial, {}, old(Rest()));
              ok == g.Got? && (ok ==> cells == g.v && Rest() == g.rest)
      decreases bytesLeft, 3
    {
      hide ReadTag, RequiredBefore, AllSeen, ReadFields;
      cells := initial;
      var iter := new PbCommon.FieldIter(fields);
      var fieldsSeen := new FieldsSeen();
      var more := true;
      while bytesLeft != 0
        invariant Valid() && End() == old(End()) && Typed(fields, cells)
        invariant iter.Valid() && iter.fields == fields && fieldsSeen.Valid()
        invariant forall k | k in fieldsSeen.seen :: k < Tracked(fields)
        invariant ReadFields(fields, initial, {}, old(Rest())) == ReadFields(fields, cells, fieldsSeen.seen, Rest())
        decreases bytesLeft
      {
        more, ok, cells := DecodeNext(fields, cells, iter, fieldsSeen);
        if !more {
          if !ok {
            return;
          }
          break;
        }
      }
      if more {
        NothingLeft(fields, cells, fieldsSeen.seen, Rest());
      }
      ok := CheckRequired(iter, fieldsSeen);
    }
  }

  lemma NothingLeft(fields: seq<Field>, cells: seq<Cell>, seen: set<nat>, b: Bytes)
    requires Sound(fields) && Typed(fields, cells) && b == []
    ensures ReadFields(fields, cells, seen, b) == Finish(fields, cells, seen, b)
  {
  }

  /** pb_message_set_to_defaults. */
  method SetToDefaults(fields: seq<Field>) returns (cells: seq<Cell>)
    ensures cells == Defaults(fields)
  {
    cells := [];
    var iter := new PbCommon.FieldIter(fields);
    var more := iter.Begin();
    while more
      invariant iter.Valid() && iter.fields == fields && |cells| <= |fields|
      invariant cells == Defaults(fields)[..|cells|]
      invariant if more then iter.pos == |cells| < |fields| else |cells| == |fields|
      decreases |fields| - |cells|, more
    {
      cells := cells + [InitialCell(fields[iter.pos])];
      more := iter.Next();
    }
  }

  /** pb_decode: defaults first, then the fields. */
  method DecodeMessage(stream: IStream, fields: seq<Field>) returns (ok: bool, cells: seq<Cell>)
    requires stream.Valid() && Sound(fields)
    modifies stream
    ensures stream.Valid() && (ok ==> stream.End() == old(stream.End()))
    ensures var g := Decode(fields, old(stream.Rest()));
            ok == g.Got? && (ok ==> cells == g.v && stream.Rest() == g.rest)
  {
    DefaultsTyped(fields);
    cells := SetToDefaults(fields);
    ok, cells := stream.DecodeNoInit(fields, cells);
  }

  /** The uint32_t words of fields_seen; `seen` is the set they stand for. */
  class FieldsSeen {
    const words: array<nat>
    ghost var seen: set<nat>

    ghost predicate Valid()
      reads this, words
    {
      && words.Length == 2 && words[0] < TWO_32 && words[1] < TWO_32
      && (forall k | k in seen :: k < PB_MAX_REQUIRED_FIELDS)
      && (forall i, j | 0 <= i < 2 && 0 <= j < 32 :: Bits.Bit(words[i], j) <==> 32 * i + j in seen)
    }

    constructor ()
      ensures Valid() && fresh(words) && seen == {}
    {
      words := new nat[2](_ => 0);
      seen := {};
      new;
      forall j | 0 <= j < 32 ensures !Bits.Bit(0, j) {
        Bits.ZeroBits(j);
      }
    }

    method Mark(index: nat)
      requires Valid() && index < PB_MAX_REQUIRED_FIELDS
      modifies this, words
      ensures Valid() && seen == old(seen) + {index}
    {
      hide Bits.Pow2, Bits.Or, Bits.Bit;
      var tmp := Bits.Pow2(index % 32);
      var i := index / 32;
      var w := words[i];
      words[i] := Bits.Or(w, tmp);
      seen := seen + {index};
      MarkedWord(w, index % 32);
      forall j | 0 <= j < 32 ensures Bits.Bit(words[i], j) <==> 32 * i + j in seen {
        assert 32 * i + j == index <==> j == index % 32;
      }
    }

    /** Whole words against all ones, the last one against a shifted mask. */
    method HasAll(count: nat) returns (ok: bool)
      requires Valid() && count <= PB_MAX_REQUIRED_FIELDS && forall k | k in seen :: k < count
      ensures ok <==> forall k: nat | k < count :: k in seen
    {
      var allbits := TWO_32 - 1;
      assert Bits.Pow2(32) == TWO_32 by { Bits.WordSizes(); }
      hide Bits.Pow2;
      for i := 0 to count / 32
        invariant forall k: nat | k < 32 * i :: k in seen
      {
        WordFull(i, 32);
        if words[i] != allbits {
          return false;
        }
      }
      if count % 32 != 0 {
        WordFull(count / 32, count % 32);
        Bits.ShiftedOnes(count % 32, 32);
        if words[count / 32] != allbits / Bits.Pow2(32 - count % 32) {
          return false;
        }
      }
      return true;
    }

    lemma WordFull(i: nat, n: nat)
      requires Valid() && i < 2 && n <= 32 && forall k | k in seen :: k < 32 * i + n || k / 32 != i
      ensures words[i] == Bits.Pow2(n) - 1 <==> forall k: nat | 32 * i <= k < 32 * i + n :: k in seen
    {
      assert Bits.Pow2(32) == TWO_32 by { Bits.WordSizes(); }
      hide Bits.Pow2, Bits.Bit;
      Bits.LowWord(words[i], n, 32);
      Bits.AllOnes(words[i], n);
      if forall k: nat | 32 * i <= k < 32 * i + n :: k in seen {
        forall j: nat | j < n ensures Bits.Bit(words[i], j) {
          assert 32 * i + j in seen;
        }
      } else {
        var k: nat :| 32 * i <= k < 32 * i + n && k !in seen;
        assert 32 * i + (k - 32 * i) == k;
        assert !Bits.Bit(words[i], k - 32 * i);
      }
    }
  }

  lemma MarkedWord(w: nat, bit: nat)
    requires w < TWO_32 && bit < 32
    ensures Bits.Or(w, Bits.Pow2(bit)) < TWO_32
    ensures forall j: nat :: Bits.Bit(Bits.Or(w, Bits.Pow2(bit)), j) <==> Bits.Bit(w, j) || j == bit
  {
    assert TWO_32 == Bits.Pow2(32) && Bits.Pow2(bit) < TWO_32 by {
      Bits.WordSizes();
      Bits.Pow2Monotone(bit, 31);
    }
    Bits.OrBound(w, Bits.Pow2(bit), 32);
    forall j: nat ensures Bits.Bit(Bits.Or(w, Bits.Pow2(bit)), j) <==> Bits.Bit(w, j) || j == bit {
      Bits.BitOfOr(w, Bits.Pow2(bit), j);
      Bits.SingleBit(bit, j);
    }
  }

  /** Among distinct tags, the field at `i` is the one its tag finds. */
  lemma FoundIsFind(fields: seq<Field>, i: nat)
    requires Sound(fields) && i < |fields|
    ensures Find(fields, fields[i].tag) == Some(i)
  {
  }

  /** Counts the required fields by walking to the end, then compares the words. */
  method CheckRequired(iter: PbCommon.FieldIter, fieldsSeen: FieldsSeen) returns (ok: bool)
    requires iter.Valid() && fieldsSeen.Valid() && forall k | k in fieldsSeen.seen :: k < Tracked(iter.fields)
    modifies iter
    ensures ok <==> AllSeen(iter.fields, fieldsSeen.seen)
  {
    var fields := iter.fields;
    var reqFieldCount: nat, last: nat, more := iter.requiredFieldIndex, iter.pos, true;
    while more
      invariant iter.Valid() && fieldsSeen.Valid() && last <= |fields|
      invariant more ==> fields == [] || iter.pos < |fields|
      invariant reqFieldCount == RequiredBefore(fields, last)
      invariant !more ==> if fields == [] then last == 0 else last == |fields| - 1
      decreases more, |fields| - iter.pos
    {
      reqFieldCount, last := iter.requiredFieldIndex, iter.pos;
      more := iter.Next();
    }
    if fields != [] && fields[last].rule.Required? {
      reqFieldCount := reqFieldCount + 1;
    }
    if reqFieldCount > PB_MAX_REQUIRED_FIELDS {
      reqFieldCount := PB_MAX_REQUIRED_FIELDS;
    }
    assert reqFieldCount == Tracked(fields);
    ok := fieldsSeen.HasAll(reqFieldCount);
  }
}
