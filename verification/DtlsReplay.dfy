/** The replay window of section 4.1.2.6 of RFC 6347 and the opening of records (dtls_record.cc). */
module DtlsReplay {
  import opened Basics
  import opened BigEndian
  import opened DtlsWire
  import Bits

  const WINDOW_SIZE: nat := 64
  const SSL3_RT_MAX_ENCRYPTED_LENGTH: nat := 16384 + 256 + 64
  const SSL3_RT_MAX_PLAIN_LENGTH: nat := 16384
  const DTLS1_RT_HEADER_LENGTH: nat := 13
  const DTLS1_VERSION_MAJOR: nat := 0xFE

  /** DTLS1_BITMAP. `accepted` is the set the 64 bits stand for. */
  class ReplayWindow {
    var bits: nat
    var maxSeqNum: nat
    ghost var accepted: set<nat>

    ghost predicate Valid()
      reads this
    {
      && bits < TWO_64 && maxSeqNum < TWO_64
      && (forall s | s in accepted :: s <= maxSeqNum)
      && (forall k: nat | k < WINDOW_SIZE :: Bits.Bit(bits, k) <==> k <= maxSeqNum && maxSeqNum - k in accepted)
    }

    constructor ()
      ensures Valid() && accepted == {} && maxSeqNum == 0
    {
      bits, maxSeqNum, accepted := 0, 0, {};
      new;
      forall k: nat | k < WINDOW_SIZE ensures !Bits.Bit(bits, k) {
        Bits.ZeroBits(k);
      }
    }

    method Clear()
      modifies this
      ensures Valid() && accepted == {} && maxSeqNum == 0
    {
      bits, maxSeqNum, accepted := 0, 0, {};
      forall k: nat | k < WINDOW_SIZE ensures !Bits.Bit(bits, k) {
        Bits.ZeroBits(k);
      }
    }

    /** dtls1_bitmap_should_discard: seen before, or too old to tell. */
    method ShouldDiscard(seqNum: nat) returns (discard: bool)
      requires Valid()
      ensures discard <==> seqNum in accepted || seqNum + WINDOW_SIZE <= maxSeqNum
    {
      if seqNum > maxSeqNum {
        return false;
      }
      var idx := maxSeqNum - seqNum;
      return idx >= WINDOW_SIZE || Bits.Bit(bits, idx);
    }

    /** dtls1_bitmap_record: slides the window if need be. */
    method Record(seqNum: nat)
      requires Valid() && seqNum < TWO_64
      modifies this
      ensures Valid() && accepted == old(accepted) + {seqNum}
      ensures maxSeqNum == if seqNum > old(maxSeqNum) then seqNum else old(maxSeqNum)
    {
      hide Bits.Bit;
      if seqNum > maxSeqNum {
        Slide(seqNum);
      }
      var idx := maxSeqNum - seqNum;
      if idx < WINDOW_SIZE {
        SetOne(bits, idx);
        bits := Bits.Or(bits, Bits.Pow2(idx));
      }
      accepted := accepted + {seqNum};
    }

    method Slide(seqNum: nat)
      requires Valid() && maxSeqNum < seqNum < TWO_64
      modifies this`bits, this`maxSeqNum
      ensures Valid() && maxSeqNum == seqNum
    {
      hide Bits.Bit;
      var shift := seqNum - maxSeqNum;
      Shifted(bits, shift);
      if shift >= WINDOW_SIZE {
        bits := 0;
      } else {
        bits := Bits.Shl(bits, shift) % TWO_64;
      }
      maxSeqNum := seqNum;
    }
  }

  // Records.

  datatype Opened =
    | Partial
    | Dropped(consumed: nat)
    | TooLong(consumed: nat)
    | Record(kind: byte, plaintext: Bytes, consumed: nat)

  /** A record as its header frames it. */
  datatype Framed = Framed(kind: byte, version: nat, sequence: Bytes, body: Bytes, rest: Bytes)

  function Frame(b: Bytes): (r: Option<Framed>)
    ensures r.Some? ==> |r.value.sequence| == 8 && |r.value.rest| < |b|
  {
    if |b| < DTLS1_RT_HEADER_LENGTH then None
    else
      var len := FromBe(b[11..13]);
      if |b| - DTLS1_RT_HEADER_LENGTH < len || len > SSL3_RT_MAX_ENCRYPTED_LENGTH then None
      else Some(Framed(b[0], FromBe(b[1..3]), b[3..11], b[13..13 + len], b[13 + len..]))
  }

  /** What a sender puts on the wire: type, version, epoch and number, length, and the ciphertext. */
  function Printed(f: Framed): Bytes
    requires f.version < 0x1_0000 && |f.body| < 0x1_0000
  {
    [f.kind] + Be16(f.version) + f.sequence + Be16(|f.body|) + f.body + f.rest
  }

  /** Reading undoes printing, up to the length that is allowed. */
  lemma FrameTrip(f: Framed)
    requires f.version < 0x1_0000 && |f.body| < 0x1_0000 && |f.sequence| == 8
    ensures Frame(Printed(f)) == if |f.body| <= 16704 then Some(f) else None
  {
    var b := Printed(f);
    BeTrip(f.version);
    BeTrip(|f.body|);
    assert b[1..3] == Be16(f.version) && b[3..11] == f.sequence && b[11..13] == Be16(|f.body|);
    assert b[13..13 + |f.body|] == f.body && b[13 + |f.body|..] == f.rest;
  }

  /** Where everything stands in a record. */
  lemma PrintedLayout(f: Framed)
    requires f.version < 0x1_0000 && |f.body| < 0x1_0000 && |f.sequence| == 8
    ensures var b := Printed(f);
            && |b| == 13 + |f.body| + |f.rest| && b[0] == f.kind && b[3..11] == f.sequence
            && 0x100 * (b[1] as int) + b[2] == f.version && 0x100 * (b[11] as int) + b[12] == |f.body|
            && b[13..13 + |f.body|] == f.body
  {
    var b := Printed(f);
    assert b[1..3] == Be16(f.version) && b[3..11] == f.sequence && b[11..13] == Be16(|f.body|);
    assert b[13..13 + |f.body|] == f.body;
  }

  const TWO_48: nat := 0x1_0000_0000_0000

  /** The cipher's Open: record type, version, sequence and ciphertext to a plaintext. */
  type Opener = (byte, nat, Bytes, Bytes) -> Option<Bytes>

  /** All that is asked of a record apart from not being a replay. */
  predicate Acceptable(f: Framed, nullCipher: bool, recordVersion: nat, rEpoch: nat, open: Opener) {
    && (if nullCipher then f.version / 0x100 == DTLS1_VERSION_MAJOR else f.version == recordVersion)
    && FromBe(f.sequence) / TWO_48 == rEpoch
    && open(f.kind, f.version, f.sequence, f.body).Some?
    && |open(f.kind, f.version, f.sequence, f.body).value| <= SSL3_RT_MAX_PLAIN_LENGTH
  }

  class RecordReader {
    const window: ReplayWindow
    var rEpoch: nat
    var nullCipher: bool
    var recordVersion: nat
    /** How often the read keys have changed, of which `rEpoch` is the low 16 bits, and all
        records ever accepted: under which keys, and their 48-bit numbers. */
    ghost var generation: nat
    ghost var ever: set<(nat, nat)>

    ghost predicate Valid()
      reads this, window
    {
      && window.Valid() && rEpoch == generation % 0x1_0000
      && (forall p | p in ever :: p.0 <= generation)
      && (forall n: nat :: n in window.accepted <==> n / TWO_48 == rEpoch && (generation, n % TWO_48) in ever)
    }

    constructor (version: nat)
      ensures Valid() && ever == {} && generation == 0 && nullCipher && fresh(window)
    {
      window := new ReplayWindow();
      rEpoch, nullCipher, recordVersion := 0, true, version;
      generation, ever := 0, {};
    }

    /** The record under the present keys. */
    ghost function Low(f: Framed): (nat, nat)
      reads this
    {
      var number: nat := FromBe(f.sequence) % TWO_48;
      (generation, number)
    }

    /** dtls_open_record: what is accepted was never accepted before, and nothing else
        changes the record of what was. */
    method OpenRecord(input: Bytes, open: Opener) returns (r: Opened)
      requires Valid()
      modifies this`ever, window
      ensures Valid()
      ensures r.Partial? <==> input == []
      ensures r.Record? ==>
        var f := Frame(input);
        && f.Some? && r.kind == f.value.kind && Low(f.value) !in old(ever) && ever == old(ever) + {Low(f.value)}
        && open(f.value.kind, f.value.version, f.value.sequence, f.value.body) == Some(r.plaintext)
        && r.consumed == |input| - |f.value.rest|
      ensures !r.Record? ==> ever == old(ever)
      ensures r.Record? <==>
                && Frame(input).Some? && Acceptable(Frame(input).value, nullCipher, recordVersion, rEpoch, open)
                && FromBe(Frame(input).value.sequence) !in old(window.accepted)
                && old(window.maxSeqNum) < FromBe(Frame(input).value.sequence) + WINDOW_SIZE
      ensures var f := Frame(input); f.Some? && Low(f.value) in old(ever) ==> r.Dropped?
    {
      if input == [] {
        return Partial;
      }
      var f := Frame(input);
      if f.None? {
        return Dropped(|input|);
      }
      var rec := f.value;
      var versionOk := if nullCipher then rec.version / 0x100 == DTLS1_VERSION_MAJOR else rec.version == recordVersion;
      if !versionOk {
        return Dropped(|input|);
      }
      var consumed := |input| - |rec.rest|;
      var seqNum := ToU64(rec.sequence);
      EpochOnTop(rec.sequence);
      var epoch := 0x100 * rec.sequence[0] as nat + rec.sequence[1];
      var discard := window.ShouldDiscard(seqNum);
      if epoch != rEpoch || discard {
        return Dropped(consumed);
      }
      var plaintext := open(rec.kind, rec.version, rec.sequence, rec.body);
      if plaintext.None? {
        return Dropped(consumed);
      }
      if |plaintext.value| > SSL3_RT_MAX_PLAIN_LENGTH {
        return TooLong(consumed);
      }
      window.Record(seqNum);
      ever := ever + {Low(rec)};
      return Record(rec.kind, plaintext.value, consumed);
    }

    /** dtls1_set_read_state: refused while handshake data of the present epoch waits. Nothing
        accepted before is forgotten, though the 16-bit epoch may come round. */
    method SetReadState(version: nat, unprocessed: bool) returns (ok: bool)
      requires Valid()
      modifies this`rEpoch, this`nullCipher, this`recordVersion, this`generation, window
      ensures Valid() && ok == !unprocessed
      ensures ok ==> generation == old(generation) + 1 && window.accepted == {}
      ensures ok ==> !nullCipher && recordVersion == version
      ensures !ok ==> unchanged(this) && unchanged(window)
    {
      if unprocessed {
        return false;
      }
      rEpoch := (rEpoch + 1) % 0x1_0000;
      generation := generation + 1;
      nullCipher, recordVersion := false, version;
      window.Clear();
      return true;
    }
  }

  /** to_u64_be. */
  method ToU64(b: Bytes) returns (n: nat)
    requires |b| == 8
    ensures n == FromBe(b) < TWO_64
  {
    n := 0;
    for i := 0 to 8
      invariant n == FromBe(b[..i])
    {
      assert b[..i + 1][..i] == b[..i];
      n := 0x100 * n + b[i];
    }
    assert b[..8] == b;
    FromBeBound(b);
    Bits.WordSizes();
  }

  lemma {:induction false} FromBeSplit(a: Bytes, b: Bytes)
    ensures FromBe(a + b) == Bits.Shl(FromBe(a), 8 * |b|) + FromBe(b)
    decreases |b|
  {
    if b == [] {
      assert a + b == a;
    } else {
      var c := b[..|b| - 1];
      assert (a + b)[..|a + b| - 1] == a + c;
      FromBeSplit(a, c);
      ShlByte(FromBe(a), 8 * |c|);
      hide Bits.Shl;
    }
  }

  lemma ShlByte(x: nat, k: nat)
    ensures Bits.Shl(x, k + 8) == 0x100 * Bits.Shl(x, k)
  {
    Bits.Pow2Adds(8, k);
    Bits.WordSizes();
    var p := Bits.Pow2(k);
    hide Bits.Pow2;
    assert x * (0x100 * p) == 0x100 * (x * p);
  }

  /** The epoch is the top 16 bits of a record's number. */
  lemma EpochOnTop(sequence: Bytes)
    requires |sequence| == 8
    ensures FromBe(sequence) / TWO_48 == 0x100 * sequence[0] as nat + sequence[1]
  {
    var top, low := sequence[..2], sequence[2..];
    assert sequence == top + low;
    FromBeSplit(top, low);
    FromBe2(top);
    FromBeBound(low);
    assert Bits.Pow2(48) == TWO_48 by {
      Bits.Pow2Adds(16, 32);
      Bits.WordSizes();
    }
  }

  lemma Shifted(bits: nat, shift: nat)
    ensures shift >= WINDOW_SIZE ==> forall k: nat | k < WINDOW_SIZE :: !Bits.Bit(0, k)
    ensures forall k: nat | k < WINDOW_SIZE ::
              Bits.Bit(Bits.Shl(bits, shift) % TWO_64, k) <==> k >= shift && Bits.Bit(bits, k - shift)
  {
    assert Bits.Pow2(64) == TWO_64 by { Bits.WordSizes(); }
    hide Bits.Bit, Bits.Shl, Bits.Pow2;
    forall k: nat | k < WINDOW_SIZE
      ensures !Bits.Bit(0, k)
      ensures Bits.Bit(Bits.Shl(bits, shift) % TWO_64, k) <==> k >= shift && Bits.Bit(bits, k - shift)
    {
      Bits.ZeroBits(k);
      Bits.BitOfLow(Bits.Shl(bits, shift), 64, k);
      Bits.BitOfShl(bits, shift, k);
    }
  }

  lemma SetOne(bits: nat, idx: nat)
    requires bits < TWO_64 && idx < WINDOW_SIZE
    ensures Bits.Or(bits, Bits.Pow2(idx)) < TWO_64
    ensures forall k: nat :: Bits.Bit(Bits.Or(bits, Bits.Pow2(idx)), k) <==> Bits.Bit(bits, k) || k == idx
  {
    assert Bits.Pow2(64) == TWO_64 && Bits.Pow2(idx) < TWO_64 by {
      Bits.WordSizes();
      Bits.Pow2Monotone(idx, 63);
    }
    Bits.OrBound(bits, Bits.Pow2(idx), 64);
    forall k: nat ensures Bits.Bit(Bits.Or(bits, Bits.Pow2(idx)), k) <==> Bits.Bit(bits, k) || k == idx {
      Bits.BitOfOr(bits, Bits.Pow2(idx), k);
      Bits.SingleBit(idx, k);
    }
  }
}
