/** A message being reassembled in place, with its bitmask (d1_both.cc). */
module DtlsFragment {
  import opened Basics
  import opened DtlsWire
  import opened DtlsReassembly
  import Bits

  class HmFragment {
    const kind: byte
    const number: nat
    const msgLen: nat
    const data: array<byte>
    var reassembly: array?<byte>

    function Mask(): set<object>
      reads this
    {
      if reassembly == null then {} else {reassembly}
    }

    /** Position `p` of the message has come; without a bitmask everything has. */
    predicate Marked(p: nat)
      reads this, Mask()
    {
      reassembly == null || (p / 8 < reassembly.Length && Bits.Bit(reassembly[p / 8], p % 8))
    }

    predicate Shaped()
      reads this, data, Mask()
    {
      && msgLen < 0x100_0000 && number < 0x1_0000
      && data.Length == DTLS1_HM_HEADER_LENGTH + msgLen
      && data[..DTLS1_HM_HEADER_LENGTH] == Header(kind, msgLen, number, 0, msgLen)
      && (reassembly != null ==> reassembly != data && reassembly.Length == (msgLen + 7) / 8)
    }

    ghost predicate Missing()
      reads this, Mask()
    {
      exists p: nat :: p < msgLen && !Marked(p)
    }

    ghost predicate TailClear()
      reads this, Mask()
    {
      reassembly != null ==> forall p: nat | msgLen <= p < 8 * reassembly.Length :: !Marked(p)
    }

    /** A bitmask is kept exactly while something is missing, and has no bit past the end. */
    ghost predicate Valid()
      reads this, data, Mask()
    {
      && Shaped()
      && (reassembly != null ==>
          && Missing()
          && TailClear())
    }

    function AsSlot(): (s: Slot)
      requires Shaped()
      reads this, data, Mask()
      ensures s.Held? && s.kind == kind && s.number == number && |s.got| == msgLen
      ensures forall p: nat | p < msgLen :: s.got[p] == if Marked(p) then Some(data[DTLS1_HM_HEADER_LENGTH + p])
              else None
    {
      Held(kind, number, seq(msgLen, p requires 0 <= p < msgLen reads this, data, Mask() requires Shaped() =>
        if Marked(p) then Some(data[DTLS1_HM_HEADER_LENGTH + p]) else None))
    }

    /** dtls1_hm_fragment_new. */
    constructor (f: Fragment)
      requires Encodable(f)
      ensures Valid() && AsSlot() == Fresh(f) && number == f.number && msgLen == f.len
      ensures fresh(data) && (reassembly != null ==> fresh(reassembly))
    {
      kind, number, msgLen := f.kind, f.number, f.len;
      var header := Header(f.kind, f.len, f.number, 0, f.len);
      data := new byte[DTLS1_HM_HEADER_LENGTH + f.len](i => if 0 <= i < DTLS1_HM_HEADER_LENGTH then header[i] else 0);
      reassembly := null;
      new;
      assert data[..DTLS1_HM_HEADER_LENGTH] == header;
      if msgLen > 0 {
        reassembly := new byte[(msgLen + 7) / 8](_ => 0);
        forall p: nat ensures !Marked(p) {
          Bits.ZeroBits(p % 8);
        }
        assert !Marked(0);
      }
      assert AsSlot().got == Fresh(f).got;
    }

    /** reassembly[i] |= bit_range(s, e). */
    method SetBits(i: nat, s: nat, e: nat)
      requires reassembly != null && i < reassembly.Length && s <= e <= 8
      modifies reassembly
      ensures forall p: nat | p < 8 * reassembly.Length :: Marked(p) <==> old(Marked(p)) || InBits(i, s, e, p)
    {
      hide Bits.Bit, Bits.Or, Bits.Range, Bits.Pow2;
      var b, range := reassembly[i], Bits.Range(s, e);
      ByteOr(b, s, e);
      reassembly[i] := Bits.Or(b, range);
    }

    /** dtls1_hm_fragment_mark: afterwards exactly the range has been added, and the bitmask
        is dropped as soon as nothing is missing. */
    method Mark(start: nat, end: nat)
      requires Valid() && reassembly != null && start <= end <= msgLen
      modifies this`reassembly, reassembly
      ensures Valid() && (reassembly == null || reassembly == old(reassembly))
      ensures forall p: nat | p < msgLen :: Marked(p) <==> old(Marked(p)) || start <= p < end
    {
      hide Bits.Bit;
      if start == end {
        return;
      }
      MarkBits(start, end);
      EndsClear(end);
      var full := IsFull();
      if full {
        forall p: nat | p < msgLen ensures old(Marked(p)) || start <= p < end {
          assert Marked(p);
        }
        reassembly := null;
      }
    }

    twostate lemma EndsClear(end: nat)
      requires old(Valid()) && old(reassembly) != null && reassembly == old(reassembly) && end <= msgLen
      requires forall p: nat | end <= p < 8 * reassembly.Length :: Marked(p) <==> old(Marked(p))
      ensures TailClear()
    {
    }

    method MarkBits(start: nat, end: nat)
      requires reassembly != null && start < end <= 8 * reassembly.Length
      modifies reassembly
      ensures forall p: nat | p < 8 * reassembly.Length :: Marked(p) <==> old(Marked(p)) || start <= p < end
    {
      forall p: nat ensures Together(start, end, p) <==> start <= p < end {
        RangeInPieces(start, end, p);
      }
      hide InBits, InBytes;
      if start / 8 == end / 8 {
        SetBits(start / 8, start % 8, end % 8);
      } else {
        SetBits(start / 8, start % 8, 8);
        SetBytes(start / 8 + 1, end / 8);
        if end % 8 != 0 {
          SetBits(end / 8, 0, end % 8);
        }
      }
    }

    method SetBytes(from: nat, to: nat)
      requires reassembly != null && from <= to <= reassembly.Length
      modifies reassembly
      ensures forall p: nat | p < 8 * reassembly.Length :: Marked(p) <==> old(Marked(p)) || InBytes(from, to, p)
    {
      for i := from to to
        invariant forall p: nat | p < 8 * reassembly.Length :: Marked(p) <==> old(Marked(p)) || InBytes(from, i, p)
      {
        FullByte();
        reassembly[i] := 0xff;
      }
    }

    /** The loop over whole bytes, then the rest of the last one. */
    method IsFull() returns (full: bool)
      requires Shaped() && reassembly != null && TailClear()
      ensures full ==> forall p: nat | p < msgLen :: Marked(p)
      ensures !full ==> Valid() && Missing()
    {
      for i := 0 to msgLen / 8
        invariant Shaped() && TailClear() && forall p: nat | p < 8 * i :: Marked(p)
      {
        FirstBits(i, 8);
        if reassembly[i] != 0xff {
          return false;
        }
      }
      LastByte(msgLen);
      if msgLen % 8 != 0 {
        FirstBits(msgLen / 8, msgLen % 8);
        if reassembly[msgLen / 8] != Bits.Range(0, msgLen % 8) {
          return false;
        }
      }
      return true;
    }

    /** The body of the fragment is copied in, then its range is marked. */
    method Store(off: nat, body: Bytes)
      requires Valid() && reassembly != null && off + |body| <= msgLen
      modifies this`reassembly, reassembly, data
      ensures Valid() && (reassembly == null || reassembly == old(reassembly))
      ensures var was := old(AsSlot()); was.Held? && AsSlot() == was.(got := Overlay(was.got, off, body))
    {
      CopyBody(off, body);
      Mark(off, off + |body|);
      var got, want := AsSlot().got, Overlay(old(AsSlot()).got, off, body);
      forall p: nat | p < msgLen ensures got[p] == want[p] {
        assert data[DTLS1_HM_HEADER_LENGTH + p]
          == Pasted(old(data[..]), DTLS1_HM_HEADER_LENGTH + off, body, DTLS1_HM_HEADER_LENGTH + p);
      }
    }

    method CopyBody(off: nat, body: Bytes)
      requires Valid() && reassembly != null && off + |body| <= msgLen
      modifies data
      ensures Valid()
      ensures forall p: nat | p < msgLen :: Marked(p) <==> old(Marked(p))
      ensures forall q | 0 <= q < data.Length :: data[q] == Pasted(old(data[..]), DTLS1_HM_HEADER_LENGTH + off, body, q)
    {
      for i := 0 to |body|
        invariant forall q | 0 <= q < data.Length ::
                    data[q] == Pasted(old(data[..]), DTLS1_HM_HEADER_LENGTH + off, body[..i], q)
      {
        data[DTLS1_HM_HEADER_LENGTH + off + i] := body[i];
      }
      assert body[..|body|] == body;
      assert data[..DTLS1_HM_HEADER_LENGTH] == old(data[..DTLS1_HM_HEADER_LENGTH]);
      SameMask();
    }

    /** What only writes the data leaves the bitmask's verdict alone. */
    twostate lemma SameMask()
      requires old(Valid()) && Shaped() && reassembly == old(reassembly)
      requires reassembly != null ==> reassembly[..] == old(reassembly[..])
      ensures Valid() && forall p: nat :: Marked(p) <==> old(Marked(p))
    {
      hide Bits.Bit;
      forall p: nat ensures Marked(p) <==> old(Marked(p)) {
        if reassembly != null && p / 8 < reassembly.Length {
          assert reassembly[..][p / 8] == old(reassembly[..])[p / 8];
        }
      }
      if reassembly != null {
        var p: nat :| p < msgLen && !old(Marked(p));
        assert !Marked(p);
        assert TailClear();
      }
    }

    lemma CompleteIffUnmasked()
      requires Valid()
      ensures AsSlot().Complete() <==> reassembly == null
    {
      if reassembly != null {
        var p: nat :| p < msgLen && !Marked(p);
        assert AsSlot().got[p] == None;
      }
    }

    /** A complete message's buffer is its serialised form. */
    lemma RawIsData()
      requires Valid() && reassembly == null
      ensures AsSlot().Complete() && data[..] == AsSlot().Raw()
    {
      var raw := AsSlot().Raw();
      assert raw == Header(kind, msgLen, number, 0, msgLen) + Received(AsSlot().got);
      assert data[DTLS1_HM_HEADER_LENGTH..] == Received(AsSlot().got);
      assert data[..] == data[..DTLS1_HM_HEADER_LENGTH] + data[DTLS1_HM_HEADER_LENGTH..];
    }

    /** A byte without bits from n up is 2^n - 1 iff its first n positions are marked. */
    lemma FirstBits(i: nat, n: nat)
      requires reassembly != null && i < reassembly.Length && 0 < n <= 8
      requires n == 8 || (8 * i + n == msgLen && i + 1 == reassembly.Length && TailClear())
      ensures reassembly[i] == Bits.Range(0, n) <==> forall p: nat | 8 * i <= p < 8 * i + n :: Marked(p)
      ensures Bits.Range(0, 8) == 0xff
    {
      assert Bits.Pow2(8) == 0x100 && Bits.Pow2(0) == 1 by { Bits.WordSizes(); }
      var w := reassembly[i];
      forall j: nat | j < 8 ensures Bits.Bit(w, j) <==> Marked(8 * i + j) {
        assert (8 * i + j) / 8 == i && (8 * i + j) % 8 == j;
      }
      forall j: nat | n <= j < 8 ensures !Bits.Bit(w, j) {
        assert !Marked(8 * i + j);
      }
      hide Bits.Pow2, Bits.Bit;
      Bits.LowWord(w, n, 8);
      Bits.AllOnes(w, n);
      if forall p: nat | 8 * i <= p < 8 * i + n :: Marked(p) {
        forall j: nat | j < n ensures Bits.Bit(w, j) {
          assert Marked(8 * i + j);
        }
      } else {
        var p: nat :| 8 * i <= p < 8 * i + n && !Marked(p);
        assert !Bits.Bit(w, p - 8 * i);
      }
    }
  }

  /** Position `q` of `d` with `body` pasted at `at`. */
  function Pasted(d: Bytes, at: nat, body: Bytes, q: nat): byte
    requires q < |d|
  {
    if at <= q < at + |body| then body[q - at] else d[q]
  }

  lemma LastByte(n: nat)
    ensures n == 8 * (n / 8) + n % 8 && (n + 7) / 8 == n / 8 + if n % 8 != 0 then 1 else 0
  {
  }

  predicate InBits(i: nat, s: nat, e: nat, p: nat) {
    p / 8 == i && s <= p % 8 < e
  }

  predicate InBytes(from: nat, to: nat, p: nat) {
    from <= p / 8 < to
  }

  /** The pieces a range is marked in: bits of one byte, or the end of the first byte, whole
      bytes, and the start of the last. */
  predicate Together(start: nat, end: nat, p: nat) {
    if start / 8 == end / 8 then InBits(start / 8, start % 8, end % 8, p)
    else
      || InBits(start / 8, start % 8, 8, p) || InBytes(start / 8 + 1, end / 8, p)
      || (end % 8 != 0 && InBits(end / 8, 0, end % 8, p))
  }

  lemma RangeInPieces(start: nat, end: nat, p: nat)
    requires start <= end
    ensures Together(start, end, p) <==> start <= p < end
  {
  }

  lemma ByteOr(b: byte, s: nat, e: nat)
    requires s <= e <= 8
    ensures Bits.Or(b, Bits.Range(s, e)) < 0x100
    ensures forall j: nat :: Bits.Bit(Bits.Or(b, Bits.Range(s, e)), j) <==> Bits.Bit(b, j) || s <= j < e
  {
    assert Bits.Range(s, e) < Bits.Pow2(8) == 0x100 by {
      Bits.WordSizes();
      Bits.Pow2Monotone(e, 8);
    }
    Bits.OrBound(b, Bits.Range(s, e), 8);
    forall j: nat ensures Bits.Bit(Bits.Or(b, Bits.Range(s, e)), j) <==> Bits.Bit(b, j) || s <= j < e {
      Bits.BitOfOr(b, Bits.Range(s, e), j);
      Bits.BitOfRange(s, e, j);
    }
  }

  lemma FullByte()
    ensures forall j: nat | j < 8 :: Bits.Bit(0xff, j)
  {
    assert Bits.Pow2(8) == 0x100 by { Bits.WordSizes(); }
    Bits.AllOnes(0xff, 8);
  }
}
