/** The receiving side: the ring of incoming messages and the record loop (d1_both.cc). */
module DtlsReceiver {
  import opened Basics
  import opened DtlsWire
  import opened DtlsReassembly
  import opened DtlsFragment

  const SSL3_RT_CHANGE_CIPHER_SPEC: nat := 20
  const SSL3_RT_HANDSHAKE: nat := 22
  const SSL3_RT_APPLICATION_DATA: nat := 23
  const SSL3_MT_CCS: byte := 1

  datatype Status = Success | Discard | Error

  class Receiver {
    const limit: nat
    const ring: array<HmFragment?>
    var readSeq: nat
    var rEpoch: nat
    var hasChangeCipherSpec: bool
    ghost var Repr: set<object>

    ghost function Footprint(i: nat): set<object>
      requires i < ring.Length
      reads ring, ring[i]
    {
      if ring[i] == null then {} else {ring[i], ring[i].data} + ring[i].Mask()
    }

    ghost predicate Valid()
      reads this, Repr
    {
      && this in Repr && ring in Repr && ring.Length == SSL_MAX_HANDSHAKE_FLIGHT && readSeq < 0x1_0000
      && (forall i: nat | i < ring.Length && ring[i] != null ::
            ring[i] in Repr && Footprint(i) <= Repr && this !in Footprint(i) && ring !in Footprint(i))
      && (forall i: nat | i < ring.Length && ring[i] != null :: ring[i].Valid() && InPlace(i))
      && (forall i: nat, j: nat | i < j < ring.Length && ring[i] != null && ring[j] != null ::
            Footprint(i) !! Footprint(j))
    }

    predicate InPlace(i: nat)
      requires i < ring.Length
      reads this, ring, ring[i]
    {
      ring[i] != null ==> readSeq <= ring[i].number < readSeq + SSL_MAX_HANDSHAKE_FLIGHT && Index(ring[i].number) == i
    }

    ghost function SlotAt(i: nat): Slot
      requires Valid() && i < SSL_MAX_HANDSHAKE_FLIGHT
      reads this, Repr
    {
      if ring[i] == null then Empty else ring[i].AsSlot()
    }

    ghost function Abs(): (w: Window)
      requires Valid()
      reads this, Repr
      ensures DtlsReassembly.Valid(w)
    {
      Window(readSeq, seq(SSL_MAX_HANDSHAKE_FLIGHT, i requires 0 <= i < SSL_MAX_HANDSHAKE_FLIGHT reads this,
        Repr requires Valid() => SlotAt(i)))
    }

    constructor (maxHandshakeMessageLen: nat)
      ensures Valid() && fresh(Repr) && Abs() == Start() && limit == maxHandshakeMessageLen && rEpoch == 0
    {
      limit := maxHandshakeMessageLen;
      ring := new HmFragment?[SSL_MAX_HANDSHAKE_FLIGHT](_ => null);
      readSeq, rEpoch, hasChangeCipherSpec := 0, 0, false;
      new;
      Repr := {this, ring};
    }

    /** dtls1_is_current_message_complete. */
    method IsCurrentComplete() returns (b: bool)
      requires Valid()
      ensures b == HasMessage(Abs())
    {
      var frag := ring[Index(readSeq)];
      if frag != null {
        frag.CompleteIffUnmasked();
      }
      return frag != null && frag.reassembly == null;
    }

    /** dtls1_get_message: the raw form is header and body as the peer serialised them. */
    method GetMessage() returns (raw: Option<Bytes>)
      requires Valid()
      ensures raw == if HasMessage(Abs()) then Some(Abs().slots[Index(readSeq)].Raw()) else None
    {
      var complete := IsCurrentComplete();
      if !complete {
        return None;
      }
      var frag := ring[Index(readSeq)];
      frag.CompleteIffUnmasked();
      frag.RawIsData();
      return Some(frag.data[..]);
    }

    lemma StillAhead(j: nat)
      requires Valid() && j < SSL_MAX_HANDSHAKE_FLIGHT && j != Index(readSeq) && ring[j] != null
      ensures readSeq < ring[j].number < readSeq + SSL_MAX_HANDSHAKE_FLIGHT && ring[j].number < 0x1_0000
    {
      assert ring[j].Shaped();
    }

    /** dtls1_next_message. */
    method NextMessage()
      requires Valid() && HasMessage(Abs())
      modifies this, ring
      ensures Valid() && Repr == old(Repr) && Abs() == Advance(old(Abs()))
    {
      hide Index, HmFragment.Valid, HmFragment.AsSlot, HmFragment.Shaped;
      AdvanceValid(Abs());
      Drop(Index(readSeq));
      hide Valid;
      assert Abs().slots == Advance(old(Abs())).slots;
    }

    method Drop(i: nat)
      requires Valid() && i == Index(readSeq)
      modifies this`readSeq, ring
      ensures Valid() && readSeq == (old(readSeq) + 1) % 0x1_0000 && SlotAt(i) == Empty
      ensures forall j: nat | j < SSL_MAX_HANDSHAKE_FLIGHT && j != i :: SlotAt(j) == old(SlotAt(j))
    {
      hide Index, HmFragment.Valid, HmFragment.AsSlot, HmFragment.Shaped;
      forall j: nat | j < SSL_MAX_HANDSHAKE_FLIGHT && j != i && ring[j] != null
        ensures readSeq < ring[j].number < readSeq + SSL_MAX_HANDSHAKE_FLIGHT && ring[j].number < 0x1_0000
      {
        StillAhead(j);
      }
      ring[i] := null;
      readSeq := (readSeq + 1) % 0x1_0000;
      assert forall j: nat | j < SSL_MAX_HANDSHAKE_FLIGHT && j != i && ring[j] != null :: SlotAt(j) == old(SlotAt(j));
    }

    /** dtls1_get_incoming_message. */
    method GetIncoming(f: Fragment) returns (frag: HmFragment?)
      requires Valid() && Encodable(f)
      modifies this`Repr, ring
      ensures Valid() && fresh(Repr - old(Repr)) && readSeq == old(readSeq) && rEpoch == old(rEpoch)
      ensures var i, w := Index(f.number), old(Abs());
              if !(readSeq <= f.number < readSeq + SSL_MAX_HANDSHAKE_FLIGHT)
                 || (w.slots[i].Held? && (w.slots[i].kind != f.kind || |w.slots[i].got| != f.len))
              then frag == null && Abs() == w
              else frag != null && frag == ring[i] && frag.number == f.number && frag.msgLen == f.len &&
                   Abs() == w.(slots := w.slots[i := if w.slots[i].Held? then w.slots[i] else Fresh(f)])
    {
      hide Index, HmFragment.Valid, HmFragment.AsSlot, HmFragment.Shaped;
      if f.number < readSeq || f.number - readSeq >= SSL_MAX_HANDSHAKE_FLIGHT {
        return null;
      }
      var i := Index(f.number);
      frag := ring[i];
      if frag != null {
        if frag.kind != f.kind || frag.msgLen != f.len {
          return null;
        }
        OwnSlot(Abs(), f.number);
        assert Abs().slots[i] == SlotAt(i);
        assert Abs().slots == Abs().slots[i := SlotAt(i)];
        return frag;
      }
      frag := Insert(f);
    }

    method Insert(f: Fragment) returns (frag: HmFragment)
      requires Valid() && Encodable(f) && readSeq <= f.number < readSeq + SSL_MAX_HANDSHAKE_FLIGHT
      requires ring[Index(f.number)] == null
      modifies this`Repr, ring
      ensures Valid() && fresh(Repr - old(Repr)) && frag == ring[Index(f.number)]
      ensures frag.number == f.number && frag.msgLen == f.len
      ensures Abs() == old(Abs()).(slots := old(Abs()).slots[Index(f.number) := Fresh(f)])
    {
      hide Index, HmFragment.Valid, HmFragment.AsSlot, HmFragment.Shaped;
      frag := Place(f, Index(f.number));
      hide Valid;
      assert Abs().slots == old(Abs()).slots[Index(f.number) := Fresh(f)];
    }

    method Place(f: Fragment, i: nat) returns (frag: HmFragment)
      requires Valid() && Encodable(f) && readSeq <= f.number < readSeq + SSL_MAX_HANDSHAKE_FLIGHT
      requires i == Index(f.number) && ring[i] == null
      modifies this`Repr, ring
      ensures Valid() && fresh(Repr - old(Repr)) && frag == ring[i] && frag.number == f.number && frag.msgLen == f.len
      ensures SlotAt(i) == Fresh(f)
      ensures forall j: nat | j < SSL_MAX_HANDSHAKE_FLIGHT && j != i :: SlotAt(j) == old(SlotAt(j))
    {
      hide Index, HmFragment.Valid, HmFragment.AsSlot, HmFragment.Shaped;
      frag := new HmFragment(f);
      ring[i] := frag;
      Repr := Repr + Footprint(i);
      assert Valid();
      hide Valid;
      assert forall j: nat | j < SSL_MAX_HANDSHAKE_FLIGHT && j != i && ring[j] != null :: SlotAt(j) == old(SlotAt(j));
    }

    method StoreIn(frag: HmFragment, off: nat, body: Bytes)
      requires Valid() && ring.Length == SSL_MAX_HANDSHAKE_FLIGHT
      requires ring[Index(frag.number)] == frag && frag.reassembly != null && off + |body| <= frag.msgLen
      modifies frag`reassembly, frag.reassembly, frag.data
      ensures Valid()
      ensures var i, w := Index(frag.number), old(Abs());
              w.slots[i].Held? && |w.slots[i].got| == frag.msgLen &&
              Abs() == w.(slots := w.slots[i := w.slots[i].(got := Overlay(w.slots[i].got, off, body))])
    {
      hide Index, HmFragment.Valid, HmFragment.AsSlot, HmFragment.Shaped;
      var i := Index(frag.number);
      frag.Store(off, body);
      assert forall j: nat | j < SSL_MAX_HANDSHAKE_FLIGHT && j != i && ring[j] != null :: SlotAt(j) == old(SlotAt(j));
      ghost var w := old(Abs());
      assert Abs().slots == w.slots[i := w.slots[i].(got := Overlay(w.slots[i].got, off, body))];
    }

    /** The handshake branch of dtls1_open_handshake: the loop over a record's fragments. */
    method OpenHandshake(record: Bytes) returns (ok: bool)
      requires Valid()
      modifies Repr
      ensures Valid() && fresh(Repr - old(Repr)) && readSeq == old(readSeq)
              && hasChangeCipherSpec == old(hasChangeCipherSpec)
      ensures (Abs(), ok) == Feed(old(Abs()), record, rEpoch, limit)
    {
      var cbs := record;
      while cbs != []
        invariant Valid() && fresh(Repr - old(Repr)) && readSeq == old(readSeq) && rEpoch == old(rEpoch)
        invariant hasChangeCipherSpec == old(hasChangeCipherSpec)
        invariant Feed(old(Abs()), record, rEpoch, limit) == Feed(Abs(), cbs, rEpoch, limit)
        decreases |cbs|
      {
        var p := Parse(cbs);
        if p.None? {
          return false;
        }
        var f := p.value.0;
        ok := OneFragment(f);
        if !ok {
          return false;
        }
        cbs := p.value.1;
      }
      return true;
    }

    /** dtls1_open_handshake on an opened record. */
    method OpenRecord(contentType: nat, record: Bytes, nullCipher: bool) returns (status: Status)
      requires Valid()
      modifies Repr
      ensures Valid() && fresh(Repr - old(Repr)) && readSeq == old(readSeq)
      ensures contentType == SSL3_RT_HANDSHAKE ==> (Abs(), status.Success?) == Feed(old(Abs()), record, rEpoch, limit)
      ensures contentType != SSL3_RT_HANDSHAKE ==> Abs() == old(Abs())
      ensures contentType == SSL3_RT_CHANGE_CIPHER_SPEC ==>
        status == if nullCipher && record == [SSL3_MT_CCS] then Success else Error
      ensures hasChangeCipherSpec
              == (old(hasChangeCipherSpec) || (contentType == SSL3_RT_CHANGE_CIPHER_SPEC && status.Success?))
      ensures contentType == SSL3_RT_APPLICATION_DATA ==> status == if nullCipher then Error else Discard
      ensures contentType !in {SSL3_RT_CHANGE_CIPHER_SPEC, SSL3_RT_HANDSHAKE, SSL3_RT_APPLICATION_DATA} ==>
              status == Error
    {
      if contentType == SSL3_RT_APPLICATION_DATA {
        return if nullCipher then Error else Discard;
      }
      if contentType == SSL3_RT_CHANGE_CIPHER_SPEC {
        if !nullCipher || |record| != 1 || record[0] != SSL3_MT_CCS {
          return Error;
        }
        MarkSwitch();
        return Success;
      }
      if contentType != SSL3_RT_HANDSHAKE {
        return Error;
      }
      var ok := OpenHandshake(record);
      return if ok then Success else Error;
    }

    /** dtls_has_unprocessed_handshake_data: a ChangeCipherSpec, or any message in the ring but
        the current one when that has been read. */
    method HasUnprocessed(hasMessage: bool) returns (r: bool)
      requires Valid()
      ensures r <==> hasChangeCipherSpec || exists i: nat ::
                i < SSL_MAX_HANDSHAKE_FLIGHT && Abs().slots[i].Held? && !(hasMessage && i == Index(readSeq))
    {
      hide Index, HmFragment.Valid, HmFragment.AsSlot, HmFragment.Shaped;
      if hasChangeCipherSpec {
        return true;
      }
      var current := Index(readSeq);
      for i := 0 to SSL_MAX_HANDSHAKE_FLIGHT
        invariant forall j: nat | j < i && Abs().slots[j].Held? :: hasMessage && j == current
      {
        HeldIffThere(i);
        if !(hasMessage && i == current) && ring[i] != null {
          return true;
        }
      }
      return false;
    }

    lemma HeldIffThere(i: nat)
      requires Valid() && i < SSL_MAX_HANDSHAKE_FLIGHT
      ensures Abs().slots[i].Held? <==> ring[i] != null
    {
    }

    method MarkSwitch()
      requires Valid()
      modifies this`hasChangeCipherSpec
      ensures Valid() && Abs() == old(Abs()) && hasChangeCipherSpec
    {
      hide Index, HmFragment.Valid, HmFragment.AsSlot, HmFragment.Shaped;
      hasChangeCipherSpec := true;
      assert forall j: nat | j < SSL_MAX_HANDSHAKE_FLIGHT && ring[j] != null :: SlotAt(j) == old(SlotAt(j));
      assert Abs().slots == old(Abs()).slots;
    }

    method OneFragment(f: Fragment) returns (ok: bool)
      requires Valid() && Encodable(f)
      modifies Repr
      ensures Valid() && fresh(Repr - old(Repr)) && readSeq == old(readSeq) && rEpoch == old(rEpoch)
              && hasChangeCipherSpec == old(hasChangeCipherSpec)
      ensures ok == !Receive(old(Abs()), f, rEpoch, limit).Fatal? && Abs() == Put(old(Abs()), f, rEpoch, limit)
    {
      hide Index, HmFragment.Valid, HmFragment.AsSlot, HmFragment.Shaped;
      if f.off > f.len || f.off + |f.body| > f.len || f.len > limit {
        return false;
      }
      if rEpoch == 1 && f.number != readSeq {
        return false;
      }
      if f.number < readSeq || f.number > readSeq + SSL_MAX_HANDSHAKE_FLIGHT {
        return true;
      }
      var frag := GetIncoming(f);
      if frag == null {
        return false;
      }
      frag.CompleteIffUnmasked();
      if frag.reassembly == null {
        return true;
      }
      StoreIn(frag, f.off, f.body);
      return true;
    }
  }
}
