/**
 Reassembling handshake messages, as a window of seven slots over values, and what comes
 out of it for every loss, duplication, reordering and overlap of fragments.
 */
module DtlsReassembly {
  import opened Basics
  import opened DtlsWire

  /** A message being put together: the bytes that have come. */
  datatype Slot = Empty | Held(kind: byte, number: nat, got: seq<Option<byte>>) {
    predicate Complete() {
      Held? && forall i | 0 <= i < |got| :: got[i].Some?
    }

    /** The message with its header, as the transcript wants it. */
    function Raw(): Bytes
      requires Complete() && number < 0x1_0000 && |got| < 0x100_0000
    {
      Serialized(Message(kind, Received(got)), number)
    }
  }

  function Received(got: seq<Option<byte>>): (b: Bytes)
    requires forall i | 0 <= i < |got| :: got[i].Some?
    ensures |b| == |got|
  {
    seq(|got|, i requires 0 <= i < |got| => got[i].value)
  }

  /** Where in the ring a message goes. */
  function Index(n: nat): (i: nat)
    ensures i < SSL_MAX_HANDSHAKE_FLIGHT
  {
    n % SSL_MAX_HANDSHAKE_FLIGHT
  }

  /** `next` is handshake_read_seq. */
  datatype Window = Window(next: nat, slots: seq<Slot>)

  /** Slot i holds a message in [next, next + 7) whose number is i modulo 7. */
  predicate Valid(w: Window) {
    && |w.slots| == SSL_MAX_HANDSHAKE_FLIGHT && w.next < 0x1_0000
    && forall i | 0 <= i < SSL_MAX_HANDSHAKE_FLIGHT && w.slots[i].Held? ::
         w.next <= w.slots[i].number < w.next + SSL_MAX_HANDSHAKE_FLIGHT && Index(w.slots[i].number) == i &&
         w.slots[i].number < 0x1_0000 && |w.slots[i].got| < 0x100_0000
  }

  function Start(): Window {
    Window(0, seq(SSL_MAX_HANDSHAKE_FLIGHT, i => Empty))
  }

  datatype Outcome = Ignored | Fatal | Stored(slot: Slot)

  function Fresh(f: Fragment): Slot {
    Held(f.kind, f.number, seq(f.len, i => None))
  }

  function Overlay(got: seq<Option<byte>>, off: nat, body: Bytes): (r: seq<Option<byte>>)
    requires off + |body| <= |got|
    ensures |r| == |got|
  {
    seq(|got|, i requires 0 <= i < |got| => if off <= i < off + |body| then Some(body[i - off]) else got[i])
  }

  /** What one fragment does, in the order dtls1_open_handshake checks it. `limit` is the
      largest message accepted, `epoch` the read epoch. */
  function Receive(w: Window, f: Fragment, epoch: nat, limit: nat): Outcome
    requires Valid(w) && Encodable(f)
  {
    if f.off > f.len || f.off + |f.body| > f.len || f.len > limit then Fatal
    else if epoch == 1 && f.number != w.next then Fatal
    else if f.number < w.next || f.number > w.next + SSL_MAX_HANDSHAKE_FLIGHT then Ignored
    else if f.number - w.next >= SSL_MAX_HANDSHAKE_FLIGHT then Fatal
    else
      var slot := w.slots[Index(f.number)];
      if slot.Held? && (slot.kind != f.kind || |slot.got| != f.len) then Fatal
      else
        var s := if slot.Held? then slot else Fresh(f);
        if s.Complete() then Stored(s) else Stored(s.(got := Overlay(s.got, f.off, f.body)))
  }

  function Put(w: Window, f: Fragment, epoch: nat, limit: nat): Window
    requires Valid(w) && Encodable(f)
  {
    var o := Receive(w, f, epoch, limit);
    if o.Stored? then w.(slots := w.slots[Index(f.number) := o.slot]) else w
  }

  predicate HasMessage(w: Window)
    requires Valid(w)
  {
    w.slots[Index(w.next)].Complete()
  }

  /** dtls1_next_message. */
  function Advance(w: Window): Window
    requires Valid(w)
  {
    Window((w.next + 1) % 0x1_0000, w.slots[Index(w.next) := Empty])
  }

  /** The ring tells apart any seven consecutive numbers. */
  lemma ModSeven(a: nat, b: nat)
    requires a <= b
    ensures b < a + SSL_MAX_HANDSHAKE_FLIGHT && Index(a) == Index(b) ==> a == b
    ensures Index(a + SSL_MAX_HANDSHAKE_FLIGHT) == Index(a)
  {
  }

  /** The slot of a number in the window is its own: nobody else's is found there. */
  lemma OwnSlot(w: Window, n: nat)
    requires Valid(w) && w.next <= n < w.next + SSL_MAX_HANDSHAKE_FLIGHT
    ensures var s := w.slots[Index(n)]; s.Held? ==> s.number == n
  {
  }

  lemma PutValid(w: Window, f: Fragment, epoch: nat, limit: nat)
    requires Valid(w) && Encodable(f)
    ensures Valid(Put(w, f, epoch, limit)) && Put(w, f, epoch, limit).next == w.next
    ensures var o := Receive(w, f, epoch, limit); o.Stored? ==> o.slot.Held? && o.slot.number == f.number
  {
    if w.next <= f.number < w.next + SSL_MAX_HANDSHAKE_FLIGHT {
      OwnSlot(w, f.number);
    }
  }

  lemma AdvanceValid(w: Window)
    requires Valid(w)
    ensures Valid(Advance(w))
  {
    var r := Advance(w);
    forall i | 0 <= i < SSL_MAX_HANDSHAKE_FLIGHT && r.slots[i].Held?
      ensures r.next <= r.slots[i].number < r.next + SSL_MAX_HANDSHAKE_FLIGHT
    {
      assert w.slots[i].Held? && Index(w.slots[i].number) == i;
    }
  }

  /** A piece that lies within its message, which is not too long. */
  predicate WellFormed(f: Fragment, limit: nat) {
    f.off + |f.body| <= f.len <= limit
  }

  /** From any peer: a fragment is stored exactly if it is well-formed, of a message looked for, and
      agrees with what is there of that message; it is passed over exactly if it is well-formed and
      its number is of the past or at least eight ahead. */
  lemma StoredExactly(w: Window, f: Fragment, epoch: nat, limit: nat)
    requires Valid(w) && Encodable(f)
    ensures Receive(w, f, epoch, limit).Stored? <==>
              && WellFormed(f, limit) && w.next <= f.number < w.next + 7 && (epoch == 1 ==> f.number == w.next)
              && (var s := w.slots[Index(f.number)]; s.Held? ==> s.kind == f.kind && |s.got| == f.len)
    ensures Receive(w, f, epoch, limit).Ignored? <==>
              WellFormed(f, limit) && epoch != 1 && (f.number < w.next || f.number > w.next + 7)
    ensures var o := Receive(w, f, epoch, limit);
            o.Stored? ==>
              && o.slot.Held? && o.slot.kind == f.kind && o.slot.number == f.number && |o.slot.got| == f.len
              && forall i | f.off <= i < f.off + |f.body| :: o.slot.got[i].Some?
  {
    if w.next <= f.number < w.next + SSL_MAX_HANDSHAKE_FLIGHT {
      OwnSlot(w, f.number);
    }
    hide Index;
  }

  /** Nothing longer than the limit is ever held. */
  predicate Bounded(w: Window, limit: nat) {
    forall i | 0 <= i < |w.slots| && w.slots[i].Held? :: |w.slots[i].got| <= limit
  }

  lemma PutBounded(w: Window, f: Fragment, epoch: nat, limit: nat)
    requires Valid(w) && Encodable(f) && Bounded(w, limit)
    ensures Bounded(Put(w, f, epoch, limit), limit)
  {
    StoredExactly(w, f, epoch, limit);
    hide Receive, Index;
  }

  /** From any peer, whatever a record holds: no message longer than the limit is put together. */
  lemma {:induction false} FeedBounded(w: Window, b: Bytes, epoch: nat, limit: nat)
    requires Valid(w) && Bounded(w, limit)
    ensures Bounded(Feed(w, b, epoch, limit).0, limit)
    decreases |b|
  {
    var p := Parse(b);
    if b != [] && p.Some? && !Receive(w, p.value.0, epoch, limit).Fatal? {
      PutValid(w, p.value.0, epoch, limit);
      PutBounded(w, p.value.0, epoch, limit);
      FeedBounded(Put(w, p.value.0, epoch, limit), p.value.1, epoch, limit);
    }
  }

  /** What a handshake record does: its fragments in turn, until one is malformed or fatal.
      What came before that one has been received. */
  function Feed(w: Window, b: Bytes, epoch: nat, limit: nat): (r: (Window, bool))
    requires Valid(w)
    ensures Valid(r.0) && r.0.next == w.next
    decreases |b|
  {
    if b == [] then (w, true)
    else
      var p := Parse(b);
      if p.None? || Receive(w, p.value.0, epoch, limit).Fatal? then (w, false)
      else
        PutValid(w, p.value.0, epoch, limit);
        Feed(Put(w, p.value.0, epoch, limit), p.value.1, epoch, limit)
  }

  function PrintAll(fs: seq<Fragment>): Bytes
    requires forall f | f in fs :: Encodable(f)
  {
    if fs == [] then [] else Print(fs[0]) + PrintAll(fs[1..])
  }

  function PutAll(w: Window, fs: seq<Fragment>, epoch: nat, limit: nat): (Window, bool)
    requires Valid(w) && forall f | f in fs :: Encodable(f)
    decreases |fs|
  {
    if fs == [] then (w, true)
    else if Receive(w, fs[0], epoch, limit).Fatal? then (w, false)
    else
      PutValid(w, fs[0], epoch, limit);
      PutAll(Put(w, fs[0], epoch, limit), fs[1..], epoch, limit)
  }

  /** A record does what its fragments do one after the other. */
  lemma {:induction false} RecordIsItsFragments(w: Window, fs: seq<Fragment>, epoch: nat, limit: nat)
    requires Valid(w) && forall f | f in fs :: Encodable(f)
    ensures Feed(w, PrintAll(fs), epoch, limit) == PutAll(w, fs, epoch, limit)
    decreases |fs|
  {
    if fs != [] {
      ParsePrint(fs[0], PrintAll(fs[1..]));
      if !Receive(w, fs[0], epoch, limit).Fatal? {
        PutValid(w, fs[0], epoch, limit);
        RecordIsItsFragments(Put(w, fs[0], epoch, limit), fs[1..], epoch, limit);
      }
    }
  }
}
