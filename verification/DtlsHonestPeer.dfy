/**
 An honest peer behind a lossy, duplicating, reordering network that may cut its messages
 anew at will: what the receiver delivers is what was sent, in order, byte for byte.
 */
module DtlsHonestPeer {
  import opened Basics
  import opened DtlsWire
  import opened DtlsReassembly

  predicate Honest(sent: seq<Message>, limit: nat) {
    |sent| < 0x1_0000 && limit < 0x100_0000 && forall i | 0 <= i < |sent| :: |sent[i].body| <= limit
  }

  /** A fragment opened under the current read keys, a message taken by the handshake, or new read
      keys. */
  datatype Event = Arrives(f: Fragment) | Takes | Switches

  /** `epoch` is the read epoch; `kept` are the fragments that arrived while their message was
      looked for. */
  datatype Run = Run(epoch: nat, w: Window, kept: seq<Fragment>, delivered: seq<Bytes>)

  predicate InWindow(w: Window, n: nat) {
    w.next <= n < w.next + SSL_MAX_HANDSHAKE_FLIGHT
  }

  /** The messages looked for: the next seven, but in epoch 1, which has one message, the next only. */
  predicate Expects(r: Run, n: nat) {
    if r.epoch == 1 then n == r.w.next else InWindow(r.w, n)
  }

  predicate FromPeer(sent: seq<Message>, events: seq<Event>) {
    forall e | e in events && e.Arrives? :: Cut(sent, e.f)
  }

  function Step(r: Run, e: Event, limit: nat): Run
    requires Valid(r.w) && (e.Arrives? ==> Encodable(e.f))
  {
    match e
    case Arrives(f) =>
      r.(w := Put(r.w, f, r.epoch, limit), kept := if Expects(r, f.number) then r.kept + [f] else r.kept)
    case Takes =>
      if HasMessage(r.w) then
        r.(w := Advance(r.w), delivered := r.delivered + [r.w.slots[Index(r.w.next)].Raw()])
      else r
    case Switches => r.(epoch := (r.epoch + 1) % 0x1_0000)
  }

  predicate Arrived(kept: seq<Fragment>, n: nat) {
    exists f :: f in kept && f.number == n
  }

  predicate Covered(kept: seq<Fragment>, n: nat, p: nat) {
    exists f :: f in kept && f.number == n && f.off <= p < f.off + |f.body|
  }

  function SlotOf(w: Window, n: nat): Slot
    requires Valid(w)
  {
    w.slots[Index(n)]
  }

  /** The slot of message `n` mirrors it: only its bytes, exactly those that have come. */
  predicate Mirrors(r: Run, m: Message, n: nat)
    requires Valid(r.w)
  {
    var s := SlotOf(r.w, n);
    && (s.Held? <==> Arrived(r.kept, n))
    && (s.Held? ==> s.kind == m.kind && |s.got| == |m.body| &&
                    forall p | 0 <= p < |m.body| :: s.got[p] == if Covered(r.kept, n, p) then Some(m.body[p]) else None)
  }

  ghost predicate Good(r: Run, sent: seq<Message>, limit: nat)
    requires Honest(sent, limit)
  {
    && Valid(r.w) && r.w.next <= |sent|
    && |r.delivered| == r.w.next && (forall k | 0 <= k < r.w.next :: r.delivered[k] == Serialized(sent[k], k))
    && (forall i | 0 <= i < SSL_MAX_HANDSHAKE_FLIGHT && r.w.slots[i].Held? :: r.w.slots[i].number < |sent|)
    && (forall n: nat | InWindow(r.w, n) && n < |sent| :: Mirrors(r, sent[n], n))
    && (forall f | f in r.kept :: f.number < r.w.next + SSL_MAX_HANDSHAKE_FLIGHT)
  }

  function Begin(): Run {
    Run(0, Start(), [], [])
  }

  /** When an honest fragment is fatal: in epoch 1, if it is not of the next message; in the others,
      if it is exactly one message ahead of the window, which passes the first test and fails the
      second. Nothing but a message looked for changes the ring. */
  lemma FatalExactly(r: Run, sent: seq<Message>, limit: nat, f: Fragment)
    requires Honest(sent, limit) && Good(r, sent, limit) && Cut(sent, f)
    ensures Receive(r.w, f, r.epoch, limit).Fatal?
            <==> if r.epoch == 1 then f.number != r.w.next else f.number == r.w.next + SSL_MAX_HANDSHAKE_FLIGHT
    ensures !Expects(r, f.number) ==> Put(r.w, f, r.epoch, limit) == r.w
  {
    if InWindow(r.w, f.number) {
      assert Mirrors(r, sent[f.number], f.number);
    }
  }

  /** From any peer: in epoch 1 a fragment of any message but the next ends the connection. */
  lemma OnlyNextInEpochOne(w: Window, f: Fragment, limit: nat)
    requires Valid(w) && Encodable(f) && f.number != w.next
    ensures Receive(w, f, 1, limit).Fatal? && Put(w, f, 1, limit) == w
  {
  }

  lemma ArrivalKeepsMirror(r: Run, sent: seq<Message>, limit: nat, f: Fragment)
    requires Honest(sent, limit) && Good(r, sent, limit) && Cut(sent, f) && Expects(r, f.number)
    ensures var r' := Step(r, Arrives(f), limit); Valid(r'.w) && Mirrors(r', sent[f.number], f.number)
  {
    PutValid(r.w, f, r.epoch, limit);
    var r', m, n := Step(r, Arrives(f), limit), sent[f.number], f.number;
    assert Mirrors(r, m, n);
    FatalExactly(r, sent, limit, f);
    assert f in r'.kept && Arrived(r'.kept, n);
    var s := SlotOf(r'.w, n);
    forall p | 0 <= p < |m.body| ensures s.got[p] == if Covered(r'.kept, n, p) then Some(m.body[p]) else None {
      KeptOneMore(r.kept, f, n, p);
    }
  }

  lemma KeptOneMore(kept: seq<Fragment>, f: Fragment, n: nat, p: nat)
    ensures Covered(kept + [f], n, p) <==> Covered(kept, n, p) || (f.number == n && f.off <= p < f.off + |f.body|)
    ensures Arrived(kept + [f], n) <==> Arrived(kept, n) || f.number == n
  {
    assert f in kept + [f];
    assert forall g :: g in kept ==> g in kept + [f];
  }

  lemma ArrivalKeepsGood(r: Run, sent: seq<Message>, limit: nat, f: Fragment)
    requires Honest(sent, limit) && Good(r, sent, limit) && Cut(sent, f)
    ensures Good(Step(r, Arrives(f), limit), sent, limit)
  {
    PutValid(r.w, f, r.epoch, limit);
    FatalExactly(r, sent, limit, f);
    var r' := Step(r, Arrives(f), limit);
    if Expects(r, f.number) {
      ArrivalKeepsMirror(r, sent, limit, f);
      forall n: nat | InWindow(r'.w, n) && n < |sent| && n != f.number ensures Mirrors(r', sent[n], n) {
        assert Mirrors(r, sent[n], n);
        OtherSlotKept(r, f, n, limit);
        forall p: nat ensures Covered(r'.kept, n, p) == Covered(r.kept, n, p)
          && Arrived(r'.kept, n) == Arrived(r.kept, n) {
          KeptOneMore(r.kept, f, n, p);
        }
      }
    }
  }

  lemma OtherSlotKept(r: Run, f: Fragment, n: nat, limit: nat)
    requires Valid(r.w) && Encodable(f) && InWindow(r.w, f.number) && InWindow(r.w, n) && n != f.number
    ensures Valid(Put(r.w, f, r.epoch, limit)) && SlotOf(Put(r.w, f, r.epoch, limit), n) == SlotOf(r.w, n)
  {
    PutValid(r.w, f, r.epoch, limit);
    if n < f.number { ModSeven(n, f.number); } else { ModSeven(f.number, n); }
  }

  lemma TakingKeepsGood(r: Run, sent: seq<Message>, limit: nat)
    requires Honest(sent, limit) && Good(r, sent, limit)
    ensures Good(Step(r, Takes, limit), sent, limit)
  {
    hide Index;
    var r', next := Step(r, Takes, limit), r.w.next;
    if HasMessage(r.w) {
      AdvanceValid(r.w);
      OwnSlot(r.w, next);
      var s := SlotOf(r.w, next);
      assert Mirrors(r, sent[next], next);
      assert Received(s.got) == sent[next].body;
      hide Mirrors;
      forall n: nat | InWindow(r'.w, n) && n < |sent| ensures Mirrors(r', sent[n], n) {
        TakingKeepsMirror(r, sent, limit, n);
      }
    }
  }

  lemma TakingKeepsMirror(r: Run, sent: seq<Message>, limit: nat, n: nat)
    requires Honest(sent, limit) && Good(r, sent, limit) && HasMessage(r.w) && n < |sent|
             && r.w.next < n <= r.w.next + SSL_MAX_HANDSHAKE_FLIGHT
    ensures Valid(Advance(r.w)) && Mirrors(Step(r, Takes, limit), sent[n], n)
  {
    AdvanceValid(r.w);
    ModSeven(r.w.next, n);
    hide Index;
    if n == r.w.next + SSL_MAX_HANDSHAKE_FLIGHT {
      assert !Arrived(r.kept, n);
    } else {
      assert Mirrors(r, sent[n], n);
      ModSeven(r.w.next, n);
    }
  }

  lemma SwitchKeepsGood(r: Run, sent: seq<Message>, limit: nat)
    requires Honest(sent, limit) && Good(r, sent, limit)
    ensures Good(Step(r, Switches, limit), sent, limit)
  {
    var r' := Step(r, Switches, limit);
    forall n: nat | InWindow(r'.w, n) && n < |sent| ensures Mirrors(r', sent[n], n) {
      assert Mirrors(r, sent[n], n);
    }
  }

  function Steps(r: Run, events: seq<Event>, limit: nat): (r': Run)
    requires Valid(r.w) && forall e | e in events && e.Arrives? :: Encodable(e.f)
    ensures Valid(r'.w)
    decreases |events|
  {
    if events == [] then r
    else
      StepValid(r, events[0], limit);
      Steps(Step(r, events[0], limit), events[1..], limit)
  }

  lemma StepValid(r: Run, e: Event, limit: nat)
    requires Valid(r.w) && (e.Arrives? ==> Encodable(e.f))
    ensures Valid(Step(r, e, limit).w)
  {
    if e.Arrives? {
      PutValid(r.w, e.f, r.epoch, limit);
    } else if e.Takes? {
      AdvanceValid(r.w);
    }
  }

  lemma CutIsEncodable(sent: seq<Message>, limit: nat, f: Fragment)
    requires Honest(sent, limit) && Cut(sent, f)
    ensures Encodable(f)
  {
  }

  lemma {:induction false} RunsStayGood(r: Run, sent: seq<Message>, limit: nat, events: seq<Event>)
    requires Honest(sent, limit) && Good(r, sent, limit) && FromPeer(sent, events)
    ensures forall e | e in events && e.Arrives? :: Encodable(e.f)
    ensures Good(Steps(r, events, limit), sent, limit)
    decreases |events|
  {
    forall e | e in events && e.Arrives? ensures Encodable(e.f) {
      CutIsEncodable(sent, limit, e.f);
    }
    if events != [] {
      var e := events[0];
      if e.Arrives? {
        ArrivalKeepsGood(r, sent, limit, e.f);
      } else if e.Takes? {
        TakingKeepsGood(r, sent, limit);
      } else {
        SwitchKeepsGood(r, sent, limit);
      }
      hide Good, Step;
      RunsStayGood(Step(r, e, limit), sent, limit, events[1..]);
    }
  }

  lemma BeginIsGood(sent: seq<Message>, limit: nat)
    requires Honest(sent, limit)
    ensures Good(Begin(), sent, limit)
  {
  }

  /** Messages come out in order and byte-identical to the sender's own serialised form,
      header included; and a message is complete iff a fragment of it has arrived and the
      ranges that arrived cover it. */
  lemma DeliveredAsSent(sent: seq<Message>, limit: nat, events: seq<Event>, n: nat)
    requires Honest(sent, limit) && FromPeer(sent, events)
    ensures forall e | e in events && e.Arrives? :: Encodable(e.f)
    ensures var r := Steps(Begin(), events, limit);
            && |r.delivered| <= |sent|
               && (forall k | 0 <= k < |r.delivered| :: r.delivered[k] == Serialized(sent[k], k))
            && (InWindow(r.w, n) && n < |sent| ==>
                (SlotOf(r.w, n).Complete() <==>
                 Arrived(r.kept, n) && forall p | 0 <= p < |sent[n].body| :: Covered(r.kept, n, p)))
  {
    BeginIsGood(sent, limit);
    RunsStayGood(Begin(), sent, limit, events);
    var r := Steps(Begin(), events, limit);
    if InWindow(r.w, n) && n < |sent| {
      assert Mirrors(r, sent[n], n);
    }
  }

  function Arrivals(fs: seq<Fragment>): (events: seq<Event>)
    ensures |events| == |fs| && forall i | 0 <= i < |fs| :: events[i] == Arrives(fs[i])
  {
    seq(|fs|, i requires 0 <= i < |fs| => Arrives(fs[i]))
  }

  /** In epoch 1 every piece of the next message is kept, and the window stands. */
  lemma {:induction false} NextIsKept(r: Run, limit: nat, fs: seq<Fragment>)
    requires Valid(r.w) && r.epoch == 1
    requires forall f | f in fs :: Encodable(f) && f.number == r.w.next
    ensures var r' := Steps(r, Arrivals(fs), limit);
            r'.epoch == 1 && r'.w.next == r.w.next && r'.kept == r.kept + fs && r'.delivered == r.delivered
    decreases |fs|
  {
    if fs != [] {
      assert Arrivals(fs)[1..] == Arrivals(fs[1..]);
      PutValid(r.w, fs[0], 1, limit);
      NextIsKept(Step(r, Arrives(fs[0]), limit), limit, fs[1..]);
      assert r.kept + [fs[0]] + fs[1..] == r.kept + fs;
    } else {
      assert r.kept + fs == r.kept;
    }
  }

  /** The encrypted epoch's one message, the peer's Finished: after any run into epoch 1, any pieces
      of it, in any order and any number of times, complete it exactly when they cover it (with
      what was there before), and then it comes out as its sender serialised it. */
  lemma EncryptedMessageIsAssembled(sent: seq<Message>, limit: nat, before: seq<Event>, fs: seq<Fragment>)
    requires Honest(sent, limit) && FromPeer(sent, before)
    requires forall e | e in before && e.Arrives? :: Encodable(e.f)
    requires var r := Steps(Begin(), before, limit);
             r.epoch == 1 && r.w.next < |sent| && forall f | f in fs :: Cut(sent, f) && f.number == r.w.next
    ensures forall f | f in fs :: Encodable(f)
    ensures var r := Steps(Begin(), before, limit);
            var r', n := Steps(r, Arrivals(fs), limit), r.w.next;
            && r'.w.next == n
            && (HasMessage(r'.w) <==> Arrived(r.kept + fs, n) &&
                                      forall p | 0 <= p < |sent[n].body| :: Covered(r.kept + fs, n, p))
            && (HasMessage(r'.w) ==>
                Step(r', Takes, limit).delivered == r.delivered + [Serialized(sent[n], n)])
  {
    BeginIsGood(sent, limit);
    RunsStayGood(Begin(), sent, limit, before);
    var r := Steps(Begin(), before, limit);
    forall f | f in fs ensures Encodable(f) {
      CutIsEncodable(sent, limit, f);
    }
    NextIsKept(r, limit, fs);
    RunsStayGood(r, sent, limit, Arrivals(fs));
    var r' := Steps(r, Arrivals(fs), limit);
    assert Mirrors(r', sent[r'.w.next], r'.w.next);
    TakingKeepsGood(r', sent, limit);
  }

  /** Message `n` stays in the window all along. */
  predicate StaysOpen(r: Run, events: seq<Event>, limit: nat, n: nat)
    requires Valid(r.w) && forall e | e in events && e.Arrives? :: Encodable(e.f)
    decreases |events|
  {
    if events == [] then InWindow(r.w, n)
    else
      StepValid(r, events[0], limit);
      InWindow(r.w, n) && StaysOpen(Step(r, events[0], limit), events[1..], limit, n)
  }

  /** Against any peer at all: once complete, a message does not change while it is in the
      window, whatever arrives. */
  lemma {:induction false} CompleteWhileOpen(r: Run, events: seq<Event>, limit: nat, n: nat)
    requires Valid(r.w) && forall e | e in events && e.Arrives? :: Encodable(e.f)
    requires StaysOpen(r, events, limit, n) && SlotOf(r.w, n).Complete()
    ensures SlotOf(Steps(r, events, limit).w, n) == SlotOf(r.w, n)
    decreases |events|
  {
    if events != [] {
      StepValid(r, events[0], limit);
      OwnSlot(r.w, n);
      if events[0].Arrives? {
        var f := events[0].f;
        if InWindow(r.w, f.number) && f.number != n {
          OtherSlotKept(r, f, n, limit);
        }
      } else if events[0].Takes? {
        ModSeven(r.w.next, n);
      }
      CompleteWhileOpen(Step(r, events[0], limit), events[1..], limit, n);
    }
  }

  function Takings(events: seq<Event>): nat {
    if events == [] then 0 else (if events[0].Takes? then 1 else 0) + Takings(events[1..])
  }

  lemma NextMoves(r: Run, e: Event, limit: nat)
    requires Valid(r.w) && (e.Arrives? ==> Encodable(e.f))
    requires e.Takes? ==> r.w.next + 1 < 0x1_0000
    ensures var r' := Step(r, e, limit);
            Valid(r'.w) && r.w.next <= r'.w.next <= r.w.next + if e.Takes? then 1 else 0
  {
    StepValid(r, e, limit);
    if e.Arrives? {
      PutValid(r.w, e.f, r.epoch, limit);
    }
  }

  /** Arrivals never move the window, and taking moves it on, until the 16-bit number of the
      next message comes round. */
  lemma {:induction false} NeverBack(r: Run, events: seq<Event>, limit: nat, n: nat)
    requires Valid(r.w) && r.w.next + Takings(events) < 0x1_0000
    requires forall e | e in events && e.Arrives? :: Encodable(e.f)
    ensures r.w.next <= Steps(r, events, limit).w.next
    ensures InWindow(r.w, n) && Steps(r, events, limit).w.next <= n ==> StaysOpen(r, events, limit, n)
    decreases |events|
  {
    if events != [] {
      NextMoves(r, events[0], limit);
      hide Step, Valid, Encodable;
      NeverBack(Step(r, events[0], limit), events[1..], limit, n);
    }
  }

  /** Against any peer: complete, it does not change until it is taken. */
  lemma CompleteStays(r: Run, events: seq<Event>, limit: nat, n: nat)
    requires Valid(r.w) && InWindow(r.w, n) && SlotOf(r.w, n).Complete()
    requires forall e | e in events && e.Arrives? :: Encodable(e.f)
    requires Steps(r, events, limit).w.next <= n && r.w.next + Takings(events) < 0x1_0000
    ensures SlotOf(Steps(r, events, limit).w, n) == SlotOf(r.w, n)
  {
    NeverBack(r, events, limit, n);
    CompleteWhileOpen(r, events, limit, n);
  }

  /** An honest peer sends fewer messages than there are numbers, so nothing comes round. */
  lemma {:induction false} HonestNeverBack(r: Run, sent: seq<Message>, events: seq<Event>, limit: nat, n: nat)
    requires Honest(sent, limit) && Good(r, sent, limit) && FromPeer(sent, events)
    ensures forall e | e in events && e.Arrives? :: Encodable(e.f)
    ensures r.w.next <= Steps(r, events, limit).w.next
    ensures InWindow(r.w, n) && Steps(r, events, limit).w.next <= n ==> StaysOpen(r, events, limit, n)
    decreases |events|
  {
    RunsStayGood(r, sent, limit, events);
    if events != [] {
      StepValid(r, events[0], limit);
      RunsStayGood(r, sent, limit, events[..1]);
      HonestNeverBack(Step(r, events[0], limit), sent, events[1..], limit, n);
    }
  }

  /** With an honest peer, whatever the network does and for however long: once complete, a
      message does not change until it is taken. */
  lemma HonestCompleteStays(sent: seq<Message>, limit: nat, before: seq<Event>, after: seq<Event>, n: nat)
    requires Honest(sent, limit) && FromPeer(sent, before) && FromPeer(sent, after)
    ensures forall e | e in before + after && e.Arrives? :: Encodable(e.f)
    ensures var r := Steps(Begin(), before, limit);
            var r' := Steps(r, after, limit);
            InWindow(r.w, n) && SlotOf(r.w, n).Complete() && r'.w.next <= n ==> SlotOf(r'.w, n) == SlotOf(r.w, n)
  {
    BeginIsGood(sent, limit);
    RunsStayGood(Begin(), sent, limit, before);
    var r := Steps(Begin(), before, limit);
    HonestNeverBack(r, sent, after, limit, n);
    if InWindow(r.w, n) && SlotOf(r.w, n).Complete() && Steps(r, after, limit).w.next <= n {
      CompleteWhileOpen(r, after, limit, n);
    }
  }
}
