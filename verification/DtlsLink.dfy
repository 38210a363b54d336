/**
 Sender and receiver joined by a network that loses, repeats and reorders the records of any
 number of flights and retransmissions: what is delivered is what was added, and a pass that
 arrives completes its messages.
 */
module DtlsLink {
  import opened DtlsWire
  import opened DtlsReassembly
  import opened DtlsHonestPeer
  import F = DtlsFlight
  import S = DtlsSender

  predicate OnWire(carried: seq<F.Record>, f: Fragment) {
    exists r :: r in carried && r.Piece? && r.f == f
  }

  /** Only what the sender's transport took arrives, each record any number of times. */
  predicate FromWire(carried: seq<F.Record>, events: seq<Event>) {
    forall e | e in events && e.Arrives? :: OnWire(carried, e.f)
  }

  lemma WireIsFromPeer(carried: seq<F.Record>, sent: seq<Message>, events: seq<Event>)
    requires F.AllCuts(carried, sent) && FromWire(carried, events)
    ensures FromPeer(sent, events)
  {
  }

  /** Whatever a sender has sent, in flights, resumed flushes and retransmissions: the receiver
      delivers its messages in the order they were added, byte for byte, and has one complete iff
      what arrived covers it. */
  lemma DeliveredAsAdded(s: S.Sender, limit: nat, events: seq<Event>, n: nat)
    requires s.Valid() && Honest(s.sent, limit) && FromWire(s.carried, events)
    ensures forall e | e in events && e.Arrives? :: Encodable(e.f)
    ensures var r := Steps(Begin(), events, limit);
            && |r.delivered| <= |s.sent|
            && (forall k | 0 <= k < |r.delivered| :: r.delivered[k] == Serialized(s.sent[k], k))
            && (InWindow(r.w, n) && n < |s.sent| ==>
                (SlotOf(r.w, n).Complete() <==>
                 Arrived(r.kept, n) && forall p | 0 <= p < |s.sent[n].body| :: Covered(r.kept, n, p)))
  {
    WireIsFromPeer(s.carried, s.sent, events);
    DeliveredAsSent(s.sent, limit, events, n);
  }

  /** All the records of a pass that carry message `number` have been kept. */
  predicate AllKept(recs: seq<F.Record>, kept: seq<Fragment>, number: nat) {
    forall r | r in recs && r.Piece? && r.f.number == number :: r.f in kept
  }

  /** A message of a flight is complete as soon as every record that one pass made of it has
      arrived while it was in the window, in whatever order and company. */
  lemma PassCompletes(flight: seq<F.Outgoing>, recs: seq<F.Record>, sent: seq<Message>, limit: nat, events: seq<Event>,
      i: nat)
    requires Honest(sent, limit) && FromPeer(sent, events) && F.FromSent(flight, sent)
    requires F.Tiles(flight, F.Position(0, 0), recs, F.Position(|flight|, 0)) && i < |flight| && flight[i].Handshake?
    ensures forall e | e in events && e.Arrives? :: Encodable(e.f)
    ensures var r := Steps(Begin(), events, limit); var n := flight[i].number;
            InWindow(r.w, n) && AllKept(recs, r.kept, n) ==> SlotOf(r.w, n).Complete()
  {
    var n := flight[i].number;
    assert flight[i] in flight;
    DeliveredAsSent(sent, limit, events, n);
    var r := Steps(Begin(), events, limit);
    if InWindow(r.w, n) && AllKept(recs, r.kept, n) {
      var start, end := F.Position(0, 0), F.Position(|flight|, 0);
      F.EveryMessageIsCarried(flight, start, recs, end, i);
      assert Arrived(r.kept, n);
      forall p | 0 <= p < |sent[n].body| ensures Covered(r.kept, n, p) {
        F.EveryByteIsCarried(flight, start, recs, end, i, p);
      }
    }
  }
}
