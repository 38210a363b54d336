/** Numbers and nonces together: what the record writer numbers, the cipher context never
    turns into the same nonce twice. */
module DtlsNonces {
  import opened Basics
  import opened BigEndian
  import opened DtlsSeal
  import Aead = AeadContext

  /** The number that the cipher context is given as bytes. */
  function NumberOf(o: Raw): nat {
    FromBe(seq(|o|, i requires 0 <= i < |o| => o[i] as int))
  }

  /** Two seals of one generation, that is under one cipher context, are never under one nonce, in
      any configuration whose nonce comes from the number: over every interleaving of seals and
      key changes, while no counter comes round. */
  lemma NoncesNeverRepeat(events: seq<Event>, f: Aead.Flags, i: nat, j: nat, a: Raw, b: Raw)
    requires PossibleRun(Start(), events) && NoOverflow(Start(), events)
    requires i < j < |Seals(Start(), events)| && Seals(Start(), events)[i].0 == Seals(Start(), events)[j].0
    requires |a| == 8 && NumberOf(a) == OnWire(Seals(Start(), events)[i])
    requires |b| == 8 && NumberOf(b) == OnWire(Seals(Start(), events)[j])
    requires Aead.Sound(f) && !f.randomNonce
    ensures Aead.Nonce(f, a) != Aead.Nonce(f, b)
  {
    NumbersNeverRepeat(events);
    hide Seals, PossibleRun, NoOverflow, NumberOf, OnWire;
    if Aead.Nonce(f, a) == Aead.Nonce(f, b) {
      Aead.NonceInjective(f, a, b);
    }
  }
}
