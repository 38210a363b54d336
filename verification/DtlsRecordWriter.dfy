/** dtls_seal_record and dtls1_set_write_state on the byte arrays that hold the counters. */
module DtlsRecordWriter {
  import opened Basics
  import opened BigEndian
  import opened DtlsWire
  import opened DtlsReplay
  import opened DtlsSeal
  import Bits

  /** One more, big-endian, coming round at the top. */
  function Increment(b: Bytes): (r: Bytes)
    ensures |r| == |b|
    decreases |b|
  {
    if b == [] then []
    else if b[|b| - 1] < 0xff then b[..|b| - 1] + [b[|b| - 1] + 1]
    else Increment(b[..|b| - 1]) + [0]
  }

  function Nought(n: nat): (z: Bytes)
    ensures |z| == n
  {
    seq(n, i => 0)
  }

  lemma {:induction false} IncrementCounts(b: Bytes)
    ensures FromBe(b) < Bits.Pow2(8 * |b|)
    ensures FromBe(Increment(b)) == if FromBe(b) + 1 == Bits.Pow2(8 * |b|) then 0 else FromBe(b) + 1
    decreases |b|
  {
    FromBeBound(b);
    if b != [] {
      var c := b[..|b| - 1];
      assert Bits.Pow2(8 * |b|) == 0x100 * Bits.Pow2(8 * |c|) by {
        Bits.Pow2Adds(8, 8 * |c|);
        Bits.WordSizes();
      }
      IncrementCounts(c);
      var r := Increment(b);
      if b[|b| - 1] < 0xff {
        assert r[..|r| - 1] == c;
      } else {
        assert r[..|r| - 1] == Increment(c);
      }
    }
  }

  /** ssl_record_sequence_update on the bytes of `s` from `from`: the carry runs down until
      a byte does not come round. */
  method SequenceUpdate(s: array<byte>, from: nat) returns (ok: bool)
    requires from < s.Length
    modifies s
    ensures s[..][..from] == old(s[..][..from]) && s[..][from..] == Increment(old(s[..][from..]))
    ensures ok <==> FromBe(old(s[..][from..])) + 1 < Bits.Pow2(8 * (s.Length - from))
  {
    ghost var head, was := s[..][..from], s[..][from..];
    ghost var tail := was;
    SequenceFacts(was);
    hide *;
    var i := s.Length;
    while i > from
      invariant from <= i <= s.Length && |head| == from && |was| == |tail| == s.Length - from
      invariant s[..] == head + tail && Turned(was, i - from, tail)
    {
      i := i - 1;
      Carry(was, i - from + 1, tail);
      ghost var at := i - from;
      assert s[i] == tail[at];
      var b := BumpByte(s, i);
      UpdateTail(head, tail, i, b);
      tail := tail[at := b];
      if b != 0 {
        return true;
      }
    }
    LastTurned(was, tail);
    UpdateTail(head, tail, from, tail[0]);
    assert tail[0 := tail[0]] == tail;
    return false;
  }

  method BumpByte(s: array<byte>, i: nat) returns (b: byte)
    requires i < s.Length
    modifies s
    ensures s[..] == old(s[..])[i := b] && b == if old(s[i]) == 0xff then 0 else old(s[i]) + 1
  {
    b := if s[i] == 0xff then 0 else s[i] + 1;
    s[i] := b;
  }

  lemma SequenceFacts(was: Bytes)
    ensures Turned(was, |was|, was) && FromBe(was) < Bits.Pow2(8 * |was|)
  {
    IncrementCounts(was);
    TurnedAtFirst(was);
  }

  /** Bytes from `n` on have come round, and it is for the first `n` to take the carry. */
  ghost predicate Turned(was: Bytes, n: nat, now: Bytes) {
    && n <= |was| == |now| && now == was[..n] + Nought(|was| - n)
    && Increment(was) == Increment(was[..n]) + Nought(|was| - n)
    && (FromBe(was) + 1 == Bits.Pow2(8 * |was|) <==> FromBe(was[..n]) + 1 == Bits.Pow2(8 * n))
  }

  lemma UpdateTail(head: Bytes, tail: Bytes, i: nat, b: byte)
    requires |head| <= i < |head| + |tail|
    ensures (head + tail)[i := b] == head + tail[i - |head| := b]
    ensures (head + tail[i - |head| := b])[..|head|] == head
            && (head + tail[i - |head| := b])[|head|..] == tail[i - |head| := b]
  {
  }

  lemma LastTurned(was: Bytes, now: Bytes)
    requires Turned(was, 0, now)
    ensures now == Increment(was) && FromBe(was) + 1 == Bits.Pow2(8 * |was|)
  {
    assert was[..0] == [];
    assert now == Nought(|was|) == Increment(was);
  }

  lemma TurnedAtFirst(was: Bytes)
    ensures Turned(was, |was|, was)
  {
    assert was[..|was|] == was && Nought(0) == [];
  }

  /** Coming round, counted: the last byte is full and so is the rest. */
  lemma FullWithLast(c: Bytes)
    requires c != []
    ensures var d := c[..|c| - 1];
            FromBe(c) + 1 == Bits.Pow2(8 * |c|) <==> c[|c| - 1] == 0xff && FromBe(d) + 1 == Bits.Pow2(8 * |d|)
  {
    var d := c[..|c| - 1];
    FromBeBound(d);
    assert Bits.Pow2(8 * |c|) == 0x100 * Bits.Pow2(8 * |d|) by {
      Bits.Pow2Adds(8, 8 * |d|);
      Bits.WordSizes();
    }
  }

  lemma Carry(was: Bytes, n: nat, now: Bytes)
    requires n > 0 && Turned(was, n, now)
    ensures now[n - 1] == was[n - 1]
    ensures was[n - 1] == 0xff ==> Turned(was, n - 1, now[n - 1 := 0])
    ensures was[n - 1] < 0xff ==> Increment(was) == now[n - 1 := was[n - 1] + 1]
    ensures was[n - 1] < 0xff ==> FromBe(was) + 1 != Bits.Pow2(8 * |was|)
  {
    FullWithLast(was[..n]);
    assert was[..n][..n - 1] == was[..n - 1];
    hide Bits.Pow2, FromBe;
    if was[n - 1] == 0xff {
      CarriesOn(was, n, now);
    } else {
      CarryEnds(was, n, now);
    }
  }

  lemma CarriesOn(was: Bytes, n: nat, now: Bytes)
    requires 0 < n <= |was| == |now| && was[n - 1] == 0xff
    requires now == was[..n] + Nought(|was| - n) && Increment(was) == Increment(was[..n]) + Nought(|was| - n)
    ensures now[n - 1 := 0] == was[..n - 1] + Nought(|was| - n + 1)
    ensures Increment(was) == Increment(was[..n - 1]) + Nought(|was| - n + 1)
  {
    var d, zeros := was[..n - 1], Nought(|was| - n);
    assert was[..n][..n - 1] == d && Increment(was[..n]) == Increment(d) + [0];
    hide Increment;
    assert Nought(|was| - n + 1) == [0] + zeros;
    assert Increment(d) + [0] + zeros == Increment(d) + ([0] + zeros);
    assert now[n - 1 := 0] == d + ([0] + zeros);
  }

  lemma CarryEnds(was: Bytes, n: nat, now: Bytes)
    requires 0 < n <= |was| == |now| && was[n - 1] < 0xff
    requires now == was[..n] + Nought(|was| - n) && Increment(was) == Increment(was[..n]) + Nought(|was| - n)
    ensures Increment(was) == now[n - 1 := was[n - 1] + 1]
  {
    var d, zeros := was[..n - 1], Nought(|was| - n);
    assert was[..n][..n - 1] == d && Increment(was[..n]) == d + [was[n - 1] + 1];
    hide Increment;
    assert now[n - 1 := was[n - 1] + 1] == d + [was[n - 1] + 1] + zeros;
  }

  class RecordWriter {
    const writeSequence: array<byte>
    const lastWriteSequence: array<byte>
    var wEpoch: nat
    ghost var state: State

    /** The arrays are the counters, in their six low bytes. */
    ghost predicate Valid()
      reads this, writeSequence, lastWriteSequence
    {
      && writeSequence != lastWriteSequence && writeSequence.Length == lastWriteSequence.Length == 8
      && DtlsSeal.Valid(state) && wEpoch == Epoch(state.generation)
      && FromBe(writeSequence[..][2..]) == state.current.next && FromBe(lastWriteSequence[..][2..]) == state.last.next
    }

    constructor ()
      ensures Valid() && state == Start() && fresh(writeSequence) && fresh(lastWriteSequence)
    {
      writeSequence := new byte[8](_ => 0);
      lastWriteSequence := new byte[8](_ => 0);
      wEpoch, state := 0, Start();
      new;
      ZeroCounts(writeSequence[..][2..]);
      ZeroCounts(lastWriteSequence[..][2..]);
    }

    /** The number of the next record: the epoch in two bytes and the counter in six. */
    method Number(previous: bool) returns (sequence: Bytes)
      requires Valid() && (previous ==> wEpoch >= 1)
      ensures |sequence| == 8
              && FromBe(sequence) == OnWire((GenerationOf(state, previous), CounterOf(state, previous).next))
    {
      hide DtlsSeal.Valid, FromBe, Increment, Bits.Pow2;
      EpochBefore(state.generation);
      if previous {
        sequence := Be16(wEpoch - 1) + lastWriteSequence[..][2..];
        NumberOf(wEpoch - 1, lastWriteSequence[..][2..]);
      } else {
        sequence := Be16(wEpoch) + writeSequence[..][2..];
        NumberOf(wEpoch, writeSequence[..][2..]);
      }
    }

    /** The counter that was used goes up by one. */
    method Count(previous: bool, fits: bool) returns (ok: bool)
      requires Valid() && (previous ==> wEpoch >= 1)
      modifies this`state, writeSequence, lastWriteSequence
      ensures var e := Seal(previous, true, fits);
              Valid() && Possible(old(state), e) && state == Step(old(state), e) && ok == Succeeds(old(state), e)
    {
      hide Accounts, FromBe, Increment, Bits.Pow2;
      ghost var e := Seal(previous, true, fits);
      StepKeeps(state, e);
      IncrementCounts((if previous then lastWriteSequence else writeSequence)[..][2..]);
      state := Step(state, e);
      hide DtlsSeal.Valid;
      assert Bits.Pow2(48) == TWO_48 by { NumberOf(0, [0, 0, 0, 0, 0, 0]); }
      if previous {
        ok := SequenceUpdate(lastWriteSequence, 2);
      } else {
        ok := SequenceUpdate(writeSequence, 2);
      }
      ok := ok && fits;
    }

    /** dtls_seal_record: `sequence` is the number written in the header and given to the
        cipher, which answers in `aeadOk` and `length`. */
    method SealRecord(previous: bool, aeadOk: bool, length: nat) returns (ok: bool, sequence: Bytes)
      requires Valid() && (previous ==> wEpoch >= 1)
      modifies this`state, writeSequence, lastWriteSequence
      ensures var e := Seal(previous, aeadOk, length < 0x1_0000);
              && Valid() && Possible(old(state), e) && state == Step(old(state), e) && ok == Succeeds(old(state), e)
              && |sequence| == 8
              && FromBe(sequence) == OnWire((GenerationOf(old(state), previous), CounterOf(old(state), previous).next))
    {
      sequence := Number(previous);
      hide FromBe, OnWire, DtlsSeal.Valid;
      if !aeadOk {
        return false, sequence;
      }
      ok := Count(previous, length < 0x1_0000);
    }

    /** dtls1_set_write_state. */
    method SetWriteState()
      requires Valid()
      modifies this`state, this`wEpoch, writeSequence, lastWriteSequence
      ensures Valid() && state == Step(old(state), ChangeKeys)
    {
      hide Accounts, FromBe;
      StepKeeps(state, ChangeKeys);
      state := Step(state, ChangeKeys);
      wEpoch := (wEpoch + 1) % 0x1_0000;
      Copy(lastWriteSequence, writeSequence);
      Clear(writeSequence);
      ZeroCounts(writeSequence[..][2..]);
    }
  }

  lemma EpochBefore(generation: nat)
    ensures Epoch(generation) >= 1 ==> generation >= 1 && Epoch(generation - 1) == Epoch(generation) - 1
  {
  }

  method Copy(to: array<byte>, from: array<byte>)
    requires to != from && to.Length == from.Length
    modifies to
    ensures to[..] == from[..]
  {
    forall i | 0 <= i < to.Length {
      to[i] := from[i];
    }
  }

  method Clear(a: array<byte>)
    modifies a
    ensures forall i | 0 <= i < a.Length :: a[i] == 0
  {
    forall i | 0 <= i < a.Length {
      a[i] := 0;
    }
  }

  lemma {:induction false} ZeroCounts(b: Bytes)
    requires forall i | 0 <= i < |b| :: b[i] == 0
    ensures FromBe(b) == 0
    decreases |b|
  {
    if b != [] {
      ZeroCounts(b[..|b| - 1]);
    }
  }

  lemma NumberOf(epoch: nat, low: Bytes)
    requires epoch < 0x1_0000 && |low| == 6
    ensures FromBe(Be16(epoch) + low) == epoch * TWO_48 + FromBe(low)
    ensures Bits.Pow2(48) == TWO_48
  {
    FromBeSplit(Be16(epoch), low);
    BeTrip(epoch);
    assert Bits.Pow2(48) == TWO_48 by {
      Bits.Pow2Adds(16, 32);
      Bits.WordSizes();
    }
  }
}
