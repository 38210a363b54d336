/** The sending side: sealing a flight into packets and resuming after a stall (d1_both.cc). */
module DtlsSender {
  import opened DtlsWire
  import opened DtlsFlight

  /** What the sender does not decide: sizes of sealed records in the current (false) or the
      previous (true) epoch, and whether the n-th seal, write or flush succeeds. */
  datatype Env = Env(overhead: bool -> nat, prefix: bool -> nat, sealed: (bool, nat) -> nat, succeeds: nat -> bool)

  ghost predicate Bounded(env: Env) {
    forall previous, n: nat :: env.sealed(previous, n) <= n + env.overhead(previous)
  }

  datatype SealResult = SealError | NoProgress | Partial(r: Record, len: nat) | Success(r: Record, len: nat)

  datatype SendResult = Sent | Stalled | Broken

  class Sender {
    const env: Env
    const mtu: nat
    var flight: seq<Outgoing>
    var written: nat
    var offset: nat
    var complete: bool
    var wEpoch: nat
    var writeSeq: nat
    var ticks: nat
    /** The messages ever added, and the records of all datagrams the transport ever took,
        with the datagrams' sizes. */
    ghost var sent: seq<Message>
    ghost var carried: seq<Record>
    ghost var sizes: seq<nat>
    /** The records of the datagrams taken since the pass began; those with the ones that a
        packet had sealed when a later seal failed it; and whether that has happened. */
    ghost var pass: seq<Record>
    ghost var tried: seq<Record>
    ghost var failed: bool

    function Here(): Position
      reads this
    {
      Position(written, offset)
    }

    ghost predicate Sane()
      reads this
    {
      && Bounded(env) && |flight| <= SSL_MAX_HANDSHAKE_FLIGHT && (forall m | m in flight :: Sound(m))
      && InFlight(flight, Here()) && (forall n | n in sizes :: n <= mtu)
      && (!complete ==> Here() == Position(0, 0) && pass == tried == [])
    }

    /** Until the 16-bit numbers have been used up, all that went is cut from what was added. */
    ghost predicate Numbered()
      reads this
    {
      writeSeq == |sent| % 0x1_0000
      && (|sent| <= 0x1_0000 ==> FromSent(flight, sent) && AllCuts(carried, sent))
    }

    /** What was tried in this pass tiles the flight up to here, and what the transport took is
        that, less the packets that failed. */
    ghost predicate Passing()
      reads this
    {
      Tiles(flight, Position(0, 0), tried, Here()) && Thinned(pass, tried) && (!failed ==> pass == tried)
    }

    ghost predicate Valid()
      reads this
    {
      Sane() && Numbered() && Passing()
    }

    constructor (env: Env, mtu: nat)
      requires Bounded(env)
      ensures Valid() && flight == [] && !complete && !failed && this.env == env && this.mtu == mtu
      ensures sent == [] && carried == []
    {
      this.env, this.mtu := env, mtu;
      flight, written, offset, complete, wEpoch, writeSeq, ticks := [], 0, 0, false, 0, 0, 0;
      sent, carried, sizes := [], [], [];
      pass, tried, failed := [], [], false;
    }

    /** dtls_clear_outgoing_messages. */
    method Clear()
      requires Valid()
      modifies this`flight, this`written, this`offset, this`complete, this`pass, this`tried, this`failed
      ensures Valid() && flight == [] && !complete && !failed
    {
      flight, written, offset, complete := [], 0, 0, false;
      pass, tried, failed := [], [], false;
    }

    /** add_outgoing: the first addition after a flush begins a new flight. */
    method AddOutgoing(isCcs: bool, msg: Message) returns (ok: bool)
      requires Valid() && |msg.body| < 0x100_0000
      modifies this
      ensures Valid() && sizes == old(sizes) && carried == old(carried) && wEpoch == old(wEpoch)
      ensures var base := if old(complete) then [] else old(flight);
              if |base| >= SSL_MAX_HANDSHAKE_FLIGHT then !ok && flight == base
              else ok && !complete &&
                   flight == base + [if isCcs then Ccs(wEpoch) else Handshake(wEpoch, old(writeSeq), msg)]
      ensures sent == if ok && !isCcs then old(sent) + [msg] else old(sent)
      ensures writeSeq == if ok && !isCcs then (old(writeSeq) + 1) % 0x1_0000 else old(writeSeq)
    {
      if complete {
        Clear();
      }
      if |flight| >= SSL_MAX_HANDSHAKE_FLIGHT {
        return false;
      }
      hide Valid;
      if isCcs {
        Append(Ccs(wEpoch), []);
      } else {
        Append(Handshake(wEpoch, writeSeq, msg), [msg]);
        writeSeq := (writeSeq + 1) % 0x1_0000;
      }
      return true;
    }

    method Append(m: Outgoing, ghost msgs: seq<Message>)
      requires Valid() && !complete && |flight| < SSL_MAX_HANDSHAKE_FLIGHT && Sound(m)
      requires msgs == if m.Handshake? then [m.msg] else []
      requires m.Handshake? ==> m.number == writeSeq
      modifies this`flight, this`sent
      ensures Sane() && Passing() && !complete && flight == old(flight) + [m] && sent == old(sent) + msgs
      ensures |sent| <= 0x1_0000 ==> FromSent(flight, sent) && AllCuts(carried, sent)
    {
      if m.Handshake? && |sent| < 0x1_0000 {
        SentGrows(flight, carried, sent, m.msg);
      }
      flight, sent := flight + [m], sent + msgs;
    }

    /** dtls1_set_write_state, as far as flights go: what is added from now on is of the next
        epoch. */
    method SetWriteState()
      requires Valid()
      modifies this`wEpoch
      ensures Valid() && wEpoch == (old(wEpoch) + 1) % 0x1_0000
    {
      wEpoch := (wEpoch + 1) % 0x1_0000;
    }

    /** dtls_seal_record, and the epoch whose keys it seals under. */
    method SealRecord(previous: bool, n: nat) returns (sealed: nat, epoch: nat, ok: bool)
      requires previous ==> wEpoch >= 1
      modifies this`ticks
      ensures sealed == env.sealed(previous, n) && epoch == (if previous then wEpoch - 1 else wEpoch)
      ensures ok == env.succeeds(old(ticks)) && ticks == old(ticks) + 1
    {
      epoch := if previous then wEpoch - 1 else wEpoch;
      ok := env.succeeds(ticks);
      ticks := ticks + 1;
      sealed := env.sealed(previous, n);
    }

    /** Messages of an epoch that is neither the present one nor the one before cannot be sealed. */
    predicate Sealable(m: Outgoing)
      reads this
    {
      m.epoch == wEpoch || m.epoch + 1 == wEpoch
    }

    /** The room that a record of the message takes besides its bytes, and the least of them. */
    function Least(m: Outgoing): nat
      reads this
    {
      var overhead := env.overhead(m.epoch + 1 == wEpoch);
      if m.Ccs? then overhead + 1 else overhead + 12 + 1
    }

    /** seal_next_message: a record sealed under the keys of the message's epoch, with as many of its
        bytes as there is room for. */
    method SealNextMessage(maxOut: nat) returns (r: SealResult)
      requires Bounded(env) && InFlight(flight, Here()) && written < |flight|
      modifies this`offset, this`ticks
      ensures Bounded(env) && InFlight(flight, Here())
      ensures r.SealError? || r.NoProgress? ==> offset == old(offset)
      ensures r.Partial? || r.Success? ==> r.len <= maxOut && Carries(flight, old(Here()), r.r)
      ensures r.Partial? ==> After(flight, old(Here()), r.r) == Here() && offset > old(offset)
      ensures r.Success? ==> After(flight, old(Here()), r.r) == Position(written + 1, 0) && offset == 0
      ensures var m := flight[written];
              && (r.SealError? ==> !Sealable(m) || !env.succeeds(old(ticks)))
              && (r.NoProgress? ==> maxOut < Least(m) || (m.Handshake? && maxOut < env.prefix(m.epoch + 1 == wEpoch)))
              && (r.Partial? ==> Least(m) + |r.r.f.body| == maxOut + 1)
    {
      var msg := flight[written];
      var previous := wEpoch >= 1 && msg.epoch == wEpoch - 1;
      if !previous && msg.epoch != wEpoch {
        return SealError;
      }
      var overhead, prefix := env.overhead(previous), env.prefix(previous);
      if msg.Ccs? {
        if maxOut < 1 + overhead {
          return NoProgress;
        }
        var sealed, epoch, ok := SealRecord(previous, 1);
        return if ok then Success(Switch(epoch), sealed) else SealError;
      }
      var body := msg.msg.body[offset..];
      if maxOut < DTLS1_HM_HEADER_LENGTH + 1 + overhead || maxOut < prefix {
        return NoProgress;
      }
      var todo := |body|;
      if todo > maxOut - DTLS1_HM_HEADER_LENGTH - overhead {
        todo := maxOut - DTLS1_HM_HEADER_LENGTH - overhead;
      }
      assert body[..todo] == msg.msg.body[offset..offset + todo];
      var f := Fragment(msg.msg.kind, |msg.msg.body|, msg.number, offset, body[..todo]);
      var sealed, epoch, ok := SealRecord(previous, DTLS1_HM_HEADER_LENGTH + todo);
      if !ok {
        return SealError;
      }
      if todo == |body| {
        offset := 0;
        return Success(Piece(epoch, f), sealed);
      }
      offset := offset + todo;
      return Partial(Piece(epoch, f), sealed);
    }

    /** As much of the flight as fits in one packet. */
    method SealNextPacket(maxOut: nat) returns (ok: bool, packet: seq<Record>, total: nat)
      requires Bounded(env) && InFlight(flight, Here()) && written < |flight|
      modifies this`written, this`offset, this`ticks
      ensures Bounded(env) && InFlight(flight, Here())
      ensures Tiles(flight, old(Here()), packet, Here())
      ensures ok ==> packet != [] && total <= maxOut
    {
      packet, total := [], 0;
      while written < |flight|
        invariant Bounded(env) && InFlight(flight, Here()) && total <= maxOut
                  && Tiles(flight, old(Here()), packet, Here())
        decreases |flight| - written
      {
        ghost var before := Here();
        var r := SealNextMessage(maxOut - total);
        if r.SealError? {
          return false, packet, total;
        }
        if r.NoProgress? {
          break;
        }
        total := total + r.len;
        packet := packet + [r.r];
        if r.Partial? {
          OneMore(flight, old(Here()), packet[..|packet| - 1], before, r.r, Here());
          break;
        }
        written := written + 1;
        OneMore(flight, old(Here()), packet[..|packet| - 1], before, r.r, Here());
      }
      ok := packet != [];
    }

    /** One turn of send_flight's loop: the next packet, if it can be sealed and the transport
        takes it. One that is not taken is tried again from where it began; one that cannot be
        sealed to its end is lost, and what it held is not gone back to. */
    method SendPacket() returns (r: SendResult, ghost packet: seq<Record>)
      requires Valid() && complete && written < |flight|
      modifies this`written, this`offset, this`ticks, this`carried, this`sizes, this`pass, this`tried, this`failed
      ensures Valid() && failed == (old(failed) || r.Broken?)
      ensures tried == if r.Stalled? then old(tried) else old(tried) + packet
      ensures pass == if r.Sent? then old(pass) + packet else old(pass)
      ensures carried == if r.Sent? then old(carried) + packet else old(carried)
      ensures old(sizes) <= sizes && |sizes| == |old(sizes)| + if r.Sent? then 1 else 0
      ensures r.Stalled? ==> Here() == old(Here())
      ensures r.Sent? ==> Nearer(flight, old(Here()), Here())
    {
      var oldWritten, oldOffset := written, offset;
      ghost var from := Here();
      hide Tiles, Carries, Sound, Thinned, FromSent, AllCuts, BytesLeft;
      var ok, total;
      ok, packet, total := SealNextPacket(mtu);
      if !ok {
        Extend(from, packet, false);
        return Broken, packet;
      }
      var taken := env.succeeds(ticks);
      ticks := ticks + 1;
      if !taken {
        written, offset := oldWritten, oldOffset;
        return Stalled, packet;
      }
      Progress(flight, from, packet, Here());
      Extend(from, packet, true);
      sizes := sizes + [total];
      return Sent, packet;
    }

    /** The records of a packet join those tried, and those sent if the transport took it. */
    ghost method Extend(from: Position, packet: seq<Record>, taken: bool)
      requires Sane() && Numbered() && Tiles(flight, from, packet, Here()) && complete
      requires Tiles(flight, Position(0, 0), tried, from) && Thinned(pass, tried) && (!failed ==> pass == tried)
      modifies this`carried, this`pass, this`tried, this`failed
      ensures Valid() && failed == (old(failed) || !taken)
      ensures tried == old(tried) + packet
      ensures pass == if taken then old(pass) + packet else old(pass)
      ensures carried == if taken then old(carried) + packet else old(carried)
    {
      hide Sound, InFlight, Tiles, Thinned, FromSent;
      TilesThen(flight, Position(0, 0), tried, from, packet, Here());
      ThinnedThen(pass, tried, if taken then packet else [], packet);
      assert pass + [] == pass;
      if |sent| <= 0x1_0000 {
        TiledAreCuts(flight, from, packet, Here(), sent);
      }
      tried, failed := tried + packet, failed || !taken;
      if taken {
        pass, carried := pass + packet, carried + packet;
      }
    }

    /** dtls1_flush_flight after the timer: packet after packet. What is tried is sent, except
        `lost`, what a packet held that failed; the next flush goes on behind that. */
    method SendFlight() returns (r: SendResult, ghost lost: seq<Record>)
      requires Valid() && complete
      modifies this`written, this`offset, this`ticks, this`carried, this`sizes, this`pass, this`tried, this`failed
      ensures Valid() && failed == (old(failed) || r.Broken?) && old(sizes) <= sizes
      ensures old(pass) <= pass && carried == old(carried) + pass[|old(pass)|..]
      ensures tried == old(tried) + pass[|old(pass)|..] + lost && (!r.Broken? ==> lost == [])
      ensures r.Sent? ==> Here() == Position(|flight|, 0)
    {
      hide Valid, Tiles, Carries, Sound;
      StaysInFlight();
      lost := [];
      while written < |flight|
        invariant Valid() && InFlight(flight, Here()) && failed == old(failed) && old(sizes) <= sizes
        invariant old(pass) <= pass && carried == old(carried) + pass[|old(pass)|..]
        invariant tried == old(tried) + pass[|old(pass)|..]
        decreases |flight| - written, BytesLeft(flight, Here())
      {
        ghost var t0, c0, p0 := tried, carried, pass;
        var one, packet := SendPacket();
        StaysInFlight();
        if !one.Sent? {
          lost := if one.Broken? then packet else [];
          assert t0 + [] == t0;
          return one, lost;
        }
        OnePacketMore(old(pass), p0, packet);
        Associative(old(tried), p0[|old(pass)|..], packet);
        Associative(old(carried), p0[|old(pass)|..], packet);
      }
      assert tried + [] == tried;
      var flushed := FlushTransport();
      r := if flushed then Sent else Stalled;
    }

    method FlushTransport() returns (ok: bool)
      requires Valid()
      modifies this`ticks
      ensures Valid()
    {
      ok := env.succeeds(ticks);
      ticks := ticks + 1;
    }

    lemma StaysInFlight()
      requires Valid()
      ensures InFlight(flight, Here())
    {
    }

    method FlushFlight() returns (r: SendResult, ghost lost: seq<Record>)
      requires Valid()
      modifies this
      ensures Valid() && flight == old(flight) && complete && wEpoch == old(wEpoch) && sent == old(sent)
      ensures failed == (old(failed) || r.Broken?) && old(sizes) <= sizes
      ensures old(pass) <= pass && carried == old(carried) + pass[|old(pass)|..]
      ensures tried == old(tried) + pass[|old(pass)|..] + lost && (!r.Broken? ==> lost == [])
      ensures r.Sent? ==> Here() == Position(|flight|, 0)
    {
      complete := true;
      r, lost := SendFlight();
    }

    /** dtls1_retransmit_outgoing_messages: a new pass over the same flight. */
    method Retransmit() returns (r: SendResult, ghost lost: seq<Record>)
      requires Valid() && complete
      modifies this
      ensures Valid() && flight == old(flight) && complete && wEpoch == old(wEpoch) && sent == old(sent)
      ensures failed == r.Broken? && old(sizes) <= sizes
      ensures carried == old(carried) + pass && tried == pass + lost && (!r.Broken? ==> lost == [])
      ensures r.Sent? ==> Here() == Position(|flight|, 0)
    {
      written, offset := 0, 0;
      pass, tried, failed := [], [], false;
      r, lost := SendFlight();
    }

    /** After a completed pass, however often it stalled, what the transport took carries
        every message exactly once. */
    lemma PassIsExact(i: nat)
      requires Valid() && !failed && Here() == Position(|flight|, 0) && i < |flight|
      ensures flight[i].Handshake? ==> Gathered(flight, Position(0, 0), pass, i) == flight[i].msg.body
      ensures flight[i].Ccs? || flight[i].msg.body == [] ==> Carriers(flight, Position(0, 0), pass, i) == 1
    {
      TilingIsExact(flight, Position(0, 0), pass, Here(), i);
    }
  }

  lemma OnePacketMore(start: seq<Record>, now: seq<Record>, packet: seq<Record>)
    requires start <= now
    ensures start <= now + packet && (now + packet)[|start|..] == now[|start|..] + packet
  {
  }

  lemma Associative(a: seq<Record>, b: seq<Record>, c: seq<Record>)
    ensures a + b + c == a + (b + c)
  {
  }

  function BytesLeft(flight: seq<Outgoing>, p: Position): nat
    requires InFlight(flight, p)
  {
    if p.written < |flight| && flight[p.written].Handshake? then |flight[p.written].msg.body| - p.offset else 0
  }

  /** Further on: at a later message, or further into this one. */
  predicate Nearer(flight: seq<Outgoing>, from: Position, to: Position)
    requires InFlight(flight, from) && InFlight(flight, to)
  {
    to.written > from.written || (to.written == from.written && BytesLeft(flight, to) < BytesLeft(flight, from))
  }

  /** Records move the position on. */
  lemma {:induction false} Progress(flight: seq<Outgoing>, from: Position, recs: seq<Record>, to: Position)
    requires Tiles(flight, from, recs, to) && recs != [] && InFlight(flight, from)
    ensures InFlight(flight, to)
    ensures Nearer(flight, from, to)
    decreases |recs|
  {
    var next := After(flight, from, recs[0]);
    AfterInFlight(flight, from, recs[0]);
    if recs[1..] != [] {
      Progress(flight, next, recs[1..], to);
    }
  }

  lemma OneMore(flight: seq<Outgoing>, a: Position, packet: seq<Record>, b: Position, r: Record, c: Position)
    requires Tiles(flight, a, packet, b) && b.written < |flight| && Carries(flight, b, r) && After(flight, b, r) == c
    ensures Tiles(flight, a, packet + [r], c)
  {
    assert [r][1..] == [];
    TilesThen(flight, a, packet, b, [r], c);
  }
}
