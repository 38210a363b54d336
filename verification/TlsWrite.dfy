/** Writing application data to a transport that takes what it likes: ssl3_write_app_data and
    its resumption after stalls (s3_pkt.cc, ssl_buffer.cc). */
module TlsWrite {
  import opened Basics

  const SSL3_RT_MAX_PLAIN_LENGTH: nat := 16384
  const BUFFER_MAX: nat := 0xffff
  const APPLICATION_DATA: nat := 23
  const HANDSHAKE: nat := 22
  const INT_MAX: nat := 0x7FFF_FFFF

  /** What the writer does not decide: the n-th record sealed, of some type around a plaintext,
      whether the n-th attempt at sealing succeeds, how much the n-th write takes (nothing or less: stall). */
  datatype Env = Env(seal: (nat, nat, Bytes) -> Bytes, seals: nat -> bool, takes: nat -> int, overhead: nat)

  /** From now on nothing fails and nothing stalls. */
  ghost predicate Willing(env: Env, ticks: nat) {
    forall n: nat | n >= ticks :: env.seals(n) && env.takes(n) > 0
  }

  function Flatten(parts: seq<Bytes>): Bytes {
    if parts == [] then [] else Flatten(parts[..|parts| - 1]) + parts[|parts| - 1]
  }

  /** The records of one type, the first being number n. */
  function Sealed(env: Env, kind: nat, n: nat, parts: seq<Bytes>): Bytes {
    if parts == [] then []
    else Sealed(env, kind, n, parts[..|parts| - 1]) + env.seal(kind, n + |parts| - 1, parts[|parts| - 1])
  }

  /** What is queued before, what is left of the flight if anything was sealed since, and the
      records sealed since. */
  function Queued(env: Env, before: Bytes, left: Bytes, earlier: seq<Bytes>, records: seq<Bytes>): Bytes
    requires earlier <= records
  {
    before + (if records == earlier then [] else left) + Sealed(env, APPLICATION_DATA, |earlier|, records[|earlier|..])
  }

  lemma NothingQueued(env: Env, before: Bytes, left: Bytes, earlier: seq<Bytes>)
    ensures Queued(env, before, left, earlier, earlier) == before
  {
    assert earlier[|earlier|..] == [] && before + [] + [] == before;
  }

  lemma OneQueued(env: Env, before: Bytes, left: Bytes, earlier: seq<Bytes>, records: seq<Bytes>, data: Bytes)
    requires earlier <= records
    ensures Queued(env, before, left, earlier, records + [data])
         == Queued(env, before, left, earlier, records) + (if records == earlier then left else [])
           + env.seal(APPLICATION_DATA, |records|, data)
  {
    var parts, more := records[|earlier|..], (records + [data])[|earlier|..];
    assert more == parts + [data] && more[..|parts|] == parts;
    if records == earlier {
      assert parts == [] && before + [] + [] == before;
      var record := env.seal(APPLICATION_DATA, |records|, data);
      assert before + left + ([] + record) == before + left + record;
    } else {
      assert |records + [data]| > |earlier|;
      var start, sealed := before + left, Sealed(env, APPLICATION_DATA, |earlier|, parts);
      var record := env.seal(APPLICATION_DATA, |records|, data);
      assert start + (sealed + record) == start + sealed + [] + record;
    }
  }

  /** The next chunk of the data follows what was sealed. */
  lemma OneChunk(job: seq<Bytes>, data: Bytes, tot: nat, nw: nat)
    requires tot + nw <= |data| && Flatten(job) == data[..tot]
    ensures Flatten(job + [data[tot..tot + nw]]) == data[..tot + nw]
  {
    assert (job + [data[tot..tot + nw]])[..|job|] == job;
  }

  lemma NoParts(env: Env, kind: nat, n: nat)
    ensures Flatten([]) == [] && Sealed(env, kind, n, []) == []
  {
  }

  lemma OnePart(env: Env, kind: nat, n: nat, left: Bytes, parts: seq<Bytes>, data: Bytes)
    ensures left + Sealed(env, kind, n, parts) + env.seal(kind, n + |parts|, data)
         == left + Sealed(env, kind, n, parts + [data])
  {
    assert (parts + [data])[..|parts|] == parts;
    Regroup(left, Sealed(env, kind, n, parts), env.seal(kind, n + |parts|, data));
  }

  lemma Regroup(a: Bytes, b: Bytes, c: Bytes)
    ensures a + b + c == a + (b + c)
  {
  }

  lemma PartGone(stream: Bytes, flight: Bytes, offset: nat, n: nat)
    requires offset + n <= |flight|
    ensures stream + flight[offset..offset + n] + flight[offset + n..] == stream + flight[offset..]
    ensures forall b: Bytes :: b + [] == b
  {
  }

  lemma Joins(wire: Bytes, left: Bytes, record: Bytes)
    ensures wire + [] == wire && [] + record == record && wire + [] + record == wire + record
    ensures wire + (left + record) == wire + left + record
  {
  }

  function Min(a: nat, b: nat): nat {
    if a < b then a else b
  }

  class Writer {
    const env: Env
    const maxSendFragment: nat
    const movingBuffer: bool
    var writeShutdown: bool
    var wnum: nat
    var flight: Option<Bytes>
    var flightOffset: nat
    var buffer: Bytes
    var pending: bool
    var pendTot: nat
    var pendBuf: int
    var pendKind: nat
    var pendRet: nat
    var ticks: nat
    var sealCount: nat
    /** What the transport has taken. */
    var wire: Bytes
    /** All that was ever queued, all plaintexts sealed, and those of the unfinished write. */
    ghost var stream: Bytes
    ghost var records: seq<Bytes>
    ghost var job: seq<Bytes>

    function FlightLeft(): Bytes
      requires flight.Some? ==> flightOffset <= |flight.value|
      reads this
    {
      if flight.Some? then flight.value[flightOffset..] else []
    }

    ghost predicate Valid()
      reads this
    {
      && 0 < maxSendFragment <= SSL3_RT_MAX_PLAIN_LENGTH
      && (flight.Some? ==> flightOffset <= |flight.value|)
      && wire + buffer == stream && sealCount == |records|
      && (pending ==> pendTot == pendRet > 0)
    }

    /** A flight is in the buffer with no record after it: sealing failed at the wrong moment. No
        write gets out of this; the flush of a later flight does. */
    predicate Stuck()
      reads this
    {
      buffer != [] && !pending
    }

    /** The first `at` bytes of data, and those of the record not yet taken, have been sealed, and
        that record is the one that comes next. */
    ghost predicate WritingFrom(at: nat, address: int, data: Bytes)
      reads this`pending, this`pendTot, this`pendBuf, this`pendKind, this`job
    {
      && (if pending then at + pendTot <= |data| && Flatten(job) == data[..at + pendTot]
                          && pendKind == APPLICATION_DATA && (movingBuffer || pendBuf == address + at)
                          && pendTot == Min(|data| - at, maxSendFragment)
          else at <= |data| && Flatten(job) == data[..at])
      && (at == |data| ==> data == [])
    }

    /** No write has been left unfinished, or that of data at this address. */
    ghost predicate Writing(address: int, data: Bytes)
      reads this
    {
      WritingFrom(wnum, address, data)
    }

    constructor (env: Env, maxSendFragment: nat, movingBuffer: bool)
      requires 0 < maxSendFragment <= SSL3_RT_MAX_PLAIN_LENGTH
      ensures Valid() && !Stuck() && fresh(this) && forall address, data :: Writing(address, data)
    {
      this.env, this.maxSendFragment, this.movingBuffer := env, maxSendFragment, movingBuffer;
      writeShutdown, wnum, flight, flightOffset, buffer, wire := false, 0, None, 0, [], [];
      pending, pendTot, pendBuf, pendKind, pendRet, ticks, sealCount := false, 0, 0, 0, 0, 0, 0;
      stream, records, job := [], [], [];
    }

    /** tls_write_buffer_flush. */
    method Flush() returns (r: int)
      requires Valid()
      modifies this`buffer, this`wire, this`ticks
      ensures Valid() && ticks >= old(ticks)
      ensures r > 0 ==> r == 1 && buffer == []
      ensures r <= 0 ==> buffer != []
      ensures Willing(env, old(ticks)) ==> r > 0
    {
      while buffer != []
        invariant Valid() && ticks >= old(ticks)
        decreases |buffer|
      {
        var took := env.takes(ticks);
        ticks := ticks + 1;
        if took <= 0 {
          return took;
        }
        var n := Min(took, |buffer|);
        assert wire + buffer == wire + buffer[..n] + buffer[n..];
        wire, buffer := wire + buffer[..n], buffer[n..];
      }
      return 1;
    }

    /** add_record_to_flight: never into a flight that is being written out. */
    method AddRecord(kind: nat, data: Bytes) returns (ok: bool)
      requires Valid() && flightOffset == 0
      modifies this`flight, this`ticks, this`sealCount, this`records
      ensures Valid() && ticks == old(ticks) + 1 && ok == env.seals(old(ticks)) && flight.Some?
      ensures records == if ok then old(records) + [data] else old(records)
      ensures FlightLeft() == old(FlightLeft()) + if ok then env.seal(kind, |old(records)|, data) else []
    {
      if flight.None? {
        flight := Some([]);
      }
      ok := env.seals(ticks);
      ticks := ticks + 1;
      if ok {
        flight := Some(flight.value + env.seal(kind, sealCount, data));
        sealCount, records := sealCount + 1, records + [data];
      }
    }

    /** ssl3_add_message: the message joins the flight in as many records as it takes, all but the
        last of them full, and at least one. */
    method AddMessage(msg: Bytes) returns (ok: bool, ghost parts: seq<Bytes>)
      requires Valid() && flightOffset == 0
      modifies this`flight, this`ticks, this`sealCount, this`records
      ensures Valid() && flight.Some? && ticks >= old(ticks) && records == old(records) + parts
      ensures FlightLeft() == old(FlightLeft()) + Sealed(env, HANDSHAKE, |old(records)|, parts)
      ensures forall i | 0 <= i < |parts| - 1 :: |parts[i]| == maxSendFragment
      ensures forall i | 0 <= i < |parts| :: |parts[i]| <= maxSendFragment
      ensures if ok then parts != [] && Flatten(parts) == msg else Flatten(parts) <= msg
      ensures Willing(env, old(ticks)) ==> ok
    {
      hide Flatten, Sealed;
      NoParts(env, HANDSHAKE, |records|);
      parts := [];
      var at, done := 0, false;
      Joins(FlightLeft(), [], []);
      assert records + [] == records && msg[..0] == [];
      while !done
        invariant Valid() && flightOffset == 0 && ticks >= old(ticks) && records == old(records) + parts
        invariant at <= |msg| && Flatten(parts) == msg[..at]
        invariant done ==> parts != [] && flight.Some? && at == |msg|
        invariant FlightLeft() == old(FlightLeft()) + Sealed(env, HANDSHAKE, |old(records)|, parts)
        invariant forall i | 0 <= i < |parts| :: |parts[i]| <= maxSendFragment
        invariant forall i | 0 <= i < |parts| - if done then 1 else 0 :: |parts[i]| == maxSendFragment
        decreases |msg| - at, !done
      {
        var n := Min(|msg| - at, maxSendFragment);
        ok := AddRecord(HANDSHAKE, msg[at..at + n]);
        if !ok {
          Joins(FlightLeft(), [], []);
          return;
        }
        OneChunk(parts, msg, at, n);
        OnePart(env, HANDSHAKE, |old(records)|, old(FlightLeft()), parts, msg[at..at + n]);
        assert old(records) + parts + [msg[at..at + n]] == old(records) + (parts + [msg[at..at + n]]);
        parts := parts + [msg[at..at + n]];
        at := at + n;
        done := at == |msg|;
      }
      assert msg[..|msg|] == msg;
      ok := true;
    }

    /** A message of its own flight: when the flush comes to its end, what was queued before has
        gone, and behind it the records whose plaintexts are the message. */
    method SendMessage(msg: Bytes) returns (r: int, ghost parts: seq<Bytes>)
      requires Valid() && flightOffset == 0
      modifies this`buffer, this`wire, this`ticks, this`flight, this`flightOffset, this`stream, this`sealCount,
        this`records
      ensures Valid() && records == old(records) + parts
      ensures r > 0 ==> Flatten(parts) == msg && flight == None && buffer == [] &&
                        wire == old(stream + FlightLeft()) + Sealed(env, HANDSHAKE, |old(records)|, parts)
      ensures r <= 0 ==> stream + FlightLeft() == old(stream + FlightLeft())
                                                  + Sealed(env, HANDSHAKE, |old(records)|, parts)
    {
      hide Flatten, Sealed;
      var ok;
      ok, parts := AddMessage(msg);
      Regroup(stream, old(FlightLeft()), Sealed(env, HANDSHAKE, |old(records)|, parts));
      if !ok {
        return -1, parts;
      }
      r := FlushFlight();
      Joins(wire, [], []);
      Joins(stream, [], []);
    }

    /** ssl3_flush_flight: what is in the write buffer goes first, then what is left of the
        flight. Whether or not it comes to its end, nothing is lost or overtaken, and an
        unfinished write stays as it was. */
    method FlushFlight() returns (r: int)
      requires Valid()
      modifies this`buffer, this`wire, this`ticks, this`flight, this`flightOffset, this`stream
      ensures Valid() && stream + FlightLeft() == old(stream + FlightLeft())
      ensures old(flight) == None ==> r == 1 && buffer == old(buffer) && flight == None
      ensures old(flight).Some? && r > 0 ==> r == 1 && flight == None && buffer == [] && !Stuck()
      ensures r <= 0 ==> flight == old(flight) && (writeShutdown ==> buffer == old(buffer) && wire == old(wire))
      ensures Willing(env, old(ticks)) && !writeShutdown && |old(FlightLeft())| + old(flightOffset) <= INT_MAX ==> r > 0
    {
      if flight.None? {
        return 1;
      }
      if writeShutdown || |flight.value| > INT_MAX {
        return -1;
      }
      r := Flush();
      if r <= 0 {
        return r;
      }
      r := WriteFlight();
      if r <= 0 {
        return r;
      }
      var flushed := env.takes(ticks);
      ticks := ticks + 1;
      if flushed <= 0 {
        return -1;
      }
      flight, flightOffset := None, 0;
      return 1;
    }

    /** Its loop. */
    method WriteFlight() returns (r: int)
      requires Valid() && flight.Some? && buffer == []
      modifies this`wire, this`ticks, this`flightOffset, this`stream
      ensures Valid() && stream + FlightLeft() == old(stream + FlightLeft()) && ticks >= old(ticks)
      ensures r > 0 ==> FlightLeft() == []
      ensures Willing(env, old(ticks)) ==> r > 0
    {
      while flightOffset < |flight.value|
        invariant Valid() && stream + FlightLeft() == old(stream + FlightLeft()) && ticks >= old(ticks)
        decreases |flight.value| - flightOffset
      {
        var took := env.takes(ticks);
        ticks := ticks + 1;
        if took <= 0 {
          return took;
        }
        var n := Min(took, |flight.value| - flightOffset);
        Put(n);
      }
      return 1;
    }

    /** The transport takes `n` bytes of the flight. */
    method Put(n: nat)
      requires Valid() && flight.Some? && buffer == [] && flightOffset + n <= |flight.value|
      modifies this`wire, this`flightOffset, this`stream
      ensures Valid() && flightOffset == old(flightOffset) + n && stream + FlightLeft() == old(stream + FlightLeft())
    {
      var part := flight.value[flightOffset..flightOffset + n];
      PartGone(stream, flight.value, flightOffset, n);
      wire, stream, flightOffset := wire + part, stream + part, flightOffset + n;
    }

    /** ssl3_write_pending. */
    method WritePending(kind: nat, address: int, len: nat) returns (r: int)
      requires Valid() && pending
      modifies this`buffer, this`wire, this`ticks, this`pending
      ensures Valid() && ticks >= old(ticks)
      ensures r > 0 ==> !pending && buffer == [] && r == pendRet
      ensures r <= 0 ==> pending
      ensures !Resumes(kind, address, len) ==> r == -1 && buffer == old(buffer) && wire == old(wire)
      ensures Resumes(kind, address, len) && Willing(env, old(ticks)) ==> r > 0
    {
      if pendTot > len || (!movingBuffer && pendBuf != address) || pendKind != kind {
        return -1;
      }
      r := Flush();
      if r <= 0 {
        return r;
      }
      pending := false;
      return pendRet;
    }

    /** do_ssl3_write: flush the record that is pending, or seal a new one behind what is left
        of the flight. */
    method DoWrite(kind: nat, address: int, data: Bytes) returns (r: int, ghost sealed: bool)
      requires Valid()
      modifies this
      ensures Valid() && ticks >= old(ticks) && wnum == old(wnum) && writeShutdown == old(writeShutdown)
      ensures sealed ==>
                && !old(pending) && !old(Stuck()) && 0 < |data| <= SSL3_RT_MAX_PLAIN_LENGTH
                && records == old(records) + [data] && job == old(job) + [data] && flight == None
                && stream == old(stream) + old(FlightLeft()) + env.seal(kind, |old(records)|, data)
                && pendTot == pendRet == |data| && pendBuf == address && pendKind == kind
      ensures !sealed ==>
                && records == old(records) && job == old(job)
                && pendTot == old(pendTot) && pendBuf == old(pendBuf) && pendKind == old(pendKind)
                   && pendRet == old(pendRet)
                && (!old(pending) ==> r <= 0 && !pending)
                && (stream == old(stream) || (Stuck() && !old(Stuck())))
                   && (flight == old(flight) || FlightLeft() == [])
      ensures old(pending) ==> stream == old(stream) && flight == old(flight) && flightOffset == old(flightOffset)
      ensures r > 0 ==> !pending && buffer == [] && r == pendRet <= |data|
      ensures r <= 0 && (sealed || old(pending)) ==> pending
      ensures old(Stuck()) ==> r == -1 && Stuck()
      ensures !old(pending) && !old(Stuck()) && data == [] ==> r == 0
      ensures Willing(env, old(ticks)) ==>
                if old(pending) then old(Resumes(kind, address, |data|)) ==> r > 0
                else old(CanSeal(data)) ==> sealed && r > 0
    {
      if pending {
        sealed := false;
        r := WritePending(kind, address, |data|);
        return;
      }
      if |data| > SSL3_RT_MAX_PLAIN_LENGTH || buffer != [] {
        return -1, false;
      }
      if |data| == 0 {
        return 0, false;
      }
      var ok := Queue(kind, data);
      sealed := ok;
      if !ok {
        return -1, sealed;
      }
      Memorize(kind, address, |data|);
      r := WritePending(kind, address, |data|);
    }

    method Memorize(kind: nat, address: int, len: nat)
      requires Valid() && len > 0
      modifies this`pending, this`pendTot, this`pendBuf, this`pendKind, this`pendRet
      ensures Valid() && pending && pendTot == pendRet == len && pendBuf == address && pendKind == kind
    {
      pendTot, pendBuf, pendKind, pendRet, pending := len, address, kind, len, true;
    }

    /** Its part from EnsureCap to the sealed record. */
    method Queue(kind: nat, data: Bytes) returns (ok: bool)
      requires Valid() && !pending && buffer == [] && 0 < |data| <= SSL3_RT_MAX_PLAIN_LENGTH
      modifies this`ticks, this`buffer, this`stream, this`sealCount, this`records, this`job, this`flight,
        this`flightOffset
      ensures Valid() && ticks >= old(ticks)
      ensures ok ==>
                && records == old(records) + [data] && job == old(job) + [data] && flight == None
                && stream == old(stream) + old(FlightLeft()) + env.seal(kind, |old(records)|, data)
      ensures !ok ==>
                && records == old(records) && job == old(job)
                && (stream == old(stream) || Stuck()) && (flight == old(flight) || FlightLeft() == [])
      ensures Willing(env, old(ticks)) && old(CanSeal(data)) ==> ok
    {
      var left := FlightLeft();
      if |left| + |data| + env.overhead > BUFFER_MAX {
        return false;
      }
      MoveFlight();
      ok := Seal(kind, data);
    }

    /** What is left of the flight goes first. */
    method MoveFlight()
      requires Valid() && buffer == []
      modifies this`buffer, this`stream, this`flight, this`flightOffset
      ensures Valid() && flight == None && buffer == old(FlightLeft()) && stream == old(stream + FlightLeft())
      ensures old(FlightLeft()) == [] ==> stream == old(stream)
    {
      Joins(wire, FlightLeft(), []);
      if flight.Some? {
        buffer, stream := FlightLeft(), stream + FlightLeft();
        flight, flightOffset := None, 0;
      }
    }

    /** tls_seal_record behind what is in the buffer. */
    method Seal(kind: nat, data: Bytes) returns (ok: bool)
      requires Valid()
      modifies this`ticks, this`buffer, this`stream, this`sealCount, this`records, this`job
      ensures Valid() && ticks == old(ticks) + 1 && ok == env.seals(old(ticks))
      ensures ok ==> records == old(records) + [data] && job == old(job) + [data]
                     && stream == old(stream) + env.seal(kind, |old(records)|, data)
      ensures !ok ==> records == old(records) && job == old(job) && stream == old(stream) && buffer == old(buffer)
    {
      ok := env.seals(ticks);
      ticks := ticks + 1;
      if ok {
        var record := env.seal(kind, sealCount, data);
        Joins(wire, buffer, record);
        buffer, stream, sealCount := buffer + record, stream + record, sealCount + 1;
        records, job := records + [data], job + [data];
      }
    }

    /** The arguments are those the pending record was sealed with. */
    predicate Resumes(kind: nat, address: int, len: nat)
      reads this
    {
      pendTot <= len && (movingBuffer || pendBuf == address) && pendKind == kind
    }

    predicate CanSeal(data: Bytes)
      requires flight.Some? ==> flightOffset <= |flight.value|
      reads this
    {
      !Stuck() && 0 < |data| <= SSL3_RT_MAX_PLAIN_LENGTH && |FlightLeft()| + |data| + env.overhead <= BUFFER_MAX
    }

    /** One turn of the loop below: the chunk at tot, or the pending record that holds it. */
    method WriteChunk(address: int, data: Bytes, tot: nat, nw: nat) returns (ret: int, ghost sealed: bool)
      requires Valid() && tot + nw <= |data| && nw == Min(|data| - tot, maxSendFragment)
      modifies this
      ensures Valid() && ticks >= old(ticks) && wnum == old(wnum) && writeShutdown == old(writeShutdown)
      ensures sealed ==>
                && records == old(records) + [data[tot..tot + nw]] && job == old(job) + [data[tot..tot + nw]]
                   && flight == None
                && stream == old(stream) + old(FlightLeft())
                             + env.seal(APPLICATION_DATA, |old(records)|, data[tot..tot + nw])
      ensures !sealed ==> records == old(records) && job == old(job) && (stream == old(stream) || Stuck())
      ensures ret > 0 ==> !pending && buffer == [] && ret <= nw
      ensures ret > 0 && !sealed ==> stream == old(stream) && flight == old(flight) && flightOffset == old(flightOffset)
      ensures old(WritingFrom(tot, address, data)) ==>
                if ret <= 0 then WritingFrom(tot, address, data)
                else
                  && ret == nw && Flatten(job) == data[..tot + nw]
                  && (tot + nw < |data| ==> WritingFrom(tot + nw, address, data))
      ensures old(WritingFrom(tot, address, data) && Fits(|data| - tot)) && Willing(env, old(ticks)) ==>
                if nw > 0 then ret > 0 else ret == 0
    {
      hide Flatten;
      if Flatten(job) == data[..tot] {
        OneChunk(job, data, tot, nw);
      }
      ret, sealed := DoWrite(APPLICATION_DATA, address + tot, data[tot..tot + nw]);
    }

    /** ssl3_write_app_data. Called with the arguments of an unfinished write it goes on with
        it; when it is done, the plaintexts sealed for it are the data, once and in order. */
    method WriteAppData(address: int, data: Bytes, len: int) returns (r: int)
      requires Valid() && (len >= 0 ==> |data| == len)
      modifies this
      ensures Valid() && old(records) <= records && writeShutdown == old(writeShutdown)
      ensures old(writeShutdown) ==> r == -1 && records == old(records) && stream == old(stream) && wnum == old(wnum)
      ensures !old(writeShutdown) && (len < 0 || len < old(wnum)) ==>
                r == -1 && records == old(records) && stream == old(stream) && wnum == 0
      ensures !old(writeShutdown) && len >= 0 && old(Writing(address, data)) ==>
                && (r > 0 ==> r == len && !pending && wnum == 0 && job == []
                              && Flatten(old(job) + records[|old(records)|..]) == data)
                && (r <= 0 ==> Writing(address, data) && job == old(job) + records[|old(records)|..])
                && (old(Fits(len)) && Willing(env, old(ticks)) ==> r == len)
      ensures !Stuck() ==> stream == Queued(env, old(stream), old(FlightLeft()), old(records), records)
    {
      hide Sealed, Flatten, Queued;
      ghost var left := FlightLeft();
      NothingQueued(env, stream, left, records);
      if writeShutdown {
        return -1;
      }
      var tot := wnum;
      wnum := 0;
      if len < 0 || len < tot {
        return -1;
      }
      assert FlightLeft() == left;
      r, tot := WriteFrom(address, data, tot);
      if r <= 0 {
        wnum := tot;
      }
    }

    /** Its loop, and how far it came. */
    method WriteFrom(address: int, data: Bytes, from: nat) returns (r: int, tot: nat)
      requires Valid() && from <= |data| && wnum == 0
      modifies this
      ensures Valid() && old(records) <= records && writeShutdown == old(writeShutdown)
      ensures old(WritingFrom(from, address, data)) ==>
                && (r > 0 ==> r == |data| && !pending && wnum == 0 && job == []
                              && Flatten(old(job) + records[|old(records)|..]) == data)
                && (r <= 0 ==> WritingFrom(tot, address, data) && job == old(job) + records[|old(records)|..])
                && (old(Fits(|data|)) && Willing(env, old(ticks)) ==> r == |data|)
      ensures !Stuck() ==> stream == Queued(env, old(stream), old(FlightLeft()), old(records), records)
    {
      hide Sealed, Flatten, Queued;
      ghost var before, left, earlier := stream, FlightLeft(), records;
      NothingQueued(env, before, left, earlier);
      tot := from;
      var n := |data| - tot;
      ghost var resuming := WritingFrom(tot, address, data);
      ghost var calm := Fits(|data|) && Willing(env, ticks);
      assert job + earlier[|earlier|..] == job;
      while true
        invariant Valid() && tot + n == |data| && n >= 0 && wnum == 0 && ticks >= old(ticks)
                  && writeShutdown == old(writeShutdown)
        invariant earlier <= records && job == old(job) + records[|earlier|..]
        invariant FlightLeft() == if records == earlier then left else []
        invariant resuming ==> WritingFrom(tot, address, data)
        invariant calm ==> Fits(|data|)
        invariant stream == Queued(env, before, left, earlier, records)
        decreases n
      {
        var nw := Min(n, maxSendFragment);
        ghost var chunk := data[tot..tot + nw];
        ghost var was := records;
        OneQueued(env, before, left, earlier, was, chunk);
        var ret, sealed := WriteChunk(address, data, tot, nw);
        assert sealed ==> records[|earlier|..] == was[|earlier|..] + [chunk];
        assert sealed && was == earlier ==> records != earlier;
        if ret <= 0 {
          return ret, tot;
        }
        if ret == n {
          assert resuming ==> Flatten(job) == data by {
            assert data[..tot + ret] == data;
          }
          ghost var whole := job;
          job := [];
          assert whole == old(job) + records[|earlier|..];
          return tot + ret, tot;
        }
        n := n - ret;
        tot := tot + ret;
      }
    }

    /** Neither the flight's rest nor any record to come overfills the buffer. */
    predicate Fits(len: nat)
      requires flight.Some? ==> flightOffset <= |flight.value|
      reads this
    {
      !Stuck() && |FlightLeft()| + Min(len, maxSendFragment) + env.overhead <= BUFFER_MAX
    }
  }

  /** A caller that repeats the call with the same arguments, up to some number of times: if one
      of them returns the length, what was sealed since the first is the data. */
  method Repeat(w: Writer, address: int, data: Bytes, times: nat) returns (r: int)
    requires w.Valid() && !w.writeShutdown && data != [] && w.wnum == 0 && !w.pending && w.job == []
    modifies w
    ensures w.Valid() && old(w.records) <= w.records
    ensures r > 0 ==> r == |data| && Flatten(w.records[|old(w.records)|..]) == data && !w.pending && w.job == []
    ensures r <= 0 ==> w.Writing(address, data) && w.job == w.records[|old(w.records)|..]
  {
    ghost var start := |w.records|;
    r := 0;
    for i := 0 to times
      invariant w.Valid() && !w.writeShutdown && old(w.records) <= w.records && r <= 0
      invariant w.Writing(address, data) && w.job == w.records[start..]
    {
      ghost var before := w.records;
      r := w.WriteAppData(address, data, |data|);
      assert before[start..] + w.records[|before|..] == w.records[start..];
      if r > 0 {
        return;
      }
    }
  }
}
