/** Sending a flight of handshake messages in datagrams of limited size (d1_both.cc). */
module DtlsFlight {
  import opened Basics
  import opened DtlsWire

  datatype Outgoing = Ccs(epoch: nat) | Handshake(epoch: nat, number: nat, msg: Message)

  predicate Sound(m: Outgoing) {
    m.Handshake? ==> m.number < 0x1_0000 && |m.msg.body| < 0x100_0000
  }

  datatype Record = Switch(epoch: nat) | Piece(epoch: nat, f: Fragment)

  /** The next byte to send: `offset` in message `written`. */
  datatype Position = Position(written: nat, offset: nat)

  /** `r` carries some more of the flight at `p`: a whole ChangeCipherSpec, or the next
      bytes of a message, at least one unless the message is empty. */
  predicate Carries(flight: seq<Outgoing>, p: Position, r: Record)
    requires p.written < |flight|
  {
    var m := flight[p.written];
    match m
    case Ccs(epoch) => r == Switch(epoch) && p.offset == 0
    case Handshake(epoch, number, msg) =>
      && r.Piece? && p.offset + |r.f.body| <= |msg.body| && (r.f.body == [] ==> msg.body == [])
      && r == Piece(epoch, Fragment(msg.kind, |msg.body|, number, p.offset, msg.body[p.offset..p.offset + |r.f.body|]))
  }

  function After(flight: seq<Outgoing>, p: Position, r: Record): Position
    requires p.written < |flight| && Carries(flight, p, r)
  {
    if r.Switch? || p.offset + |r.f.body| == |flight[p.written].msg.body| then Position(p.written + 1, 0)
    else Position(p.written, p.offset + |r.f.body|)
  }

  /** The records carry the flight from one position to another, in order, nothing twice. */
  predicate Tiles(flight: seq<Outgoing>, from: Position, recs: seq<Record>, to: Position)
    decreases |recs|
  {
    if recs == [] then from == to
    else
      && from.written < |flight| && Carries(flight, from, recs[0])
      && Tiles(flight, After(flight, from, recs[0]), recs[1..], to)
  }

  lemma {:induction false} TilesThen(flight: seq<Outgoing>, a: Position, r: seq<Record>, b: Position, s: seq<Record>,
      c: Position)
    requires Tiles(flight, a, r, b) && Tiles(flight, b, s, c)
    ensures Tiles(flight, a, r + s, c)
    decreases |r|
  {
    if r == [] {
      assert r + s == s;
    } else {
      assert (r + s)[1..] == r[1..] + s;
      TilesThen(flight, After(flight, a, r[0]), r[1..], b, s, c);
    }
  }

  // What tiling means for each message.

  /** The bodies of the records that carry message `i`, end to end. */
  function Gathered(flight: seq<Outgoing>, from: Position, recs: seq<Record>, i: nat): Bytes
    decreases |recs|
  {
    if recs == [] || from.written >= |flight| || !Carries(flight, from, recs[0]) then []
    else
      (if from.written == i && recs[0].Piece? then recs[0].f.body else [])
        + Gathered(flight, After(flight, from, recs[0]), recs[1..], i)
  }

  /** How many records carry message `i`. */
  function Carriers(flight: seq<Outgoing>, from: Position, recs: seq<Record>, i: nat): nat
    decreases |recs|
  {
    if recs == [] || from.written >= |flight| || !Carries(flight, from, recs[0]) then 0
    else (if from.written == i then 1 else 0) + Carriers(flight, After(flight, from, recs[0]), recs[1..], i)
  }

  predicate InFlight(flight: seq<Outgoing>, p: Position) {
    && p.written <= |flight|
    && (p.offset > 0 ==> p.written < |flight| && flight[p.written].Handshake?)
    && (p.offset > 0 ==> p.offset < |flight[p.written].msg.body|)
  }

  lemma AfterInFlight(flight: seq<Outgoing>, p: Position, r: Record)
    requires p.written < |flight| && Carries(flight, p, r)
    ensures InFlight(flight, After(flight, p, r))
  {
  }

  lemma {:induction false} OnlyForward(flight: seq<Outgoing>, from: Position, recs: seq<Record>, to: Position)
    requires Tiles(flight, from, recs, to)
    ensures from.written <= to.written
    decreases |recs|
  {
    if recs != [] {
      OnlyForward(flight, After(flight, from, recs[0]), recs[1..], to);
    }
  }

  lemma {:induction false} NothingBehind(flight: seq<Outgoing>, from: Position, recs: seq<Record>, to: Position, i: nat)
    requires Tiles(flight, from, recs, to) && i < from.written
    ensures Gathered(flight, from, recs, i) == [] && Carriers(flight, from, recs, i) == 0
    decreases |recs|
  {
    if recs != [] {
      NothingBehind(flight, After(flight, from, recs[0]), recs[1..], to, i);
    }
  }

  lemma BodyFrom(body: Bytes, off: nat, n: nat)
    requires off + n <= |body|
    ensures body[off..off + n] + body[off + n..] == body[off..]
    ensures off + n == |body| ==> body[off..off + n] + [] == body[off..]
  {
  }

  /** One record of message `i`, and what the rest of the pass has of it. */
  lemma OneRecord(flight: seq<Outgoing>, p: Position, r: Record, rest: Bytes, carriers: nat)
    requires p.written < |flight| && Carries(flight, p, r)
    requires var next := After(flight, p, r);
             if next.written > p.written then rest == [] && carriers == 0
             else flight[p.written].Handshake? && next.offset <= |flight[p.written].msg.body|
                  && rest == flight[p.written].msg.body[next.offset..]
    ensures var m := flight[p.written];
            && (m.Handshake? ==> r.Piece? && p.offset <= |m.msg.body| && r.f.body + rest == m.msg.body[p.offset..])
            && (m.Ccs? || m.msg.body == [] ==> carriers == 0)
  {
    var m := flight[p.written];
    if m.Handshake? {
      var n := |r.f.body|;
      BodyFrom(m.msg.body, p.offset, n);
    }
  }

  /** A pass from start to end sends every message's bytes exactly once and in order, and
      every ChangeCipherSpec, like every empty message, in exactly one record. */
  lemma {:induction false} TilingIsExact(flight: seq<Outgoing>, from: Position, recs: seq<Record>, to: Position, i: nat)
    requires Tiles(flight, from, recs, to) && InFlight(flight, from) && from.written <= i < to.written && i < |flight|
    ensures flight[i].Handshake? ==>
      Gathered(flight, from, recs, i) == flight[i].msg.body[if i == from.written then from.offset else 0..]
    ensures flight[i].Ccs? || flight[i].msg.body == [] ==> Carriers(flight, from, recs, i) == 1
    decreases |recs|
  {
    hide Carries;
    var next := After(flight, from, recs[0]);
    AfterInFlight(flight, from, recs[0]);
    OnlyForward(flight, next, recs[1..], to);
    MovesOn(flight, from, recs[0]);
    if from.written < i {
      TilingIsExact(flight, next, recs[1..], to, i);
    } else {
      if i < next.written {
        NothingBehind(flight, next, recs[1..], to, i);
      } else {
        TilingIsExact(flight, next, recs[1..], to, i);
      }
      var rest, carriers := Gathered(flight, next, recs[1..], i), Carriers(flight, next, recs[1..], i);
      hide After;
      OneRecord(flight, from, recs[0], rest, carriers);
    }
  }

  /** A record moves the position on within its message, or to the start of the next. */
  lemma MovesOn(flight: seq<Outgoing>, p: Position, r: Record)
    requires p.written < |flight| && Carries(flight, p, r)
    ensures var next := After(flight, p, r);
            next == Position(p.written + 1, 0) || (next.written == p.written && flight[p.written].Handshake?)
  {
  }

  // The records as pieces of the messages sent.

  /** The messages of the flight are among those sent, under their numbers. */
  ghost predicate FromSent(flight: seq<Outgoing>, sent: seq<Message>) {
    forall m | m in flight && m.Handshake? :: m.number < |sent| && m.msg == sent[m.number]
  }

  ghost predicate AllCuts(recs: seq<Record>, sent: seq<Message>) {
    forall r | r in recs && r.Piece? :: Cut(sent, r.f)
  }

  lemma {:induction false} TiledAreCuts(flight: seq<Outgoing>, from: Position, recs: seq<Record>, to: Position,
      sent: seq<Message>)
    requires Tiles(flight, from, recs, to) && FromSent(flight, sent)
    ensures AllCuts(recs, sent)
    decreases |recs|
  {
    if recs != [] {
      assert flight[from.written] in flight;
      TiledAreCuts(flight, After(flight, from, recs[0]), recs[1..], to, sent);
    }
  }

  lemma SentGrows(flight: seq<Outgoing>, recs: seq<Record>, sent: seq<Message>, m: Message)
    requires FromSent(flight, sent) && AllCuts(recs, sent)
    ensures FromSent(flight, sent + [m]) && AllCuts(recs, sent + [m])
  {
    forall r | r in recs && r.Piece? ensures Cut(sent + [m], r.f) {
      assert Cut(sent, r.f);
    }
  }

  /** Some record carries byte `p` of message `i`. */
  ghost predicate CarriesByte(recs: seq<Record>, number: nat, p: nat) {
    exists r :: r in recs && r.Piece? && r.f.number == number && r.f.off <= p < r.f.off + |r.f.body|
  }

  /** Every byte of every message passed over is in one of the records. */
  lemma {:induction false} EveryByteIsCarried(flight: seq<Outgoing>, from: Position, recs: seq<Record>, to: Position,
      i: nat, p: nat)
    requires Tiles(flight, from, recs, to) && InFlight(flight, from)
    requires from.written <= i < to.written && i < |flight| && flight[i].Handshake? && p < |flight[i].msg.body|
    requires i == from.written ==> from.offset <= p
    ensures CarriesByte(recs, flight[i].number, p)
    decreases |recs|
  {
    var r, next := recs[0], After(flight, from, recs[0]);
    assert r in recs;
    if from.written < i || !(r.f.off <= p < r.f.off + |r.f.body|) {
      AfterInFlight(flight, from, r);
      OnlyForward(flight, next, recs[1..], to);
      EveryByteIsCarried(flight, next, recs[1..], to, i, p);
      var r' :| r' in recs[1..] && r'.Piece? && r'.f.number == flight[i].number
        && r'.f.off <= p < r'.f.off + |r'.f.body|;
      assert r' in recs;
    }
  }

  /** Every message passed over, the empty ones too, has a record. */
  lemma {:induction false} EveryMessageIsCarried(flight: seq<Outgoing>, from: Position, recs: seq<Record>, to: Position,
      i: nat)
    requires Tiles(flight, from, recs, to) && from.written <= i < to.written && i < |flight| && flight[i].Handshake?
    ensures exists r :: r in recs && r.Piece? && r.f.number == flight[i].number
    decreases |recs|
  {
    assert recs[0] in recs;
    if from.written < i {
      var next := After(flight, from, recs[0]);
      OnlyForward(flight, next, recs[1..], to);
      EveryMessageIsCarried(flight, next, recs[1..], to, i);
      var r :| r in recs[1..] && r.Piece? && r.f.number == flight[i].number;
      assert r in recs;
    }
  }

  /** `part` is `whole` with some records left out. */
  predicate Thinned(part: seq<Record>, whole: seq<Record>)
    decreases |whole|
  {
    if whole == [] then part == []
    else (part != [] && part[0] == whole[0] && Thinned(part[1..], whole[1..])) || Thinned(part, whole[1..])
  }

  lemma {:induction false} ThinnedThen(part: seq<Record>, whole: seq<Record>, taken: seq<Record>, more: seq<Record>)
    requires Thinned(part, whole) && (taken == more || taken == [])
    ensures Thinned(part + taken, whole + more)
    decreases |whole| + |more|
  {
    if whole == [] {
      assert part + taken == taken && whole + more == more;
      if more != [] {
        ThinnedThen([], [], if taken == [] then [] else more[1..], more[1..]);
        assert [] + more[1..] == more[1..];
      }
    } else if part != [] && part[0] == whole[0] && Thinned(part[1..], whole[1..]) {
      ThinnedThen(part[1..], whole[1..], taken, more);
      assert (part + taken)[1..] == part[1..] + taken && (whole + more)[1..] == whole[1..] + more;
    } else {
      ThinnedThen(part, whole[1..], taken, more);
      assert (whole + more)[1..] == whole[1..] + more;
    }
  }
}
