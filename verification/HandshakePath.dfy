/**
 Following the flow against an arbitrary peer: a side goes along the list of turns by what it
 says itself and by the records it accepts from its peer, each of them checked against the
 transcript so far.
 */
module HandshakePath {
  import opened Basics
  import opened HandshakeTypes
  import opened HandshakeScript
  import opened HandshakeDriver

  /** What a message of each kind from the peer must satisfy, given the transcript and master
      secret just before it; `me` says whether the side that takes it is the server. */
  ghost predicate Genuine(cfg: Config, me: bool, k: Kind, m: Message, tr: seq<Message>, ms: Bytes) {
    m.kind == k &&
    match k
    case Finished => m.body == cfg.p.finishedMac(ms, !me, tr)
    case CertificateVerify => cfg.p.parses(m) && cfg.p.verify(tr, m.body)
    case ChannelId => cfg.p.channelVerify(cfg.resume, tr, m.body)
    case Certificate => cfg.p.parses(m)
      && (me ==> cfg.p.emptyChain(m) == !cfg.clientCert && (cfg.clientCert || !cfg.requireClientCert))
    case _ => cfg.p.parses(m)
  }

  datatype Point = Point(flow: seq<Turn>, transcript: seq<Message>, master: Bytes)

  function Extended(cfg: Config, a: Point, m: Message): Point
    requires a.flow != []
  {
    Point(a.flow[1..], a.transcript + [m],
          if m.kind == ClientKeyExchange then cfg.p.masterSecret(m, a.transcript + [m]) else a.master)
  }

  /** The next point, if it is this side's turn at `a`. */
  function SaidOn(cfg: Config, a: Point): Point
    requires a.flow != []
  {
    match a.flow[0]
    case Switches(_) => a.(flow := a.flow[1..])
    case Says(srv, k, _) => Extended(cfg, a, Message(k, Content(cfg, srv, k, a.transcript, a.master)))
  }

  /** `r` is what the flow has the peer send at `a`. */
  ghost predicate Expected(cfg: Config, me: bool, a: Point, r: Record)
    requires a.flow != []
  {
    match a.flow[0]
    case Switches(_) => r.ChangeCipherSpec? && r.epoch == 0
    case Says(_, k, e) => r.Handshake? && r.env.epoch == e && Genuine(cfg, me, k, r.env.msg, a.transcript, a.master)
  }

  function TakenOn(cfg: Config, a: Point, r: Record): Point
    requires a.flow != []
  {
    if r.Handshake? then Extended(cfg, a, r.env.msg) else a.(flow := a.flow[1..])
  }

  /** From `a`, the flow goes on to `b` by what the side says itself and by exactly the records
      `recs` from its peer, all of them genuine where they stand. */
  ghost predicate Leads(cfg: Config, me: bool, a: Point, recs: seq<Record>, b: Point)
    decreases |a.flow|
  {
    || (a == b && recs == [])
    || (a.flow != [] &&
        if a.flow[0].fromServer == me then Leads(cfg, me, SaidOn(cfg, a), recs, b)
        else recs != [] && Expected(cfg, me, a, recs[0]) && Leads(cfg, me, TakenOn(cfg, a, recs[0]), recs[1..], b))
  }

  lemma {:induction false} LeadsThen(cfg: Config, me: bool, a: Point, r: seq<Record>, b: Point, s: seq<Record>,
      c: Point)
    requires Leads(cfg, me, a, r, b) && Leads(cfg, me, b, s, c)
    ensures Leads(cfg, me, a, r + s, c)
    decreases |a.flow|
  {
    hide Expected;
    if a == b && r == [] {
      assert r + s == s;
    } else if a.flow[0].fromServer == me {
      LeadsThen(cfg, me, SaidOn(cfg, a), r, b, s, c);
    } else {
      assert (r + s)[0] == r[0] && (r + s)[1..] == r[1..] + s;
      LeadsThen(cfg, me, TakenOn(cfg, a, r[0]), r[1..], b, s, c);
    }
  }

  /** Two stretches in which this side alone speaks. */
  lemma SpeaksOn(cfg: Config, me: bool, a: Point, b: Point, c: Point)
    requires Leads(cfg, me, a, [], b) && Leads(cfg, me, b, [], c)
    ensures Leads(cfg, me, a, [], c)
  {
    hide Leads;
    LeadsThen(cfg, me, a, [], b, [], c);
    var none: seq<Record> := [];
    assert none + none == none;
  }

  // Single turns.

  lemma OwnTurn(cfg: Config, me: bool, hs: Hs, b: bool, k: Kind, e: nat, rest: seq<Turn>)
    ensures var m := Message(k, Content(cfg, me, k, hs.hashed, hs.master));
            var h := if b then AddMessage(hs, m) else hs;
            var ms := if b && k == ClientKeyExchange then cfg.p.masterSecret(m, h.hashed) else h.master;
            Leads(cfg, me, Point(If(b, Says(me, k, e), rest), hs.hashed, hs.master), [], Point(rest, h.hashed, ms))
  {
    assert ([Says(me, k, e)] + rest)[1..] == rest;
  }

  lemma OwnSwitch(cfg: Config, me: bool, rest: seq<Turn>, tr: seq<Message>, ms: Bytes)
    ensures Leads(cfg, me, Point([Switches(me)] + rest, tr, ms), [], Point(rest, tr, ms))
  {
    assert ([Switches(me)] + rest)[1..] == rest;
  }

  lemma PeerTurn(cfg: Config, me: bool, k: Kind, e: nat, rest: seq<Turn>, tr: seq<Message>, ms: Bytes, env: Envelope)
    requires env.epoch == e && Genuine(cfg, me, k, env.msg, tr, ms)
    ensures Leads(cfg, me, Point([Says(!me, k, e)] + rest, tr, ms), [Handshake(env)],
                  Point(rest, tr + [env.msg],
                        if k == ClientKeyExchange then cfg.p.masterSecret(env.msg, tr + [env.msg]) else ms))
  {
    assert ([Says(!me, k, e)] + rest)[1..] == rest;
  }

  lemma PeerSwitch(cfg: Config, me: bool, rest: seq<Turn>, tr: seq<Message>, ms: Bytes, stamp: seq<Message>)
    ensures Leads(cfg, me, Point([Switches(!me)] + rest, tr, ms), [ChangeCipherSpec(0, stamp)], Point(rest, tr, ms))
  {
    assert ([Switches(!me)] + rest)[1..] == rest;
  }

  // Flows that differ further on.

  /** One configuration but for the optional messages of the server's flight. */
  ghost predicate Alike(c: Config, c': Config) {
    c' == c.(ocsp := c'.ocsp, ske := c'.ske, certRequest := c'.certRequest)
  }

  lemma {:induction false} Shrinks(c: Config, me: bool, a: Point, recs: seq<Record>, b: Point)
    requires Leads(c, me, a, recs, b)
    ensures |b.flow| <= |a.flow| && (|b.flow| == |a.flow| ==> a == b && recs == [])
    decreases |a.flow|
  {
    hide Expected;
    if !(a == b && recs == []) {
      if a.flow[0].fromServer == me {
        Shrinks(c, me, SaidOn(c, a), recs, b);
      } else {
        Shrinks(c, me, TakenOn(c, a, recs[0]), recs[1..], b);
      }
    }
  }

  /** What a turn does depends on nothing after it. */
  lemma TurnAlike(c: Config, c': Config, me: bool, a: Point, flow: seq<Turn>, r: Record)
    requires Alike(c, c') && a.flow != [] && flow != [] && flow[0] == a.flow[0]
    ensures SaidOn(c', a.(flow := flow)) == SaidOn(c, a).(flow := flow[1..])
    ensures TakenOn(c', a.(flow := flow), r) == TakenOn(c, a, r).(flow := flow[1..])
    ensures SaidOn(c, a).flow == TakenOn(c, a, r).flow == a.flow[1..]
    ensures Expected(c', me, a.(flow := flow), r) == Expected(c, me, a, r)
  {
  }

  /** What comes after a stretch of the flow has no part in going along it. */
  lemma {:induction false} SwapTail(c: Config, c': Config, me: bool, a: Point, recs: seq<Record>, b: Point,
      p: seq<Turn>, s: seq<Turn>, s': seq<Turn>)
    requires Alike(c, c') && a.flow == p + s && b.flow == s && Leads(c, me, a, recs, b)
    ensures Leads(c', me, a.(flow := p + s'), recs, b.(flow := s'))
    decreases |p|
  {
    hide SaidOn, TakenOn, Expected, Alike;
    if p == [] {
      Shrinks(c, me, a, recs, b);
      assert p + s' == s';
    } else {
      var flow := p + s';
      assert a.flow[0] == flow[0] && a.flow[1..] == p[1..] + s && flow[1..] == p[1..] + s';
      assert |a.flow| > |b.flow|;
      TurnAlike(c, c', me, a, flow, if recs == [] then ChangeCipherSpec(0, []) else recs[0]);
      if a.flow[0].fromServer == me {
        SwapTail(c, c', me, SaidOn(c, a), recs, b, p[1..], s, s');
      } else {
        SwapTail(c, c', me, TakenOn(c, a, recs[0]), recs[1..], b, p[1..], s, s');
      }
    }
  }

  // Where a machine stands.

  function At(cfg: Config, hs: Hs): Point {
    Point(Left(cfg, hs), hs.hashed, hs.master)
  }

  lemma FirstHeld(past: seq<Record>, inbox: seq<Record>)
    requires inbox != []
    ensures past + [] + inbox == past + [inbox[0]] + inbox[1..]
  {
    assert inbox == [inbox[0]] + inbox[1..];
  }

  lemma FirstSpent(past: seq<Record>, inbox: seq<Record>)
    requires inbox != []
    ensures past + [] + inbox == past + [inbox[0]] + [] + inbox[1..]
  {
    assert inbox == [inbox[0]] + inbox[1..];
  }

  // A finished path, as a list of kinds.

  function Shape(r: Record): Option<Kind> {
    if r.Handshake? then Some(r.env.msg.kind) else None
  }

  /** The peer's turns: the kinds of its messages, and None for a ChangeCipherSpec. */
  function PeerTurns(me: bool, flow: seq<Turn>): seq<Option<Kind>> {
    if flow == [] then []
    else (if flow[0].fromServer == me then [] else [if flow[0].Says? then Some(flow[0].kind) else None])
         + PeerTurns(me, flow[1..])
  }

  lemma {:induction false} LeadsInShape(cfg: Config, me: bool, a: Point, recs: seq<Record>, b: Point)
    requires Leads(cfg, me, a, recs, b) && b.flow == []
    ensures |recs| == |PeerTurns(me, a.flow)|
            && forall i :: 0 <= i < |recs| ==> Shape(recs[i]) == PeerTurns(me, a.flow)[i]
    decreases |a.flow|
  {
    if a.flow != [] {
      if a.flow[0].fromServer == me {
        LeadsInShape(cfg, me, SaidOn(cfg, a), recs, b);
      } else {
        LeadsInShape(cfg, me, TakenOn(cfg, a, recs[0]), recs[1..], b);
        var rest := PeerTurns(me, a.flow[1..]);
        assert Shape(recs[0]) == PeerTurns(me, a.flow)[0] && PeerTurns(me, a.flow)[1..] == rest;
        hide Leads, PeerTurns, Shape;
        forall i | 0 <= i < |recs| ensures Shape(recs[i]) == PeerTurns(me, a.flow)[i] {
          assert i > 0 ==> Shape(recs[1..][i - 1]) == rest[i - 1];
        }
      }
    }
  }

  function When(b: bool, k: Kind, rest: seq<Option<Kind>>): seq<Option<Kind>> {
    if b then [Some(k)] + rest else rest
  }

  lemma OtherTurn(me: bool, b: bool, k: Kind, e: nat, rest: seq<Turn>)
    ensures PeerTurns(me, If(b, Says(!me, k, e), rest)) == When(b, k, PeerTurns(me, rest))
    ensures PeerTurns(me, [Says(!me, k, e)] + rest) == [Some(k)] + PeerTurns(me, rest)
    ensures PeerTurns(me, [Switches(!me)] + rest) == [None] + PeerTurns(me, rest)
  {
    assert ([Says(!me, k, e)] + rest)[1..] == rest;
    assert ([Switches(!me)] + rest)[1..] == rest;
  }

  lemma MyTurn(me: bool, b: bool, k: Kind, e: nat, rest: seq<Turn>)
    ensures PeerTurns(me, If(b, Says(me, k, e), rest)) == PeerTurns(me, rest)
    ensures PeerTurns(me, [Says(me, k, e)] + rest) == PeerTurns(me, rest)
    ensures PeerTurns(me, [Switches(me)] + rest) == PeerTurns(me, rest)
  {
    assert ([Says(me, k, e)] + rest)[1..] == rest;
    assert ([Switches(me)] + rest)[1..] == rest;
  }
}
