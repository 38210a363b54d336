/**
 The two Finished messages of a path along the flow: over which transcript and master secret each
 was made or checked, and where it stands in the transcript the path ends with.
 */
module HandshakeFinishes {
  import opened Basics
  import opened HandshakeTypes
  import opened HandshakeScript
  import opened HandshakePath

  /** A Finished said or taken: the transcript and master secret just before it, and its body. */
  datatype Fin = Fin(fromServer: bool, transcript: seq<Message>, master: Bytes, body: Bytes)

  predicate IsFinished(t: Turn) {
    t.Says? && t.kind == Finished
  }

  /** The path by one turn. */
  function Next(cfg: Config, me: bool, a: Point, recs: seq<Record>): (Point, seq<Record>)
    requires a.flow != [] && (a.flow[0].fromServer != me ==> recs != [])
  {
    if a.flow[0].fromServer == me then (SaidOn(cfg, a), recs) else (TakenOn(cfg, a, recs[0]), recs[1..])
  }

  function First(cfg: Config, me: bool, a: Point, recs: seq<Record>): seq<Fin>
    requires a.flow != []
  {
    if !IsFinished(a.flow[0]) then []
    else if a.flow[0].fromServer == me then
      [Fin(me, a.transcript, a.master, Content(cfg, me, Finished, a.transcript, a.master))]
    else if recs != [] && recs[0].Handshake? then [Fin(!me, a.transcript, a.master, recs[0].env.msg.body)]
    else []
  }

  function Finishes(cfg: Config, me: bool, a: Point, recs: seq<Record>): seq<Fin>
    decreases |a.flow|
  {
    if a.flow == [] || (a.flow[0].fromServer != me && recs == []) then []
    else
      NextIsShorter(cfg, me, a, recs);
      var (b, rest) := Next(cfg, me, a, recs);
      First(cfg, me, a, recs) + Finishes(cfg, me, b, rest)
  }

  lemma NextIsShorter(cfg: Config, me: bool, a: Point, recs: seq<Record>)
    requires a.flow != [] && (a.flow[0].fromServer != me ==> recs != [])
    ensures Next(cfg, me, a, recs).0.flow == a.flow[1..]
  {
  }

  /** The sides whose Finished a flow has, in order. */
  function Sides(flow: seq<Turn>): seq<bool> {
    if flow == [] then []
    else (if IsFinished(flow[0]) then [flow[0].fromServer] else []) + Sides(flow[1..])
  }

  // Counting Finished messages tells the places in a transcript apart.

  function Count(tr: seq<Message>): nat {
    if tr == [] then 0
    else Count(tr[..|tr| - 1]) + if tr[|tr| - 1].kind == Finished then 1 else 0
  }

  lemma CountOne(tr: seq<Message>, m: Message)
    ensures Count(tr + [m]) == Count(tr) + if m.kind == Finished then 1 else 0
  {
    assert (tr + [m])[..|tr|] == tr;
  }

  lemma {:induction false} CountGrows(a: seq<Message>, b: seq<Message>)
    requires a <= b
    ensures Count(a) <= Count(b)
    decreases |b|
  {
    if |a| < |b| {
      CountGrows(a, b[..|b| - 1]);
    } else {
      assert a == b;
    }
  }

  /** In one transcript there is only one Finished after a given number of others. */
  lemma OnePlace(t: seq<Message>, m: Message, u: seq<Message>, n: Message, whole: seq<Message>)
    requires t + [m] <= whole && u + [n] <= whole && m.kind == n.kind == Finished && Count(t) == Count(u)
    ensures t == u && m == n
  {
    CountOne(t, m);
    CountOne(u, n);
    if |t| < |u| {
      assert t + [m] <= u;
      CountGrows(t + [m], u);
    } else if |u| < |t| {
      assert u + [n] <= t;
      CountGrows(u + [n], t);
    } else {
      assert t == whole[..|t|] == u && m == (t + [m])[|t|] == whole[|t|] == (u + [n])[|u|] == n;
    }
  }

  // What a path says of its Finished messages.

  predicate Among(recs: seq<Record>, body: Bytes) {
    exists r :: r in recs && r.Handshake? && r.env.msg.kind == Finished && r.env.msg.body == body
  }

  /** `f` is a Finished of the side `srv`, the n-th of the whole transcript, made over what is
      before it; and if it is the peer's, it came in one of the records. */
  ghost predicate Stands(cfg: Config, me: bool, f: Fin, srv: bool, n: nat, recs: seq<Record>, whole: seq<Message>) {
    && f.fromServer == srv && f.body == cfg.p.finishedMac(f.master, srv, f.transcript) && Count(f.transcript) == n
    && f.transcript + [Message(Finished, f.body)] <= whole
    && (srv != me ==> Among(recs, f.body))
  }

  lemma TurnStands(cfg: Config, me: bool, a: Point, recs: seq<Record>)
    requires a.flow != []
    requires a.flow[0].fromServer != me ==> recs != [] && Expected(cfg, me, a, recs[0])
    ensures var b, fs := Next(cfg, me, a, recs).0, First(cfg, me, a, recs);
            && a.transcript <= b.transcript && Count(b.transcript) == Count(a.transcript) + |fs|
            && |fs| == (if IsFinished(a.flow[0]) then 1 else 0)
            && (fs != [] ==> b.transcript == a.transcript + [Message(Finished, fs[0].body)] && b.master == a.master
                             && Stands(cfg, me, fs[0], a.flow[0].fromServer, Count(a.transcript), recs, b.transcript))
  {
    var b := Next(cfg, me, a, recs).0;
    if a.flow[0].Says? {
      CountOne(a.transcript, b.transcript[|a.transcript|]);
      assert b.transcript == a.transcript + [b.transcript[|a.transcript|]];
    }
    if a.flow[0].fromServer != me {
      assert recs[0] in recs;
    }
  }

  lemma StandsOn(cfg: Config, me: bool, f: Fin, srv: bool, n: nat, recs: seq<Record>, whole: seq<Message>,
      more: seq<Record>, longer: seq<Message>)
    requires Stands(cfg, me, f, srv, n, recs, whole) && whole <= longer && (forall r | r in recs :: r in more)
    ensures Stands(cfg, me, f, srv, n, more, longer)
  {
  }

  /** The Finished of a turn, if any, and those of the rest of the path. */
  lemma StandTogether(cfg: Config, me: bool, first: seq<Fin>, srv: bool, later: seq<Fin>, sides: seq<bool>, n: nat,
      recs: seq<Record>, rest: seq<Record>, mid: seq<Message>, whole: seq<Message>)
    requires |first| <= 1 && mid <= whole && (forall r | r in rest :: r in recs)
    requires first != [] ==> Stands(cfg, me, first[0], srv, n, recs, mid)
    requires |later| == |sides|
    requires forall i: nat | i < |later| :: Stands(cfg, me, later[i], sides[i], n + |first| + i, rest, whole)
    ensures var all := (if first == [] then [] else [srv]) + sides;
            forall i: nat | i < |first + later| :: Stands(cfg, me, (first + later)[i], all[i], n + i, recs, whole)
  {
    hide Stands;
    var all := (if first == [] then [] else [srv]) + sides;
    forall i: nat | i < |first + later| ensures Stands(cfg, me, (first + later)[i], all[i], n + i, recs, whole) {
      if i < |first| {
        StandsOn(cfg, me, first[0], srv, n, recs, mid, recs, whole);
      } else {
        var j := i - |first|;
        assert (first + later)[i] == later[j] && all[i] == sides[j];
        StandsOn(cfg, me, later[j], sides[j], n + |first| + j, rest, whole, recs, whole);
      }
    }
  }

  /** Each Finished of a path that uses up its flow stands in the final transcript, in the
      flow's order. */
  lemma {:induction false} AllStand(cfg: Config, me: bool, a: Point, recs: seq<Record>, b: Point)
    requires Leads(cfg, me, a, recs, b) && b.flow == []
    ensures a.transcript <= b.transcript
    ensures var fs := Finishes(cfg, me, a, recs);
            && |fs| == |Sides(a.flow)|
            && forall i: nat | i < |fs| ::
                 Stands(cfg, me, fs[i], Sides(a.flow)[i], Count(a.transcript) + i, recs, b.transcript)
    decreases |a.flow|
  {
    hide Stands, Expected, First, Next, IsFinished, Count;
    if a.flow != [] {
      PathGoesOn(cfg, me, a, recs, b);
      var (c, rest) := Next(cfg, me, a, recs);
      TurnStands(cfg, me, a, recs);
      AllStand(cfg, me, c, rest, b);
      StandTogether(cfg, me, First(cfg, me, a, recs), a.flow[0].fromServer, Finishes(cfg, me, c, rest), Sides(c.flow),
                    Count(a.transcript), recs, rest, c.transcript, b.transcript);
    }
  }

  lemma PathGoesOn(cfg: Config, me: bool, a: Point, recs: seq<Record>, b: Point)
    requires Leads(cfg, me, a, recs, b) && b.flow == [] && a.flow != []
    ensures a.flow[0].fromServer != me ==> recs != [] && Expected(cfg, me, a, recs[0])
    ensures var (c, rest) := Next(cfg, me, a, recs);
            && Leads(cfg, me, c, rest, b) && c.flow == a.flow[1..] && (forall r | r in rest :: r in recs)
            && Finishes(cfg, me, a, recs) == First(cfg, me, a, recs) + Finishes(cfg, me, c, rest)
  {
    NextIsShorter(cfg, me, a, recs);
    hide Expected, First;
  }

  /** If the flow ends with a Finished, so does the transcript. */
  lemma {:induction false} LastIsLast(cfg: Config, me: bool, a: Point, recs: seq<Record>, b: Point)
    requires Leads(cfg, me, a, recs, b) && b.flow == [] && a.flow != [] && IsFinished(a.flow[|a.flow| - 1])
    ensures var fs := Finishes(cfg, me, a, recs);
            && fs != []
            && b.transcript == fs[|fs| - 1].transcript + [Message(Finished, fs[|fs| - 1].body)]
            && b.master == fs[|fs| - 1].master
    decreases |a.flow|
  {
    hide Expected, First, Next, IsFinished;
    PathGoesOn(cfg, me, a, recs, b);
    var (c, rest) := Next(cfg, me, a, recs);
    if c.flow == [] {
      TurnStands(cfg, me, a, recs);
      Shrinks(cfg, me, c, rest, b);
      FirstIsHere(cfg, me, a, recs);
    } else {
      LastIsLast(cfg, me, c, rest, b);
    }
  }

  lemma FirstIsHere(cfg: Config, me: bool, a: Point, recs: seq<Record>)
    requires a.flow != []
    ensures forall f | f in First(cfg, me, a, recs) :: f.transcript == a.transcript && f.master == a.master
  {
  }

  // The whole flow has two, the client's first unless it is a resumption.

  lemma OneTurn(t: Turn, rest: seq<Turn>)
    ensures Sides([t] + rest) == (if IsFinished(t) then [t.fromServer] else []) + Sides(rest)
    ensures rest != [] ==> ([t] + rest)[|rest|] == rest[|rest| - 1]
  {
    assert ([t] + rest)[1..] == rest;
  }

  /** `flow` has these sides' Finished, and the last of them is its end. */
  predicate EndsWith(flow: seq<Turn>, sides: seq<bool>) {
    Sides(flow) == sides && flow != [] && IsFinished(flow[|flow| - 1])
  }

  lemma Before(b: bool, t: Turn, rest: seq<Turn>, sides: seq<bool>)
    requires EndsWith(rest, sides) && !IsFinished(t)
    ensures EndsWith(If(b, t, rest), sides) && EndsWith([t] + rest, sides)
  {
    OneTurn(t, rest);
  }

  lemma FinishedBefore(srv: bool, rest: seq<Turn>, sides: seq<bool>)
    requires (rest == [] && sides == []) || EndsWith(rest, sides)
    ensures EndsWith([Says(srv, Finished, 1)] + rest, [srv] + sides)
  {
    OneTurn(Says(srv, Finished, 1), rest);
  }

  lemma ServerTailEnds(cfg: Config, rest: seq<Turn>, sides: seq<bool>)
    requires (rest == [] && sides == []) || EndsWith(rest, sides)
    ensures EndsWith(ServerTail(cfg, rest), [true] + sides)
  {
    hide EndsWith, If;
    FinishedBefore(true, rest, sides);
    Before(true, Switches(true), AfterServerSwitch(rest), [true] + sides);
    Before(cfg.ticket, Says(true, NewSessionTicket, 0), AfterTicket(rest), [true] + sides);
  }

  lemma ClientTailEnds(cfg: Config, rest: seq<Turn>, sides: seq<bool>)
    requires (rest == [] && sides == []) || EndsWith(rest, sides)
    ensures EndsWith(ClientTail(cfg, rest), [false] + sides)
  {
    hide EndsWith, If;
    FinishedBefore(false, rest, sides);
    Before(cfg.channelId, Says(false, ChannelId, 1), AfterChannelId(rest), [false] + sides);
    Before(cfg.npn, Says(false, NextProto, 1), AfterNextProto(cfg, rest), [false] + sides);
    Before(true, Switches(false), AfterClientSwitch(cfg, rest), [false] + sides);
  }

  lemma ClientFlightEnds(cfg: Config, sides: seq<bool>)
    requires !cfg.resume && EndsWith(ClientTail(cfg, AfterClientFinished(cfg)), sides)
    ensures EndsWith(FromClientCertificate(cfg), sides)
  {
    hide EndsWith, If, ClientTail;
    var signs := cfg.certRequest && cfg.clientCert;
    Before(signs, Says(false, CertificateVerify, 0), ClientTail(cfg, AfterClientFinished(cfg)), sides);
    Before(true, Says(false, ClientKeyExchange, 0), FromCertificateVerify(cfg), sides);
    Before(cfg.certRequest, Says(false, Certificate, 0), FromClientKeyExchange(cfg), sides);
  }

  lemma ServerFlightEnds(cfg: Config, sides: seq<bool>)
    requires EndsWith(FromClientCertificate(cfg), sides)
    ensures EndsWith(FromServerCertificate(cfg), sides)
  {
    hide EndsWith, If, FromClientCertificate;
    Before(true, Says(true, ServerHelloDone, 0), FromClientCertificate(cfg), sides);
    Before(cfg.certRequest, Says(true, CertificateRequest, 0), FromServerHelloDone(cfg), sides);
    Before(cfg.ske, Says(true, ServerKeyExchange, 0), FromCertificateRequest(cfg), sides);
    Before(cfg.ocsp, Says(true, CertificateStatus, 0), FromServerKeyExchange(cfg), sides);
    Before(cfg.certAuth, Says(true, Certificate, 0), FromCertificateStatus(cfg), sides);
  }

  lemma WholeFlowEnds(cfg: Config)
    ensures EndsWith(WholeFlow(cfg), [cfg.resume, !cfg.resume])
  {
    hide EndsWith, If, ServerTail, ClientTail, FromServerCertificate, FromClientCertificate;
    var none: seq<bool> := [];
    assert [false] + none == [false] && [true] + none == [true] && [true] + [false] == [true, false]
      && [false] + [true] == [false, true];
    var sides := [cfg.resume, !cfg.resume];
    if cfg.resume {
      ClientTailEnds(cfg, [], []);
      ServerTailEnds(cfg, AfterServerFinished(cfg), [false]);
      Before(true, Says(true, ServerHello, 0), ServerTail(cfg, AfterServerFinished(cfg)), sides);
    } else {
      ServerTailEnds(cfg, [], []);
      ClientTailEnds(cfg, AfterClientFinished(cfg), [true]);
      ClientFlightEnds(cfg, sides);
      ServerFlightEnds(cfg, sides);
      Before(true, Says(true, ServerHello, 0), FromServerCertificate(cfg), sides);
    }
    Before(true, Says(false, ClientHello, 0), FromServerHello(cfg), sides);
  }
}
