/**
 Client and server across a network that may drop, alter, invent, repeat and reorder records at
 will: if nobody but the two can make a Finished, two sides that finish have the same transcript
 and master secret.
 */
module HandshakeAgreement {
  import opened Basics
  import opened HandshakeTypes
  import opened HandshakeScript
  import opened HandshakeDriver
  import opened HandshakePath
  import opened HandshakeFinishes
  import opened HandshakeMade
  import C = HandshakeClientTrace
  import S = HandshakeTrace

  /** A MAC says whose it is, and over which transcript and master secret. */
  ghost predicate Injective(mac: (Bytes, bool, seq<Message>) -> Bytes) {
    forall a, s, t, b, r, u :: mac(a, s, t) == mac(b, r, u) ==> a == b && s == r && t == u
  }

  /** What a side has made: sent, or still in its flight. */
  function MadeBy(l: Link): seq<Record> {
    l.sent + l.hs.pending
  }

  /** What a run has taken of its input. */
  function Taken(input: seq<Record>, l: Link): seq<Record> {
    if |l.inbox| <= |input| then input[..|input| - |l.inbox|] else []
  }

  /** Every Finished among `taken` has a body that one of the two sides made. */
  predicate Unforged(taken: seq<Record>, made: seq<Record>) {
    forall r | r in taken && r.Handshake? && r.env.msg.kind == Finished :: Among(made, r.env.msg.body)
  }

  function Ended(cfg: Config, server: bool, input: seq<Record>, answers: seq<Answer>): Link {
    Turns(cfg, Link(NewHandshake(cfg, server), input, []), answers)
  }

  /** The two Finished of a side that is done: in their order, each over what is before it, the
      peer's taken from the input, and the second the end of the transcript. */
  ghost predicate TwoFinishes(mac: (Bytes, bool, seq<Message>) -> Bytes, me: bool, resume: bool, fs: seq<Fin>,
      taken: seq<Record>, hashed: seq<Message>, master: Bytes) {
    && |fs| == 2 && fs[0].fromServer == resume && fs[1].fromServer == !resume
    && (forall i: nat | i < 2 ::
          && fs[i].body == mac(fs[i].master, fs[i].fromServer, fs[i].transcript) && Count(fs[i].transcript) == i
          && fs[i].transcript + [Message(Finished, fs[i].body)] <= hashed
          && (fs[i].fromServer != me ==> Among(taken, fs[i].body)))
    && hashed == fs[1].transcript + [Message(Finished, fs[1].body)] && master == fs[1].master
  }

  lemma PathHasTwo(c: Config, me: bool, start: Bytes, taken: seq<Record>, hashed: seq<Message>, master: Bytes)
    returns (fs: seq<Fin>)
    requires Leads(c, me, Point(WholeFlow(c), [], start), taken, Point([], hashed, master))
    ensures TwoFinishes(c.p.finishedMac, me, c.resume, fs, taken, hashed, master)
  {
    hide Leads, WholeFlow, Finishes, Sides, Among;
    var a, b := Point(WholeFlow(c), [], start), Point([], hashed, master);
    fs := Finishes(c, me, a, taken);
    WholeFlowEnds(c);
    AllStand(c, me, a, taken, b);
    LastIsLast(c, me, a, taken, b);
    assert Count([]) == 0;
    hide Count;
    assert Stands(c, me, fs[0], c.resume, 0, taken, hashed) && Stands(c, me, fs[1], !c.resume, 1, taken, hashed);
  }

  /** A Finished that checks, and that one of the two made, is the one its side made. */
  lemma CameFrom(cfgC: Config, c: Link, cfgS: Config, s: Link, f: Fin)
    requires cfgC.p.finishedMac == cfgS.p.finishedMac && Injective(cfgC.p.finishedMac)
    requires c.hs.state.Client? && AllMade(cfgC, c) && s.hs.state.Server? && AllMade(cfgS, s)
    requires f.body == cfgC.p.finishedMac(f.master, f.fromServer, f.transcript)
    requires Among(MadeBy(c) + MadeBy(s), f.body)
    ensures var y := if f.fromServer then s.hs else c.hs;
            f.transcript + [Message(Finished, f.body)] <= y.hashed && f.master == y.master
  {
    var r :| r in MadeBy(c) + MadeBy(s) && r.Handshake? && r.env.msg.kind == Finished && r.env.msg.body == f.body;
    assert r.env.msg == Message(Finished, f.body);
    if r in MadeBy(c) {
      assert Made(cfgC, c.hs, r);
    } else {
      assert Made(cfgS, s.hs, r);
    }
  }

  /** Where a Finished of a finished side has come from the other, it stands there as it does here. */
  ghost predicate Found(fs: seq<Fin>, fromServer: bool, hashed: seq<Message>, master: Bytes) {
    forall i: nat | i < |fs| && fs[i].fromServer == fromServer ::
      fs[i].transcript + [Message(Finished, fs[i].body)] <= hashed && fs[i].master == master
  }

  lemma AllFound(cfgC: Config, c: Link, cfgS: Config, s: Link, me: bool, resume: bool, fs: seq<Fin>,
      taken: seq<Record>, hashed: seq<Message>, master: Bytes)
    requires cfgC.p.finishedMac == cfgS.p.finishedMac && Injective(cfgC.p.finishedMac)
    requires c.hs.state.Client? && AllMade(cfgC, c) && s.hs.state.Server? && AllMade(cfgS, s)
    requires TwoFinishes(cfgC.p.finishedMac, me, resume, fs, taken, hashed, master)
    requires Unforged(taken, MadeBy(c) + MadeBy(s))
    ensures var y := if me then c.hs else s.hs; Found(fs, !me, y.hashed, y.master)
  {
    hide Injective, AllMade;
    forall i: nat | i < |fs| && fs[i].fromServer == !me
      ensures var y := if me then c.hs else s.hs;
              fs[i].transcript + [Message(Finished, fs[i].body)] <= y.hashed && fs[i].master == y.master {
      assert Among(taken, fs[i].body);
      CameFrom(cfgC, c, cfgS, s, fs[i]);
    }
  }

  /** What the two sides' Finished messages, each found on the other side, say of the two. */
  lemma Agree(mac: (Bytes, bool, seq<Message>) -> Bytes, resumeC: bool, fc: seq<Fin>, takenC: seq<Record>,
      hashedC: seq<Message>, masterC: Bytes, resumeS: bool, fs: seq<Fin>, takenS: seq<Record>,
      hashedS: seq<Message>, masterS: Bytes)
    requires Injective(mac)
    requires TwoFinishes(mac, false, resumeC, fc, takenC, hashedC, masterC) && Found(fc, true, hashedS, masterS)
    requires TwoFinishes(mac, true, resumeS, fs, takenS, hashedS, masterS) && Found(fs, false, hashedC, masterC)
    ensures hashedC == hashedS && masterC == masterS && resumeC == resumeS
  {
    hide Among, Count;
    var m, n := Message(Finished, fc[1].body), Message(Finished, fs[1].body);
    if resumeC && !resumeS {
      // Each would have made its own Finished before the other's.
      var p, q := Message(Finished, fc[0].body), Message(Finished, fs[0].body);
      OnePlace(fc[0].transcript, p, fs[0].transcript, q, hashedS);
      assert false;
    } else if !resumeC {
      OnePlace(fc[1].transcript, m, fs[1].transcript, n, hashedS);
      var f, g := fc[1], fs[1];
      assert mac(f.master, f.fromServer, f.transcript) == mac(g.master, g.fromServer, g.transcript);
    } else {
      OnePlace(fc[1].transcript, m, fs[1].transcript, n, hashedC);
    }
  }

  /** Two sides that finish, whatever the network did to every record between them, have the same
      transcript and the same master secret, and both resumed or neither did -- provided that each
      Finished they took was made by one of the two. */
  lemma AttackedRunsAgree(cfgC: Config, inputC: seq<Record>, answersC: seq<Answer>, cfgS: Config, inputS: seq<Record>,
      answersS: seq<Answer>)
    requires cfgC.p.finishedMac == cfgS.p.finishedMac && Injective(cfgC.p.finishedMac)
    requires var c := Ended(cfgC, false, inputC, answersC); c.hs.state == Client(ClientDone) && !c.hs.wait.Error?
    requires var s := Ended(cfgS, true, inputS, answersS); s.hs.state == Server(ServerDone) && !s.hs.wait.Error?
    requires var c, s := Ended(cfgC, false, inputC, answersC), Ended(cfgS, true, inputS, answersS);
             Unforged(Taken(inputC, c) + Taken(inputS, s), MadeBy(c) + MadeBy(s))
    ensures var c, s := Ended(cfgC, false, inputC, answersC), Ended(cfgS, true, inputS, answersS);
            c.hs.hashed == s.hs.hashed && c.hs.master == s.hs.master && cfgC.resume == cfgS.resume
  {
    hide Turns, Leads, TwoFinishes, Found, Among, AllMade, Injective;
    var c, s := Ended(cfgC, false, inputC, answersC), Ended(cfgS, true, inputS, answersS);
    MadeFromTheStart(cfgC, false, inputC, answersC);
    MadeFromTheStart(cfgS, true, inputS, answersS);
    var fc := ClientHasTwo(cfgC, inputC, answersC);
    var fs := ServerHasTwo(cfgS, inputS, answersS);
    var mac := cfgC.p.finishedMac;
    AllFound(cfgC, c, cfgS, s, false, cfgC.resume, fc, Taken(inputC, c), c.hs.hashed, c.hs.master);
    AllFound(cfgC, c, cfgS, s, true, cfgS.resume, fs, Taken(inputS, s), s.hs.hashed, s.hs.master);
    Agree(mac, cfgC.resume, fc, Taken(inputC, c), c.hs.hashed, c.hs.master,
          cfgS.resume, fs, Taken(inputS, s), s.hs.hashed, s.hs.master);
  }

  lemma MadeFromTheStart(cfg: Config, server: bool, input: seq<Record>, answers: seq<Answer>)
    ensures var l := Ended(cfg, server, input, answers); AllMade(cfg, l) && l.hs.state.Server? == server
  {
    var l := Link(NewHandshake(cfg, server), input, []);
    assert AllMade(cfg, l);
    hide AllMade, Turns;
    RunMakes(cfg, l, answers);
  }

  lemma ClientHasTwo(cfg: Config, input: seq<Record>, answers: seq<Answer>) returns (fs: seq<Fin>)
    requires var l := Ended(cfg, false, input, answers); l.hs.state == Client(ClientDone) && !l.hs.wait.Error?
    ensures var l := Ended(cfg, false, input, answers);
            TwoFinishes(cfg.p.finishedMac, false, cfg.resume, fs, Taken(input, l), l.hs.hashed, l.hs.master)
  {
    hide Turns, Leads, TwoFinishes, WholeFlow;
    var l := Ended(cfg, false, input, answers);
    var c, taken := C.FinishedClientFollowedTheFlow(cfg, input, answers);
    assert Taken(input, l) == taken;
    fs := PathHasTwo(c, false, c.resumedMaster, taken, l.hs.hashed, l.hs.master);
  }

  lemma ServerHasTwo(cfg: Config, input: seq<Record>, answers: seq<Answer>) returns (fs: seq<Fin>)
    requires var l := Ended(cfg, true, input, answers); l.hs.state == Server(ServerDone) && !l.hs.wait.Error?
    ensures var l := Ended(cfg, true, input, answers);
            TwoFinishes(cfg.p.finishedMac, true, cfg.resume, fs, Taken(input, l), l.hs.hashed, l.hs.master)
  {
    hide Turns, Leads, TwoFinishes, WholeFlow;
    var l := Ended(cfg, true, input, answers);
    var taken := S.FinishedServerFollowedTheFlow(cfg, input, answers);
    assert Taken(input, l) == taken;
    fs := PathHasTwo(S.Seen(cfg, l.hs.peerCert), true, cfg.resumedMaster, taken, l.hs.hashed, l.hs.master);
  }
}
