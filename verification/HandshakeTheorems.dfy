/**
 The main results about whole runs: no unexpected message, no deadlock, a bound on the
 number of turns, and agreement on one ending that no schedule or retry can change.
 */
module HandshakeTheorems {
  import opened Basics
  import opened HandshakeTypes
  import opened HandshakeScript
  import opened HandshakeDriver
  import opened HandshakeCompose
  import opened HandshakeRun
  import opened HandshakeDescent

  // Every run stays good.

  predicate NoFailure(moves: seq<Move>) {
    forall m :: m in moves ==> !m.ans.Fail?
  }

  lemma StartGood(cfg: Config)
    ensures Good(cfg, Start(cfg))
  {
    hide Conversation, WholeFlow;
    var w := Start(cfg);
    assert Rest(cfg, w.client) == Rest(cfg, w.server);
    assert InFlight(w.client, [], w.server) == [] == InFlight(w.server, [], w.client);
    assert Tag(true, []) + Rest(cfg, w.server) == Rest(cfg, w.server);
  }

  lemma NextGood(cfg: Config, w: World, m: Move)
    requires Agreed(cfg) && Good(cfg, w) && !m.ans.Fail?
    ensures Good(cfg, Next(cfg, w, m))
  {
    hide Agreed, Valid, Rest, Linked, Micro;
    if m.server {
      Swapped(cfg, w.client, w.server, w.toClient, w.toServer);
      KeepsJoined(cfg, w.server, w.client, w.toServer, w.toClient, m.ans);
      var w' := Next(cfg, w, m);
      Swapped(cfg, w'.server, w'.client, w'.toServer, w'.toClient);
    } else {
      KeepsJoined(cfg, w.client, w.server, w.toClient, w.toServer, m.ans);
    }
  }

  lemma {:induction false} RunGood(cfg: Config, w: World, moves: seq<Move>)
    requires Agreed(cfg) && Good(cfg, w) && NoFailure(moves)
    ensures Good(cfg, Run(cfg, w, moves))
    decreases |moves|
  {
    hide Agreed, Good, Next;
    if moves != [] {
      NextGood(cfg, w, moves[0]);
      RunGood(cfg, Next(cfg, w, moves[0]), moves[1..]);
    }
  }

  /** Safety: under every schedule and every pattern of retries neither side fails on
      the other's messages, and whatever a side takes into its hand was made on exactly
      the transcript it now holds itself, Finished included. */
  lemma NothingUnexpected(cfg: Config, moves: seq<Move>)
    requires Agreed(cfg) && NoFailure(moves)
    ensures var w := Run(cfg, Start(cfg), moves);
            && !w.client.wait.Error? && !w.server.wait.Error?
            && (w.client.msg.Some? ==> w.client.msg.value.stamp == w.client.hashed)
            && (w.server.msg.Some? ==> w.server.msg.value.stamp == w.server.hashed)
  {
    hide Agreed, Rest, Run;
    StartGood(cfg);
    RunGood(cfg, Start(cfg), moves);
    var w := Run(cfg, Start(cfg), moves);
    if w.client.msg.Some? { HeldStamp(cfg, w.client); }
    if w.server.msg.Some? { HeldStamp(cfg, w.server); }
  }

  // Progress.

  function Total(cfg: Config, w: World): nat {
    Weight(cfg, w.client) + Weight(cfg, w.server)
  }

  predicate Effective(cfg: Config, w: World, m: Move) {
    m.ans.Proceed? && Next(cfg, w, m) != w
  }

  function EffectiveTurns(cfg: Config, w: World, moves: seq<Move>): nat
    decreases |moves|
  {
    if moves == [] then 0
    else (if Effective(cfg, w, moves[0]) then 1 else 0) + EffectiveTurns(cfg, Next(cfg, w, moves[0]), moves[1..])
  }

  function Retries(moves: seq<Move>): nat {
    if moves == [] then 0 else (if moves[0].ans.Retry? then 1 else 0) + Retries(moves[1..])
  }

  lemma NextDescends(cfg: Config, w: World, m: Move)
    requires !m.ans.Fail?
    ensures Effective(cfg, w, m) ==> Total(cfg, Next(cfg, w, m)) < Total(cfg, w)
    ensures Total(cfg, Next(cfg, w, m)) <= Total(cfg, w) + if m.ans.Retry? then 1 else 0
  {
    hide Micro, Weight;
    MicroDescends(cfg, if m.server then Link(w.server, w.toServer, []) else Link(w.client, w.toClient, []), m.ans);
    assert w.toClient + [] == w.toClient && w.toServer + [] == w.toServer;
  }

  /** No schedule keeps the machines busy for ever: the turns that change anything are
      bounded by the rank of the start and the number of retries. */
  lemma {:induction false} TurnsBounded(cfg: Config, w: World, moves: seq<Move>)
    requires NoFailure(moves)
    ensures EffectiveTurns(cfg, w, moves) + Total(cfg, Run(cfg, w, moves)) <= Total(cfg, w) + Retries(moves)
    decreases |moves|
  {
    hide Effective, Next, Total;
    if moves != [] {
      NextDescends(cfg, w, moves[0]);
      TurnsBounded(cfg, Next(cfg, w, moves[0]), moves[1..]);
    }
  }

  // Where a run ends.

  lemma {:induction false} ConversationEnds(cfg: Config, flow: seq<Turn>, tr: seq<Message>, ms: Bytes)
    ensures var c := Conversation(cfg, flow, tr, ms); |c| > 0 && c[|c| - 1].End?
    decreases |flow|
  {
    if flow != [] {
      match flow[0]
      case Switches(srv) =>
        ConversationEnds(cfg, flow[1..], tr, ms);
      case Says(srv, k, e) =>
        var m := Message(k, Content(cfg, srv, k, tr, ms));
        ConversationEnds(cfg, flow[1..], tr + [m], if k == ClientKeyExchange then cfg.p.masterSecret(m, tr + [m])
          else ms);
    }
  }

  /** The last item of what a machine has left: the transcript and master secret its
      whole conversation comes to. */
  function Ending(cfg: Config, hs: Hs): Item {
    ConversationEnds(cfg, Left(cfg, hs), hs.hashed, hs.master);
    Rest(cfg, hs)[|Rest(cfg, hs)| - 1]
  }

  lemma SameEnding(cfg: Config, w: World)
    requires Good(cfg, w)
    ensures Ending(cfg, w.client) == Ending(cfg, w.server)
  {
    ConversationEnds(cfg, Left(cfg, w.client), w.client.hashed, w.client.master);
    ConversationEnds(cfg, Left(cfg, w.server), w.server.hashed, w.server.master);
    hide Conversation, Left, Valid;
  }

  lemma {:induction false} RunKeepsEnding(cfg: Config, w: World, moves: seq<Move>)
    requires Agreed(cfg) && Good(cfg, w) && NoFailure(moves)
    ensures Ending(cfg, Run(cfg, w, moves).client) == Ending(cfg, w.client)
    decreases |moves|
  {
    hide Agreed, Good, Ending, Micro;
    if moves != [] {
      var w' := Next(cfg, w, moves[0]);
      NextGood(cfg, w, moves[0]);
      SameEnding(cfg, w);
      SameEnding(cfg, w');
      RunKeepsEnding(cfg, w', moves[1..]);
    }
  }

  predicate BothDone(w: World) {
    IsDone(w.client) && IsDone(w.server) && w.client.wait.Ok? && w.server.wait.Ok?
  }

  /** A side that no turn changes is done, or waits for a peer that has sent nothing. */
  lemma StuckSide(cfg: Config, hs: Hs, inbox: seq<Record>)
    requires Agreed(cfg) && Valid(cfg, hs) && Micro(cfg, Link(hs, inbox, []), Proceed) == Link(hs, inbox, [])
    ensures || (IsDone(hs) && hs.wait.Ok?)
            || (inbox == [] && hs.msg.None? && hs.pending == [] && PeerIsNext(cfg, hs, hs.wait.NeedChangeCipherSpec?))
  {
    hide Agreed, RowOf, Rest, Do, Rank;
    if hs.wait.Ok? {
      StepDescends(cfg, hs, Proceed);
    }
  }

  lemma DoneSide(cfg: Config, hs: Hs)
    requires Valid(cfg, hs) && IsDone(hs) && hs.wait.Ok?
    ensures Rest(cfg, hs) == [End(hs.hashed, hs.master)] && Held(hs) == [] && hs.pending == []
    ensures hs.readEpoch == 1 && hs.writeEpoch == 1
  {
  }

  lemma FirstItem(cfg: Config, hs: Hs)
    ensures |Rest(cfg, hs)| > 0
    ensures forall ccs :: PeerIsNext(cfg, hs, ccs) ==>
      Rest(cfg, hs)[0].Item? && Rest(cfg, hs)[0].fromServer == hs.state.Client?
  {
    hide Left;
  }

  /** Once one side has only the end before it and nothing is on its way to the other,
      the other has only that end before it too. */
  lemma EndMeetsEnd(ra: seq<Item>, rb: seq<Item>, aServes: bool, toA: seq<Record>, toB: seq<Record>)
    requires Linked(ra, rb, aServes, toA, toB) && |ra| == 1 && ra[0].End? && |rb| > 0 && toB == []
    ensures rb == ra && toA == []
  {
  }

  /** If neither side can take another turn, both have finished. */
  lemma StuckIsDone(cfg: Config, w: World)
    requires Agreed(cfg) && Good(cfg, w)
    requires !Effective(cfg, w, Move(false, Proceed)) && !Effective(cfg, w, Move(true, Proceed))
    ensures BothDone(w)
  {
    hide Agreed, Micro, Valid, Left, Conversation;
    assert Micro(cfg, Link(w.client, w.toClient, []), Proceed) == Link(w.client, w.toClient, []) by {
      var l := Micro(cfg, Link(w.client, w.toClient, []), Proceed);
      assert w.toServer + l.sent == w.toServer;
    }
    assert Micro(cfg, Link(w.server, w.toServer, []), Proceed) == Link(w.server, w.toServer, []) by {
      var l := Micro(cfg, Link(w.server, w.toServer, []), Proceed);
      assert w.toClient + l.sent == w.toClient;
    }
    StuckSide(cfg, w.client, w.toClient);
    StuckSide(cfg, w.server, w.toServer);
    FirstItem(cfg, w.client);
    FirstItem(cfg, w.server);
    hide PeerIsNext, Rest;
    if !BothDone(w) && IsDone(w.client) && w.client.wait.Ok? {
      DoneSide(cfg, w.client);
      EndMeetsEnd(Rest(cfg, w.client), Rest(cfg, w.server), false, InFlight(w.client, w.toClient, w.server),
        InFlight(w.server, w.toServer, w.client));
    } else if !BothDone(w) && IsDone(w.server) && w.server.wait.Ok? {
      DoneSide(cfg, w.server);
      Swapped(cfg, w.client, w.server, w.toClient, w.toServer);
      EndMeetsEnd(Rest(cfg, w.server), Rest(cfg, w.client), true, InFlight(w.server, w.toServer, w.client),
        InFlight(w.client, w.toClient, w.server));
    }
  }

  /** No deadlock: both have finished, or one of them can take a turn that gets somewhere. */
  lemma NoDeadlock(cfg: Config, w: World)
    requires Agreed(cfg) && Good(cfg, w)
    ensures BothDone(w) || Effective(cfg, w, Move(false, Proceed)) || Effective(cfg, w, Move(true, Proceed))
  {
    hide Agreed, Good, BothDone, Effective;
    if !Effective(cfg, w, Move(false, Proceed)) && !Effective(cfg, w, Move(true, Proceed)) {
      StuckIsDone(cfg, w);
    }
  }

  /** From every reachable point the handshake can be finished without another retry. */
  lemma {:induction false} CanFinish(cfg: Config, w: World) returns (more: seq<Move>)
    requires Agreed(cfg) && Good(cfg, w)
    ensures (forall m :: m in more ==> m.ans.Proceed?) && BothDone(Run(cfg, w, more))
    decreases Total(cfg, w)
  {
    hide Agreed, Good, Next, Total, BothDone;
    var c, s := Move(false, Proceed), Move(true, Proceed);
    if Effective(cfg, w, c) || Effective(cfg, w, s) {
      var m := if Effective(cfg, w, c) then c else s;
      NextDescends(cfg, w, m);
      NextGood(cfg, w, m);
      var rest := CanFinish(cfg, Next(cfg, w, m));
      more := [m] + rest;
      assert more[1..] == rest;
    } else {
      StuckIsDone(cfg, w);
      more := [];
    }
  }

  /** Agreement: however the run was scheduled and wherever it was told to try again, the
      two finished sides hold one transcript and one master secret, those of the scripted
      conversation; both read and write under the new keys and nothing is left over. */
  lemma FinishedRunsAgree(cfg: Config, moves: seq<Move>)
    requires Agreed(cfg) && NoFailure(moves) && BothDone(Run(cfg, Start(cfg), moves))
    ensures var w := Run(cfg, Start(cfg), moves);
            var script := Conversation(cfg, WholeFlow(cfg), [], cfg.resumedMaster);
            && |script| > 0 && script[|script| - 1] == End(w.client.hashed, w.client.master)
            && w.server.hashed == w.client.hashed && w.server.master == w.client.master
            && w.client.readEpoch == w.client.writeEpoch == w.server.readEpoch == w.server.writeEpoch == 1
            && w.toServer == w.toClient == w.client.pending == w.server.pending == []
            && w.client.msg.None? && w.server.msg.None?
  {
    hide Agreed, Run, Valid, Conversation, WholeFlow, Rest;
    var w := Run(cfg, Start(cfg), moves);
    StartGood(cfg);
    RunGood(cfg, Start(cfg), moves);
    RunKeepsEnding(cfg, Start(cfg), moves);
    SameEnding(cfg, w);
    DoneSide(cfg, w.client);
    DoneSide(cfg, w.server);
    StartEnding(cfg);
    assert |Tag(true, InFlight(w.client, w.toClient, w.server))| == |InFlight(w.client, w.toClient, w.server)|;
    assert |Tag(false, InFlight(w.server, w.toServer, w.client))| == |InFlight(w.server, w.toServer, w.client)|;
  }

  lemma StartEnding(cfg: Config)
    ensures var script := Conversation(cfg, WholeFlow(cfg), [], cfg.resumedMaster);
            |script| > 0 && Ending(cfg, Start(cfg).client) == script[|script| - 1]
  {
    hide WholeFlow;
    ConversationEnds(cfg, WholeFlow(cfg), [], cfg.resumedMaster);
    hide Conversation;
  }
}
