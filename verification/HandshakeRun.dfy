/**
 Whole runs of a client and a server joined by two reliable channels, under every
 schedule and every pattern of retries, for every set of parameters they can agree on.
 */
module HandshakeRun {
  import opened Basics
  import opened HandshakeTypes
  import opened HandshakeScript
  import opened HandshakeDriver
  import opened HandshakeCompose

  datatype World = World(client: Hs, server: Hs, toServer: seq<Record>, toClient: seq<Record>)

  /** One turn of one side's ssl_run_handshake loop. */
  datatype Move = Move(server: bool, ans: Answer)

  function Start(cfg: Config): World {
    World(NewHandshake(cfg, false), NewHandshake(cfg, true), [], [])
  }

  function Next(cfg: Config, w: World, m: Move): World {
    if m.server then
      var l := Micro(cfg, Link(w.server, w.toServer, []), m.ans);
      World(w.client, l.hs, l.inbox, w.toClient + l.sent)
    else
      var l := Micro(cfg, Link(w.client, w.toClient, []), m.ans);
      World(l.hs, w.server, w.toServer + l.sent, l.inbox)
  }

  function Run(cfg: Config, w: World, moves: seq<Move>): World
    decreases |moves|
  {
    if moves == [] then w else Run(cfg, Next(cfg, w, moves[0]), moves[1..])
  }

  // The invariant.

  /** What `a` has left is what is on its way to it and then what `b` has left, or the
      other way round; records in flight never cross. */
  predicate Linked(ra: seq<Item>, rb: seq<Item>, aServes: bool, toA: seq<Record>, toB: seq<Record>) {
    || (toB == [] && ra == Tag(!aServes, toA) + rb)
    || (toA == [] && rb == Tag(aServes, toB) + ra)
  }

  function InFlight(to: Hs, wire: seq<Record>, from: Hs): seq<Record> {
    Held(to) + wire + from.pending
  }

  /** `a`'s view of the pair: both sides valid, on opposite roles, and linked. */
  predicate Joined(cfg: Config, a: Hs, b: Hs, toA: seq<Record>, toB: seq<Record>) {
    && Valid(cfg, a) && Valid(cfg, b) && a.state.Client? == b.state.Server?
    && Linked(Rest(cfg, a), Rest(cfg, b), a.state.Server?, InFlight(a, toA, b), InFlight(b, toB, a))
  }

  predicate Good(cfg: Config, w: World) {
    w.client.state.Client? && Joined(cfg, w.client, w.server, w.toClient, w.toServer)
  }

  // How the link survives each kind of step, on plain sequences.

  lemma Sent(ra: seq<Item>, ra': seq<Item>, rb: seq<Item>, aServes: bool, toA: seq<Record>, toB: seq<Record>,
      x: seq<Record>)
    requires Linked(ra, rb, aServes, toA, toB) && ra == Tag(aServes, x) + ra'
    ensures Linked(ra', rb, aServes, toA, toB + x)
  {
    if toA == [] {
      assert rb == Tag(aServes, toB) + ra;
      TagConcat(aServes, toB, x);
      assert rb == Tag(aServes, toB + x) + ra';
    } else {
      assert ra[0] == Item(!aServes, toA[0]);
      assert x == [];
      assert ra == ra' && toB + x == toB;
    }
  }

  lemma Taken(ra: seq<Item>, ra': seq<Item>, rb: seq<Item>, aServes: bool, r: Record, toA: seq<Record>,
      toB: seq<Record>)
    requires Linked(ra, rb, aServes, [r] + toA, toB) && |ra| > 0 && ra == [ra[0]] + ra'
    ensures Linked(ra', rb, aServes, toA, toB)
  {
    TagConcat(!aServes, [r], toA);
    assert ra == [Item(!aServes, r)] + (Tag(!aServes, toA) + rb);
    assert ra' == ra[1..] == Tag(!aServes, toA) + rb;
  }

  lemma Swapped(cfg: Config, a: Hs, b: Hs, toA: seq<Record>, toB: seq<Record>)
    requires Joined(cfg, a, b, toA, toB)
    ensures Joined(cfg, b, a, toB, toA)
  {
  }

  // One machine step and the reading of one record.

  lemma StepMoves(cfg: Config, hs: Hs, ans: Answer)
    requires Agreed(cfg) && Ready(cfg, hs) && !ans.Fail?
    ensures Moves(cfg, hs, Do(cfg, hs, ans))
  {
    hide Moves, Ready, Do;
    if hs.state.Client? {
      ClientStep(cfg, hs, ans);
    } else {
      ServerStep(cfg, hs, ans);
    }
  }

  lemma ClientStep(cfg: Config, hs: Hs, ans: Answer)
    requires Agreed(cfg) && Ready(cfg, hs) && !ans.Fail? && hs.state.Client?
    ensures Moves(cfg, hs, Do(cfg, hs, ans))
  {
    hide Moves, Ready, HandshakeClient.ClientDo;
    match hs.state.client
    case StartConnect => AtStartConnect(cfg, hs, ans);
    case EnterEarlyData => AtEnterEarlyData(cfg, hs, ans);
    case ReadServerHello => AtReadServerHello(cfg, hs, ans);
    case ReadServerCertificate => AtReadServerCertificate(cfg, hs, ans);
    case ReadCertificateStatus => AtReadCertificateStatus(cfg, hs, ans);
    case VerifyServerCertificate => AtVerifyServerCertificate(cfg, hs, ans);
    case ReadServerKeyExchange => AtReadServerKeyExchange(cfg, hs, ans);
    case ReadCertificateRequest => AtReadCertificateRequest(cfg, hs, ans);
    case ReadServerHelloDone => AtReadServerHelloDone(cfg, hs, ans);
    case SendClientCertificate => AtSendClientCertificate(cfg, hs, ans);
    case SendClientKeyExchange => AtSendClientKeyExchange(cfg, hs, ans);
    case SendClientCertificateVerify => AtSendClientCertificateVerify(cfg, hs, ans);
    case SendClientFinished => AtSendClientFinished(cfg, hs, ans);
    case FinishFlight => AtFinishFlight(cfg, hs, ans);
    case ReadSessionTicket => AtReadSessionTicket(cfg, hs, ans);
    case ProcessServerChangeCipherSpec => AtProcessServerChangeCipherSpec(cfg, hs, ans);
    case ReadServerFinished => AtReadServerFinished(cfg, hs, ans);
    case FinishClientHandshake => AtFinishClientHandshake(cfg, hs, ans);
    case ClientDone => AtClientDone(cfg, hs, ans);
  }

  lemma ServerStep(cfg: Config, hs: Hs, ans: Answer)
    requires Agreed(cfg) && Ready(cfg, hs) && !ans.Fail? && hs.state.Server?
    ensures Moves(cfg, hs, Do(cfg, hs, ans))
  {
    hide Moves, Ready, HandshakeServer.ServerDo;
    match hs.state.server
    case StartAccept => AtHelloServerState(cfg, hs, ans);
    case ReadClientHello => AtHelloServerState(cfg, hs, ans);
    case SelectCertificate => AtHelloServerState(cfg, hs, ans);
    case SelectParameters => AtSelectParameters(cfg, hs, ans);
    case SendServerHello => AtSendServerHello(cfg, hs, ans);
    case SendServerCertificate => AtSendServerCertificate(cfg, hs, ans);
    case SendServerKeyExchange => AtSendServerKeyExchange(cfg, hs, ans);
    case SendServerHelloDone => AtSendServerHelloDone(cfg, hs, ans);
    case ReadClientCertificate => AtReadClientCertificate(cfg, hs, ans);
    case VerifyClientCertificate => AtVerifyClientCertificate(cfg, hs, ans);
    case ReadClientKeyExchange => AtReadClientKeyExchange(cfg, hs, ans);
    case ReadClientCertificateVerify => AtReadClientCertificateVerify(cfg, hs, ans);
    case ReadChangeCipherSpec => AtReadChangeCipherSpec(cfg, hs, ans);
    case ProcessClientChangeCipherSpec => AtProcessClientChangeCipherSpec(cfg, hs, ans);
    case ReadNextProto => AtReadNextProto(cfg, hs, ans);
    case ReadChannelId => AtReadChannelId(cfg, hs, ans);
    case ReadClientFinished => AtReadClientFinished(cfg, hs, ans);
    case SendServerFinished => AtSendServerFinished(cfg, hs, ans);
    case FinishServerHandshake => AtFinishServerHandshake(cfg, hs, ans);
    case ServerDone => AtServerDone(cfg, hs, ans);
  }

  /** The flow behind a switch of keys is what is left once it has been read. */
  lemma SwitchIsNext(cfg: Config, hs: Hs)
    requires Fields(cfg, hs, RowOf(cfg, hs.state)) && hs.wait.NeedChangeCipherSpec?
    ensures Left(cfg, hs) == [Switches(hs.state.Client?)] + Left(cfg, Stop(hs, Ok))
  {
    assert hs.state == Client(ProcessServerChangeCipherSpec) || hs.state == Server(ProcessClientChangeCipherSpec);
    hide *;
    SwitchTurn(cfg, hs);
  }

  lemma SwitchTurn(cfg: Config, hs: Hs)
    requires hs.state == Client(ProcessServerChangeCipherSpec) || hs.state == Server(ProcessClientChangeCipherSpec)
    requires hs.wait.NeedChangeCipherSpec?
    ensures Left(cfg, hs) == [Switches(hs.state.Client?)] + Left(cfg, Stop(hs, Ok))
  {
    hide AfterServerSwitch, AfterServerFinished, AfterClientSwitch, AfterClientFinished;
  }

  lemma ReadsMessage(cfg: Config, hs: Hs, r: Record, rest: seq<Record>, sent: seq<Record>)
    requires Valid(cfg, hs) && hs.wait.NeedMessage?
    requires |Rest(cfg, hs)| > 0 && Rest(cfg, hs)[0] == Item(hs.state.Client?, r)
    ensures r.Handshake?
    ensures ReadHandshake(Link(hs, [r] + rest, sent)) == Link(hs.(msg := Some(r.env), wait := Ok), rest, sent)
    ensures Valid(cfg, hs.(msg := Some(r.env), wait := Ok))
            && Rest(cfg, hs.(msg := Some(r.env), wait := Ok)) == Rest(cfg, hs)
  {
    hide RowOf;
  }

  lemma ReadsSwitch(cfg: Config, hs: Hs, r: Record, rest: seq<Record>, sent: seq<Record>)
    requires Valid(cfg, hs) && hs.wait.NeedChangeCipherSpec?
    requires |Rest(cfg, hs)| > 0 && Rest(cfg, hs)[0] == Item(hs.state.Client?, r)
    ensures ReadCcs(Link(hs, [r] + rest, sent)) == Link(Stop(hs, Ok), rest, sent)
    ensures Valid(cfg, Stop(hs, Ok)) && Rest(cfg, hs) == [Item(hs.state.Client?, r)] + Rest(cfg, Stop(hs, Ok))
  {
    SwitchIsNext(cfg, hs);
    hide RowOf, Left;
    Switches1(cfg, hs.state.Client?, Left(cfg, Stop(hs, Ok)), hs.hashed, hs.master);
  }

  // The invariant over runs.

  /** The message in hand is the next of the flow, sealed by a peer whose transcript at
      that moment was exactly this side's transcript now. */
  lemma HeldStamp(cfg: Config, hs: Hs)
    requires Valid(cfg, hs) && hs.msg.Some?
    ensures hs.msg.value.stamp == hs.hashed
  {
  }

  /** A side that waits for the peer meets exactly what the peer sent. */
  lemma Arrives(cfg: Config, a: Hs, b: Hs, toA: seq<Record>, toB: seq<Record>)
    requires Joined(cfg, a, b, toA, toB) && toA != [] && a.msg.None?
    ensures |Rest(cfg, a)| > 0 && Rest(cfg, a)[0] == Item(a.state.Client?, toA[0])
  {
    hide Valid, Rest;
    var t := InFlight(a, toA, b);
    assert t[0] == toA[0];
    assert Rest(cfg, a) == Tag(a.state.Client?, t) + Rest(cfg, b);
  }

  lemma KeepsJoined(cfg: Config, a: Hs, b: Hs, toA: seq<Record>, toB: seq<Record>, ans: Answer)
    requires Agreed(cfg) && Joined(cfg, a, b, toA, toB) && !ans.Fail?
    ensures var l := Micro(cfg, Link(a, toA, []), ans);
            Joined(cfg, l.hs, b, l.inbox, toB + l.sent) && l.hs.state.Client? == a.state.Client?
  {
    hide Agreed, RowOf, Left, Conversation, Do;
    var l := Micro(cfg, Link(a, toA, []), ans);
    if l == Link(a, toA, []) {
      assert toB + [] == toB;
    } else if a.wait.Ok? {
      StepMoves(cfg, a, ans);
      KeepsStep(cfg, a, Do(cfg, a, ans), b, toA, toB);
    } else if a.wait.NeedMessage? {
      KeepsMessage(cfg, a, b, toA, toB);
    } else if a.wait.NeedChangeCipherSpec? {
      KeepsSwitch(cfg, a, b, toA, toB);
    } else {
      KeepsFlush(cfg, a, l.hs, b, toA, toB, l.sent);
    }
  }

  lemma KeepsStep(cfg: Config, a: Hs, a': Hs, b: Hs, toA: seq<Record>, toB: seq<Record>)
    requires Joined(cfg, a, b, toA, toB) && Moves(cfg, a, a')
    ensures Joined(cfg, a', b, toA, toB + [])
  {
    hide Valid, Rest;
    assert toB + [] == toB;
    var fa, fb := InFlight(a, toA, b), InFlight(b, toB, a);
    var x := a'.pending[|a.pending|..];
    assert InFlight(b, toB, a') == fb + x;
    if a'.msg == a.msg && Rest(cfg, a) == Tag(a.state.Server?, x) + Rest(cfg, a') {
      Sent(Rest(cfg, a), Rest(cfg, a'), Rest(cfg, b), a.state.Server?, fa, fb, x);
    } else {
      var r := Handshake(a.msg.value);
      assert fa == [r] + InFlight(a', toA, b);
      Taken(Rest(cfg, a), Rest(cfg, a'), Rest(cfg, b), a.state.Server?, r, InFlight(a', toA, b), fb);
      assert fb + x == fb;
    }
  }

  lemma KeepsMessage(cfg: Config, a: Hs, b: Hs, toA: seq<Record>, toB: seq<Record>)
    requires Joined(cfg, a, b, toA, toB) && a.wait.NeedMessage? && toA != []
    ensures var l := ReadHandshake(Link(a, toA, [])); Joined(cfg, l.hs, b, l.inbox, toB + [])
  {
    hide RowOf, Left, Conversation, Rest, Linked;
    assert a.msg.None?;
    hide Valid;
    assert toB + [] == toB && toA == [toA[0]] + toA[1..];
    Arrives(cfg, a, b, toA, toB);
    ReadsMessage(cfg, a, toA[0], toA[1..], []);
    var l := ReadHandshake(Link(a, toA, []));
    assert InFlight(l.hs, l.inbox, b) == InFlight(a, toA, b);
  }

  lemma KeepsSwitch(cfg: Config, a: Hs, b: Hs, toA: seq<Record>, toB: seq<Record>)
    requires Joined(cfg, a, b, toA, toB) && a.wait.NeedChangeCipherSpec? && toA != []
    ensures var l := ReadCcs(Link(a, toA, [])); Joined(cfg, l.hs, b, l.inbox, toB + [])
  {
    hide RowOf, Left, Conversation;
    assert toB + [] == toB && toA == [toA[0]] + toA[1..];
    Arrives(cfg, a, b, toA, toB);
    hide Rest;
    ReadsSwitch(cfg, a, toA[0], toA[1..], []);
    var l := ReadCcs(Link(a, toA, []));
    assert InFlight(a, toA, b) == [toA[0]] + InFlight(l.hs, l.inbox, b);
    Taken(Rest(cfg, a), Rest(cfg, l.hs), Rest(cfg, b), a.state.Server?, toA[0], InFlight(l.hs, l.inbox, b),
      InFlight(b, toB, a));
  }

  lemma KeepsFlush(cfg: Config, a: Hs, a': Hs, b: Hs, toA: seq<Record>, toB: seq<Record>, sent: seq<Record>)
    requires Joined(cfg, a, b, toA, toB) && !a.wait.NeedMessage? && !a.wait.NeedChangeCipherSpec?
    requires || (a.wait.Flush? && a' == a.(pending := [], wait := Ok) && sent == a.pending)
             || (!a.wait.Flush? && a' == Stop(a, Ok) && sent == [])
    ensures Joined(cfg, a', b, toA, toB + sent)
  {
    hide RowOf, Conversation, Remaining;
    assert Rest(cfg, a') == Rest(cfg, a);
    hide Rest;
    assert InFlight(b, toB + sent, a') == InFlight(b, toB, a);
  }
}
