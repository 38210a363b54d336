/**
 One step of either machine when its peer keeps to the agreed flow: it does not fail, and what
 it sends or takes is what the conversation has next.
 */
module HandshakeCompose {
  import opened Basics
  import opened HandshakeTypes
  import opened HandshakeScript
  import opened HandshakeDriver
  import opened HandshakeClient
  import opened HandshakeServer

  function Rest(cfg: Config, hs: Hs): seq<Item> {
    Conversation(cfg, Left(cfg, hs), hs.hashed, hs.master)
  }

  // What holds of a machine's own fields, state by state: the epochs, whether the
  // handshake buffer must still mirror the hash, the certificate flags where they are
  // settled, whether the ticket flag is the negotiated one, whether records may be
  // waiting in the flight, whether a message may be held, and whether the state is
  // entered waiting for a ChangeCipherSpec.

  datatype Flight = Empty | Flushing | Filling

  datatype Row = Row(writeEpoch: nat, readEpoch: nat, mirrored: bool, certRequest: Option<bool>,
                     peerCert: Option<bool>, ticket: bool, flight: Flight, holds: bool, ccs: bool, reached: bool)

  function ClientRow(cfg: Config, s: ClientState): Row {
    var full, sign := !cfg.resume, cfg.certRequest && cfg.clientCert;
    match s
    case StartConnect => Row(0, 0, true, Some(false), None, true, Empty, false, false, true)
    case EnterEarlyData => Row(0, 0, true, Some(false), None, true, Flushing, true, false, true)
    case ReadServerHello => Row(0, 0, true, Some(false), None, true, Empty, true, false, true)
    case ReadServerCertificate => Row(0, 0, sign, Some(false), None, true, Empty, true, false, full)
    case ReadCertificateStatus => Row(0, 0, sign, Some(false), None, true, Empty, true, false, full)
    case VerifyServerCertificate => Row(0, 0, sign, Some(false), None, true, Empty, true, false, full)
    case ReadServerKeyExchange => Row(0, 0, sign, Some(false), None, true, Empty, true, false, full)
    case ReadCertificateRequest => Row(0, 0, sign, Some(false), None, true, Empty, true, false, full)
    case ReadServerHelloDone => Row(0, 0, sign, Some(cfg.certRequest), None, true, Empty, true, false, full)
    case SendClientCertificate => Row(0, 0, sign, Some(cfg.certRequest), None, true, Empty, false, false, full)
    case SendClientKeyExchange => Row(0, 0, sign, Some(cfg.certRequest), None, true, Filling, false, false, full)
    case SendClientCertificateVerify => Row(0, 0, sign, Some(cfg.certRequest), None, true, Filling, false, false, full)
    case SendClientFinished =>
      Row(0, if full then 0 else 1, false, None, None, full, if full then Filling else Empty, false, false, true)
    case FinishFlight => Row(1, if full then 0 else 1, false, None, None, full, Flushing, false, false, true)
    case ReadSessionTicket => Row(if full then 1 else 0, 0, false, None, None, true, Empty, true, false, true)
    case ProcessServerChangeCipherSpec =>
      Row(if full then 1 else 0, 0, false, None, None, false, Empty, false, true, true)
    case ReadServerFinished => Row(if full then 1 else 0, 1, false, None, None, false, Empty, true, false, true)
    case FinishClientHandshake => Row(1, 1, false, None, None, false, Empty, false, false, true)
    case ClientDone => Row(1, 1, false, None, None, false, Empty, false, false, true)
  }

  function ServerRow(cfg: Config, s: ServerState): Row {
    var full, sign := !cfg.resume, cfg.certRequest && cfg.clientCert;
    match s
    case StartAccept => Row(0, 0, true, None, Some(false), false, Empty, false, false, true)
    case ReadClientHello => Row(0, 0, true, None, Some(false), false, Empty, true, false, true)
    case SelectCertificate => Row(0, 0, true, None, Some(false), false, Empty, true, false, true)
    case SelectParameters => Row(0, 0, true, None, Some(false), false, Empty, true, false, true)
    case SendServerHello => Row(0, 0, sign, Some(cfg.certRequest), Some(false), true, Empty, false, false, true)
    case SendServerCertificate => Row(0, 0, sign, Some(cfg.certRequest), Some(false), true, Filling, false, false, full)
    case SendServerKeyExchange => Row(0, 0, sign, Some(cfg.certRequest), Some(false), true, Filling, false, false, full)
    case SendServerHelloDone => Row(0, 0, sign, Some(cfg.certRequest), Some(false), true, Filling, false, false, full)
    case ReadClientCertificate => Row(0, 0, sign, Some(cfg.certRequest), Some(false), true, Flushing, true, false, full)
    case VerifyClientCertificate => Row(0, 0, sign, None, Some(sign), true, Empty, true, false, full)
    case ReadClientKeyExchange => Row(0, 0, sign, None, Some(sign), true, Empty, true, false, full)
    case ReadClientCertificateVerify => Row(0, 0, sign, None, Some(sign), true, Empty, true, false, full)
    case ReadChangeCipherSpec =>
      Row(if full then 0 else 1, 0, false, None, None, true, if full then Empty else Flushing, false, false, true)
    case ProcessClientChangeCipherSpec =>
      Row(if full then 0 else 1, 0, false, None, None, true, Empty, false, true, true)
    case ReadNextProto => Row(if full then 0 else 1, 1, false, None, None, true, Empty, true, false, true)
    case ReadChannelId => Row(if full then 0 else 1, 1, false, None, None, true, Empty, true, false, true)
    case ReadClientFinished => Row(if full then 0 else 1, 1, false, None, None, true, Empty, true, false, true)
    case SendServerFinished =>
      Row(0, if full then 1 else 0, false, None, None, true, if full then Empty else Filling, false, false, true)
    case FinishServerHandshake =>
      Row(1, 1, false, None, None, true, if full then Flushing else Empty, false, false, true)
    case ServerDone => Row(1, 1, false, None, None, true, Empty, false, false, true)
  }

  function RowOf(cfg: Config, s: State): Row {
    if s.Client? then ClientRow(cfg, s.client) else ServerRow(cfg, s.server)
  }

  predicate Fields(cfg: Config, hs: Hs, row: Row) {
    && row.reached && hs.writeEpoch == row.writeEpoch && hs.readEpoch == row.readEpoch
    && (row.mirrored ==> hs.buffer == Some(hs.hashed))
    && (row.certRequest.Some? ==> hs.certRequest == row.certRequest.value)
    && (row.peerCert.Some? ==> hs.peerCert == row.peerCert.value)
    && (row.ticket ==> hs.ticketExpected == cfg.ticket)
    && (hs.msg.Some? || hs.wait.NeedMessage? ==> row.holds)
    && (hs.wait.NeedChangeCipherSpec? ==> row.ccs)
    && (hs.wait.Flush? ==> row.flight.Flushing?)
    && (hs.pending != [] ==> row.flight.Filling? || hs.wait.Flush?)
  }

  /** The machine knows what it is doing: nothing failed, its fields are as the table
      says, it waits only for what the peer will send, and what it holds is what the
      flow brings next. */
  predicate Valid(cfg: Config, hs: Hs) {
    && hs.wait != Error
    && Fields(cfg, hs, RowOf(cfg, hs.state))
    && (hs.wait.NeedMessage? || hs.wait.NeedChangeCipherSpec? ==>
        hs.msg.None? && hs.pending == [] && PeerIsNext(cfg, hs, hs.wait.NeedChangeCipherSpec?))
    && (hs.msg.Some? ==> Rest(cfg, hs) != [] && Rest(cfg, hs)[0] == Item(hs.state.Client?, Handshake(hs.msg.value)))
  }

  predicate PeerIsNext(cfg: Config, hs: Hs, ccs: bool) {
    Left(cfg, hs) != [] && Left(cfg, hs)[0].fromServer == hs.state.Client? &&
    Left(cfg, hs)[0].Switches? == ccs && hs.readEpoch == if ccs then 0 else Left(cfg, hs)[0].epoch
  }

  function Tag(fromServer: bool, rs: seq<Record>): (items: seq<Item>)
    ensures |items| == |rs|
    ensures forall i :: 0 <= i < |rs| ==> items[i] == Item(fromServer, rs[i])
  {
    seq(|rs|, i requires 0 <= i < |rs| => Item(fromServer, rs[i]))
  }

  /** One step of a machine run on its own: its facts survive, and what it has left
      shrinks by exactly the message it took from its hand, or the records it added
      to its flight. */
  predicate Moves(cfg: Config, hs: Hs, hs': Hs) {
    && Valid(cfg, hs') && hs'.state.Client? == hs.state.Client? && hs.pending <= hs'.pending
    && (|| (hs'.msg == hs.msg &&
            Rest(cfg, hs) == Tag(hs.state.Server?, hs'.pending[|hs.pending|..]) + Rest(cfg, hs'))
        || (hs.msg.Some? && hs'.msg.None? && hs'.pending == hs.pending &&
            Rest(cfg, hs) == [Item(hs.state.Client?, Handshake(hs.msg.value))] + Rest(cfg, hs')))
  }

  lemma TagConcat(srv: bool, a: seq<Record>, b: seq<Record>)
    ensures Tag(srv, a + b) == Tag(srv, a) + Tag(srv, b)
  {
  }

  /** `hs` became `h` by adding to its flight exactly what the flow `f` says before `f'`. */
  predicate Adds(cfg: Config, srv: bool, hs: Hs, h: Hs, f: seq<Turn>, f': seq<Turn>) {
    && hs.pending <= h.pending
    && Conversation(cfg, f, hs.hashed, hs.master)
       == Tag(srv, h.pending[|hs.pending|..]) + Conversation(cfg, f', h.hashed, h.master)
  }

  lemma AddsNothing(cfg: Config, srv: bool, hs: Hs, f: seq<Turn>)
    ensures Adds(cfg, srv, hs, hs, f, f)
  {
    assert Tag(srv, []) + Conversation(cfg, f, hs.hashed, hs.master) == Conversation(cfg, f, hs.hashed, hs.master);
  }

  lemma AddsMessage(cfg: Config, srv: bool, hs: Hs, b: bool, m: Message, f: seq<Turn>)
    requires m.body == Content(cfg, srv, m.kind, hs.hashed, hs.master) && m.kind != ClientKeyExchange
    ensures Adds(cfg, srv, hs, if b then AddMessage(hs, m) else hs, If(b, Says(srv, m.kind, hs.writeEpoch), f), f)
  {
    if b {
      Says1(cfg, srv, m.kind, hs.writeEpoch, f, hs.hashed, hs.master);
    } else {
      AddsNothing(cfg, srv, hs, f);
    }
  }

  /** The one message that also sets the master secret. */
  lemma AddsKeyExchange(cfg: Config, hs: Hs, f: seq<Turn>)
    requires hs.writeEpoch == 0
    ensures Adds(cfg, false, hs, DoSendClientKeyExchange(cfg, hs), [Says(false, ClientKeyExchange, 0)] + f, f)
  {
    Says1(cfg, false, ClientKeyExchange, 0, f, hs.hashed, hs.master);
  }

  lemma AddsSwitch(cfg: Config, srv: bool, hs: Hs, f: seq<Turn>)
    requires hs.writeEpoch == 0
    ensures Adds(cfg, srv, hs, AddChangeCipherSpec(hs), [Switches(srv)] + f, f)
  {
    Switches1(cfg, srv, f, hs.hashed, hs.master);
  }

  lemma AddsThen(cfg: Config, srv: bool, a: Hs, b: Hs, c: Hs, f: seq<Turn>, g: seq<Turn>, h: seq<Turn>)
    requires Adds(cfg, srv, a, b, f, g) && Adds(cfg, srv, b, c, g, h)
    ensures Adds(cfg, srv, a, c, f, h)
  {
    assert c.pending[|a.pending|..] == b.pending[|a.pending|..] + c.pending[|b.pending|..];
    TagConcat(srv, b.pending[|a.pending|..], c.pending[|b.pending|..]);
  }

  lemma AddsFinishing(cfg: Config, srv: bool, hs: Hs, f: seq<Turn>)
    requires hs.writeEpoch == 1
    ensures Adds(cfg, srv, hs, SendFinished(cfg, hs, srv), [Says(srv, Finished, 1)] + f, f)
  {
    AddsMessage(cfg, srv, hs, true, Message(Finished, cfg.p.finishedMac(hs.master, srv, hs.hashed)), f);
  }

  /** The client's last flight: the switch of keys, then three messages of which two
      are optional. */
  lemma ClientFlight(cfg: Config, hs: Hs, f: seq<Turn>)
    requires hs.writeEpoch == 0
    ensures Adds(cfg, false, hs, ClientFinalFlight(cfg, hs), ClientTail(cfg, f), f)
  {
    var h0 := AddChangeCipherSpec(hs);
    var np := Message(NextProto, cfg.body(false, NextProto));
    var h1 := if cfg.npn then AddMessage(h0, np) else h0;
    var cid := Message(ChannelId, cfg.p.channelSign(cfg.resume, h1.hashed));
    var h2 := if cfg.channelId then AddMessage(h1, cid) else h1;
    AddsSwitch(cfg, false, hs, AfterClientSwitch(cfg, f));
    AddsMessage(cfg, false, h0, cfg.npn, np, AfterNextProto(cfg, f));
    AddsMessage(cfg, false, h1, cfg.channelId, cid, AfterChannelId(f));
    AddsFinishing(cfg, false, h2, f);
    AddsThen(cfg, false, hs, h0, h1, ClientTail(cfg, f), AfterClientSwitch(cfg, f), AfterNextProto(cfg, f));
    AddsThen(cfg, false, hs, h1, h2, ClientTail(cfg, f), AfterNextProto(cfg, f), AfterChannelId(f));
    AddsThen(cfg, false, hs, h2, SendFinished(cfg, h2, false), ClientTail(cfg, f), AfterChannelId(f), f);
  }

  lemma ServerFlight(cfg: Config, hs: Hs, f: seq<Turn>)
    requires hs.writeEpoch == 0 && hs.ticketExpected == cfg.ticket
    ensures Adds(cfg, true, hs, ServerFinalFlight(cfg, hs), ServerTail(cfg, f), f)
  {
    var nst := Message(NewSessionTicket, cfg.body(true, NewSessionTicket));
    var h0 := if hs.ticketExpected then AddMessage(hs, nst) else hs;
    var h1 := AddChangeCipherSpec(h0);
    AddsMessage(cfg, true, hs, cfg.ticket, nst, AfterTicket(f));
    AddsSwitch(cfg, true, h0, AfterServerSwitch(f));
    AddsFinishing(cfg, true, h1, f);
    AddsThen(cfg, true, hs, h0, h1, ServerTail(cfg, f), AfterTicket(f), AfterServerSwitch(f));
    AddsThen(cfg, true, hs, h1, SendFinished(cfg, h1, true), ServerTail(cfg, f), AfterServerSwitch(f), f);
  }

  predicate Ready(cfg: Config, hs: Hs) {
    Valid(cfg, hs) && hs.wait.Ok?
  }

  lemma Known(cfg: Config, hs: Hs)
    requires Ready(cfg, hs)
    ensures Fields(cfg, hs, RowOf(cfg, hs.state))
  {
  }

  // The ways a step can go, each sound for every state.

  lemma Waits(cfg: Config, hs: Hs)
    requires Ready(cfg, hs) && hs.msg.None? && hs.pending == [] && PeerIsNext(cfg, hs, false)
    requires RowOf(cfg, hs.state).holds && !RowOf(cfg, hs.state).ccs
    ensures Moves(cfg, hs, Stop(hs, NeedMessage))
  {
    AddsNothing(cfg, hs.state.Server?, hs, Left(cfg, hs));
  }

  lemma Retries(cfg: Config, hs: Hs, w: Wait)
    requires Ready(cfg, hs) && IsRetry(w)
    ensures Moves(cfg, hs, Stop(hs, w))
  {
    AddsNothing(cfg, hs.state.Server?, hs, Left(cfg, hs));
  }

  lemma Passes(cfg: Config, hs: Hs, hs': Hs)
    requires Ready(cfg, hs) && hs'.state.Client? == hs.state.Client?
    requires Left(cfg, hs') == Left(cfg, hs) && hs'.hashed == hs.hashed && hs'.master == hs.master
    requires hs'.pending == hs.pending && hs'.msg == hs.msg && Fields(cfg, hs', RowOf(cfg, hs'.state))
    requires hs'.wait.Ok? || hs'.wait.EarlyReturn?
             || (hs'.wait.NeedChangeCipherSpec? && hs.msg.None? && hs.pending == [] && PeerIsNext(cfg, hs', true))
    ensures Moves(cfg, hs, hs')
  {
    AddsNothing(cfg, hs.state.Server?, hs, Left(cfg, hs));
  }

  /** The held message is the next turn of the flow, with the content this side expects. */
  lemma Holds(cfg: Config, hs: Hs, k: Kind, e: nat, f: seq<Turn>)
    requires Ready(cfg, hs) && hs.msg.Some?
    requires Left(cfg, hs) == [Says(hs.state.Client?, k, e)] + f
    ensures hs.msg.value
         == Envelope(Message(k, Content(cfg, hs.state.Client?, k, hs.hashed, hs.master)), e, hs.hashed)
  {
  }

  /** Where the flow brings a switch of keys, no message is held. */
  lemma HoldsNothing(cfg: Config, hs: Hs, srv: bool, f: seq<Turn>)
    requires Ready(cfg, hs) && Left(cfg, hs) == [Switches(srv)] + f
    ensures hs.msg.None?
  {
  }

  lemma TakesIt(cfg: Config, hs: Hs, hs': Hs, k: Kind, e: nat, f: seq<Turn>)
    requires Ready(cfg, hs) && hs.msg.Some? && hs'.state.Client? == hs.state.Client?
    requires Left(cfg, hs) == [Says(hs.state.Client?, k, e)] + f && Left(cfg, hs') == f
    requires hs'.hashed == hs.hashed + [hs.msg.value.msg] && hs'.msg.None? && hs'.pending == hs.pending
    requires hs'.master == if k.ClientKeyExchange? then cfg.p.masterSecret(hs.msg.value.msg, hs'.hashed) else hs.master
    requires Fields(cfg, hs', RowOf(cfg, hs'.state))
    requires hs'.wait.Ok? || (hs'.wait.NeedChangeCipherSpec? && hs.pending == [] && PeerIsNext(cfg, hs', true))
    ensures Moves(cfg, hs, hs')
  {
    Says1(cfg, hs.state.Client?, k, e, f, hs.hashed, hs.master);
  }

  lemma Sends(cfg: Config, hs: Hs, hs': Hs, f: seq<Turn>, f': seq<Turn>)
    requires Ready(cfg, hs) && hs'.state.Client? == hs.state.Client? && hs.msg.None? && hs'.msg.None?
    requires Left(cfg, hs) == f && Left(cfg, hs') == f' && Adds(cfg, hs.state.Server?, hs, hs', f, f')
    requires Fields(cfg, hs', RowOf(cfg, hs'.state)) && (hs'.wait.Ok? || hs'.wait.Flush?)
    ensures Moves(cfg, hs, hs')
  {
  }

  lemma AtStartConnect(cfg: Config, hs: Hs, ans: Answer)
    requires Agreed(cfg) && Ready(cfg, hs) && !ans.Fail? && hs.state == Client(StartConnect)
    ensures Moves(cfg, hs, ClientDo(cfg, hs, ans))
  {
    hide Moves, Valid, Conversation, FromServerHello;
    Known(cfg, hs);
    AddsMessage(cfg, false, hs, true, Message(ClientHello, cfg.body(false, ClientHello)), FromServerHello(cfg));
    Sends(cfg, hs, ClientDo(cfg, hs, ans), WholeFlow(cfg), FromServerHello(cfg));
  }

  lemma AtReadServerHello(cfg: Config, hs: Hs, ans: Answer)
    requires Agreed(cfg) && Ready(cfg, hs) && !ans.Fail? && hs.state == Client(ReadServerHello)
    ensures Moves(cfg, hs, ClientDo(cfg, hs, ans))
  {
    hide Moves, Valid, Conversation, ServerTail, FromServerCertificate;
    Known(cfg, hs);
    var f := if cfg.resume then ServerTail(cfg, AfterServerFinished(cfg)) else FromServerCertificate(cfg);
    if hs.msg.None? {
      Waits(cfg, hs);
    } else {
      var h := NextMessage(Hash(hs, hs.msg.value.msg));
      var hs' := Go(if cfg.resume || !cfg.certAuth then FreeBuffer(h) else h,
                    Client(if cfg.resume then ReadSessionTicket else ReadServerCertificate));
      assert ClientDo(cfg, hs, ans) == hs' by {
        Holds(cfg, hs, ServerHello, 0, f);
      }
      TakesIt(cfg, hs, hs', ServerHello, 0, f);
    }
  }

  lemma AtReadServerCertificate(cfg: Config, hs: Hs, ans: Answer)
    requires Agreed(cfg) && Ready(cfg, hs) && !ans.Fail? && hs.state == Client(ReadServerCertificate)
    ensures Moves(cfg, hs, ClientDo(cfg, hs, ans))
  {
    hide Moves, Valid, Conversation, FromCertificateStatus;
    Known(cfg, hs);
    if !cfg.certAuth {
      Passes(cfg, hs, ClientDo(cfg, hs, ans));
    } else if hs.msg.None? {
      Waits(cfg, hs);
    } else {
      Holds(cfg, hs, Certificate, 0, FromCertificateStatus(cfg));
      TakesIt(cfg, hs, ClientDo(cfg, hs, ans), Certificate, 0, FromCertificateStatus(cfg));
    }
  }

  lemma AtReadCertificateStatus(cfg: Config, hs: Hs, ans: Answer)
    requires Agreed(cfg) && Ready(cfg, hs) && !ans.Fail? && hs.state == Client(ReadCertificateStatus)
    ensures Moves(cfg, hs, ClientDo(cfg, hs, ans))
  {
    hide Moves, Valid, Conversation, FromServerKeyExchange;
    Known(cfg, hs);
    if !cfg.ocsp {
      Passes(cfg, hs, ClientDo(cfg, hs, ans));
    } else if hs.msg.None? {
      Waits(cfg, hs);
    } else {
      Holds(cfg, hs, CertificateStatus, 0, FromServerKeyExchange(cfg));
      TakesIt(cfg, hs, ClientDo(cfg, hs, ans), CertificateStatus, 0, FromServerKeyExchange(cfg));
    }
  }

  lemma AtReadServerKeyExchange(cfg: Config, hs: Hs, ans: Answer)
    requires Agreed(cfg) && Ready(cfg, hs) && !ans.Fail? && hs.state == Client(ReadServerKeyExchange)
    ensures Moves(cfg, hs, ClientDo(cfg, hs, ans))
  {
    hide Moves, Valid, Conversation, FromClientCertificate;
    Known(cfg, hs);
    if hs.msg.None? {
      Waits(cfg, hs);
    } else if cfg.ske {
      var hs' := Go(NextMessage(Hash(hs, hs.msg.value.msg)), Client(ReadCertificateRequest));
      assert ClientDo(cfg, hs, ans) == hs' by {
        Holds(cfg, hs, ServerKeyExchange, 0, FromCertificateRequest(cfg));
      }
      TakesIt(cfg, hs, hs', ServerKeyExchange, 0, FromCertificateRequest(cfg));
    } else {
      var hs' := Go(hs, Client(ReadCertificateRequest));
      assert ClientDo(cfg, hs, ans) == hs' by {
        if cfg.certRequest {
          Holds(cfg, hs, CertificateRequest, 0, FromServerHelloDone(cfg));
        } else {
          Holds(cfg, hs, ServerHelloDone, 0, FromClientCertificate(cfg));
        }
      }
      Passes(cfg, hs, hs');
    }
  }

  lemma AtReadCertificateRequest(cfg: Config, hs: Hs, ans: Answer)
    requires Agreed(cfg) && Ready(cfg, hs) && !ans.Fail? && hs.state == Client(ReadCertificateRequest)
    ensures Moves(cfg, hs, ClientDo(cfg, hs, ans))
  {
    hide Moves, Valid, Conversation, FromClientCertificate;
    Known(cfg, hs);
    if !cfg.certAuth {
      Passes(cfg, hs, ClientDo(cfg, hs, ans));
    } else if hs.msg.None? {
      Waits(cfg, hs);
    } else if cfg.certRequest {
      Holds(cfg, hs, CertificateRequest, 0, FromServerHelloDone(cfg));
      TakesIt(cfg, hs, ClientDo(cfg, hs, ans), CertificateRequest, 0, FromServerHelloDone(cfg));
    } else {
      Holds(cfg, hs, ServerHelloDone, 0, FromClientCertificate(cfg));
      Passes(cfg, hs, ClientDo(cfg, hs, ans));
    }
  }

  lemma AtReadServerHelloDone(cfg: Config, hs: Hs, ans: Answer)
    requires Agreed(cfg) && Ready(cfg, hs) && !ans.Fail? && hs.state == Client(ReadServerHelloDone)
    ensures Moves(cfg, hs, ClientDo(cfg, hs, ans))
  {
    hide Moves, Valid, Conversation, FromClientCertificate;
    Known(cfg, hs);
    if hs.msg.None? {
      Waits(cfg, hs);
    } else {
      Holds(cfg, hs, ServerHelloDone, 0, FromClientCertificate(cfg));
      TakesIt(cfg, hs, ClientDo(cfg, hs, ans), ServerHelloDone, 0, FromClientCertificate(cfg));
    }
  }

  lemma AtSendClientCertificate(cfg: Config, hs: Hs, ans: Answer)
    requires Agreed(cfg) && Ready(cfg, hs) && !ans.Fail? && hs.state == Client(SendClientCertificate)
    ensures Moves(cfg, hs, ClientDo(cfg, hs, ans))
  {
    hide Moves, Valid, Conversation, FromClientKeyExchange;
    Known(cfg, hs);
    if !cfg.certRequest {
      Passes(cfg, hs, ClientDo(cfg, hs, ans));
    } else if ans.Retry? {
      Retries(cfg, hs, X509Lookup);
    } else {
      var h := if cfg.clientCert then hs else FreeBuffer(hs);
      AddsMessage(cfg, false, h, true, Message(Certificate, cfg.body(false, Certificate)), FromClientKeyExchange(cfg));
      Sends(cfg, hs, ClientDo(cfg, hs, ans), FromClientCertificate(cfg), FromClientKeyExchange(cfg));
    }
  }

  lemma AtSendClientKeyExchange(cfg: Config, hs: Hs, ans: Answer)
    requires Agreed(cfg) && Ready(cfg, hs) && !ans.Fail? && hs.state == Client(SendClientKeyExchange)
    ensures Moves(cfg, hs, ClientDo(cfg, hs, ans))
  {
    hide Moves, Valid, Conversation, FromCertificateVerify;
    Known(cfg, hs);
    AddsKeyExchange(cfg, hs, FromCertificateVerify(cfg));
    Sends(cfg, hs, ClientDo(cfg, hs, ans), FromClientKeyExchange(cfg), FromCertificateVerify(cfg));
  }

  lemma AtSendClientCertificateVerify(cfg: Config, hs: Hs, ans: Answer)
    requires Agreed(cfg) && Ready(cfg, hs) && !ans.Fail? && hs.state == Client(SendClientCertificateVerify)
    ensures Moves(cfg, hs, ClientDo(cfg, hs, ans))
  {
    hide Moves, Valid, Conversation, ClientTail;
    Known(cfg, hs);
    if !(cfg.certRequest && cfg.clientCert) {
      Passes(cfg, hs, ClientDo(cfg, hs, ans));
    } else if ans.Retry? {
      Retries(cfg, hs, PrivateKeyOperation);
    } else {
      var f := ClientTail(cfg, AfterClientFinished(cfg));
      AddsMessage(cfg, false, hs, true, Message(CertificateVerify, cfg.p.sign(hs.hashed)), f);
      Sends(cfg, hs, ClientDo(cfg, hs, ans), FromCertificateVerify(cfg), f);
    }
  }

  /** The client's last flight changes the transcript, the flight and the write keys only. */
  lemma ClientFlightFields(cfg: Config, hs: Hs)
    ensures var h := ClientFinalFlight(cfg, hs);
            && h == hs.(pending := h.pending, hashed := h.hashed, buffer := h.buffer, writeEpoch := hs.writeEpoch + 1)
  {
  }

  lemma AtSendClientFinished(cfg: Config, hs: Hs, ans: Answer)
    requires Agreed(cfg) && Ready(cfg, hs) && !ans.Fail? && hs.state == Client(SendClientFinished)
    ensures Moves(cfg, hs, ClientDo(cfg, hs, ans))
  {
    ClientFlightFields(cfg, hs);
    hide Moves, Valid, Conversation, ClientTail, AfterClientFinished, ServerRow, PeerIsNext, Adds, ClientFinalFlight;
    Known(cfg, hs);
    if cfg.channelId && ans.Retry? {
      Retries(cfg, hs, ChannelIdLookup);
    } else {
      var f := AfterClientFinished(cfg);
      ClientFlight(cfg, hs, f);
      Sends(cfg, hs, ClientDo(cfg, hs, ans), ClientTail(cfg, f), f);
    }
  }

  lemma AtReadSessionTicket(cfg: Config, hs: Hs, ans: Answer)
    requires Agreed(cfg) && Ready(cfg, hs) && !ans.Fail? && hs.state == Client(ReadSessionTicket)
    ensures Moves(cfg, hs, ClientDo(cfg, hs, ans))
  {
    hide Moves, Valid, Conversation, AfterServerSwitch, AfterServerFinished;
    Known(cfg, hs);
    if !cfg.ticket {
      HoldsNothing(cfg, hs, true, AfterServerSwitch(AfterServerFinished(cfg)));
      Passes(cfg, hs, ClientDo(cfg, hs, ans));
    } else if hs.msg.None? {
      Waits(cfg, hs);
    } else {
      var rest, m := AfterTicket(AfterServerFinished(cfg)), hs.msg.value.msg;
      var hs' := Stop(Go(NextMessage(Hash(hs, m)).(ticketExpected := !cfg.p.emptyTicket(m)),
                         Client(ProcessServerChangeCipherSpec)), NeedChangeCipherSpec);
      assert ClientDo(cfg, hs, ans) == hs' by {
        Holds(cfg, hs, NewSessionTicket, 0, rest);
      }
      Holds(cfg, hs, NewSessionTicket, 0, rest);
      hide ClientDo;
      TakesIt(cfg, hs, hs', NewSessionTicket, 0, rest);
    }
  }

  lemma AtReadServerFinished(cfg: Config, hs: Hs, ans: Answer)
    requires Agreed(cfg) && Ready(cfg, hs) && !ans.Fail? && hs.state == Client(ReadServerFinished)
    ensures Moves(cfg, hs, ClientDo(cfg, hs, ans))
  {
    hide Moves, Valid, Conversation, ClientTail;
    Known(cfg, hs);
    if hs.msg.None? {
      Waits(cfg, hs);
    } else {
      var hs' := Go(NextMessage(Hash(hs, hs.msg.value.msg)),
        Client(if cfg.resume then SendClientFinished else FinishClientHandshake));
      assert ClientDo(cfg, hs, ans) == hs' by {
        Holds(cfg, hs, Finished, 1, AfterServerFinished(cfg));
      }
      TakesIt(cfg, hs, hs', Finished, 1, AfterServerFinished(cfg));
    }
  }

  lemma AtEnterEarlyData(cfg: Config, hs: Hs, ans: Answer)
    requires Agreed(cfg) && Ready(cfg, hs) && !ans.Fail? && hs.state == Client(EnterEarlyData)
    ensures Moves(cfg, hs, ClientDo(cfg, hs, ans))
  {
    hide Moves, Valid, Conversation, FromServerHello;
    Known(cfg, hs);
    Passes(cfg, hs, ClientDo(cfg, hs, ans));
  }

  lemma AtVerifyServerCertificate(cfg: Config, hs: Hs, ans: Answer)
    requires Agreed(cfg) && Ready(cfg, hs) && !ans.Fail? && hs.state == Client(VerifyServerCertificate)
    ensures Moves(cfg, hs, ClientDo(cfg, hs, ans))
  {
    hide Moves, Valid, Conversation, FromServerKeyExchange;
    Known(cfg, hs);
    if cfg.certAuth && ans.Retry? {
      Retries(cfg, hs, CertificateVerification);
    } else {
      Passes(cfg, hs, ClientDo(cfg, hs, ans));
    }
  }

  lemma AtFinishFlight(cfg: Config, hs: Hs, ans: Answer)
    requires Agreed(cfg) && Ready(cfg, hs) && !ans.Fail? && hs.state == Client(FinishFlight)
    ensures Moves(cfg, hs, ClientDo(cfg, hs, ans))
  {
    hide Moves, Valid, Conversation, ServerTail;
    Known(cfg, hs);
    Passes(cfg, hs, ClientDo(cfg, hs, ans));
  }

  lemma AtProcessServerChangeCipherSpec(cfg: Config, hs: Hs, ans: Answer)
    requires Agreed(cfg) && Ready(cfg, hs) && !ans.Fail? && hs.state == Client(ProcessServerChangeCipherSpec)
    ensures Moves(cfg, hs, ClientDo(cfg, hs, ans))
  {
    hide Moves, Valid, Conversation, AfterServerSwitch, AfterServerFinished;
    Known(cfg, hs);
    Passes(cfg, hs, ClientDo(cfg, hs, ans));
  }

  lemma AtFinishClientHandshake(cfg: Config, hs: Hs, ans: Answer)
    requires Agreed(cfg) && Ready(cfg, hs) && !ans.Fail? && hs.state == Client(FinishClientHandshake)
    ensures Moves(cfg, hs, ClientDo(cfg, hs, ans))
  {
    hide Moves, Valid, Conversation;
    Known(cfg, hs);
    Passes(cfg, hs, ClientDo(cfg, hs, ans));
  }

  lemma AtClientDone(cfg: Config, hs: Hs, ans: Answer)
    requires Agreed(cfg) && Ready(cfg, hs) && !ans.Fail? && hs.state == Client(ClientDone)
    ensures Moves(cfg, hs, ClientDo(cfg, hs, ans))
  {
    hide Moves, Valid, Conversation;
    Known(cfg, hs);
    Passes(cfg, hs, ClientDo(cfg, hs, ans));
  }

  lemma AtSelectParameters(cfg: Config, hs: Hs, ans: Answer)
    requires Agreed(cfg) && Ready(cfg, hs) && !ans.Fail? && hs.state == Server(SelectParameters)
    ensures Moves(cfg, hs, ServerDo(cfg, hs, ans))
  {
    hide Moves, Valid, Conversation, FromServerHello;
    Known(cfg, hs);
    if hs.msg.None? {
      Waits(cfg, hs);
    } else if ans.Retry? {
      Retries(cfg, hs, PendingSession);
    } else {
      Holds(cfg, hs, ClientHello, 0, FromServerHello(cfg));
      TakesIt(cfg, hs, ServerDo(cfg, hs, ans), ClientHello, 0, FromServerHello(cfg));
    }
  }

  lemma AtSendServerHello(cfg: Config, hs: Hs, ans: Answer)
    requires Agreed(cfg) && Ready(cfg, hs) && !ans.Fail? && hs.state == Server(SendServerHello)
    ensures Moves(cfg, hs, ServerDo(cfg, hs, ans))
  {
    hide Moves, Valid, Conversation, ServerTail, FromServerCertificate;
    Known(cfg, hs);
    var f := if cfg.resume then ServerTail(cfg, AfterServerFinished(cfg)) else FromServerCertificate(cfg);
    AddsMessage(cfg, true, hs, true, Message(ServerHello, cfg.body(true, ServerHello)), f);
    Sends(cfg, hs, ServerDo(cfg, hs, ans), FromServerHello(cfg), f);
  }

  lemma AtSendServerCertificate(cfg: Config, hs: Hs, ans: Answer)
    requires Agreed(cfg) && Ready(cfg, hs) && !ans.Fail? && hs.state == Server(SendServerCertificate)
    ensures Moves(cfg, hs, ServerDo(cfg, hs, ans))
  {
    hide Moves, Valid, Conversation, FromServerKeyExchange;
    Known(cfg, hs);
    var crt, cst := Message(Certificate, cfg.body(true, Certificate)),
      Message(CertificateStatus, cfg.body(true, CertificateStatus));
    var h1 := if cfg.certAuth then AddMessage(hs, crt) else hs;
    var h2 := if cfg.ocsp then AddMessage(h1, cst) else h1;
    AddsMessage(cfg, true, hs, cfg.certAuth, crt, FromCertificateStatus(cfg));
    AddsMessage(cfg, true, h1, cfg.ocsp, cst, FromServerKeyExchange(cfg));
    AddsThen(cfg, true, hs, h1, h2, FromServerCertificate(cfg), FromCertificateStatus(cfg), FromServerKeyExchange(cfg));
    Sends(cfg, hs, ServerDo(cfg, hs, ans), FromServerCertificate(cfg), FromServerKeyExchange(cfg));
  }

  lemma AtSendServerKeyExchange(cfg: Config, hs: Hs, ans: Answer)
    requires Agreed(cfg) && Ready(cfg, hs) && !ans.Fail? && hs.state == Server(SendServerKeyExchange)
    ensures Moves(cfg, hs, ServerDo(cfg, hs, ans))
  {
    hide Moves, Valid, Conversation, FromCertificateRequest;
    Known(cfg, hs);
    if !cfg.ske {
      Passes(cfg, hs, ServerDo(cfg, hs, ans));
    } else if cfg.certAuth && ans.Retry? {
      Retries(cfg, hs, PrivateKeyOperation);
    } else {
      AddsMessage(cfg, true, hs, true, Message(ServerKeyExchange, cfg.body(true, ServerKeyExchange)),
        FromCertificateRequest(cfg));
      Sends(cfg, hs, ServerDo(cfg, hs, ans), FromServerKeyExchange(cfg), FromCertificateRequest(cfg));
    }
  }

  lemma AtSendServerHelloDone(cfg: Config, hs: Hs, ans: Answer)
    requires Agreed(cfg) && Ready(cfg, hs) && !ans.Fail? && hs.state == Server(SendServerHelloDone)
    ensures Moves(cfg, hs, ServerDo(cfg, hs, ans))
  {
    hide Moves, Valid, Conversation, FromClientCertificate;
    Known(cfg, hs);
    var crq, shd := Message(CertificateRequest, cfg.body(true, CertificateRequest)),
      Message(ServerHelloDone, cfg.body(true, ServerHelloDone));
    var h1 := if cfg.certRequest then AddMessage(hs, crq) else hs;
    AddsMessage(cfg, true, hs, cfg.certRequest, crq, FromServerHelloDone(cfg));
    AddsMessage(cfg, true, h1, true, shd, FromClientCertificate(cfg));
    AddsThen(cfg, true, hs, h1, AddMessage(h1, shd), FromCertificateRequest(cfg), FromServerHelloDone(cfg),
      FromClientCertificate(cfg));
    Sends(cfg, hs, ServerDo(cfg, hs, ans), FromCertificateRequest(cfg), FromClientCertificate(cfg));
  }

  lemma AtReadClientCertificate(cfg: Config, hs: Hs, ans: Answer)
    requires Agreed(cfg) && Ready(cfg, hs) && !ans.Fail? && hs.state == Server(ReadClientCertificate)
    ensures Moves(cfg, hs, ServerDo(cfg, hs, ans))
  {
    hide Moves, Valid, Conversation, FromClientKeyExchange;
    Known(cfg, hs);
    if !cfg.certRequest {
      Passes(cfg, hs, ServerDo(cfg, hs, ans));
    } else if hs.msg.None? {
      Waits(cfg, hs);
    } else {
      Holds(cfg, hs, Certificate, 0, FromClientKeyExchange(cfg));
      TakesIt(cfg, hs, ServerDo(cfg, hs, ans), Certificate, 0, FromClientKeyExchange(cfg));
    }
  }

  lemma AtReadClientKeyExchange(cfg: Config, hs: Hs, ans: Answer)
    requires Agreed(cfg) && Ready(cfg, hs) && !ans.Fail? && hs.state == Server(ReadClientKeyExchange)
    ensures Moves(cfg, hs, ServerDo(cfg, hs, ans))
  {
    hide Moves, Valid, Conversation, FromCertificateVerify;
    Known(cfg, hs);
    if hs.msg.None? {
      Waits(cfg, hs);
    } else {
      Holds(cfg, hs, ClientKeyExchange, 0, FromCertificateVerify(cfg));
      if cfg.rsa && ans.Retry? {
        Retries(cfg, hs, PrivateKeyOperation);
      } else {
        TakesIt(cfg, hs, ServerDo(cfg, hs, ans), ClientKeyExchange, 0, FromCertificateVerify(cfg));
      }
    }
  }

  lemma AtReadClientCertificateVerify(cfg: Config, hs: Hs, ans: Answer)
    requires Agreed(cfg) && Ready(cfg, hs) && !ans.Fail? && hs.state == Server(ReadClientCertificateVerify)
    ensures Moves(cfg, hs, ServerDo(cfg, hs, ans))
  {
    hide Moves, Valid, Conversation, AfterClientSwitch, AfterClientFinished;
    Known(cfg, hs);
    if !(cfg.certRequest && cfg.clientCert) {
      HoldsNothing(cfg, hs, false, AfterClientSwitch(cfg, AfterClientFinished(cfg)));
      Passes(cfg, hs, ServerDo(cfg, hs, ans));
    } else if hs.msg.None? {
      Waits(cfg, hs);
    } else {
      Holds(cfg, hs, CertificateVerify, 0, ClientTail(cfg, AfterClientFinished(cfg)));
      TakesIt(cfg, hs, ServerDo(cfg, hs, ans), CertificateVerify, 0, ClientTail(cfg, AfterClientFinished(cfg)));
    }
  }

  lemma TakesNextProto(cfg: Config, hs: Hs)
    requires Agreed(cfg) && Ready(cfg, hs) && hs.state == Server(ReadNextProto) && cfg.npn && hs.msg.Some?
    ensures var h := Go(NextMessage(Hash(hs, hs.msg.value.msg)), Server(ReadChannelId));
            HandshakeServer.DoReadNextProto(cfg, hs) == h && Moves(cfg, hs, h)
  {
    hide Moves, Valid, Conversation, AfterNextProto, AfterClientFinished, ClientRow;
    Known(cfg, hs);
    var f := AfterNextProto(cfg, AfterClientFinished(cfg));
    Holds(cfg, hs, NextProto, 1, f);
    TakesIt(cfg, hs, Go(NextMessage(Hash(hs, hs.msg.value.msg)), Server(ReadChannelId)), NextProto, 1, f);
  }

  lemma AtReadNextProto(cfg: Config, hs: Hs, ans: Answer)
    requires Agreed(cfg) && Ready(cfg, hs) && !ans.Fail? && hs.state == Server(ReadNextProto)
    ensures Moves(cfg, hs, ServerDo(cfg, hs, ans))
  {
    hide Moves, Valid, Conversation, AfterNextProto, AfterClientFinished, ClientRow;
    Known(cfg, hs);
    if !cfg.npn {
      Passes(cfg, hs, ServerDo(cfg, hs, ans));
    } else if hs.msg.None? {
      Waits(cfg, hs);
    } else {
      TakesNextProto(cfg, hs);
    }
  }

  lemma TakesChannelId(cfg: Config, hs: Hs)
    requires Agreed(cfg) && Ready(cfg, hs) && hs.state == Server(ReadChannelId) && cfg.channelId && hs.msg.Some?
    ensures var h := Go(NextMessage(Hash(hs, hs.msg.value.msg)), Server(ReadClientFinished));
            HandshakeServer.DoReadChannelId(cfg, hs) == h && Moves(cfg, hs, h)
  {
    hide Moves, Valid, Conversation, AfterChannelId, AfterClientFinished, ClientRow;
    Known(cfg, hs);
    var f := AfterChannelId(AfterClientFinished(cfg));
    Holds(cfg, hs, ChannelId, 1, f);
    TakesIt(cfg, hs, Go(NextMessage(Hash(hs, hs.msg.value.msg)), Server(ReadClientFinished)), ChannelId, 1, f);
  }

  lemma AtReadChannelId(cfg: Config, hs: Hs, ans: Answer)
    requires Agreed(cfg) && Ready(cfg, hs) && !ans.Fail? && hs.state == Server(ReadChannelId)
    ensures Moves(cfg, hs, ServerDo(cfg, hs, ans))
  {
    hide Moves, Valid, Conversation, AfterChannelId, AfterClientFinished, ClientRow;
    Known(cfg, hs);
    if !cfg.channelId {
      Passes(cfg, hs, ServerDo(cfg, hs, ans));
    } else if hs.msg.None? {
      Waits(cfg, hs);
    } else {
      TakesChannelId(cfg, hs);
    }
  }

  lemma FinishedTurn(cfg: Config, hs: Hs, h: Hs)
    requires hs.state == Server(ReadClientFinished)
    ensures Left(cfg, hs) == [Says(false, Finished, 1)] + AfterClientFinished(cfg)
    ensures h.state == Server(if cfg.resume then FinishServerHandshake else SendServerFinished) ==>
              Left(cfg, h) == AfterClientFinished(cfg)
  {
    hide ServerTail, ClientTail;
  }

  lemma TakesClientFinished(cfg: Config, hs: Hs)
    requires Agreed(cfg) && Ready(cfg, hs) && hs.state == Server(ReadClientFinished) && hs.msg.Some?
    ensures var h := Go(NextMessage(Hash(hs, hs.msg.value.msg)),
              Server(if cfg.resume then FinishServerHandshake else SendServerFinished));
            HandshakeServer.DoReadClientFinished(cfg, hs) == h && Moves(cfg, hs, h)
  {
    var h := HandshakeServer.DoReadClientFinished(cfg, hs);
    FinishedTurn(cfg, hs, h);
    hide Moves, Valid, Conversation, ServerTail, ClientRow, Left, Remaining, PeerIsNext;
    Known(cfg, hs);
    var f := AfterClientFinished(cfg);
    Holds(cfg, hs, Finished, 1, f);
    TakesIt(cfg, hs, HandshakeServer.DoReadClientFinished(cfg, hs), Finished, 1, f);
  }

  lemma AtReadClientFinished(cfg: Config, hs: Hs, ans: Answer)
    requires Agreed(cfg) && Ready(cfg, hs) && !ans.Fail? && hs.state == Server(ReadClientFinished)
    ensures Moves(cfg, hs, ServerDo(cfg, hs, ans))
  {
    hide Moves, Valid, Conversation, ServerTail, ClientRow;
    Known(cfg, hs);
    if hs.msg.None? {
      Waits(cfg, hs);
    } else {
      TakesClientFinished(cfg, hs);
    }
  }

  /** The server's last flight changes the transcript, the flight and the write keys only. */
  lemma FlightFields(cfg: Config, hs: Hs)
    ensures var h := ServerFinalFlight(cfg, hs);
            && h == hs.(pending := h.pending, hashed := h.hashed, buffer := h.buffer, writeEpoch := hs.writeEpoch + 1)
  {
  }

  lemma AtSendServerFinished(cfg: Config, hs: Hs, ans: Answer)
    requires Agreed(cfg) && Ready(cfg, hs) && !ans.Fail? && hs.state == Server(SendServerFinished)
    ensures Moves(cfg, hs, ServerDo(cfg, hs, ans))
  {
    FlightFields(cfg, hs);
    hide Moves, Valid, Conversation, ClientTail, ServerTail, ClientRow, PeerIsNext, Adds, ServerFinalFlight;
    Known(cfg, hs);
    var f := AfterServerFinished(cfg);
    ServerFlight(cfg, hs, f);
    Sends(cfg, hs, ServerDo(cfg, hs, ans), ServerTail(cfg, f), f);
  }

  lemma AtHelloServerState(cfg: Config, hs: Hs, ans: Answer)
    requires Agreed(cfg) && Ready(cfg, hs) && !ans.Fail?
    requires hs.state in {Server(StartAccept), Server(ReadClientHello), Server(SelectCertificate)}
    ensures Moves(cfg, hs, ServerDo(cfg, hs, ans))
  {
    hide Moves, Valid, Conversation, FromServerHello;
    Known(cfg, hs);
    if hs.state.server.StartAccept? {
      Passes(cfg, hs, ServerDo(cfg, hs, ans));
    } else if hs.msg.None? {
      Waits(cfg, hs);
    } else {
      Holds(cfg, hs, ClientHello, 0, FromServerHello(cfg));
      if ans.Retry? {
        Retries(cfg, hs, if hs.state.server.ReadClientHello? then CertificateSelectionPending else X509Lookup);
      } else {
        Passes(cfg, hs, ServerDo(cfg, hs, ans));
      }
    }
  }

  lemma AtVerifyClientCertificate(cfg: Config, hs: Hs, ans: Answer)
    requires Agreed(cfg) && Ready(cfg, hs) && !ans.Fail? && hs.state == Server(VerifyClientCertificate)
    ensures Moves(cfg, hs, ServerDo(cfg, hs, ans))
  {
    hide Moves, Valid, Conversation, FromClientKeyExchange;
    Known(cfg, hs);
    if hs.peerCert && ans.Retry? {
      Retries(cfg, hs, CertificateVerification);
    } else {
      Passes(cfg, hs, ServerDo(cfg, hs, ans));
    }
  }

  lemma AtReadChangeCipherSpec(cfg: Config, hs: Hs, ans: Answer)
    requires Agreed(cfg) && Ready(cfg, hs) && !ans.Fail? && hs.state == Server(ReadChangeCipherSpec)
    ensures Moves(cfg, hs, ServerDo(cfg, hs, ans))
  {
    hide Moves, Valid, Conversation, AfterClientSwitch, AfterClientFinished;
    Known(cfg, hs);
    Passes(cfg, hs, ServerDo(cfg, hs, ans));
  }

  lemma AtProcessClientChangeCipherSpec(cfg: Config, hs: Hs, ans: Answer)
    requires Agreed(cfg) && Ready(cfg, hs) && !ans.Fail? && hs.state == Server(ProcessClientChangeCipherSpec)
    ensures Moves(cfg, hs, ServerDo(cfg, hs, ans))
  {
    hide Moves, Valid, Conversation, AfterClientSwitch, AfterClientFinished;
    Known(cfg, hs);
    Passes(cfg, hs, ServerDo(cfg, hs, ans));
  }

  lemma AtFinishServerHandshake(cfg: Config, hs: Hs, ans: Answer)
    requires Agreed(cfg) && Ready(cfg, hs) && !ans.Fail? && hs.state == Server(FinishServerHandshake)
    ensures Moves(cfg, hs, ServerDo(cfg, hs, ans))
  {
    hide Moves, Valid, Conversation;
    Known(cfg, hs);
    Passes(cfg, hs, ServerDo(cfg, hs, ans));
  }

  lemma AtServerDone(cfg: Config, hs: Hs, ans: Answer)
    requires Agreed(cfg) && Ready(cfg, hs) && !ans.Fail? && hs.state == Server(ServerDone)
    ensures Moves(cfg, hs, ServerDo(cfg, hs, ans))
  {
    hide Moves, Valid, Conversation;
    Known(cfg, hs);
    Passes(cfg, hs, ServerDo(cfg, hs, ans));
  }
}
