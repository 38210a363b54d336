/**
 The same for the client: one that finishes, whoever its peer is, has consumed exactly the
 server's records of the flow, each checked against the transcript before it. Which of the
 optional messages the flow has is for the peer to choose as it goes, within what the client
 allows.
 */
module HandshakeClientTrace {
  import opened Basics
  import opened HandshakeTypes
  import opened HandshakeScript
  import opened HandshakeDriver
  import opened HandshakePath
  import opened HandshakeClient

  // What the client knows in each state. `c` is its configuration with the optional messages
  // that its peer chooses to send.

  datatype Stage = Hello | Flight | Answering | Sending | Ticket | Closing

  function StageOf(s: ClientState): Stage {
    match s
    case StartConnect | EnterEarlyData | ReadServerHello => Hello
    case ReadServerCertificate | ReadCertificateStatus | VerifyServerCertificate | ReadServerKeyExchange
      | ReadCertificateRequest => Flight
    case ReadServerHelloDone | SendClientCertificate | SendClientKeyExchange | SendClientCertificateVerify => Answering
    case SendClientFinished | FinishFlight => Sending
    case ReadSessionTicket => Ticket
    case ProcessServerChangeCipherSpec | ReadServerFinished | FinishClientHandshake | ClientDone => Closing
  }

  predicate Signs(c: Config) {
    c.certRequest && c.clientCert
  }

  predicate Reading(c: Config, s: ClientState) {
    s.ReadServerHello? || StageOf(s).Flight? || s.ReadServerHelloDone? || (s.ReadSessionTicket? && c.ticket)
    || s.ReadServerFinished?
  }

  predicate Unprotected(c: Config, s: ClientState) {
    var stage := StageOf(s);
    stage.Hello? || stage.Flight? || stage.Answering? || stage.Ticket? || (stage.Sending? && !c.resume)
  }

  ghost predicate Known(c: Config, hs: Hs) {
    && hs.state.Client?
    && var s, stage := hs.state.client, StageOf(hs.state.client);
    && (stage.Hello? || (stage.Flight? && c.certAuth) ==> hs.buffer == Some(hs.hashed))
    && (stage.Answering? && Signs(c) ==> hs.buffer == Some(hs.hashed))
    && (stage.Flight? || stage.Answering? ==> !c.resume)
    && (stage.Hello? || stage.Flight? ==> !hs.certRequest)
    && (stage.Answering? ==> hs.certRequest == c.certRequest)
    && (Unprotected(c, s) ==> hs.ticketExpected == c.ticket)
    && (Unprotected(c, s) || s.ProcessServerChangeCipherSpec? ==> hs.readEpoch == 0)
    && (s.ReadServerFinished? ==> hs.readEpoch == 1)
    && (hs.msg.Some? || hs.wait.NeedMessage? ==> Reading(c, s))
    && (hs.msg.Some? ==> hs.msg.value.epoch == hs.readEpoch)
    && (hs.wait.NeedMessage? ==> hs.msg.None?)
    && (hs.wait.NeedChangeCipherSpec? ==> s.ProcessServerChangeCipherSpec?)
  }

  /** Whether the flow has a ServerKeyExchange has been settled. */
  predicate PastKeys(s: ClientState) {
    !StageOf(s).Hello? && (StageOf(s).Flight? ==> s.ReadCertificateRequest?)
  }

  /** What the client lets its peer choose. */
  ghost predicate Allowed(cfg: Config, c: Config, past: bool) {
    && Alike(cfg, c) && (c.ocsp ==> cfg.ocsp) && (c.certRequest ==> cfg.certAuth)
    && (past && !cfg.resume ==> (cfg.requiresSke ==> c.ske) && (c.ske ==> !cfg.rsa))
  }

  ghost predicate Standing(cfg: Config, c: Config, hs: Hs) {
    Known(c, hs) && Allowed(cfg, c, PastKeys(hs.state.client))
  }

  /** The message in hand, where it decides whether an optional one comes, is the one foreseen. */
  predicate Foreseen(cfg: Config, c: Config, hs: Hs) {
    hs.msg.Some? ==>
      var k := hs.msg.value.msg.kind;
      && (hs.state == Client(ReadCertificateStatus) && cfg.ocsp ==> c.ocsp == k.CertificateStatus?)
      && (hs.state == Client(ReadServerKeyExchange) ==> c.ske == k.ServerKeyExchange?)
      && (hs.state == Client(ReadCertificateRequest) && cfg.certAuth ==> c.certRequest == k.CertificateRequest?)
  }

  /** The machine may take its step in state `s`. */
  ghost predicate Ready(cfg: Config, c: Config, hs: Hs, s: ClientState) {
    Standing(cfg, c, hs) && Foreseen(cfg, c, hs) && hs.wait.Ok? && hs.state == Client(s)
  }

  /** A step that keeps what is known and follows the flow by the message it took, if any. */
  ghost predicate Follows(cfg: Config, c: Config, hs: Hs, h: Hs) {
    && Standing(cfg, c, h)
    && (|| (h.msg == hs.msg && Leads(c, false, At(c, hs), [], At(c, h)))
        || (hs.msg.Some? && h.msg.None? && Leads(c, false, At(c, hs), [Handshake(hs.msg.value)], At(c, h))))
  }

  // One lemma for each kind of step.

  lemma Stays(cfg: Config, c: Config, hs: Hs, h: Hs)
    requires Standing(cfg, c, h) && h.msg == hs.msg && At(c, h) == At(c, hs)
    ensures Follows(cfg, c, hs, h)
  {
    hide Standing, Left;
  }

  lemma Takes(cfg: Config, c: Config, hs: Hs, h: Hs, k: Kind, e: nat)
    requires hs.msg.Some? && hs.msg.value.epoch == e && Standing(cfg, c, h) && h.msg.None?
    requires k != ClientKeyExchange && Genuine(c, false, k, hs.msg.value.msg, hs.hashed, hs.master)
    requires Left(c, hs) == [Says(true, k, e)] + Left(c, h) && h.hashed == hs.hashed + [hs.msg.value.msg]
    requires h.master == hs.master
    ensures Follows(cfg, c, hs, h)
  {
    hide Standing, Left, Genuine;
    PeerTurn(c, false, k, e, Left(c, h), hs.hashed, hs.master, hs.msg.value);
  }

  lemma Speaks(cfg: Config, c: Config, hs: Hs, h: Hs)
    requires Standing(cfg, c, h) && h.msg == hs.msg && Leads(c, false, At(c, hs), [], At(c, h))
    ensures Follows(cfg, c, hs, h)
  {
  }

  lemma StartConnectFollows(cfg: Config, c: Config, hs: Hs, ans: Answer)
    requires Ready(cfg, c, hs, StartConnect) && !ClientDo(cfg, hs, ans).wait.Error?
    ensures Follows(cfg, c, hs, ClientDo(cfg, hs, ans))
  {
    hide Follows, Leads, FromServerHello;
    var h := ClientDo(cfg, hs, ans);
    OwnTurn(c, false, hs, true, ClientHello, 0, FromServerHello(c));
    Speaks(cfg, c, hs, h);
  }

  lemma EnterEarlyDataFollows(cfg: Config, c: Config, hs: Hs, ans: Answer)
    requires Ready(cfg, c, hs, EnterEarlyData) && !ClientDo(cfg, hs, ans).wait.Error?
    ensures Follows(cfg, c, hs, ClientDo(cfg, hs, ans))
  {
    hide Follows, Leads, FromServerHello;
    var h := ClientDo(cfg, hs, ans);
    Stays(cfg, c, hs, h);
  }

  lemma ReadServerHelloStands(cfg: Config, c: Config, hs: Hs, ans: Answer, h: Hs)
    requires Ready(cfg, c, hs, ReadServerHello)
    requires h == DoReadServerHello(cfg, hs) && !h.wait.Error?
    ensures Standing(cfg, c, h) && Allowed(cfg, c, false)
    ensures hs.msg.Some? ==> hs.msg.value.epoch == 0
  {
    assert Allowed(cfg, c, PastKeys(h.state.client));
    hide Allowed, PastKeys;
  }

  lemma ReadServerHelloStep(cfg: Config, c: Config, hs: Hs, ans: Answer, h: Hs)
    requires Ready(cfg, c, hs, ReadServerHello)
    requires h == DoReadServerHello(cfg, hs) && !h.wait.Error?
    ensures Follows(cfg, c, hs, h)
  {
    ReadServerHelloStands(cfg, c, hs, ans, h);
    hide Follows, Leads, Standing, Known, FromServerCertificate, ServerTail;
    if h.msg == hs.msg {
      Stays(cfg, c, hs, h);
    } else {
      Takes(cfg, c, hs, h, ServerHello, 0);
    }
  }

  lemma ReadServerHelloFollows(cfg: Config, c: Config, hs: Hs, ans: Answer)
    requires Ready(cfg, c, hs, ReadServerHello) && !ClientDo(cfg, hs, ans).wait.Error?
    ensures Follows(cfg, c, hs, ClientDo(cfg, hs, ans))
  {
    hide Standing, Foreseen, Follows, DoReadServerHello;
    ReadServerHelloStep(cfg, c, hs, ans, ClientDo(cfg, hs, ans));
  }

  lemma ReadServerCertificateFollows(cfg: Config, c: Config, hs: Hs, ans: Answer)
    requires Ready(cfg, c, hs, ReadServerCertificate) && !ClientDo(cfg, hs, ans).wait.Error?
    ensures Follows(cfg, c, hs, ClientDo(cfg, hs, ans))
  {
    hide Follows, Leads, FromCertificateStatus;
    var h := ClientDo(cfg, hs, ans);
    if h.msg == hs.msg {
      Stays(cfg, c, hs, h);
    } else {
      Takes(cfg, c, hs, h, Certificate, 0);
    }
  }

  lemma ReadCertificateStatusFollows(cfg: Config, c: Config, hs: Hs, ans: Answer)
    requires Ready(cfg, c, hs, ReadCertificateStatus) && !ClientDo(cfg, hs, ans).wait.Error?
    ensures Follows(cfg, c, hs, ClientDo(cfg, hs, ans))
  {
    hide Follows, Leads, FromServerKeyExchange;
    var h := ClientDo(cfg, hs, ans);
    if h.msg == hs.msg {
      Stays(cfg, c, hs, h);
    } else {
      Takes(cfg, c, hs, h, CertificateStatus, 0);
    }
  }

  lemma VerifyServerCertificateFollows(cfg: Config, c: Config, hs: Hs, ans: Answer)
    requires Ready(cfg, c, hs, VerifyServerCertificate) && !ClientDo(cfg, hs, ans).wait.Error?
    ensures Follows(cfg, c, hs, ClientDo(cfg, hs, ans))
  {
    hide Follows, Leads, FromServerKeyExchange;
    var h := ClientDo(cfg, hs, ans);
    Stays(cfg, c, hs, h);
  }

  lemma ReadServerKeyExchangeStands(cfg: Config, c: Config, hs: Hs, ans: Answer, h: Hs)
    requires Ready(cfg, c, hs, ReadServerKeyExchange)
    requires h == DoReadServerKeyExchange(cfg, hs) && !h.wait.Error?
    ensures Standing(cfg, c, h) && Allowed(cfg, c, false)
    ensures hs.msg.Some? ==> hs.msg.value.epoch == 0
  {
  }

  lemma ReadServerKeyExchangeStep(cfg: Config, c: Config, hs: Hs, ans: Answer, h: Hs)
    requires Ready(cfg, c, hs, ReadServerKeyExchange)
    requires h == DoReadServerKeyExchange(cfg, hs) && !h.wait.Error?
    ensures Follows(cfg, c, hs, h)
  {
    ReadServerKeyExchangeStands(cfg, c, hs, ans, h);
    hide Follows, Leads, Standing, Known, FromCertificateRequest;
    if h.msg == hs.msg {
      Stays(cfg, c, hs, h);
    } else {
      Takes(cfg, c, hs, h, ServerKeyExchange, 0);
    }
  }

  lemma ReadServerKeyExchangeFollows(cfg: Config, c: Config, hs: Hs, ans: Answer)
    requires Ready(cfg, c, hs, ReadServerKeyExchange) && !ClientDo(cfg, hs, ans).wait.Error?
    ensures Follows(cfg, c, hs, ClientDo(cfg, hs, ans))
  {
    hide Standing, Foreseen, Follows, DoReadServerKeyExchange;
    ReadServerKeyExchangeStep(cfg, c, hs, ans, ClientDo(cfg, hs, ans));
  }

  lemma ReadCertificateRequestStands(cfg: Config, c: Config, hs: Hs, ans: Answer, h: Hs)
    requires Ready(cfg, c, hs, ReadCertificateRequest)
    requires h == DoReadCertificateRequest(cfg, hs) && !h.wait.Error?
    ensures Standing(cfg, c, h) && Allowed(cfg, c, false)
    ensures hs.msg.Some? ==> hs.msg.value.epoch == 0
  {
  }

  lemma ReadCertificateRequestStep(cfg: Config, c: Config, hs: Hs, ans: Answer, h: Hs)
    requires Ready(cfg, c, hs, ReadCertificateRequest)
    requires h == DoReadCertificateRequest(cfg, hs) && !h.wait.Error?
    ensures Follows(cfg, c, hs, h)
  {
    ReadCertificateRequestStands(cfg, c, hs, ans, h);
    hide Follows, Leads, Standing, Known, FromServerHelloDone;
    if h.msg == hs.msg {
      Stays(cfg, c, hs, h);
    } else {
      Takes(cfg, c, hs, h, CertificateRequest, 0);
    }
  }

  lemma ReadCertificateRequestFollows(cfg: Config, c: Config, hs: Hs, ans: Answer)
    requires Ready(cfg, c, hs, ReadCertificateRequest) && !ClientDo(cfg, hs, ans).wait.Error?
    ensures Follows(cfg, c, hs, ClientDo(cfg, hs, ans))
  {
    hide Standing, Foreseen, Follows, DoReadCertificateRequest;
    ReadCertificateRequestStep(cfg, c, hs, ans, ClientDo(cfg, hs, ans));
  }

  lemma ReadServerHelloDoneStands(cfg: Config, c: Config, hs: Hs, ans: Answer, h: Hs)
    requires Ready(cfg, c, hs, ReadServerHelloDone)
    requires h == DoReadServerHelloDone(cfg, hs) && !h.wait.Error?
    ensures Standing(cfg, c, h) && Allowed(cfg, c, false)
    ensures hs.msg.Some? ==> hs.msg.value.epoch == 0
  {
  }

  lemma ReadServerHelloDoneStep(cfg: Config, c: Config, hs: Hs, ans: Answer, h: Hs)
    requires Ready(cfg, c, hs, ReadServerHelloDone)
    requires h == DoReadServerHelloDone(cfg, hs) && !h.wait.Error?
    ensures Follows(cfg, c, hs, h)
  {
    ReadServerHelloDoneStands(cfg, c, hs, ans, h);
    hide Follows, Leads, Standing, Known, FromClientCertificate;
    if h.msg == hs.msg {
      Stays(cfg, c, hs, h);
    } else {
      Takes(cfg, c, hs, h, ServerHelloDone, 0);
    }
  }

  lemma ReadServerHelloDoneFollows(cfg: Config, c: Config, hs: Hs, ans: Answer)
    requires Ready(cfg, c, hs, ReadServerHelloDone) && !ClientDo(cfg, hs, ans).wait.Error?
    ensures Follows(cfg, c, hs, ClientDo(cfg, hs, ans))
  {
    hide Standing, Foreseen, Follows, DoReadServerHelloDone;
    ReadServerHelloDoneStep(cfg, c, hs, ans, ClientDo(cfg, hs, ans));
  }

  lemma SendClientCertificateFollows(cfg: Config, c: Config, hs: Hs, ans: Answer)
    requires Ready(cfg, c, hs, SendClientCertificate) && !ClientDo(cfg, hs, ans).wait.Error?
    ensures Follows(cfg, c, hs, ClientDo(cfg, hs, ans))
  {
    hide Follows, Leads, FromClientKeyExchange;
    var h := ClientDo(cfg, hs, ans);
    if h.hashed == hs.hashed {
      Stays(cfg, c, hs, h);
    } else {
      OwnTurn(c, false, hs, true, Certificate, 0, FromClientKeyExchange(c));
      Speaks(cfg, c, hs, h);
    }
  }

  lemma SendClientKeyExchangeFollows(cfg: Config, c: Config, hs: Hs, ans: Answer)
    requires Ready(cfg, c, hs, SendClientKeyExchange) && !ClientDo(cfg, hs, ans).wait.Error?
    ensures Follows(cfg, c, hs, ClientDo(cfg, hs, ans))
  {
    hide Follows, Leads, FromCertificateVerify;
    var h := ClientDo(cfg, hs, ans);
    OwnTurn(c, false, hs, true, ClientKeyExchange, 0, FromCertificateVerify(c));
    Speaks(cfg, c, hs, h);
  }

  /** What is left of the flow where the client's last flight begins and ends. */
  lemma LeftInAnswer(c: Config, hs: Hs)
    ensures hs.state == Client(SendClientCertificateVerify) ==>
              Left(c, hs) == If(Signs(c), Says(false, CertificateVerify, 0), ClientTail(c, AfterClientFinished(c)))
    ensures hs.state == Client(SendClientFinished) ==> Left(c, hs) == ClientTail(c, AfterClientFinished(c))
    ensures hs.state == Client(FinishFlight) ==> Left(c, hs) == AfterClientFinished(c)
    ensures hs.state == Client(ReadSessionTicket) ==> Left(c, hs) == ServerTail(c, AfterServerFinished(c))
    ensures hs.state == Client(ProcessServerChangeCipherSpec) && hs.wait.NeedChangeCipherSpec? ==>
              Left(c, hs) == AfterTicket(AfterServerFinished(c))
    ensures hs.state == Client(FinishClientHandshake) ==> Left(c, hs) == []
  {
    hide ClientTail, ServerTail, AfterTicket, If;
  }

  lemma SendClientCertificateVerifyStands(cfg: Config, c: Config, hs: Hs, ans: Answer, h: Hs)
    requires Ready(cfg, c, hs, SendClientCertificateVerify)
    requires h == DoSendClientCertificateVerify(cfg, hs, ans) && !h.wait.Error?
    ensures Standing(cfg, c, h) && Allowed(cfg, c, false)
    ensures hs.certRequest == c.certRequest && (Signs(c) ==> hs.buffer == Some(hs.hashed))
  {
  }

  lemma SendClientCertificateVerifyStep(cfg: Config, c: Config, hs: Hs, ans: Answer, h: Hs)
    requires Ready(cfg, c, hs, SendClientCertificateVerify)
    requires h == DoSendClientCertificateVerify(cfg, hs, ans) && !h.wait.Error?
    ensures Follows(cfg, c, hs, h)
  {
    SendClientCertificateVerifyStands(cfg, c, hs, ans, h);
    LeftInAnswer(c, hs);
    LeftInAnswer(c, h);
    hide Follows, Leads, Standing, Known, ClientTail, Left, Remaining;
    if h.hashed == hs.hashed {
      Stays(cfg, c, hs, h);
    } else {
      OwnTurn(c, false, hs, true, CertificateVerify, 0, ClientTail(c, AfterClientFinished(c)));
      Speaks(cfg, c, hs, h);
    }
  }

  lemma SendClientCertificateVerifyFollows(cfg: Config, c: Config, hs: Hs, ans: Answer)
    requires Ready(cfg, c, hs, SendClientCertificateVerify) && !ClientDo(cfg, hs, ans).wait.Error?
    ensures Follows(cfg, c, hs, ClientDo(cfg, hs, ans))
  {
    hide Standing, Foreseen, Follows, DoSendClientCertificateVerify;
    SendClientCertificateVerifyStep(cfg, c, hs, ans, ClientDo(cfg, hs, ans));
  }

  lemma NextProtoLeads(c: Config, hs: Hs, f: seq<Turn>)
    ensures var h0 := AddChangeCipherSpec(hs);
            var h1 := if c.npn then Say(c, h0, NextProto) else h0;
            Leads(c, false, Point(ClientTail(c, f), hs.hashed, hs.master), [],
                  Point(AfterNextProto(c, f), h1.hashed, h1.master))
  {
    hide Leads, AfterNextProto;
    var h0 := AddChangeCipherSpec(hs);
    var h1 := if c.npn then Say(c, h0, NextProto) else h0;
    OwnSwitch(c, false, AfterClientSwitch(c, f), hs.hashed, hs.master);
    OwnTurn(c, false, h0, c.npn, NextProto, 1, AfterNextProto(c, f));
    SpeaksOn(c, false, Point(ClientTail(c, f), hs.hashed, hs.master),
             Point(AfterClientSwitch(c, f), hs.hashed, hs.master),
             Point(AfterNextProto(c, f), h1.hashed, h1.master));
  }

  lemma ChannelIdLeads(c: Config, hs: Hs, f: seq<Turn>)
    ensures var m := Message(ChannelId, c.p.channelSign(c.resume, hs.hashed));
            var h2 := if c.channelId then AddMessage(hs, m) else hs;
            var h := SendFinished(c, h2, false);
            Leads(c, false, Point(AfterNextProto(c, f), hs.hashed, hs.master), [], Point(f, h.hashed, h.master))
  {
    hide Leads;
    var h2 := if c.channelId then AddMessage(hs, Message(ChannelId, c.p.channelSign(c.resume, hs.hashed))) else hs;
    var h := SendFinished(c, h2, false);
    OwnTurn(c, false, hs, c.channelId, ChannelId, 1, AfterChannelId(f));
    OwnTurn(c, false, h2, true, Finished, 1, f);
    SpeaksOn(c, false, Point(AfterNextProto(c, f), hs.hashed, hs.master),
             Point(AfterChannelId(f), h2.hashed, h2.master), Point(f, h.hashed, h.master));
  }

  lemma FlightLeads(c: Config, hs: Hs, f: seq<Turn>)
    ensures var h := ClientFinalFlight(c, hs);
            Leads(c, false, Point(ClientTail(c, f), hs.hashed, hs.master), [], Point(f, h.hashed, h.master))
  {
    hide Leads, ClientTail, AfterNextProto, SendFinished, AddMessage;
    var h0 := AddChangeCipherSpec(hs);
    var h1 := if c.npn then Say(c, h0, NextProto) else h0;
    var h := ClientFinalFlight(c, hs);
    NextProtoLeads(c, hs, f);
    ChannelIdLeads(c, h1, f);
    SpeaksOn(c, false, Point(ClientTail(c, f), hs.hashed, hs.master), Point(AfterNextProto(c, f), h1.hashed, h1.master),
             Point(f, h.hashed, h.master));
  }

  /** The last flight changes the transcript and the flight only. */
  lemma FlightKeeps(cfg: Config, c: Config, hs: Hs)
    requires Allowed(cfg, c, false)
    ensures var h := ClientFinalFlight(cfg, hs);
            && h == ClientFinalFlight(c, hs) && h.hashed != hs.hashed
            && h == hs.(pending := h.pending, hashed := h.hashed, buffer := h.buffer, writeEpoch := h.writeEpoch)
  {
  }

  lemma FlightStands(cfg: Config, c: Config, hs: Hs, h: Hs)
    requires Standing(cfg, c, hs) && hs.state == Client(SendClientFinished)
    requires h.state == Client(FinishFlight) && h.wait.Flush? && h.msg == hs.msg
    requires h.readEpoch == hs.readEpoch && h.ticketExpected == hs.ticketExpected
    ensures Standing(cfg, c, h)
  {
  }

  lemma SendClientFinishedStands(cfg: Config, c: Config, hs: Hs, ans: Answer, h: Hs)
    requires Ready(cfg, c, hs, SendClientFinished)
    requires h == DoSendClientFinished(cfg, hs, ans) && !h.wait.Error?
    ensures Standing(cfg, c, h) && Allowed(cfg, c, false)
  {
    FlightKeeps(cfg, c, hs);
    assert h.state == hs.state ==> Standing(cfg, c, h);
    hide ClientFinalFlight, Known;
    if h.state != hs.state {
      FlightStands(cfg, c, hs, h);
    }
  }

  lemma SendClientFinishedStep(cfg: Config, c: Config, hs: Hs, ans: Answer, h: Hs)
    requires Ready(cfg, c, hs, SendClientFinished)
    requires h == DoSendClientFinished(cfg, hs, ans) && !h.wait.Error?
    ensures Follows(cfg, c, hs, h)
  {
    SendClientFinishedStands(cfg, c, hs, ans, h);
    FlightKeeps(cfg, c, hs);
    LeftInAnswer(c, hs);
    LeftInAnswer(c, h);
    hide Follows, Leads, Standing, Known, ServerTail, ClientTail, ClientFinalFlight, Left, Remaining;
    if h.hashed == hs.hashed {
      Stays(cfg, c, hs, h);
    } else {
      FlightLeads(c, hs, AfterClientFinished(c));
      Speaks(cfg, c, hs, h);
    }
  }

  lemma SendClientFinishedFollows(cfg: Config, c: Config, hs: Hs, ans: Answer)
    requires Ready(cfg, c, hs, SendClientFinished) && !ClientDo(cfg, hs, ans).wait.Error?
    ensures Follows(cfg, c, hs, ClientDo(cfg, hs, ans))
  {
    hide Standing, Foreseen, Follows, DoSendClientFinished;
    SendClientFinishedStep(cfg, c, hs, ans, ClientDo(cfg, hs, ans));
  }

  lemma FinishFlightStands(cfg: Config, c: Config, hs: Hs, ans: Answer, h: Hs)
    requires Ready(cfg, c, hs, FinishFlight)
    requires h == DoFinishFlight(cfg, hs) && !h.wait.Error?
    ensures Standing(cfg, c, h) && Allowed(cfg, c, false)
  {
  }

  lemma FinishFlightStep(cfg: Config, c: Config, hs: Hs, ans: Answer, h: Hs)
    requires Ready(cfg, c, hs, FinishFlight)
    requires h == DoFinishFlight(cfg, hs) && !h.wait.Error?
    ensures Follows(cfg, c, hs, h)
  {
    FinishFlightStands(cfg, c, hs, ans, h);
    LeftInAnswer(c, hs);
    LeftInAnswer(c, h);
    hide Follows, Leads, Standing, Known, ServerTail, Left, Remaining;
    Stays(cfg, c, hs, h);
  }

  lemma FinishFlightFollows(cfg: Config, c: Config, hs: Hs, ans: Answer)
    requires Ready(cfg, c, hs, FinishFlight) && !ClientDo(cfg, hs, ans).wait.Error?
    ensures Follows(cfg, c, hs, ClientDo(cfg, hs, ans))
  {
    hide Standing, Foreseen, Follows, DoFinishFlight;
    FinishFlightStep(cfg, c, hs, ans, ClientDo(cfg, hs, ans));
  }

  lemma PastTicketStands(cfg: Config, c: Config, hs: Hs, h: Hs)
    requires Standing(cfg, c, hs) && hs.state == Client(ReadSessionTicket)
    requires h.state == Client(ProcessServerChangeCipherSpec) && h.wait.NeedChangeCipherSpec?
    requires h.msg.None? && h.readEpoch == hs.readEpoch
    ensures Standing(cfg, c, h)
  {
  }

  lemma ReadSessionTicketStands(cfg: Config, c: Config, hs: Hs, ans: Answer, h: Hs)
    requires Ready(cfg, c, hs, ReadSessionTicket)
    requires h == DoReadSessionTicket(cfg, hs) && !h.wait.Error?
    ensures Standing(cfg, c, h) && Allowed(cfg, c, false)
    ensures hs.msg.Some? ==> hs.msg.value.epoch == 0
    ensures hs.ticketExpected == c.ticket
  {
    assert h.msg == hs.msg ==> Standing(cfg, c, h);
    if h.msg != hs.msg {
      PastTicketStands(cfg, c, hs, h);
    }
  }

  lemma ReadSessionTicketStep(cfg: Config, c: Config, hs: Hs, ans: Answer, h: Hs)
    requires Ready(cfg, c, hs, ReadSessionTicket)
    requires h == DoReadSessionTicket(cfg, hs) && !h.wait.Error?
    ensures Follows(cfg, c, hs, h)
  {
    ReadSessionTicketStands(cfg, c, hs, ans, h);
    LeftInAnswer(c, hs);
    LeftInAnswer(c, h);
    hide Follows, Leads, Standing, Known, AfterTicket, Left, Remaining;
    if h.msg == hs.msg {
      Stays(cfg, c, hs, h);
    } else {
      Takes(cfg, c, hs, h, NewSessionTicket, 0);
    }
  }

  lemma ReadSessionTicketFollows(cfg: Config, c: Config, hs: Hs, ans: Answer)
    requires Ready(cfg, c, hs, ReadSessionTicket) && !ClientDo(cfg, hs, ans).wait.Error?
    ensures Follows(cfg, c, hs, ClientDo(cfg, hs, ans))
  {
    hide Standing, Foreseen, Follows, DoReadSessionTicket;
    ReadSessionTicketStep(cfg, c, hs, ans, ClientDo(cfg, hs, ans));
  }

  lemma ProcessServerChangeCipherSpecFollows(cfg: Config, c: Config, hs: Hs, ans: Answer)
    requires Ready(cfg, c, hs, ProcessServerChangeCipherSpec) && !ClientDo(cfg, hs, ans).wait.Error?
    ensures Follows(cfg, c, hs, ClientDo(cfg, hs, ans))
  {
    hide Follows, Leads, AfterServerFinished;
    var h := ClientDo(cfg, hs, ans);
    Stays(cfg, c, hs, h);
  }

  lemma ReadServerFinishedStands(cfg: Config, c: Config, hs: Hs, ans: Answer, h: Hs)
    requires Ready(cfg, c, hs, ReadServerFinished)
    requires h == DoReadServerFinished(cfg, hs) && !h.wait.Error?
    ensures Standing(cfg, c, h) && Allowed(cfg, c, false)
    ensures hs.msg.Some? ==> hs.msg.value.epoch == 1
  {
    assert Allowed(cfg, c, PastKeys(h.state.client));
    hide Allowed, PastKeys;
  }

  lemma ReadServerFinishedStep(cfg: Config, c: Config, hs: Hs, ans: Answer, h: Hs)
    requires Ready(cfg, c, hs, ReadServerFinished)
    requires h == DoReadServerFinished(cfg, hs) && !h.wait.Error?
    ensures Follows(cfg, c, hs, h)
  {
    ReadServerFinishedStands(cfg, c, hs, ans, h);
    hide Follows, Leads, Standing, Known, ClientTail;
    if h.msg == hs.msg {
      Stays(cfg, c, hs, h);
    } else {
      Takes(cfg, c, hs, h, Finished, 1);
    }
  }

  lemma ReadServerFinishedFollows(cfg: Config, c: Config, hs: Hs, ans: Answer)
    requires Ready(cfg, c, hs, ReadServerFinished) && !ClientDo(cfg, hs, ans).wait.Error?
    ensures Follows(cfg, c, hs, ClientDo(cfg, hs, ans))
  {
    hide Standing, Foreseen, Follows, DoReadServerFinished;
    ReadServerFinishedStep(cfg, c, hs, ans, ClientDo(cfg, hs, ans));
  }

  lemma FinishClientHandshakeFollows(cfg: Config, c: Config, hs: Hs, ans: Answer)
    requires Ready(cfg, c, hs, FinishClientHandshake) && !ClientDo(cfg, hs, ans).wait.Error?
    ensures Follows(cfg, c, hs, ClientDo(cfg, hs, ans))
  {
    hide Follows, Leads;
    var h := ClientDo(cfg, hs, ans);
    Stays(cfg, c, hs, h);
  }

  lemma ClientDoneFollows(cfg: Config, c: Config, hs: Hs, ans: Answer)
    requires Ready(cfg, c, hs, ClientDone) && !ClientDo(cfg, hs, ans).wait.Error?
    ensures Follows(cfg, c, hs, ClientDo(cfg, hs, ans))
  {
    hide Follows, Leads;
    var h := ClientDo(cfg, hs, ans);
    Stays(cfg, c, hs, h);
  }

  lemma StepFollows(cfg: Config, c: Config, hs: Hs, ans: Answer)
    requires Standing(cfg, c, hs) && Foreseen(cfg, c, hs) && hs.wait.Ok?
    requires !ClientDo(cfg, hs, ans).wait.Error?
    ensures Follows(cfg, c, hs, ClientDo(cfg, hs, ans))
  {
    assert hs.state.Client?;
    hide Standing, Foreseen, Follows, ClientDo;
    match hs.state.client
    case StartConnect => StartConnectFollows(cfg, c, hs, ans);
    case EnterEarlyData => EnterEarlyDataFollows(cfg, c, hs, ans);
    case ReadServerHello => ReadServerHelloFollows(cfg, c, hs, ans);
    case ReadServerCertificate => ReadServerCertificateFollows(cfg, c, hs, ans);
    case ReadCertificateStatus => ReadCertificateStatusFollows(cfg, c, hs, ans);
    case VerifyServerCertificate => VerifyServerCertificateFollows(cfg, c, hs, ans);
    case ReadServerKeyExchange => ReadServerKeyExchangeFollows(cfg, c, hs, ans);
    case ReadCertificateRequest => ReadCertificateRequestFollows(cfg, c, hs, ans);
    case ReadServerHelloDone => ReadServerHelloDoneFollows(cfg, c, hs, ans);
    case SendClientCertificate => SendClientCertificateFollows(cfg, c, hs, ans);
    case SendClientKeyExchange => SendClientKeyExchangeFollows(cfg, c, hs, ans);
    case SendClientCertificateVerify => SendClientCertificateVerifyFollows(cfg, c, hs, ans);
    case SendClientFinished => SendClientFinishedFollows(cfg, c, hs, ans);
    case FinishFlight => FinishFlightFollows(cfg, c, hs, ans);
    case ReadSessionTicket => ReadSessionTicketFollows(cfg, c, hs, ans);
    case ProcessServerChangeCipherSpec => ProcessServerChangeCipherSpecFollows(cfg, c, hs, ans);
    case ReadServerFinished => ReadServerFinishedFollows(cfg, c, hs, ans);
    case FinishClientHandshake => FinishClientHandshakeFollows(cfg, c, hs, ans);
    case ClientDone => ClientDoneFollows(cfg, c, hs, ans);
  }

  // Where the optional messages are decided.

  function BeforeStatus(c: Config): seq<Turn> {
    [Says(false, ClientHello, 0)] + ([Says(true, ServerHello, 0)] + If(c.certAuth, Says(true, Certificate, 0), []))
  }

  function BeforeKeys(c: Config): seq<Turn> {
    BeforeStatus(c) + If(c.ocsp, Says(true, CertificateStatus, 0), [])
  }

  function BeforeRequest(c: Config): seq<Turn> {
    BeforeKeys(c) + If(c.ske, Says(true, ServerKeyExchange, 0), [])
  }

  lemma IfOn(b: bool, t: Turn, rest: seq<Turn>)
    ensures If(b, t, rest) == If(b, t, []) + rest
  {
  }

  lemma Regroups(a: seq<Turn>, b: seq<Turn>, d: seq<Turn>)
    ensures a + (b + d) == a + b + d
  {
  }

  lemma DividesAtStatus(c: Config)
    requires !c.resume
    ensures WholeFlow(c) == BeforeStatus(c) + FromCertificateStatus(c)
  {
    IfOn(c.certAuth, Says(true, Certificate, 0), FromCertificateStatus(c));
    hide FromCertificateStatus, If;
    var hello, server, certificate := [Says(false, ClientHello, 0)], [Says(true, ServerHello, 0)],
      If(c.certAuth, Says(true, Certificate, 0), []);
    Regroups(server, certificate, FromCertificateStatus(c));
    Regroups(hello, server + certificate, FromCertificateStatus(c));
  }

  lemma DividesAtKeys(c: Config)
    requires !c.resume
    ensures WholeFlow(c) == BeforeKeys(c) + FromServerKeyExchange(c)
  {
    DividesAtStatus(c);
    IfOn(c.ocsp, Says(true, CertificateStatus, 0), FromServerKeyExchange(c));
    hide WholeFlow, BeforeStatus, FromServerKeyExchange, If;
    Regroups(BeforeStatus(c), If(c.ocsp, Says(true, CertificateStatus, 0), []), FromServerKeyExchange(c));
  }

  lemma DividesAtRequest(c: Config)
    requires !c.resume
    ensures WholeFlow(c) == BeforeRequest(c) + FromCertificateRequest(c)
  {
    DividesAtKeys(c);
    IfOn(c.ske, Says(true, ServerKeyExchange, 0), FromCertificateRequest(c));
    hide WholeFlow, BeforeKeys, FromCertificateRequest, If;
    Regroups(BeforeKeys(c), If(c.ske, Says(true, ServerKeyExchange, 0), []), FromCertificateRequest(c));
  }

  function Origin(c: Config): Point {
    Point(WholeFlow(c), [], c.resumedMaster)
  }

  /** Where the run is: `past` has been consumed for good, the message in hand comes next,
      then the inbox. */
  ghost predicate Along(cfg: Config, c: Config, input: seq<Record>, past: seq<Record>, l: Link) {
    Standing(cfg, c, l.hs) && Leads(c, false, Origin(c), past, At(c, l.hs)) && input == past + Held(l.hs) + l.inbox
  }

  function Choice(cfg: Config, c: Config, hs: Hs): Config
    requires hs.msg.Some?
  {
    var k := hs.msg.value.msg.kind;
    c.(ocsp := if hs.state == Client(ReadCertificateStatus) && cfg.ocsp then k.CertificateStatus? else c.ocsp,
       ske := if hs.state == Client(ReadServerKeyExchange) then k.ServerKeyExchange? else c.ske,
       certRequest := if hs.state == Client(ReadCertificateRequest) && cfg.certAuth then k.CertificateRequest?
                      else c.certRequest)
  }

  lemma ChoiceFits(cfg: Config, c: Config, hs: Hs)
    requires hs.msg.Some?
    ensures var c' := Choice(cfg, c, hs);
            && Alike(c, c') && Foreseen(cfg, c', hs)
            && (hs.state != Client(ReadCertificateStatus) ==> c'.ocsp == c.ocsp)
            && (hs.state != Client(ReadServerKeyExchange) ==> c'.ske == c.ske)
            && (hs.state != Client(ReadCertificateRequest) ==> c'.certRequest == c.certRequest)
            && (c'.ocsp ==> cfg.ocsp || c.ocsp)
            && (c'.certRequest ==> cfg.certAuth || c.certRequest)
  {
  }

  lemma SameChoice(c: Config, c': Config)
    requires Alike(c, c') && c'.ocsp == c.ocsp && c'.ske == c.ske && c'.certRequest == c.certRequest
    ensures c' == c
  {
  }

  lemma AllowedAlike(cfg: Config, c: Config, c': Config, past: bool)
    requires Allowed(cfg, c, past) && Alike(c, c') && (c'.ocsp ==> cfg.ocsp) && (c'.certRequest ==> cfg.certAuth)
    requires past ==> c'.ske == c.ske
    ensures Allowed(cfg, c', past)
  {
  }

  lemma ChoiceStands(cfg: Config, c: Config, hs: Hs)
    requires Standing(cfg, c, hs) && hs.msg.Some?
    ensures var c' := Choice(cfg, c, hs); Standing(cfg, c', hs) && Foreseen(cfg, c', hs) && Alike(c, c')
  {
    var c' := Choice(cfg, c, hs);
    ChoiceFits(cfg, c, hs);
    hide Choice, Foreseen, Alike, Known;
    assert hs.state.Client?;
    AllowedAlike(cfg, c, c', PastKeys(hs.state.client));
    if StageOf(hs.state.client).Flight? {
      KnownAlike(c, c', hs);
    } else {
      SameChoice(c, c');
    }
  }

  lemma KnownAlike(c: Config, c': Config, hs: Hs)
    requires Known(c, hs) && Alike(c, c') && StageOf(hs.state.client).Flight?
    ensures Known(c', hs)
  {
  }

  /** Until the message that decides it has been looked at, either choice fits the run. */
  lemma ChoiceLeads(cfg: Config, c: Config, past: seq<Record>, hs: Hs)
    requires Standing(cfg, c, hs) && hs.msg.Some? && Leads(c, false, Origin(c), past, At(c, hs))
    ensures var c' := Choice(cfg, c, hs); Leads(c', false, Origin(c'), past, At(c', hs))
  {
    hide *;
    ChoiceFits(cfg, c, hs);
    FlightIsFull(cfg, c, hs);
    EitherLeads(c, Choice(cfg, c, hs), past, hs);
  }

  predicate Decides(s: State) {
    s == Client(ReadCertificateStatus) || s == Client(ReadServerKeyExchange) || s == Client(ReadCertificateRequest)
  }

  lemma EitherLeads(c: Config, c': Config, past: seq<Record>, hs: Hs)
    requires Alike(c, c') && Leads(c, false, Origin(c), past, At(c, hs))
    requires hs.state == Client(ReadCertificateStatus) || c'.ocsp == c.ocsp
    requires hs.state == Client(ReadServerKeyExchange) || c'.ske == c.ske
    requires hs.state == Client(ReadCertificateRequest) || c'.certRequest == c.certRequest
    requires Decides(hs.state) ==> !c.resume
    ensures Leads(c', false, Origin(c'), past, At(c', hs))
  {
    hide Leads, Alike, Origin, At;
    if hs.state == Client(ReadCertificateStatus) {
      StatusLeads(c, c', past, hs);
    } else if hs.state == Client(ReadServerKeyExchange) {
      KeysLead(c, c', past, hs);
    } else if hs.state == Client(ReadCertificateRequest) {
      RequestLeads(c, c', past, hs);
    } else {
      SameChoice(c, c');
    }
  }

  lemma FlightIsFull(cfg: Config, c: Config, hs: Hs)
    requires Standing(cfg, c, hs)
    ensures Decides(hs.state) ==> !c.resume
  {
  }

  lemma StatusLeads(c: Config, c': Config, past: seq<Record>, hs: Hs)
    requires !c.resume && Alike(c, c') && hs.state == Client(ReadCertificateStatus)
    requires Leads(c, false, Origin(c), past, At(c, hs))
    ensures Leads(c', false, Origin(c'), past, At(c', hs))
  {
    hide Leads, WholeFlow, FromCertificateStatus, BeforeStatus;
    DividesAtStatus(c);
    DividesAtStatus(c');
    SameBefore(c, c');
    SwapTail(c, c', false, Origin(c), past, At(c, hs), BeforeStatus(c), FromCertificateStatus(c),
             FromCertificateStatus(c'));
  }

  lemma KeysLead(c: Config, c': Config, past: seq<Record>, hs: Hs)
    requires !c.resume && Alike(c, c') && c'.ocsp == c.ocsp && hs.state == Client(ReadServerKeyExchange)
    requires Leads(c, false, Origin(c), past, At(c, hs))
    ensures Leads(c', false, Origin(c'), past, At(c', hs))
  {
    hide Leads, WholeFlow, FromServerKeyExchange, BeforeKeys;
    DividesAtKeys(c);
    DividesAtKeys(c');
    SameBefore(c, c');
    SwapTail(c, c', false, Origin(c), past, At(c, hs), BeforeKeys(c), FromServerKeyExchange(c),
             FromServerKeyExchange(c'));
  }

  lemma RequestLeads(c: Config, c': Config, past: seq<Record>, hs: Hs)
    requires !c.resume && Alike(c, c') && c'.ocsp == c.ocsp && c'.ske == c.ske
    requires hs.state == Client(ReadCertificateRequest)
    requires Leads(c, false, Origin(c), past, At(c, hs))
    ensures Leads(c', false, Origin(c'), past, At(c', hs))
  {
    hide Leads, WholeFlow, FromCertificateRequest, BeforeRequest;
    DividesAtRequest(c);
    DividesAtRequest(c');
    SameBefore(c, c');
    SwapTail(c, c', false, Origin(c), past, At(c, hs), BeforeRequest(c), FromCertificateRequest(c),
             FromCertificateRequest(c'));
  }

  lemma SameBefore(c: Config, c': Config)
    requires Alike(c, c')
    ensures BeforeStatus(c) == BeforeStatus(c') && (c.ocsp == c'.ocsp ==> BeforeKeys(c) == BeforeKeys(c'))
    ensures c.ocsp == c'.ocsp && c.ske == c'.ske ==> BeforeRequest(c) == BeforeRequest(c')
  {
  }

  lemma StepGoesAlong(cfg: Config, c: Config, input: seq<Record>, past: seq<Record>, l: Link, ans: Answer)
    returns (c': Config, past': seq<Record>)
    requires Along(cfg, c, input, past, l) && l.hs.wait.Ok?
    ensures var h := ClientDo(cfg, l.hs, ans); h.wait.Error? || Along(cfg, c', input, past', l.(hs := h))
  {
    StandingIsClient(cfg, c, l.hs);
    c', past' := c, past;
    if l.hs.msg.Some? {
      ChoiceStands(cfg, c, l.hs);
      ChoiceLeads(cfg, c, past, l.hs);
      c' := Choice(cfg, c, l.hs);
    }
    hide ClientDo, Standing, Foreseen, Choice, Origin, At, Leads, Follows;
    var h := ClientDo(cfg, l.hs, ans);
    if !h.wait.Error? {
      StepFollows(cfg, c', l.hs, ans);
      past' := FollowsOn(cfg, c', Origin(c'), past, l.hs, h);
    }
  }

  lemma FollowsOn(cfg: Config, c: Config, start: Point, past: seq<Record>, hs: Hs, h: Hs) returns (past': seq<Record>)
    requires Leads(c, false, start, past, At(c, hs)) && Follows(cfg, c, hs, h)
    ensures Standing(cfg, c, h) && Leads(c, false, start, past', At(c, h)) && past' + Held(h) == past + Held(hs)
  {
    hide Leads, Standing, At;
    past' := past;
    if h.msg == hs.msg && Leads(c, false, At(c, hs), [], At(c, h)) {
      LeadsThen(c, false, start, past, At(c, hs), [], At(c, h));
      assert past + [] == past;
    } else {
      past' := past + Held(hs);
      LeadsThen(c, false, start, past, At(c, hs), Held(hs), At(c, h));
      assert past' + [] == past';
    }
  }

  lemma StandingIsClient(cfg: Config, c: Config, hs: Hs)
    requires Standing(cfg, c, hs)
    ensures hs.state.Client?
  {
  }

  /** A message that can be read leaves what is known, and where the run stands, as it was. */
  lemma ReadStands(cfg: Config, c: Config, l: Link)
    requires Standing(cfg, c, l.hs) && l.inbox != [] && l.hs.wait.NeedMessage?
    ensures var l' := ReadHandshake(l);
            && l.hs.msg.None?
            && (!l'.hs.wait.Error? ==> Standing(cfg, c, l'.hs) && At(c, l'.hs) == At(c, l.hs))
            && (!l'.hs.wait.Error? ==> Held(l'.hs) == [l.inbox[0]])
  {
    hide StageOf, Reading, Unprotected, PastKeys;
  }

  lemma ReadGoesAlong(cfg: Config, c: Config, input: seq<Record>, past: seq<Record>, l: Link)
    requires Along(cfg, c, input, past, l) && l.inbox != [] && l.hs.wait.NeedMessage?
    ensures var l' := ReadHandshake(l); l'.hs.wait.Error? || Along(cfg, c, input, past, l')
  {
    hide Leads, Standing, At;
    ReadStands(cfg, c, l);
    FirstHeld(past, l.inbox);
  }

  /** So does the server's ChangeCipherSpec, which takes the flow one turn on. */
  lemma SwitchStands(cfg: Config, c: Config, l: Link)
    requires Standing(cfg, c, l.hs) && l.inbox != [] && l.hs.wait.NeedChangeCipherSpec?
    ensures var l' := ReadCcs(l);
            && l.hs.msg.None?
            && (!l'.hs.wait.Error? ==>
                && Standing(cfg, c, l'.hs) && l.inbox[0] == ChangeCipherSpec(0, l.inbox[0].stamp)
                && l'.hs == Stop(l.hs, Ok) && Left(c, l.hs) == [Switches(true)] + Left(c, l'.hs))
  {
    hide AfterServerSwitch, AfterServerFinished;
  }

  lemma SwitchGoesAlong(cfg: Config, c: Config, input: seq<Record>, past: seq<Record>, l: Link)
    returns (past': seq<Record>)
    requires Along(cfg, c, input, past, l) && l.inbox != [] && l.hs.wait.NeedChangeCipherSpec?
    ensures var l' := ReadCcs(l); l'.hs.wait.Error? || Along(cfg, c, input, past', l')
  {
    hide Leads, Standing, Left;
    SwitchStands(cfg, c, l);
    past' := past + [l.inbox[0]];
    var l' := ReadCcs(l);
    if !l'.hs.wait.Error? {
      PeerSwitch(c, false, Left(c, l'.hs), l.hs.hashed, l.hs.master, l.inbox[0].stamp);
      LeadsThen(c, false, Origin(c), past, At(c, l.hs), [l.inbox[0]], At(c, l'.hs));
      FirstSpent(past, l.inbox);
    }
  }

  lemma ResumesAlong(cfg: Config, c: Config, input: seq<Record>, past: seq<Record>, l: Link, l': Link)
    requires Along(cfg, c, input, past, l)
    requires l' == l || (!l.hs.wait.NeedMessage? && !l.hs.wait.NeedChangeCipherSpec? && l'.inbox == l.inbox &&
                         (l'.hs == Stop(l.hs, Ok) || l'.hs == l.hs.(pending := [], wait := Ok)))
    ensures Along(cfg, c, input, past, l')
  {
    hide Leads, StageOf, Reading, Unprotected, PastKeys;
  }

  lemma MicroGoesAlong(cfg: Config, c: Config, input: seq<Record>, past: seq<Record>, l: Link, ans: Answer)
    returns (c': Config, past': seq<Record>)
    requires Along(cfg, c, input, past, l)
    ensures var l' := Micro(cfg, l, ans); l'.hs.wait.Error? || Along(cfg, c', input, past', l')
  {
    c', past' := c, past;
    StandingIsClient(cfg, c, l.hs);
    hide Along, ClientDo;
    if l.hs.wait.Ok? {
      c', past' := StepGoesAlong(cfg, c, input, past, l, ans);
    } else if l.hs.wait.NeedMessage? && !ans.Retry? && l.inbox != [] {
      ReadGoesAlong(cfg, c, input, past, l);
    } else if l.hs.wait.NeedChangeCipherSpec? && !ans.Retry? && l.inbox != [] {
      past' := SwitchGoesAlong(cfg, c, input, past, l);
    } else {
      ResumesAlong(cfg, c, input, past, l, Micro(cfg, l, ans));
    }
  }

  lemma {:induction false} RunGoesAlong(cfg: Config, c: Config, input: seq<Record>, past: seq<Record>, l: Link,
      answers: seq<Answer>)
    returns (c': Config, past': seq<Record>)
    requires Along(cfg, c, input, past, l)
    ensures var l' := Turns(cfg, l, answers); l'.hs.wait.Error? || Along(cfg, c', input, past', l')
    decreases |answers|
  {
    c', past' := c, past;
    if answers != [] {
      var next := Micro(cfg, l, answers[0]);
      c', past' := MicroGoesAlong(cfg, c, input, past, l, answers[0]);
      if next.hs.wait.Error? {
        ErrorStays(cfg, next, answers[1..]);
      } else {
        hide Along, Micro;
        c', past' := RunGoesAlong(cfg, c', input, past', next, answers[1..]);
      }
    }
  }

  lemma {:induction false} ErrorStays(cfg: Config, l: Link, answers: seq<Answer>)
    requires l.hs.wait.Error?
    ensures Turns(cfg, l, answers) == l
    decreases |answers|
  {
    if answers != [] {
      ErrorStays(cfg, l, answers[1..]);
    }
  }

  lemma AlongAtFirst(cfg: Config, input: seq<Record>) returns (c: Config)
    ensures Along(cfg, c, input, [], Link(NewHandshake(cfg, false), input, []))
  {
    hide WholeFlow;
    c := cfg.(ocsp := false, ske := false, certRequest := false);
    var l0 := Link(NewHandshake(cfg, false), input, []);
    assert Leads(c, false, Origin(c), [], At(c, l0.hs));
    hide Leads;
    assert input == [] + Held(l0.hs) + input;
  }

  /** At the end nothing is left of the flow. */
  lemma AlongAtLast(cfg: Config, c: Config, input: seq<Record>, past: seq<Record>, l: Link)
    requires l.hs.state == Client(ClientDone) && Along(cfg, c, input, past, l)
    ensures input == past + l.inbox && Allowed(cfg, c, true)
    ensures Leads(c, false, Origin(c), past, Point([], l.hs.hashed, l.hs.master))
  {
    hide Leads, Standing, Allowed, Left, Origin;
    DoneStands(cfg, c, l.hs);
    assert past + [] == past;
  }

  lemma DoneStands(cfg: Config, c: Config, hs: Hs)
    requires Standing(cfg, c, hs) && hs.state == Client(ClientDone)
    ensures Allowed(cfg, c, true) && Left(c, hs) == [] && hs.msg.None?
  {
  }

  /** The server's records of a client run that finished, in order: exactly those of a flow that
      the client's configuration allows, each genuine over the transcript before it, and the rest
      of the input untouched. The final transcript and master secret are those of the flow. */
  lemma FinishedClientFollowedTheFlow(cfg: Config, input: seq<Record>, answers: seq<Answer>)
    returns (c: Config, consumed: seq<Record>)
    requires var hs := Turns(cfg, Link(NewHandshake(cfg, false), input, []), answers).hs;
             hs.state == Client(ClientDone) && !hs.wait.Error?
    ensures Allowed(cfg, c, true)
    ensures var l := Turns(cfg, Link(NewHandshake(cfg, false), input, []), answers);
            && input == consumed + l.inbox
            && Leads(c, false, Origin(c), consumed, Point([], l.hs.hashed, l.hs.master))
  {
    hide *;
    var l0 := Link(NewHandshake(cfg, false), input, []);
    var c0 := AlongAtFirst(cfg, input);
    c, consumed := RunGoesAlong(cfg, c0, input, [], l0, answers);
    AlongAtLast(cfg, c, input, consumed, Turns(cfg, l0, answers));
  }

  // The same, as a list of kinds.

  function TailKinds(c: Config): seq<Option<Kind>> {
    When(c.ticket, NewSessionTicket, [None, Some(Finished)])
  }

  /** ServerHello [Certificate] [CertificateStatus] [ServerKeyExchange] [CertificateRequest]
      ServerHelloDone [NewSessionTicket] ChangeCipherSpec Finished, or the resumed form. */
  function ServerKinds(c: Config): seq<Option<Kind>> {
    [Some(ServerHello)] +
    if c.resume then TailKinds(c)
    else When(c.certAuth, Certificate, When(c.ocsp, CertificateStatus, When(c.ske, ServerKeyExchange,
           When(c.certRequest, CertificateRequest, [Some(ServerHelloDone)] + TailKinds(c)))))
  }

  lemma ServerTailKinds(c: Config, rest: seq<Turn>)
    requires PeerTurns(false, rest) == []
    ensures PeerTurns(false, ServerTail(c, rest)) == TailKinds(c)
  {
    hide PeerTurns, If, When;
    OtherTurn(false, true, Finished, 1, rest);
    OtherTurn(false, true, Finished, 1, AfterServerSwitch(rest));
    OtherTurn(false, c.ticket, NewSessionTicket, 0, AfterTicket(rest));
    assert [None] + ([Some(Finished)] + PeerTurns(false, rest)) == [None, Some(Finished)];
  }

  lemma ClientTailKinds(c: Config, rest: seq<Turn>)
    ensures PeerTurns(false, ClientTail(c, rest)) == PeerTurns(false, rest)
  {
    hide PeerTurns, If;
    MyTurn(false, true, Finished, 1, rest);
    MyTurn(false, c.channelId, ChannelId, 1, AfterChannelId(rest));
    MyTurn(false, c.npn, NextProto, 1, AfterNextProto(c, rest));
    MyTurn(false, true, Finished, 1, AfterClientSwitch(c, rest));
  }

  lemma ClientFlightKinds(c: Config)
    requires !c.resume
    ensures PeerTurns(false, FromClientCertificate(c)) == TailKinds(c)
  {
    assert PeerTurns(false, []) == [];
    hide PeerTurns, If, When, ServerTail, ClientTail, TailKinds;
    ServerTailKinds(c, []);
    ClientTailKinds(c, AfterClientFinished(c));
    MyTurn(false, c.certRequest && c.clientCert, CertificateVerify, 0, ClientTail(c, AfterClientFinished(c)));
    MyTurn(false, true, ClientKeyExchange, 0, FromCertificateVerify(c));
    MyTurn(false, c.certRequest, Certificate, 0, FromClientKeyExchange(c));
  }

  lemma ServerFlightKinds(c: Config)
    requires !c.resume
    ensures [Some(ServerHello)] + PeerTurns(false, FromServerCertificate(c)) == ServerKinds(c)
  {
    hide PeerTurns, If, When, FromClientCertificate, TailKinds;
    ClientFlightKinds(c);
    OtherTurn(false, true, ServerHelloDone, 0, FromClientCertificate(c));
    OtherTurn(false, c.certRequest, CertificateRequest, 0, FromServerHelloDone(c));
    OtherTurn(false, c.ske, ServerKeyExchange, 0, FromCertificateRequest(c));
    OtherTurn(false, c.ocsp, CertificateStatus, 0, FromServerKeyExchange(c));
    OtherTurn(false, c.certAuth, Certificate, 0, FromCertificateStatus(c));
  }

  lemma WholeFlowKinds(c: Config)
    ensures PeerTurns(false, WholeFlow(c)) == ServerKinds(c)
  {
    assert PeerTurns(false, []) == [];
    hide PeerTurns, When, FromServerCertificate, ServerTail, ClientTail, TailKinds;
    MyTurn(false, true, ClientHello, 0, FromServerHello(c));
    if c.resume {
      OtherTurn(false, true, ServerHello, 0, ServerTail(c, AfterServerFinished(c)));
      ClientTailKinds(c, []);
      ServerTailKinds(c, AfterServerFinished(c));
    } else {
      OtherTurn(false, true, ServerHello, 0, FromServerCertificate(c));
      ServerFlightKinds(c);
    }
  }

  /** What a finished client consumed, by kinds (None is a ChangeCipherSpec). */
  lemma FinishedClientConsumed(cfg: Config, input: seq<Record>, answers: seq<Answer>)
    returns (c: Config, consumed: seq<Record>)
    requires var hs := Turns(cfg, Link(NewHandshake(cfg, false), input, []), answers).hs;
             hs.state == Client(ClientDone) && !hs.wait.Error?
    ensures Allowed(cfg, c, true)
    ensures input == consumed + Turns(cfg, Link(NewHandshake(cfg, false), input, []), answers).inbox
    ensures |consumed| == |ServerKinds(c)|
    ensures forall i :: 0 <= i < |consumed| ==> Shape(consumed[i]) == ServerKinds(c)[i]
  {
    hide WholeFlow, Leads, Turns, NewHandshake, ServerKinds, Allowed;
    var l := Turns(cfg, Link(NewHandshake(cfg, false), input, []), answers);
    c, consumed := FinishedClientFollowedTheFlow(cfg, input, answers);
    LeadsInShape(c, false, Origin(c), consumed, Point([], l.hs.hashed, l.hs.master));
    WholeFlowKinds(c);
  }
}
