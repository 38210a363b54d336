/**
 A server that finishes, whoever its peer is, has followed the flow: it has consumed
 exactly the client's records of the flow, each checked against the transcript so far.
 */
module HandshakeTrace {
  import opened Basics
  import opened HandshakeTypes
  import opened HandshakeScript
  import opened HandshakeDriver
  import opened HandshakePath
  import opened HandshakeServer

  // The server's own fields. `cfg` below is the server's configuration with the optional
  // turns it will really take, and with `clientCert` saying whether the client's chain
  // turns out to be non-empty.

  function Seen(cfg: Config, chain: bool): Config {
    cfg.(ocsp := cfg.certAuth && cfg.ocsp, certRequest := !cfg.resume && cfg.certAuth
      && cfg.certRequest, clientCert := chain)
  }

  datatype Stage = Hello | Flight | Keys | Switch | Protected | Closing

  function StageOf(s: ServerState): Stage {
    match s
    case StartAccept | ReadClientHello | SelectCertificate | SelectParameters => Hello
    case SendServerHello | SendServerCertificate | SendServerKeyExchange | SendServerHelloDone
      | ReadClientCertificate => Flight
    case VerifyClientCertificate | ReadClientKeyExchange | ReadClientCertificateVerify => Keys
    case ReadChangeCipherSpec | ProcessClientChangeCipherSpec => Switch
    case ReadNextProto | ReadChannelId | ReadClientFinished => Protected
    case SendServerFinished | FinishServerHandshake | ServerDone => Closing
  }

  predicate Signs(cfg: Config) {
    cfg.certRequest && cfg.clientCert
  }

  predicate Reading(cfg: Config, s: ServerState) {
    match s
    case ReadClientHello | SelectCertificate | SelectParameters => true
    case ReadClientCertificate => cfg.certRequest
    case ReadClientKeyExchange => true
    case ReadClientCertificateVerify => Signs(cfg)
    case ReadNextProto => cfg.npn
    case ReadChannelId => cfg.channelId
    case ReadClientFinished => true
    case _ => false
  }

  ghost predicate Known(cfg: Config, hs: Hs) {
    && hs.state.Server?
    && var v, stage := hs.state.server, StageOf(hs.state.server);
    && (stage.Hello? || ((stage.Flight? || stage.Keys?) && Signs(cfg)) ==> hs.buffer == Some(hs.hashed))
    && (stage.Flight? ==> hs.certRequest == cfg.certRequest)
    && hs.peerCert == (Signs(cfg) && !stage.Hello? && !stage.Flight?)
    && (!stage.Hello? ==> hs.ticketExpected == cfg.ticket)
    && (stage.Hello? || stage.Flight? || stage.Keys? || stage.Switch? || (v.SendServerFinished? && cfg.resume) ==>
       hs.readEpoch == 0)
    && (stage.Protected? ==> hs.readEpoch == 1)
    && (hs.msg.Some? || hs.wait.NeedMessage? ==> Reading(cfg, v))
    && (hs.msg.Some? ==> hs.msg.value.epoch == hs.readEpoch)
    && (hs.wait.NeedMessage? ==> hs.msg.None?)
    && (v.SelectCertificate? || v.SelectParameters? ==>
        hs.msg.Some? && hs.msg.value.msg.kind == ClientHello && cfg.p.parses(hs.msg.value.msg))
    && (hs.wait.NeedChangeCipherSpec? ==> v.ProcessClientChangeCipherSpec?)
  }

  /** The chain that came is not the one `cfg` foresaw. */
  predicate Diverged(cfg: Config, hs: Hs) {
    cfg.certRequest && hs.state.Server? && var stage := StageOf(hs.state.server);
    !stage.Hello? && !stage.Flight? && hs.peerCert != Signs(cfg)
  }

  /** A step that keeps what is known and follows the flow by the message it took, if any. */
  ghost predicate Follows(cfg: Config, hs: Hs, h: Hs) {
    && Known(cfg, h)
    && (|| (h.msg == hs.msg && Leads(cfg, true, At(cfg, hs), [], At(cfg, h)))
        || (hs.msg.Some? && h.msg.None? && Leads(cfg, true, At(cfg, hs), [Handshake(hs.msg.value)], At(cfg, h))))
  }

  // One lemma for each kind of step, and then for each state.

  lemma Stays(cfg: Config, hs: Hs, h: Hs)
    requires Known(cfg, h) && h.msg == hs.msg && At(cfg, h) == At(cfg, hs)
    ensures Follows(cfg, hs, h)
  {
    hide Known, Left;
  }

  lemma Takes(cfg: Config, hs: Hs, h: Hs, k: Kind, e: nat)
    requires hs.msg.Some? && hs.msg.value.epoch == e && Known(cfg, h) && h.msg.None?
    requires Genuine(cfg, true, k, hs.msg.value.msg, hs.hashed, hs.master)
    requires Left(cfg, hs) == [Says(false, k, e)] + Left(cfg, h) && h.hashed == hs.hashed + [hs.msg.value.msg]
    requires h.master == if k == ClientKeyExchange then cfg.p.masterSecret(hs.msg.value.msg, h.hashed) else hs.master
    ensures Follows(cfg, hs, h)
  {
    hide Known, Left, Genuine;
    PeerTurn(cfg, true, k, e, Left(cfg, h), hs.hashed, hs.master, hs.msg.value);
  }

  lemma Speaks(cfg: Config, hs: Hs, h: Hs)
    requires Known(cfg, h) && h.msg == hs.msg && Leads(cfg, true, At(cfg, hs), [], At(cfg, h))
    ensures Follows(cfg, hs, h)
  {
  }

  /** What is left of the flow where the server waits for the client's flight. */
  lemma LeftInClientFlight(c: Config, hs: Hs)
    ensures hs.state == Server(SendServerHelloDone) ==> Left(c, hs) == FromCertificateRequest(c)
    ensures hs.state == Server(ReadClientCertificate) ==>
              Left(c, hs) == FromClientCertificate(c)
                          == If(c.certRequest, Says(false, Certificate, 0), FromClientKeyExchange(c))
    ensures hs.state == Server(VerifyClientCertificate) ==> Left(c, hs) == FromClientKeyExchange(c)
    ensures hs.state == Server(ReadClientKeyExchange) ==>
              Left(c, hs) == [Says(false, ClientKeyExchange, 0)] + FromCertificateVerify(c)
    ensures hs.state == Server(ReadClientCertificateVerify) ==> Left(c, hs) == FromCertificateVerify(c)
    ensures hs.state == Server(ReadChangeCipherSpec) ==> Left(c, hs) == ClientTail(c, AfterClientFinished(c))
    ensures hs.state == Server(ReadNextProto) ==>
              Left(c, hs) == If(c.npn, Says(false, NextProto, 1), AfterNextProto(c, AfterClientFinished(c)))
    ensures hs.state == Server(ReadChannelId) ==>
              Left(c, hs) == AfterNextProto(c, AfterClientFinished(c))
                          == If(c.channelId, Says(false, ChannelId, 1), AfterChannelId(AfterClientFinished(c)))
    ensures hs.state == Server(ReadClientFinished) ==> Left(c, hs) == AfterChannelId(AfterClientFinished(c))
  {
    hide If, FromCertificateVerify, FromCertificateRequest, AfterChannelId, AfterClientFinished;
  }

  lemma StartAcceptFollows(cfg: Config, b: bool, hs: Hs, ans: Answer)
    requires Known(Seen(cfg, b), hs) && hs.wait.Ok? && hs.state == Server(StartAccept)
             && !ServerDo(cfg, hs, ans).wait.Error?
    ensures var h := ServerDo(cfg, hs, ans); Follows(Seen(cfg, b), hs, h)
  {
    hide Follows, Leads, FromServerHello;
    var h := ServerDo(cfg, hs, ans);
    Stays(Seen(cfg, b), hs, h);
  }

  lemma ReadClientHelloFollows(cfg: Config, b: bool, hs: Hs, ans: Answer)
    requires Known(Seen(cfg, b), hs) && hs.wait.Ok? && hs.state == Server(ReadClientHello)
             && !ServerDo(cfg, hs, ans).wait.Error?
    ensures var h := ServerDo(cfg, hs, ans); Follows(Seen(cfg, b), hs, h)
  {
    hide Follows, Leads, FromServerHello;
    var h := ServerDo(cfg, hs, ans);
    Stays(Seen(cfg, b), hs, h);
  }

  lemma SelectCertificateFollows(cfg: Config, b: bool, hs: Hs, ans: Answer)
    requires Known(Seen(cfg, b), hs) && hs.wait.Ok? && hs.state == Server(SelectCertificate)
             && !ServerDo(cfg, hs, ans).wait.Error?
    ensures var h := ServerDo(cfg, hs, ans); Follows(Seen(cfg, b), hs, h)
  {
    hide Follows, Leads, FromServerHello;
    var h := ServerDo(cfg, hs, ans);
    Stays(Seen(cfg, b), hs, h);
  }

  lemma SelectParametersFollows(cfg: Config, b: bool, hs: Hs, ans: Answer)
    requires Known(Seen(cfg, b), hs) && hs.wait.Ok? && hs.state == Server(SelectParameters)
             && !ServerDo(cfg, hs, ans).wait.Error?
    ensures var h := ServerDo(cfg, hs, ans); Follows(Seen(cfg, b), hs, h)
  {
    hide Follows, Leads, FromServerHello;
    var h := ServerDo(cfg, hs, ans);
    if h.msg == hs.msg {
      Stays(Seen(cfg, b), hs, h);
    } else {
      Takes(Seen(cfg, b), hs, h, ClientHello, 0);
    }
  }

  lemma SendServerHelloFollows(cfg: Config, b: bool, hs: Hs, ans: Answer)
    requires Known(Seen(cfg, b), hs) && hs.wait.Ok? && hs.state == Server(SendServerHello)
             && !ServerDo(cfg, hs, ans).wait.Error?
    ensures var h := ServerDo(cfg, hs, ans); Follows(Seen(cfg, b), hs, h)
  {
    hide Follows, Leads, ServerTail, FromServerCertificate;
    var h := ServerDo(cfg, hs, ans);
    var c := Seen(cfg, b);
    OwnTurn(c, true, hs, true, ServerHello, 0, Left(c, h));
    Speaks(c, hs, h);
  }

  lemma SendServerCertificateFollows(cfg: Config, b: bool, hs: Hs, ans: Answer)
    requires Known(Seen(cfg, b), hs) && hs.wait.Ok? && hs.state == Server(SendServerCertificate)
             && !ServerDo(cfg, hs, ans).wait.Error?
    ensures var h := ServerDo(cfg, hs, ans); Follows(Seen(cfg, b), hs, h)
  {
    hide Follows, Leads, FromServerKeyExchange;
    var h := ServerDo(cfg, hs, ans);
    var c := Seen(cfg, b);
    var h1 := if c.certAuth then Say(cfg, hs, Certificate) else hs;
    OwnTurn(c, true, hs, c.certAuth, Certificate, 0, FromCertificateStatus(c));
    OwnTurn(c, true, h1, c.ocsp, CertificateStatus, 0, FromServerKeyExchange(c));
    SpeaksOn(c, true, At(c, hs), Point(FromCertificateStatus(c), h1.hashed, h1.master), At(c, h));
    Speaks(c, hs, h);
  }

  lemma SendServerKeyExchangeFollows(cfg: Config, b: bool, hs: Hs, ans: Answer)
    requires Known(Seen(cfg, b), hs) && hs.wait.Ok? && hs.state == Server(SendServerKeyExchange)
             && !ServerDo(cfg, hs, ans).wait.Error?
    ensures var h := ServerDo(cfg, hs, ans); Follows(Seen(cfg, b), hs, h)
  {
    hide Follows, Leads, FromCertificateRequest;
    var h := ServerDo(cfg, hs, ans);
    if h.hashed == hs.hashed {
      Stays(Seen(cfg, b), hs, h);
    } else {
      var c := Seen(cfg, b);
      OwnTurn(c, true, hs, c.ske, ServerKeyExchange, 0, FromCertificateRequest(c));
      Speaks(c, hs, h);
    }
  }

  lemma HelloDoneKnown(c: Config, hs: Hs, h: Hs)
    requires Known(c, hs) && hs.wait.Ok? && hs.state == Server(SendServerHelloDone) && h == DoSendServerHelloDone(c, hs)
    ensures Known(c, h) && hs.certRequest == c.certRequest
  {
  }

  lemma HelloDoneFollows(c: Config, hs: Hs, h: Hs)
    requires Known(c, hs) && hs.wait.Ok? && hs.state == Server(SendServerHelloDone) && h == DoSendServerHelloDone(c, hs)
    ensures Follows(c, hs, h)
  {
    HelloDoneKnown(c, hs, h);
    LeftInClientFlight(c, hs);
    LeftInClientFlight(c, h);
    hide Left, Remaining, Known, Follows, Leads, FromClientCertificate;
    var h1 := if c.certRequest then Say(c, hs, CertificateRequest) else hs;
    OwnTurn(c, true, hs, c.certRequest, CertificateRequest, 0, FromServerHelloDone(c));
    OwnTurn(c, true, h1, true, ServerHelloDone, 0, FromClientCertificate(c));
    SpeaksOn(c, true, At(c, hs), Point(FromServerHelloDone(c), h1.hashed, h1.master), At(c, h));
    Speaks(c, hs, h);
  }

  lemma SendServerHelloDoneFollows(cfg: Config, b: bool, hs: Hs, ans: Answer)
    requires Known(Seen(cfg, b), hs) && hs.wait.Ok? && hs.state == Server(SendServerHelloDone)
             && !ServerDo(cfg, hs, ans).wait.Error?
    ensures var h := ServerDo(cfg, hs, ans); Follows(Seen(cfg, b), hs, h)
  {
    hide Known, Follows, Diverged;
    HelloDoneFollows(Seen(cfg, b), hs, ServerDo(cfg, hs, ans));
  }

  lemma CertificateKnown(c: Config, hs: Hs, h: Hs)
    requires Known(c, hs) && hs.wait.Ok? && hs.state == Server(ReadClientCertificate)
    requires h == DoReadClientCertificate(c, hs) && !h.wait.Error?
    ensures Diverged(c, h) || Known(c, h)
    ensures hs.certRequest == c.certRequest && (hs.msg.Some? ==> hs.msg.value.epoch == 0)
    ensures hs.msg.Some? && h.msg.None? && !Diverged(c, h) ==>
              Genuine(c, true, Certificate, hs.msg.value.msg, hs.hashed, hs.master)
  {
  }

  lemma CertificateFollows(c: Config, hs: Hs, h: Hs)
    requires Known(c, hs) && hs.wait.Ok? && hs.state == Server(ReadClientCertificate)
    requires h == DoReadClientCertificate(c, hs) && !h.wait.Error?
    ensures Diverged(c, h) || Follows(c, hs, h)
  {
    CertificateKnown(c, hs, h);
    LeftInClientFlight(c, hs);
    LeftInClientFlight(c, h);
    hide Left, Remaining, Known, Follows, Leads, Genuine, Diverged, FromClientKeyExchange;
    if h.msg == hs.msg && !Diverged(c, h) {
      Stays(c, hs, h);
    } else if !Diverged(c, h) {
      Takes(c, hs, h, Certificate, 0);
    }
  }

  lemma ReadClientCertificateFollows(cfg: Config, b: bool, hs: Hs, ans: Answer)
    requires Known(Seen(cfg, b), hs) && hs.wait.Ok? && hs.state == Server(ReadClientCertificate)
             && !ServerDo(cfg, hs, ans).wait.Error?
    ensures var h := ServerDo(cfg, hs, ans); Diverged(Seen(cfg, b), h) || Follows(Seen(cfg, b), hs, h)
  {
    hide Known, Follows, Diverged;
    CertificateFollows(Seen(cfg, b), hs, ServerDo(cfg, hs, ans));
  }

  lemma VerifyClientCertificateFollows(cfg: Config, b: bool, hs: Hs, ans: Answer)
    requires Known(Seen(cfg, b), hs) && hs.wait.Ok? && hs.state == Server(VerifyClientCertificate)
             && !ServerDo(cfg, hs, ans).wait.Error?
    ensures var h := ServerDo(cfg, hs, ans); Follows(Seen(cfg, b), hs, h)
  {
    hide Follows, Leads, FromClientKeyExchange;
    var h := ServerDo(cfg, hs, ans);
    Stays(Seen(cfg, b), hs, h);
  }

  lemma KeyExchangeKnown(c: Config, hs: Hs, ans: Answer, h: Hs)
    requires Known(c, hs) && hs.wait.Ok? && hs.state == Server(ReadClientKeyExchange)
    requires h == DoReadClientKeyExchange(c, hs, ans) && !h.wait.Error?
    ensures Known(c, h) && (hs.msg.Some? ==> hs.msg.value.epoch == 0)
  {
  }

  lemma KeyExchangeFollows(c: Config, hs: Hs, ans: Answer, h: Hs)
    requires Known(c, hs) && hs.wait.Ok? && hs.state == Server(ReadClientKeyExchange)
    requires h == DoReadClientKeyExchange(c, hs, ans) && !h.wait.Error?
    ensures Follows(c, hs, h)
  {
    KeyExchangeKnown(c, hs, ans, h);
    LeftInClientFlight(c, hs);
    LeftInClientFlight(c, h);
    hide Left, Remaining, Known, Follows, Leads, FromCertificateVerify;
    if h.msg == hs.msg {
      Stays(c, hs, h);
    } else {
      Takes(c, hs, h, ClientKeyExchange, 0);
    }
  }

  lemma ReadClientKeyExchangeFollows(cfg: Config, b: bool, hs: Hs, ans: Answer)
    requires Known(Seen(cfg, b), hs) && hs.wait.Ok? && hs.state == Server(ReadClientKeyExchange)
             && !ServerDo(cfg, hs, ans).wait.Error?
    ensures var h := ServerDo(cfg, hs, ans); Follows(Seen(cfg, b), hs, h)
  {
    hide Known, Follows;
    KeyExchangeFollows(Seen(cfg, b), hs, ans, ServerDo(cfg, hs, ans));
  }

  lemma VerifyKnown(c: Config, hs: Hs, h: Hs)
    requires Known(c, hs) && hs.wait.Ok? && hs.state == Server(ReadClientCertificateVerify)
    requires h == DoReadClientCertificateVerify(c, hs) && !h.wait.Error?
    ensures Known(c, h) && hs.peerCert == Signs(c) && (hs.msg.Some? ==> hs.msg.value.epoch == 0)
    ensures hs.peerCert ==> hs.buffer == Some(hs.hashed)
  {
  }

  lemma VerifyFollows(c: Config, hs: Hs, h: Hs)
    requires Known(c, hs) && hs.wait.Ok? && hs.state == Server(ReadClientCertificateVerify)
    requires h == DoReadClientCertificateVerify(c, hs) && !h.wait.Error?
    ensures Follows(c, hs, h)
  {
    VerifyKnown(c, hs, h);
    LeftInClientFlight(c, hs);
    LeftInClientFlight(c, h);
    hide Left, Remaining, Known, Follows, Leads, ClientTail;
    if h.msg == hs.msg {
      Stays(c, hs, h);
    } else {
      Takes(c, hs, h, CertificateVerify, 0);
    }
  }

  lemma ReadClientCertificateVerifyFollows(cfg: Config, b: bool, hs: Hs, ans: Answer)
    requires Known(Seen(cfg, b), hs) && hs.wait.Ok? && hs.state == Server(ReadClientCertificateVerify)
             && !ServerDo(cfg, hs, ans).wait.Error?
    ensures var h := ServerDo(cfg, hs, ans); Follows(Seen(cfg, b), hs, h)
  {
    hide Known, Follows, Diverged;
    VerifyFollows(Seen(cfg, b), hs, ServerDo(cfg, hs, ans));
  }

  lemma ReadChangeCipherSpecFollows(cfg: Config, b: bool, hs: Hs, ans: Answer)
    requires Known(Seen(cfg, b), hs) && hs.wait.Ok? && hs.state == Server(ReadChangeCipherSpec)
             && !ServerDo(cfg, hs, ans).wait.Error?
    ensures var h := ServerDo(cfg, hs, ans); Follows(Seen(cfg, b), hs, h)
  {
    hide Follows, Leads, AfterClientSwitch;
    var h := ServerDo(cfg, hs, ans);
    Stays(Seen(cfg, b), hs, h);
  }

  lemma ProcessClientChangeCipherSpecFollows(cfg: Config, b: bool, hs: Hs, ans: Answer)
    requires Known(Seen(cfg, b), hs) && hs.wait.Ok? && hs.state == Server(ProcessClientChangeCipherSpec)
             && !ServerDo(cfg, hs, ans).wait.Error?
    ensures var h := ServerDo(cfg, hs, ans); Follows(Seen(cfg, b), hs, h)
    ensures var h := ServerDo(cfg, hs, ans);
            h.state == Server(ReadNextProto) && h.msg.None? && h.readEpoch == hs.readEpoch + 1
  {
    hide Follows, Leads, AfterClientSwitch;
    var h := ServerDo(cfg, hs, ans);
    Stays(Seen(cfg, b), hs, h);
  }

  lemma NextProtoKnown(c: Config, hs: Hs, h: Hs)
    requires Known(c, hs) && hs.wait.Ok? && hs.state == Server(ReadNextProto)
    requires h == DoReadNextProto(c, hs) && !h.wait.Error?
    ensures Known(c, h) && (hs.msg.Some? ==> hs.msg.value.epoch == 1)
  {
  }

  lemma NextProtoFollows(c: Config, hs: Hs, h: Hs)
    requires Known(c, hs) && hs.wait.Ok? && hs.state == Server(ReadNextProto)
    requires h == DoReadNextProto(c, hs) && !h.wait.Error?
    ensures Follows(c, hs, h)
  {
    NextProtoKnown(c, hs, h);
    LeftInClientFlight(c, hs);
    LeftInClientFlight(c, h);
    hide Left, Remaining, Known, Follows, Leads, AfterNextProto;
    if h.msg == hs.msg {
      Stays(c, hs, h);
    } else {
      Takes(c, hs, h, NextProto, 1);
    }
  }

  lemma ReadNextProtoFollows(cfg: Config, b: bool, hs: Hs, ans: Answer)
    requires Known(Seen(cfg, b), hs) && hs.wait.Ok? && hs.state == Server(ReadNextProto)
             && !ServerDo(cfg, hs, ans).wait.Error?
    ensures var h := ServerDo(cfg, hs, ans); Follows(Seen(cfg, b), hs, h)
  {
    hide Known, Follows;
    NextProtoFollows(Seen(cfg, b), hs, ServerDo(cfg, hs, ans));
  }

  lemma ChannelIdKnown(c: Config, hs: Hs, h: Hs)
    requires Known(c, hs) && hs.wait.Ok? && hs.state == Server(ReadChannelId)
    requires h == DoReadChannelId(c, hs) && !h.wait.Error?
    ensures Known(c, h) && (hs.msg.Some? ==> hs.msg.value.epoch == 1)
  {
  }

  lemma ChannelIdFollows(c: Config, hs: Hs, h: Hs)
    requires Known(c, hs) && hs.wait.Ok? && hs.state == Server(ReadChannelId)
    requires h == DoReadChannelId(c, hs) && !h.wait.Error?
    ensures Follows(c, hs, h)
  {
    ChannelIdKnown(c, hs, h);
    LeftInClientFlight(c, hs);
    LeftInClientFlight(c, h);
    hide Left, Remaining, Known, Follows, Leads, AfterChannelId;
    if h.msg == hs.msg {
      Stays(c, hs, h);
    } else {
      Takes(c, hs, h, ChannelId, 1);
    }
  }

  lemma ReadChannelIdFollows(cfg: Config, b: bool, hs: Hs, ans: Answer)
    requires Known(Seen(cfg, b), hs) && hs.wait.Ok? && hs.state == Server(ReadChannelId)
             && !ServerDo(cfg, hs, ans).wait.Error?
    ensures var h := ServerDo(cfg, hs, ans); Follows(Seen(cfg, b), hs, h)
  {
    hide Known, Follows;
    ChannelIdFollows(Seen(cfg, b), hs, ServerDo(cfg, hs, ans));
  }

  lemma ReadClientFinishedFollows(cfg: Config, b: bool, hs: Hs, ans: Answer)
    requires Known(Seen(cfg, b), hs) && hs.wait.Ok? && hs.state == Server(ReadClientFinished)
             && !ServerDo(cfg, hs, ans).wait.Error?
    ensures var h := ServerDo(cfg, hs, ans); Follows(Seen(cfg, b), hs, h)
  {
    hide Follows, Leads, ServerTail, Diverged, Remaining;
    var h, c := ServerDo(cfg, hs, ans), Seen(cfg, b);
    if hs.msg.None? {
      Stays(c, hs, h);
    } else {
      var next := if cfg.resume then FinishServerHandshake else SendServerFinished;
      assert h == Go(NextMessage(Hash(hs, hs.msg.value.msg)), Server(next))
        && FinishedOk(cfg, hs, false, hs.msg.value.msg);
      TakesFinished(c, hs, h);
    }
  }

  lemma TakesFinished(cfg: Config, hs: Hs, h: Hs)
    requires Known(cfg, hs) && hs.state == Server(ReadClientFinished) && hs.msg.Some?
             && FinishedOk(cfg, hs, false, hs.msg.value.msg)
    requires h == Go(NextMessage(Hash(hs, hs.msg.value.msg)),
             Server(if cfg.resume then FinishServerHandshake else SendServerFinished))
    ensures Follows(cfg, hs, h)
  {
    hide Follows, Leads, ServerTail;
    FinishedIsNext(cfg, hs, h);
    Takes(cfg, hs, h, Finished, 1);
  }

  lemma FinishedIsNext(cfg: Config, hs: Hs, h: Hs)
    requires hs.state == Server(ReadClientFinished)
             && h.state == Server(if cfg.resume then FinishServerHandshake else SendServerFinished)
    ensures Left(cfg, hs) == [Says(false, Finished, 1)] + Left(cfg, h)
  {
  }

  lemma FlightLeads(cfg: Config, hs: Hs, f: seq<Turn>)
    requires hs.ticketExpected == cfg.ticket
    ensures var h := ServerFinalFlight(cfg, hs);
            Leads(cfg, true, Point(ServerTail(cfg, f), hs.hashed, hs.master), [], Point(f, h.hashed, h.master))
  {
    hide Leads;
    var h0 := if cfg.ticket then Say(cfg, hs, NewSessionTicket) else hs;
    var h1 := AddChangeCipherSpec(h0);
    var a, b, c := Point(ServerTail(cfg, f), hs.hashed, hs.master), Point(AfterTicket(f), h0.hashed, h0.master),
      Point(AfterServerSwitch(f), h0.hashed, h0.master);
    OwnTurn(cfg, true, hs, cfg.ticket, NewSessionTicket, 0, AfterTicket(f));
    OwnSwitch(cfg, true, AfterServerSwitch(f), h0.hashed, h0.master);
    OwnTurn(cfg, true, h1, true, Finished, 1, f);
    SpeaksOn(cfg, true, a, b, c);
    var h := SendFinished(cfg, h1, true);
    SpeaksOn(cfg, true, a, c, Point(f, h.hashed, h.master));
  }

  lemma LastFlightFollows(c: Config, hs: Hs, h: Hs)
    requires Known(c, hs) && hs.wait.Ok? && hs.state == Server(SendServerFinished)
    requires h == DoSendServerFinished(c, hs) && !h.wait.Error?
    ensures Follows(c, hs, h)
  {
    hide Follows, Leads, AfterClientSwitch;
    FlightLeads(c, hs, AfterServerFinished(c));
    hide ServerFinalFlight;
    Speaks(c, hs, h);
  }

  lemma SendServerFinishedFollows(cfg: Config, b: bool, hs: Hs, ans: Answer)
    requires Known(Seen(cfg, b), hs) && hs.wait.Ok? && hs.state == Server(SendServerFinished)
             && !ServerDo(cfg, hs, ans).wait.Error?
    ensures var h := ServerDo(cfg, hs, ans); Follows(Seen(cfg, b), hs, h)
  {
    hide Known, Follows;
    LastFlightFollows(Seen(cfg, b), hs, ServerDo(cfg, hs, ans));
  }

  lemma FinishServerHandshakeFollows(cfg: Config, b: bool, hs: Hs, ans: Answer)
    requires Known(Seen(cfg, b), hs) && hs.wait.Ok? && hs.state == Server(FinishServerHandshake)
             && !ServerDo(cfg, hs, ans).wait.Error?
    ensures var h := ServerDo(cfg, hs, ans); Follows(Seen(cfg, b), hs, h)
  {
    hide Follows, Leads;
    var h := ServerDo(cfg, hs, ans);
    Stays(Seen(cfg, b), hs, h);
  }

  lemma ServerDoneFollows(cfg: Config, b: bool, hs: Hs, ans: Answer)
    requires Known(Seen(cfg, b), hs) && hs.wait.Ok? && hs.state == Server(ServerDone)
             && !ServerDo(cfg, hs, ans).wait.Error?
    ensures var h := ServerDo(cfg, hs, ans); Follows(Seen(cfg, b), hs, h)
  {
    hide Follows, Leads;
    var h := ServerDo(cfg, hs, ans);
    Stays(Seen(cfg, b), hs, h);
  }

  lemma StepFollows(cfg: Config, b: bool, hs: Hs, ans: Answer)
    requires Known(Seen(cfg, b), hs) && hs.wait.Ok? && !ServerDo(cfg, hs, ans).wait.Error?
    ensures var h := ServerDo(cfg, hs, ans); Diverged(Seen(cfg, b), h) || Follows(Seen(cfg, b), hs, h)
  {
    assert hs.state.Server?;
    hide Known, Diverged, Follows, ServerDo;
    match hs.state.server
    case StartAccept => StartAcceptFollows(cfg, b, hs, ans);
    case ReadClientHello => ReadClientHelloFollows(cfg, b, hs, ans);
    case SelectCertificate => SelectCertificateFollows(cfg, b, hs, ans);
    case SelectParameters => SelectParametersFollows(cfg, b, hs, ans);
    case SendServerHello => SendServerHelloFollows(cfg, b, hs, ans);
    case SendServerCertificate => SendServerCertificateFollows(cfg, b, hs, ans);
    case SendServerKeyExchange => SendServerKeyExchangeFollows(cfg, b, hs, ans);
    case SendServerHelloDone => SendServerHelloDoneFollows(cfg, b, hs, ans);
    case ReadClientCertificate => ReadClientCertificateFollows(cfg, b, hs, ans);
    case VerifyClientCertificate => VerifyClientCertificateFollows(cfg, b, hs, ans);
    case ReadClientKeyExchange => ReadClientKeyExchangeFollows(cfg, b, hs, ans);
    case ReadClientCertificateVerify => ReadClientCertificateVerifyFollows(cfg, b, hs, ans);
    case ReadChangeCipherSpec => ReadChangeCipherSpecFollows(cfg, b, hs, ans);
    case ProcessClientChangeCipherSpec => ProcessClientChangeCipherSpecFollows(cfg, b, hs, ans);
    case ReadNextProto => ReadNextProtoFollows(cfg, b, hs, ans);
    case ReadChannelId => ReadChannelIdFollows(cfg, b, hs, ans);
    case ReadClientFinished => ReadClientFinishedFollows(cfg, b, hs, ans);
    case SendServerFinished => SendServerFinishedFollows(cfg, b, hs, ans);
    case FinishServerHandshake => FinishServerHandshakeFollows(cfg, b, hs, ans);
    case ServerDone => ServerDoneFollows(cfg, b, hs, ans);
  }

  /** Once the chain has come, no step changes what is known of it. */
  predicate KeepsChain(hs: Hs, h: Hs) {
    h.peerCert == hs.peerCert && h.state.Server? && !StageOf(h.state.server).Hello? && !StageOf(h.state.server).Flight?
  }

  lemma KeysKeepChain(cfg: Config, hs: Hs, ans: Answer)
    requires hs.state in {Server(VerifyClientCertificate), Server(ReadClientKeyExchange),
             Server(ReadClientCertificateVerify)}
    ensures KeepsChain(hs, ServerDo(cfg, hs, ans))
  {
    hide FinishedOk;
  }

  lemma SwitchKeepChain(cfg: Config, hs: Hs, ans: Answer)
    requires hs.state in {Server(ReadChangeCipherSpec), Server(ProcessClientChangeCipherSpec)}
    ensures KeepsChain(hs, ServerDo(cfg, hs, ans))
  {
    hide FinishedOk;
  }

  lemma ProtectedKeepChain(cfg: Config, hs: Hs, ans: Answer)
    requires hs.state in {Server(ReadNextProto), Server(ReadChannelId), Server(ReadClientFinished)}
    ensures KeepsChain(hs, ServerDo(cfg, hs, ans))
  {
    hide FinishedOk;
  }

  lemma ClosingKeepChain(cfg: Config, hs: Hs, ans: Answer)
    requires hs.state in {Server(SendServerFinished), Server(FinishServerHandshake), Server(ServerDone)}
    ensures KeepsChain(hs, ServerDo(cfg, hs, ans))
  {
    hide FinishedOk;
  }

  lemma StaysDiverged(cfg: Config, b: bool, hs: Hs, ans: Answer)
    requires Diverged(Seen(cfg, b), hs)
    ensures Diverged(Seen(cfg, b), ServerDo(cfg, hs, ans))
  {
    hide ServerDo;
    match StageOf(hs.state.server)
    case Keys => KeysKeepChain(cfg, hs, ans);
    case Switch => SwitchKeepChain(cfg, hs, ans);
    case Protected => ProtectedKeepChain(cfg, hs, ans);
    case Closing => ClosingKeepChain(cfg, hs, ans);
  }

  /** Where the run is: `past` has been consumed for good, the message in hand comes next,
      then the inbox. */
  ghost predicate Along(cfg: Config, start: Point, input: seq<Record>, past: seq<Record>, l: Link) {
    Known(cfg, l.hs) && Leads(cfg, true, start, past, At(cfg, l.hs)) && input == past + Held(l.hs) + l.inbox
  }

  lemma StepGoesAlong(cfg: Config, b: bool, start: Point, input: seq<Record>, past: seq<Record>, l: Link, ans: Answer)
    returns (past': seq<Record>)
    requires Along(Seen(cfg, b), start, input, past, l) && l.hs.wait.Ok?
    ensures var h := ServerDo(cfg, l.hs, ans);
            h.wait.Error? || Diverged(Seen(cfg, b), h) || Along(Seen(cfg, b), start, input, past', l.(hs := h))
  {
    hide Left, Leads, ServerDo, Diverged, Known;
    assert l.hs.state.Server? by { KnownIsServer(Seen(cfg, b), l.hs); }
    past' := past;
    var c, h := Seen(cfg, b), ServerDo(cfg, l.hs, ans);
    if !h.wait.Error? && !Diverged(c, h) {
      StepFollows(cfg, b, l.hs, ans);
      if h.msg == l.hs.msg && Leads(c, true, At(c, l.hs), [], At(c, h)) {
        LeadsThen(c, true, start, past, At(c, l.hs), [], At(c, h));
        assert past + [] == past;
      } else {
        past' := past + Held(l.hs);
        LeadsThen(c, true, start, past, At(c, l.hs), Held(l.hs), At(c, h));
        assert past' + Held(h) + l.inbox == past + Held(l.hs) + l.inbox;
      }
    }
  }

  lemma KnownIsServer(cfg: Config, hs: Hs)
    requires Known(cfg, hs)
    ensures hs.state.Server?
  {
  }

  /** A message that can be read leaves what is known, and where the run stands, as it was. */
  lemma ReadKnown(cfg: Config, l: Link)
    requires Known(cfg, l.hs) && l.inbox != [] && l.hs.wait.NeedMessage?
    ensures var l' := ReadHandshake(l);
            && l.hs.msg.None?
            && (!l'.hs.wait.Error? ==> Known(cfg, l'.hs) && At(cfg, l'.hs) == At(cfg, l.hs))
            && (!l'.hs.wait.Error? ==> Held(l'.hs) == [l.inbox[0]])
  {
    hide StageOf, Reading;
  }

  lemma ReadGoesAlong(cfg: Config, start: Point, input: seq<Record>, past: seq<Record>, l: Link)
    returns (past': seq<Record>)
    requires Along(cfg, start, input, past, l) && l.inbox != [] && l.hs.wait.NeedMessage?
    ensures var l' := ReadHandshake(l); l'.hs.wait.Error? || Along(cfg, start, input, past', l')
  {
    hide Leads, Known, At;
    past' := past;
    ReadKnown(cfg, l);
    FirstHeld(past, l.inbox);
  }

  lemma SwitchGoesAlong(cfg: Config, start: Point, input: seq<Record>, past: seq<Record>, l: Link)
    returns (past': seq<Record>)
    requires Along(cfg, start, input, past, l) && l.inbox != [] && l.hs.wait.NeedChangeCipherSpec?
    ensures var l' := ReadCcs(l); l'.hs.wait.Error? || Along(cfg, start, input, past', l')
  {
    hide Leads, AfterClientSwitch, AfterClientFinished;
    past' := past + [l.inbox[0]];
    var l' := ReadCcs(l);
    if !l'.hs.wait.Error? {
      PeerSwitch(cfg, true, Left(cfg, l'.hs), l.hs.hashed, l.hs.master, l.inbox[0].stamp);
      LeadsThen(cfg, true, start, past, At(cfg, l.hs), [l.inbox[0]], At(cfg, l'.hs));
      assert l.inbox == [l.inbox[0]] + l'.inbox;
      assert past' + l'.inbox == past + l.inbox;
    }
  }

  lemma ResumesAlong(cfg: Config, start: Point, input: seq<Record>, past: seq<Record>, l: Link, l': Link)
    requires Along(cfg, start, input, past, l)
    requires l' == l || (!l.hs.wait.NeedMessage? && !l.hs.wait.NeedChangeCipherSpec? && l'.inbox == l.inbox &&
                         (l'.hs == Stop(l.hs, Ok) || l'.hs == l.hs.(pending := [], wait := Ok)))
    ensures Along(cfg, start, input, past, l')
  {
    hide Leads, StageOf, Reading;
  }

  lemma MicroGoesAlong(cfg: Config, b: bool, start: Point, input: seq<Record>, past: seq<Record>, l: Link, ans: Answer)
    returns (past': seq<Record>)
    requires Along(Seen(cfg, b), start, input, past, l)
    ensures var l' := Micro(cfg, l, ans);
            l'.hs.wait.Error? || Diverged(Seen(cfg, b), l'.hs) || Along(Seen(cfg, b), start, input, past', l')
  {
    past' := past;
    KnownIsServer(Seen(cfg, b), l.hs);
    hide Along, Diverged, ServerDo, Seen;
    if l.hs.wait.Ok? {
      past' := StepGoesAlong(cfg, b, start, input, past, l, ans);
    } else if l.hs.wait.NeedMessage? && !ans.Retry? && l.inbox != [] {
      past' := ReadGoesAlong(Seen(cfg, b), start, input, past, l);
    } else if l.hs.wait.NeedChangeCipherSpec? && !ans.Retry? && l.inbox != [] {
      past' := SwitchGoesAlong(Seen(cfg, b), start, input, past, l);
    } else {
      ResumesAlong(Seen(cfg, b), start, input, past, l, Micro(cfg, l, ans));
    }
  }

  lemma {:induction false} RunGoesAlong(cfg: Config, b: bool, start: Point, input: seq<Record>, past: seq<Record>,
      l: Link, answers: seq<Answer>)
    returns (past': seq<Record>)
    requires Along(Seen(cfg, b), start, input, past, l)
    ensures var l' := Turns(cfg, l, answers);
            l'.hs.wait.Error? || Diverged(Seen(cfg, b), l'.hs) || Along(Seen(cfg, b), start, input, past', l')
    decreases |answers|
  {
    hide Along, Diverged, Micro;
    past' := past;
    if answers != [] {
      var next := Micro(cfg, l, answers[0]);
      var p := MicroGoesAlong(cfg, b, start, input, past, l, answers[0]);
      if next.hs.wait.Error? || Diverged(Seen(cfg, b), next.hs) {
        LostStaysLost(cfg, b, next, answers[1..]);
      } else {
        past' := RunGoesAlong(cfg, b, start, input, p, next, answers[1..]);
      }
    }
  }

  lemma {:induction false} LostStaysLost(cfg: Config, b: bool, l: Link, answers: seq<Answer>)
    requires l.hs.wait.Error? || Diverged(Seen(cfg, b), l.hs)
    ensures var l' := Turns(cfg, l, answers); l'.hs.wait.Error? || Diverged(Seen(cfg, b), l'.hs)
    decreases |answers|
  {
    if answers != [] {
      if !l.hs.wait.Error? && l.hs.wait.Ok? {
        StaysDiverged(cfg, b, l.hs, answers[0]);
      }
      hide ServerDo, Seen;
      LostStaysLost(cfg, b, Micro(cfg, l, answers[0]), answers[1..]);
    }
  }

  lemma AlongAtFirst(cfg: Config, b: bool, input: seq<Record>)
    ensures var c := Seen(cfg, b);
            Along(c, Point(WholeFlow(c), [], cfg.resumedMaster), input, [], Link(NewHandshake(cfg, true), input, []))
  {
    hide WholeFlow;
    var c, l0 := Seen(cfg, b), Link(NewHandshake(cfg, true), input, []);
    assert Leads(c, true, Point(WholeFlow(c), [], cfg.resumedMaster), [], At(c, l0.hs));
    hide Leads;
    assert input == [] + Held(l0.hs) + input;
  }

  /** At the end nothing is left of the flow, and the chain that came is the one foreseen. */
  lemma AlongAtLast(cfg: Config, start: Point, input: seq<Record>, past: seq<Record>, l: Link)
    requires l.hs.state == Server(ServerDone) && !l.hs.wait.Error?
    requires l.hs.wait.Error? || Diverged(Seen(cfg, l.hs.peerCert), l.hs)
             || Along(Seen(cfg, l.hs.peerCert), start, input, past, l)
    ensures input == past + l.inbox
    ensures Leads(Seen(cfg, l.hs.peerCert), true, start, past, Point([], l.hs.hashed, l.hs.master))
  {
    hide Leads;
  }

  /** The client's records of a server run that finished, in order: exactly the flow's,
      each genuine over the transcript before it, CertificateVerify among them just when
      the chain that came is not empty, and the rest of the input untouched. The final
      transcript is that of the flow. */
  lemma FinishedServerFollowedTheFlow(cfg: Config, input: seq<Record>, answers: seq<Answer>)
    returns (consumed: seq<Record>)
    requires var hs := Turns(cfg, Link(NewHandshake(cfg, true), input, []), answers).hs;
             hs.state == Server(ServerDone) && !hs.wait.Error?
    ensures var l := Turns(cfg, Link(NewHandshake(cfg, true), input, []), answers);
            var c := Seen(cfg, l.hs.peerCert);
            && input == consumed + l.inbox
            && Leads(c, true, Point(WholeFlow(c), [], cfg.resumedMaster), consumed, Point([], l.hs.hashed, l.hs.master))
  {
    hide *;
    var l0 := Link(NewHandshake(cfg, true), input, []);
    var l := Turns(cfg, l0, answers);
    var c := Seen(cfg, l.hs.peerCert);
    var start := Point(WholeFlow(c), [], cfg.resumedMaster);
    AlongAtFirst(cfg, l.hs.peerCert, input);
    consumed := RunGoesAlong(cfg, l.hs.peerCert, start, input, [], l0, answers);
    AlongAtLast(cfg, start, input, consumed, l);
  }

  // The same, as a list of kinds.

  function TailKinds(cfg: Config): seq<Option<Kind>> {
    [None] + When(cfg.npn, NextProto, When(cfg.channelId, ChannelId, [Some(Finished)]))
  }

  /** ClientHello [Certificate] ClientKeyExchange [CertificateVerify] ChangeCipherSpec
      [NextProto] [ChannelId] Finished, or the resumed form. */
  function ClientKinds(cfg: Config, chain: bool): seq<Option<Kind>> {
    var asked := cfg.certAuth && cfg.certRequest;
    [Some(ClientHello)] +
    if cfg.resume then TailKinds(cfg)
    else When(asked, Certificate, [Some(ClientKeyExchange)] + When(asked && chain, CertificateVerify, TailKinds(cfg)))
  }

  lemma ClientTailKinds(cfg: Config, rest: seq<Turn>)
    requires PeerTurns(true, rest) == []
    ensures PeerTurns(true, ClientTail(cfg, rest)) == TailKinds(cfg)
  {
    hide PeerTurns, If, When;
    OtherTurn(true, true, Finished, 1, rest);
    OtherTurn(true, cfg.channelId, ChannelId, 1, AfterChannelId(rest));
    OtherTurn(true, cfg.npn, NextProto, 1, AfterNextProto(cfg, rest));
    OtherTurn(true, true, Finished, 1, AfterClientSwitch(cfg, rest));
    assert [Some(Finished)] + PeerTurns(true, rest) == [Some(Finished)];
  }

  lemma ServerTailKinds(cfg: Config, rest: seq<Turn>)
    ensures PeerTurns(true, ServerTail(cfg, rest)) == PeerTurns(true, rest)
  {
    hide PeerTurns, If;
    MyTurn(true, true, Finished, 1, rest);
    MyTurn(true, true, Finished, 1, AfterServerSwitch(rest));
    MyTurn(true, cfg.ticket, NewSessionTicket, 0, AfterTicket(rest));
  }

  lemma ClientFlightKinds(cfg: Config)
    requires !cfg.resume
    ensures PeerTurns(true, FromClientCertificate(cfg))
         == When(cfg.certRequest, Certificate, [Some(ClientKeyExchange)]
           + When(Signs(cfg), CertificateVerify, TailKinds(cfg)))
  {
    assert PeerTurns(true, []) == [];
    hide PeerTurns, If, When, ServerTail, ClientTail, TailKinds;
    ServerTailKinds(cfg, []);
    ClientTailKinds(cfg, AfterClientFinished(cfg));
    OtherTurn(true, Signs(cfg), CertificateVerify, 0, ClientTail(cfg, AfterClientFinished(cfg)));
    OtherTurn(true, true, ClientKeyExchange, 0, FromCertificateVerify(cfg));
    OtherTurn(true, cfg.certRequest, Certificate, 0, FromClientKeyExchange(cfg));
  }

  lemma ServerFlightKinds(cfg: Config)
    ensures PeerTurns(true, FromServerCertificate(cfg)) == PeerTurns(true, FromClientCertificate(cfg))
  {
    hide PeerTurns, If, FromClientCertificate;
    MyTurn(true, true, ServerHelloDone, 0, FromClientCertificate(cfg));
    MyTurn(true, cfg.certRequest, CertificateRequest, 0, FromServerHelloDone(cfg));
    MyTurn(true, cfg.ske, ServerKeyExchange, 0, FromCertificateRequest(cfg));
    MyTurn(true, cfg.ocsp, CertificateStatus, 0, FromServerKeyExchange(cfg));
    MyTurn(true, cfg.certAuth, Certificate, 0, FromCertificateStatus(cfg));
  }

  lemma WholeFlowKinds(cfg: Config, chain: bool)
    ensures PeerTurns(true, WholeFlow(Seen(cfg, chain))) == ClientKinds(cfg, chain)
  {
    assert PeerTurns(true, []) == [];
    var c := Seen(cfg, chain);
    hide PeerTurns, When, FromServerCertificate, FromClientCertificate, ServerTail, ClientTail;
    OtherTurn(true, true, ClientHello, 0, FromServerHello(c));
    if c.resume {
      MyTurn(true, true, ServerHello, 0, ServerTail(c, AfterServerFinished(c)));
      ServerTailKinds(c, AfterServerFinished(c));
      ClientTailKinds(c, []);
    } else {
      MyTurn(true, true, ServerHello, 0, FromServerCertificate(c));
      ServerFlightKinds(c);
      ClientFlightKinds(c);
    }
  }

  /** What a finished server consumed, by kinds (None is a ChangeCipherSpec). */
  lemma FinishedServerConsumed(cfg: Config, input: seq<Record>, answers: seq<Answer>)
    returns (consumed: seq<Record>)
    requires var hs := Turns(cfg, Link(NewHandshake(cfg, true), input, []), answers).hs;
             hs.state == Server(ServerDone) && !hs.wait.Error?
    ensures var l := Turns(cfg, Link(NewHandshake(cfg, true), input, []), answers);
            && input == consumed + l.inbox
            && |consumed| == |ClientKinds(cfg, l.hs.peerCert)|
            && forall i :: 0 <= i < |consumed| ==> Shape(consumed[i]) == ClientKinds(cfg, l.hs.peerCert)[i]
  {
    hide WholeFlow, Leads, Turns, NewHandshake;
    var l := Turns(cfg, Link(NewHandshake(cfg, true), input, []), answers);
    var c := Seen(cfg, l.hs.peerCert);
    consumed := FinishedServerFollowedTheFlow(cfg, input, answers);
    LeadsInShape(c, true, Point(WholeFlow(c), [], cfg.resumedMaster), consumed, Point([], l.hs.hashed, l.hs.master));
    WholeFlowKinds(cfg, l.hs.peerCert);
  }
}
