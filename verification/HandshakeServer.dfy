/** The TLS 1.2 server machine: one function per do_* step (handshake_server.cc). */
module HandshakeServer {
  import opened Basics
  import opened HandshakeTypes

  function Say(cfg: Config, hs: Hs, k: Kind): Hs {
    AddMessage(hs, Message(k, cfg.body(true, k)))
  }

  function DoReadClientHello(cfg: Config, hs: Hs, ans: Answer): Hs {
    if hs.msg.None? then Stop(hs, NeedMessage)
    else if hs.msg.value.msg.kind != ClientHello || !cfg.p.parses(hs.msg.value.msg) then Stop(hs, Error)
    else if ans.Retry? then Stop(hs, CertificateSelectionPending)
    else Go(hs, Server(SelectCertificate))
  }

  function DoSelectCertificate(cfg: Config, hs: Hs, ans: Answer): Hs {
    if hs.msg.None? then Stop(hs, NeedMessage)
    else if ans.Retry? then Stop(hs, X509Lookup)
    else Go(hs, Server(SelectParameters))
  }

  function DoSelectParameters(cfg: Config, hs: Hs, ans: Answer): Hs {
    if hs.msg.None? then Stop(hs, NeedMessage)
    else if ans.Retry? then Stop(hs, PendingSession)
    else
      var h := Hash(hs, hs.msg.value.msg).(ticketExpected := cfg.ticket,
        certRequest := !cfg.resume && cfg.certAuth && cfg.certRequest);
      Go(NextMessage(if h.certRequest then h else FreeBuffer(h)), Server(SendServerHello))
  }

  function DoSendServerHello(cfg: Config, hs: Hs): Hs {
    Go(Say(cfg, hs, ServerHello),
       Server(if cfg.resume then SendServerFinished else SendServerCertificate))
  }

  function DoSendServerCertificate(cfg: Config, hs: Hs): Hs {
    var h1 := if cfg.certAuth then Say(cfg, hs, Certificate) else hs;
    var h2 := if cfg.certAuth && cfg.ocsp then Say(cfg, h1, CertificateStatus) else h1;
    Go(h2, Server(SendServerKeyExchange))
  }

  function DoSendServerKeyExchange(cfg: Config, hs: Hs, ans: Answer): Hs {
    if !cfg.ske then Go(hs, Server(SendServerHelloDone))
    else if cfg.certAuth && ans.Retry? then Stop(hs, PrivateKeyOperation)
    else Go(Say(cfg, hs, ServerKeyExchange), Server(SendServerHelloDone))
  }

  function DoSendServerHelloDone(cfg: Config, hs: Hs): Hs {
    var h := if hs.certRequest then Say(cfg, hs, CertificateRequest) else hs;
    Stop(Go(Say(cfg, h, ServerHelloDone), Server(ReadClientCertificate)), Flush)
  }

  function DoReadClientCertificate(cfg: Config, hs: Hs): Hs {
    if !hs.certRequest then Go(hs, Server(VerifyClientCertificate))
    else if hs.msg.None? then Stop(hs, NeedMessage)
    else
      var m := hs.msg.value.msg;
      if m.kind != Certificate || !cfg.p.parses(m) then Stop(hs, Error)
      else if !cfg.p.emptyChain(m) then
        Go(NextMessage(Hash(hs, m)).(peerCert := true), Server(VerifyClientCertificate))
      else if cfg.requireClientCert then Stop(hs, Error)
      else Go(NextMessage(FreeBuffer(Hash(hs, m))), Server(VerifyClientCertificate))
  }

  function DoVerifyClientCertificate(hs: Hs, ans: Answer): Hs {
    if hs.peerCert && ans.Retry? then Stop(hs, CertificateVerification)
    else Go(hs, Server(ReadClientKeyExchange))
  }

  function DoReadClientKeyExchange(cfg: Config, hs: Hs, ans: Answer): Hs {
    if hs.msg.None? then Stop(hs, NeedMessage)
    else
      var m := hs.msg.value.msg;
      if m.kind != ClientKeyExchange || !cfg.p.parses(m) then Stop(hs, Error)
      else if cfg.rsa && ans.Retry? then Stop(hs, PrivateKeyOperation)
      else
        var h := Hash(hs, m);
        Go(NextMessage(h).(master := cfg.p.masterSecret(m, h.hashed)),
           Server(ReadClientCertificateVerify))
  }

  function DoReadClientCertificateVerify(cfg: Config, hs: Hs): Hs {
    if !hs.peerCert then Go(FreeBuffer(hs), Server(ReadChangeCipherSpec))
    else if hs.msg.None? then Stop(hs, NeedMessage)
    else
      var m := hs.msg.value.msg;
      if m.kind != CertificateVerify || !cfg.p.parses(m) || !cfg.p.verify(Buffered(hs), m.body) then Stop(hs, Error)
      else Go(NextMessage(Hash(FreeBuffer(hs), m)), Server(ReadChangeCipherSpec))
  }

  function DoProcessChangeCipherSpec(hs: Hs): Hs {
    if hs.msg.Some? then Stop(hs, Error)
    else Go(hs.(readEpoch := hs.readEpoch + 1), Server(ReadNextProto))
  }

  function DoReadNextProto(cfg: Config, hs: Hs): Hs {
    if !cfg.npn then Go(hs, Server(ReadChannelId))
    else if hs.msg.None? then Stop(hs, NeedMessage)
    else
      var m := hs.msg.value.msg;
      if m.kind != NextProto || !cfg.p.parses(m) then Stop(hs, Error)
      else Go(NextMessage(Hash(hs, m)), Server(ReadChannelId))
  }

  function DoReadChannelId(cfg: Config, hs: Hs): Hs {
    if !cfg.channelId then Go(hs, Server(ReadClientFinished))
    else if hs.msg.None? then Stop(hs, NeedMessage)
    else
      var m := hs.msg.value.msg;
      if m.kind != ChannelId || !cfg.p.channelVerify(cfg.resume, hs.hashed, m.body) then Stop(hs, Error)
      else Go(NextMessage(Hash(hs, m)), Server(ReadClientFinished))
  }

  function DoReadClientFinished(cfg: Config, hs: Hs): Hs {
    if hs.msg.None? then Stop(hs, NeedMessage)
    else if !FinishedOk(cfg, hs, false, hs.msg.value.msg) then Stop(hs, Error)
    else Go(NextMessage(Hash(hs, hs.msg.value.msg)),
            Server(if cfg.resume then FinishServerHandshake else SendServerFinished))
  }

  function ServerFinalFlight(cfg: Config, hs: Hs): Hs {
    var h := if hs.ticketExpected then Say(cfg, hs, NewSessionTicket) else hs;
    SendFinished(cfg, AddChangeCipherSpec(h), true)
  }

  function DoSendServerFinished(cfg: Config, hs: Hs): Hs {
    Stop(Go(ServerFinalFlight(cfg, hs),
            Server(if cfg.resume then ReadChangeCipherSpec else FinishServerHandshake)), Flush)
  }

  /** One iteration of the switch in ssl_server_handshake. */
  function ServerDo(cfg: Config, hs: Hs, ans: Answer): Hs
    requires hs.state.Server?
  {
    if ans.Fail? then Stop(hs, Error) else
    match hs.state.server
    case StartAccept => Go(hs, Server(ReadClientHello))
    case ReadClientHello => DoReadClientHello(cfg, hs, ans)
    case SelectCertificate => DoSelectCertificate(cfg, hs, ans)
    case SelectParameters => DoSelectParameters(cfg, hs, ans)
    case SendServerHello => DoSendServerHello(cfg, hs)
    case SendServerCertificate => DoSendServerCertificate(cfg, hs)
    case SendServerKeyExchange => DoSendServerKeyExchange(cfg, hs, ans)
    case SendServerHelloDone => DoSendServerHelloDone(cfg, hs)
    case ReadClientCertificate => DoReadClientCertificate(cfg, hs)
    case VerifyClientCertificate => DoVerifyClientCertificate(hs, ans)
    case ReadClientKeyExchange => DoReadClientKeyExchange(cfg, hs, ans)
    case ReadClientCertificateVerify => DoReadClientCertificateVerify(cfg, hs)
    case ReadChangeCipherSpec => Stop(Go(hs, Server(ProcessClientChangeCipherSpec)), NeedChangeCipherSpec)
    case ProcessClientChangeCipherSpec => DoProcessChangeCipherSpec(hs)
    case ReadNextProto => DoReadNextProto(cfg, hs)
    case ReadChannelId => DoReadChannelId(cfg, hs)
    case ReadClientFinished => DoReadClientFinished(cfg, hs)
    case SendServerFinished => DoSendServerFinished(cfg, hs)
    case FinishServerHandshake => Go(hs, Server(ServerDone))
    case ServerDone => Stop(hs, Ok)
  }

  /** Steps left before done. On resumption the server's Finished comes first, so
      the jump back from SendServerFinished to ReadChangeCipherSpec still descends. */
  function ServerRank(cfg: Config, s: ServerState): nat {
    match s
    case StartAccept => 30
    case ReadClientHello => 29
    case SelectCertificate => 28
    case SelectParameters => 27
    case SendServerHello => 26
    case SendServerCertificate => 25
    case SendServerKeyExchange => 24
    case SendServerHelloDone => 23
    case ReadClientCertificate => 22
    case VerifyClientCertificate => 21
    case ReadClientKeyExchange => 20
    case ReadClientCertificateVerify => 19
    case ReadChangeCipherSpec => 18
    case ProcessClientChangeCipherSpec => 17
    case ReadNextProto => 16
    case ReadChannelId => 15
    case ReadClientFinished => 14
    case SendServerFinished => if cfg.resume then 19 else 13
    case FinishServerHandshake => 12
    case ServerDone => 0
  }
}
