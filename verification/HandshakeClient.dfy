/** The TLS 1.2 client machine: one function per do_* step (handshake_client.cc). */
module HandshakeClient {
  import opened Basics
  import opened HandshakeTypes

  function Say(cfg: Config, hs: Hs, k: Kind): Hs {
    AddMessage(hs, Message(k, cfg.body(false, k)))
  }

  function DoReadServerHello(cfg: Config, hs: Hs): Hs {
    if hs.msg.None? then Stop(hs, NeedMessage)
    else
      var m := hs.msg.value.msg;
      if m.kind != ServerHello || !cfg.p.parses(m) then Stop(hs, Error)
      else
        var h := NextMessage(Hash(hs, m));
        Go(if cfg.resume || !cfg.certAuth then FreeBuffer(h) else h,
           Client(if cfg.resume then ReadSessionTicket else ReadServerCertificate))
  }

  function DoReadServerCertificate(cfg: Config, hs: Hs): Hs {
    if !cfg.certAuth then Go(hs, Client(ReadCertificateStatus))
    else if hs.msg.None? then Stop(hs, NeedMessage)
    else
      var m := hs.msg.value.msg;
      if m.kind != Certificate || !cfg.p.parses(m) then Stop(hs, Error)
      else Go(NextMessage(Hash(hs, m)), Client(ReadCertificateStatus))
  }

  function DoReadCertificateStatus(cfg: Config, hs: Hs): Hs {
    if !cfg.ocsp then Go(hs, Client(VerifyServerCertificate))
    else if hs.msg.None? then Stop(hs, NeedMessage)
    else
      var m := hs.msg.value.msg;
      if m.kind != CertificateStatus then Go(hs, Client(VerifyServerCertificate))
      else if !cfg.p.parses(m) then Stop(hs, Error)
      else Go(NextMessage(Hash(hs, m)), Client(VerifyServerCertificate))
  }

  function DoVerifyServerCertificate(cfg: Config, hs: Hs, ans: Answer): Hs {
    if cfg.certAuth && ans.Retry? then Stop(hs, CertificateVerification)
    else Go(hs, Client(ReadServerKeyExchange))
  }

  function DoReadServerKeyExchange(cfg: Config, hs: Hs): Hs {
    if hs.msg.None? then Stop(hs, NeedMessage)
    else
      var m := hs.msg.value.msg;
      if m.kind != ServerKeyExchange then
        if cfg.requiresSke then Stop(hs, Error) else Go(hs, Client(ReadCertificateRequest))
      else if cfg.rsa || !cfg.p.parses(m) then Stop(hs, Error)
      else Go(NextMessage(Hash(hs, m)), Client(ReadCertificateRequest))
  }

  function DoReadCertificateRequest(cfg: Config, hs: Hs): Hs {
    if !cfg.certAuth then Go(hs, Client(ReadServerHelloDone))
    else if hs.msg.None? then Stop(hs, NeedMessage)
    else
      var m := hs.msg.value.msg;
      if m.kind == ServerHelloDone then Go(FreeBuffer(hs), Client(ReadServerHelloDone))
      else if m.kind != CertificateRequest || !cfg.p.parses(m) then Stop(hs, Error)
      else Go(NextMessage(Hash(hs, m)).(certRequest := true), Client(ReadServerHelloDone))
  }

  function DoReadServerHelloDone(cfg: Config, hs: Hs): Hs {
    if hs.msg.None? then Stop(hs, NeedMessage)
    else
      var m := hs.msg.value.msg;
      if m.kind != ServerHelloDone || !cfg.p.parses(m) then Stop(hs, Error)
      else Go(NextMessage(Hash(hs, m)), Client(SendClientCertificate))
  }

  function DoSendClientCertificate(cfg: Config, hs: Hs, ans: Answer): Hs {
    if !hs.certRequest then Go(hs, Client(SendClientKeyExchange))
    else if ans.Retry? then Stop(hs, X509Lookup)
    else Go(Say(cfg, if cfg.clientCert then hs else FreeBuffer(hs), Certificate), Client(SendClientKeyExchange))
  }

  function DoSendClientKeyExchange(cfg: Config, hs: Hs): Hs {
    var h := Say(cfg, hs, ClientKeyExchange);
    Go(h.(master := cfg.p.masterSecret(Message(ClientKeyExchange, cfg.body(false, ClientKeyExchange)), h.hashed)),
       Client(SendClientCertificateVerify))
  }

  function DoSendClientCertificateVerify(cfg: Config, hs: Hs, ans: Answer): Hs {
    if !hs.certRequest || !cfg.clientCert then Go(hs, Client(SendClientFinished))
    else if ans.Retry? then Stop(hs, PrivateKeyOperation)
    else Go(FreeBuffer(AddMessage(hs, Message(CertificateVerify, cfg.p.sign(Buffered(hs))))),
            Client(SendClientFinished))
  }

  function ClientFinalFlight(cfg: Config, hs: Hs): Hs {
    var h0 := AddChangeCipherSpec(hs);
    var h1 := if cfg.npn then Say(cfg, h0, NextProto) else h0;
    var h2 := if cfg.channelId
              then AddMessage(h1, Message(ChannelId, cfg.p.channelSign(cfg.resume, h1.hashed))) else h1;
    SendFinished(cfg, h2, false)
  }

  function DoSendClientFinished(cfg: Config, hs: Hs, ans: Answer): Hs {
    if cfg.channelId && ans.Retry? then Stop(hs, ChannelIdLookup)
    else Stop(Go(ClientFinalFlight(cfg, hs), Client(FinishFlight)), Flush)
  }

  function DoFinishFlight(cfg: Config, hs: Hs): Hs {
    if cfg.resume then Go(hs, Client(FinishClientHandshake))
    else Stop(Go(hs, Client(ReadSessionTicket)), if cfg.falseStart then EarlyReturn else Ok)
  }

  function DoReadSessionTicket(cfg: Config, hs: Hs): Hs {
    if !hs.ticketExpected then Stop(Go(hs, Client(ProcessServerChangeCipherSpec)), NeedChangeCipherSpec)
    else if hs.msg.None? then Stop(hs, NeedMessage)
    else
      var m := hs.msg.value.msg;
      if m.kind != NewSessionTicket || !cfg.p.parses(m) then Stop(hs, Error)
      else Stop(Go(NextMessage(Hash(hs, m)).(ticketExpected := !cfg.p.emptyTicket(m)),
                   Client(ProcessServerChangeCipherSpec)), NeedChangeCipherSpec)
  }

  function DoProcessChangeCipherSpec(hs: Hs): Hs {
    if hs.msg.Some? then Stop(hs, Error)
    else Go(hs.(readEpoch := hs.readEpoch + 1), Client(ReadServerFinished))
  }

  function DoReadServerFinished(cfg: Config, hs: Hs): Hs {
    if hs.msg.None? then Stop(hs, NeedMessage)
    else if !FinishedOk(cfg, hs, true, hs.msg.value.msg) then Stop(hs, Error)
    else Go(NextMessage(Hash(hs, hs.msg.value.msg)),
            Client(if cfg.resume then SendClientFinished else FinishClientHandshake))
  }

  /** One iteration of the switch in ssl_client_handshake. */
  function ClientDo(cfg: Config, hs: Hs, ans: Answer): Hs
    requires hs.state.Client?
  {
    if ans.Fail? then Stop(hs, Error) else
    match hs.state.client
    case StartConnect => Stop(Go(Say(cfg, hs, ClientHello), Client(EnterEarlyData)), Flush)
    case EnterEarlyData => Go(hs, Client(ReadServerHello))
    case ReadServerHello => DoReadServerHello(cfg, hs)
    case ReadServerCertificate => DoReadServerCertificate(cfg, hs)
    case ReadCertificateStatus => DoReadCertificateStatus(cfg, hs)
    case VerifyServerCertificate => DoVerifyServerCertificate(cfg, hs, ans)
    case ReadServerKeyExchange => DoReadServerKeyExchange(cfg, hs)
    case ReadCertificateRequest => DoReadCertificateRequest(cfg, hs)
    case ReadServerHelloDone => DoReadServerHelloDone(cfg, hs)
    case SendClientCertificate => DoSendClientCertificate(cfg, hs, ans)
    case SendClientKeyExchange => DoSendClientKeyExchange(cfg, hs)
    case SendClientCertificateVerify => DoSendClientCertificateVerify(cfg, hs, ans)
    case SendClientFinished => DoSendClientFinished(cfg, hs, ans)
    case FinishFlight => DoFinishFlight(cfg, hs)
    case ReadSessionTicket => DoReadSessionTicket(cfg, hs)
    case ProcessServerChangeCipherSpec => DoProcessChangeCipherSpec(hs)
    case ReadServerFinished => DoReadServerFinished(cfg, hs)
    case FinishClientHandshake => Go(hs, Client(ClientDone))
    case ClientDone => Stop(hs, Ok)
  }

  /** Steps left before done; on resumption the client's own flight comes last. */
  function ClientRank(cfg: Config, s: ClientState): nat {
    match s
    case StartConnect => 30
    case EnterEarlyData => 29
    case ReadServerHello => 28
    case ReadServerCertificate => 27
    case ReadCertificateStatus => 26
    case VerifyServerCertificate => 25
    case ReadServerKeyExchange => 24
    case ReadCertificateRequest => 23
    case ReadServerHelloDone => 22
    case SendClientCertificate => 21
    case SendClientKeyExchange => 20
    case SendClientCertificateVerify => 19
    case SendClientFinished => if cfg.resume then 11 else 18
    case FinishFlight => if cfg.resume then 10 else 17
    case ReadSessionTicket => 16
    case ProcessServerChangeCipherSpec => 15
    case ReadServerFinished => 14
    case FinishClientHandshake => 9
    case ClientDone => 0
  }
}
