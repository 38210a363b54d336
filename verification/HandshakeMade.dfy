/**
 Whatever its peer does, a side makes a Finished only over its own transcript so far, under a
 master secret that does not change any more.
 */
module HandshakeMade {
  import opened HandshakeTypes
  import opened HandshakeDriver
  import opened HandshakeClient
  import opened HandshakeServer

  /** The master secret may still be set, and no Finished has been made. */
  predicate Early(s: State) {
    match s
    case Client(c) =>
      !(c.SendClientFinished? || c.FinishFlight? || c.ReadSessionTicket? || c.ProcessServerChangeCipherSpec?
        || c.ReadServerFinished? || c.FinishClientHandshake? || c.ClientDone?)
    case Server(v) =>
      !(v.ReadChangeCipherSpec? || v.ProcessClientChangeCipherSpec? || v.ReadNextProto? || v.ReadChannelId?
        || v.ReadClientFinished? || v.SendServerFinished? || v.FinishServerHandshake? || v.ServerDone?)
  }

  /** If `r` is a Finished, then the side made it over what its transcript had before it. */
  ghost predicate Made(cfg: Config, hs: Hs, r: Record) {
    r.Handshake? && r.env.msg.kind == Finished ==>
      && !Early(hs.state) && r.env.stamp + [r.env.msg] <= hs.hashed
      && r.env.msg.body == cfg.p.finishedMac(hs.master, hs.state.Server?, r.env.stamp)
  }

  /** The transcript and the flight only grow, and what joins the flight is as it should be. */
  ghost predicate Accounts(cfg: Config, hs: Hs, h: Hs) {
    && h.state.Server? == hs.state.Server? && hs.pending <= h.pending && hs.hashed <= h.hashed
    && (!Early(hs.state) ==> !Early(h.state) && h.master == hs.master)
    && (forall r | r in h.pending[|hs.pending|..] :: Made(cfg, h, r))
  }

  lemma MadeStays(cfg: Config, hs: Hs, h: Hs, r: Record)
    requires Accounts(cfg, hs, h) && Made(cfg, hs, r)
    ensures Made(cfg, h, r)
  {
    hide Early;
  }

  lemma AccountsThen(cfg: Config, a: Hs, b: Hs, c: Hs)
    requires Accounts(cfg, a, b) && Accounts(cfg, b, c)
    ensures Accounts(cfg, a, c)
  {
    hide Early, Made;
    forall r | r in c.pending[|a.pending|..] ensures Made(cfg, c, r) {
      if r in b.pending[|a.pending|..] {
        MadeStays(cfg, b, c, r);
      } else {
        assert c.pending[|a.pending|..] == b.pending[|a.pending|..] + c.pending[|b.pending|..];
      }
    }
  }

  lemma AccountsMessage(cfg: Config, hs: Hs, m: Message)
    requires m.kind == Finished ==>
      !Early(hs.state) && m.body == cfg.p.finishedMac(hs.master, hs.state.Server?, hs.hashed)
    ensures Accounts(cfg, hs, AddMessage(hs, m))
  {
    hide Early;
  }

  lemma AccountsSwitch(cfg: Config, hs: Hs)
    ensures Accounts(cfg, hs, AddChangeCipherSpec(hs))
  {
    hide Early;
  }

  /** Nothing joins the flight. */
  lemma AccountsQuietly(cfg: Config, hs: Hs, h: Hs)
    requires h.pending == hs.pending && hs.hashed <= h.hashed && h.state.Server? == hs.state.Server?
    requires Early(hs.state) || (!Early(h.state) && h.master == hs.master)
    ensures Accounts(cfg, hs, h)
  {
    hide Early, Made;
    assert h.pending[|hs.pending|..] == [];
  }

  // The client.

  lemma ClientFlightAccounts(cfg: Config, hs: Hs)
    requires hs.state.Client? && !Early(hs.state)
    ensures var h := ClientFinalFlight(cfg, hs);
            && Accounts(cfg, hs, h)
            && h == hs.(pending := h.pending, hashed := h.hashed, buffer := h.buffer, writeEpoch := h.writeEpoch)
  {
    hide Accounts, Early;
    var h0 := AddChangeCipherSpec(hs);
    var h1 := if cfg.npn then HandshakeClient.Say(cfg, h0, NextProto) else h0;
    var m := Message(ChannelId, cfg.p.channelSign(cfg.resume, h1.hashed));
    var h2 := if cfg.channelId then AddMessage(h1, m) else h1;
    AccountsSwitch(cfg, hs);
    AccountsMessage(cfg, h0, Message(NextProto, cfg.body(false, NextProto)));
    if cfg.npn {
      AccountsThen(cfg, hs, h0, h1);
    }
    AccountsMessage(cfg, h1, m);
    if cfg.channelId {
      AccountsThen(cfg, hs, h1, h2);
    }
    AccountsMessage(cfg, h2, Message(Finished, cfg.p.finishedMac(h2.master, false, h2.hashed)));
    AccountsThen(cfg, hs, h2, SendFinished(cfg, h2, false));
  }

  lemma ClientStartAccounts(cfg: Config, hs: Hs, ans: Answer)
    requires hs.state == Client(StartConnect)
    ensures Accounts(cfg, hs, ClientDo(cfg, hs, ans))
  {
    assert Early(hs.state);
    hide Accounts, Early;
    var h := ClientDo(cfg, hs, ans);
    if h.pending == hs.pending {
      AccountsQuietly(cfg, hs, h);
    } else {
      var hello := HandshakeClient.Say(cfg, hs, ClientHello);
      AccountsMessage(cfg, hs, Message(ClientHello, cfg.body(false, ClientHello)));
      AccountsQuietly(cfg, hello, h);
      AccountsThen(cfg, hs, hello, h);
    }
  }

  lemma ClientHelloAccounts(cfg: Config, hs: Hs, ans: Answer)
    requires hs.state in {Client(EnterEarlyData), Client(ReadServerHello)}
    ensures Accounts(cfg, hs, ClientDo(cfg, hs, ans))
  {
    assert Early(hs.state);
    hide Accounts, Early;
    AccountsQuietly(cfg, hs, ClientDo(cfg, hs, ans));
  }

  lemma CertificateAccounts(cfg: Config, hs: Hs, ans: Answer)
    requires hs.state in {Client(ReadServerCertificate), Client(ReadCertificateStatus), Client(VerifyServerCertificate)}
    ensures Accounts(cfg, hs, ClientDo(cfg, hs, ans))
  {
    assert Early(hs.state);
    hide Accounts, Early;
    AccountsQuietly(cfg, hs, ClientDo(cfg, hs, ans));
  }

  lemma ClientReadsAccount(cfg: Config, hs: Hs, ans: Answer)
    requires hs.state == Client(ReadServerKeyExchange)
    ensures Accounts(cfg, hs, ClientDo(cfg, hs, ans))
  {
    assert Early(hs.state);
    hide Accounts, Early;
    AccountsQuietly(cfg, hs, ClientDo(cfg, hs, ans));
  }

  lemma RequestAccounts(cfg: Config, hs: Hs, ans: Answer)
    requires hs.state in {Client(ReadCertificateRequest), Client(ReadServerHelloDone)}
    ensures Accounts(cfg, hs, ClientDo(cfg, hs, ans))
  {
    assert Early(hs.state);
    hide Accounts, Early;
    AccountsQuietly(cfg, hs, ClientDo(cfg, hs, ans));
  }

  lemma ClientAnswersAccount(cfg: Config, hs: Hs, ans: Answer)
    requires hs.state in {Client(SendClientCertificate), Client(SendClientKeyExchange),
             Client(SendClientCertificateVerify)}
    ensures Accounts(cfg, hs, ClientDo(cfg, hs, ans))
  {
    assert Early(hs.state);
    hide Accounts, Early;
    var h := ClientDo(cfg, hs, ans);
    if h.pending == hs.pending {
      AccountsQuietly(cfg, hs, h);
    } else {
      var m := h.pending[|hs.pending|].env.msg;
      var h1 := AddMessage(hs, m);
      AccountsMessage(cfg, hs, m);
      AccountsQuietly(cfg, h1, h);
      AccountsThen(cfg, hs, h1, h);
    }
  }

  lemma ClientFinishAccounts(cfg: Config, hs: Hs, ans: Answer)
    requires hs.state == Client(SendClientFinished)
    ensures Accounts(cfg, hs, ClientDo(cfg, hs, ans))
  {
    var h1 := ClientFinalFlight(cfg, hs);
    ClientFlightAccounts(cfg, hs);
    hide Accounts, ClientFinalFlight;
    var h := ClientDo(cfg, hs, ans);
    if h.state == hs.state {
      AccountsQuietly(cfg, hs, h);
    } else {
      AccountsQuietly(cfg, h1, h);
      AccountsThen(cfg, hs, h1, h);
    }
  }

  lemma ClientTicketAccounts(cfg: Config, hs: Hs, ans: Answer)
    requires hs.state in {Client(FinishFlight), Client(ReadSessionTicket), Client(ProcessServerChangeCipherSpec)}
    ensures Accounts(cfg, hs, ClientDo(cfg, hs, ans))
  {
    hide Accounts;
    AccountsQuietly(cfg, hs, ClientDo(cfg, hs, ans));
  }

  lemma ClientEndAccounts(cfg: Config, hs: Hs, ans: Answer)
    requires hs.state in {Client(ReadServerFinished), Client(FinishClientHandshake), Client(ClientDone)}
    ensures Accounts(cfg, hs, ClientDo(cfg, hs, ans))
  {
    hide Accounts, FinishedOk;
    AccountsQuietly(cfg, hs, ClientDo(cfg, hs, ans));
  }

  // The server.

  lemma ServerFlightAccounts(cfg: Config, hs: Hs)
    requires hs.state.Server? && !Early(hs.state)
    ensures var h := ServerFinalFlight(cfg, hs);
            && Accounts(cfg, hs, h)
            && h == hs.(pending := h.pending, hashed := h.hashed, buffer := h.buffer, writeEpoch := h.writeEpoch)
  {
    hide Accounts, Early;
    var h0 := if hs.ticketExpected then HandshakeServer.Say(cfg, hs, NewSessionTicket) else hs;
    var h1 := AddChangeCipherSpec(h0);
    AccountsMessage(cfg, hs, Message(NewSessionTicket, cfg.body(true, NewSessionTicket)));
    AccountsSwitch(cfg, h0);
    if hs.ticketExpected {
      AccountsThen(cfg, hs, h0, h1);
    }
    AccountsMessage(cfg, h1, Message(Finished, cfg.p.finishedMac(h1.master, true, h1.hashed)));
    AccountsThen(cfg, hs, h1, SendFinished(cfg, h1, true));
  }

  lemma ServerHelloAccounts(cfg: Config, hs: Hs, ans: Answer)
    requires hs.state in {Server(StartAccept), Server(ReadClientHello), Server(SelectCertificate)}
    ensures Accounts(cfg, hs, ServerDo(cfg, hs, ans))
  {
    assert Early(hs.state);
    hide Accounts, Early;
    AccountsQuietly(cfg, hs, ServerDo(cfg, hs, ans));
  }

  lemma ParametersAccount(cfg: Config, hs: Hs, ans: Answer)
    requires hs.state == Server(SelectParameters)
    ensures Accounts(cfg, hs, ServerDo(cfg, hs, ans))
  {
    assert Early(hs.state);
    hide Accounts, Early;
    AccountsQuietly(cfg, hs, ServerDo(cfg, hs, ans));
  }

  /** One or two messages, neither a Finished. */
  lemma TwoAccount(cfg: Config, hs: Hs, one: bool, j: Kind, two: bool, k: Kind, h: Hs)
    requires j != Finished && k != Finished && hs.state.Server? && Early(hs.state)
    requires var h1 := if one then HandshakeServer.Say(cfg, hs, j) else hs;
             var h2 := if two then HandshakeServer.Say(cfg, h1, k) else h1;
             h.pending == h2.pending && h.hashed == h2.hashed && h.master == h2.master && h.state.Server?
    ensures Accounts(cfg, hs, h)
  {
    hide Accounts;
    var h1 := if one then HandshakeServer.Say(cfg, hs, j) else hs;
    var h2 := if two then HandshakeServer.Say(cfg, h1, k) else h1;
    AccountsMessage(cfg, hs, Message(j, cfg.body(true, j)));
    AccountsMessage(cfg, h1, Message(k, cfg.body(true, k)));
    if one && two {
      AccountsThen(cfg, hs, h1, h2);
    }
    AccountsQuietly(cfg, h2, h);
    if one || two {
      AccountsThen(cfg, hs, h2, h);
    }
  }

  lemma ServerFlightSteps(cfg: Config, hs: Hs, ans: Answer)
    requires hs.state in {Server(SendServerHello), Server(SendServerCertificate), Server(SendServerKeyExchange),
             Server(SendServerHelloDone)}
    ensures Accounts(cfg, hs, ServerDo(cfg, hs, ans))
  {
    assert Early(hs.state);
    hide Accounts, Early;
    var h := ServerDo(cfg, hs, ans);
    if h.pending == hs.pending {
      AccountsQuietly(cfg, hs, h);
    } else {
      match hs.state.server
      case SendServerHello => TwoAccount(cfg, hs, true, ServerHello, false, ServerHello, h);
      case SendServerCertificate =>
        TwoAccount(cfg, hs, cfg.certAuth, Certificate, cfg.certAuth && cfg.ocsp, CertificateStatus, h);
      case SendServerKeyExchange => TwoAccount(cfg, hs, true, ServerKeyExchange, false, ServerKeyExchange, h);
      case SendServerHelloDone => TwoAccount(cfg, hs, hs.certRequest, CertificateRequest, true, ServerHelloDone, h);
    }
  }

  lemma ServerReadsAccount(cfg: Config, hs: Hs, ans: Answer)
    requires hs.state in {Server(ReadClientCertificate), Server(VerifyClientCertificate)}
    ensures Accounts(cfg, hs, ServerDo(cfg, hs, ans))
  {
    assert Early(hs.state);
    hide Accounts, Early;
    AccountsQuietly(cfg, hs, ServerDo(cfg, hs, ans));
  }

  lemma KeysAccount(cfg: Config, hs: Hs, ans: Answer)
    requires hs.state in {Server(ReadClientKeyExchange), Server(ReadClientCertificateVerify)}
    ensures Accounts(cfg, hs, ServerDo(cfg, hs, ans))
  {
    assert Early(hs.state);
    hide Accounts, Early;
    AccountsQuietly(cfg, hs, ServerDo(cfg, hs, ans));
  }

  lemma ServerFinishAccounts(cfg: Config, hs: Hs, ans: Answer)
    requires hs.state == Server(SendServerFinished)
    ensures Accounts(cfg, hs, ServerDo(cfg, hs, ans))
  {
    var h1 := ServerFinalFlight(cfg, hs);
    ServerFlightAccounts(cfg, hs);
    hide Accounts, ServerFinalFlight;
    var h := ServerDo(cfg, hs, ans);
    if h.state == hs.state {
      AccountsQuietly(cfg, hs, h);
    } else {
      AccountsQuietly(cfg, h1, h);
      AccountsThen(cfg, hs, h1, h);
    }
  }

  lemma ServerProtectedAccounts(cfg: Config, hs: Hs, ans: Answer)
    requires hs.state in {Server(ReadNextProto), Server(ReadChannelId), Server(ReadClientFinished)}
    ensures Accounts(cfg, hs, ServerDo(cfg, hs, ans))
  {
    hide Accounts, FinishedOk;
    AccountsQuietly(cfg, hs, ServerDo(cfg, hs, ans));
  }

  lemma ServerEndAccounts(cfg: Config, hs: Hs, ans: Answer)
    requires hs.state in {Server(ReadChangeCipherSpec), Server(ProcessClientChangeCipherSpec),
             Server(FinishServerHandshake), Server(ServerDone)}
    ensures Accounts(cfg, hs, ServerDo(cfg, hs, ans))
  {
    hide Accounts;
    AccountsQuietly(cfg, hs, ServerDo(cfg, hs, ans));
  }

  lemma ClientAccounts(cfg: Config, hs: Hs, ans: Answer)
    requires hs.state.Client?
    ensures Accounts(cfg, hs, ClientDo(cfg, hs, ans))
  {
    hide Accounts, ClientDo;
    match hs.state.client
    case StartConnect => ClientStartAccounts(cfg, hs, ans);
    case EnterEarlyData | ReadServerHello => ClientHelloAccounts(cfg, hs, ans);
    case ReadServerCertificate | ReadCertificateStatus | VerifyServerCertificate => CertificateAccounts(cfg, hs, ans);
    case ReadServerKeyExchange => ClientReadsAccount(cfg, hs, ans);
    case ReadCertificateRequest | ReadServerHelloDone => RequestAccounts(cfg, hs, ans);
    case SendClientCertificate | SendClientKeyExchange | SendClientCertificateVerify =>
      ClientAnswersAccount(cfg, hs, ans);
    case SendClientFinished => ClientFinishAccounts(cfg, hs, ans);
    case FinishFlight | ReadSessionTicket | ProcessServerChangeCipherSpec => ClientTicketAccounts(cfg, hs, ans);
    case _ => ClientEndAccounts(cfg, hs, ans);
  }

  lemma ServerAccounts(cfg: Config, hs: Hs, ans: Answer)
    requires hs.state.Server?
    ensures Accounts(cfg, hs, ServerDo(cfg, hs, ans))
  {
    hide Accounts, ServerDo;
    match hs.state.server
    case StartAccept | ReadClientHello | SelectCertificate => ServerHelloAccounts(cfg, hs, ans);
    case SelectParameters => ParametersAccount(cfg, hs, ans);
    case SendServerHello | SendServerCertificate | SendServerKeyExchange | SendServerHelloDone =>
      ServerFlightSteps(cfg, hs, ans);
    case ReadClientCertificate | VerifyClientCertificate => ServerReadsAccount(cfg, hs, ans);
    case ReadClientKeyExchange | ReadClientCertificateVerify => KeysAccount(cfg, hs, ans);
    case SendServerFinished => ServerFinishAccounts(cfg, hs, ans);
    case ReadNextProto | ReadChannelId | ReadClientFinished => ServerProtectedAccounts(cfg, hs, ans);
    case _ => ServerEndAccounts(cfg, hs, ans);
  }

  /** A step of either machine, whatever it was sent. */
  lemma StepAccounts(cfg: Config, hs: Hs, ans: Answer)
    ensures Accounts(cfg, hs, Do(cfg, hs, ans))
  {
    hide Accounts, ClientDo, ServerDo;
    if hs.state.Client? {
      ClientAccounts(cfg, hs, ans);
    } else {
      ServerAccounts(cfg, hs, ans);
    }
  }

  // Whole runs.

  ghost predicate AllMade(cfg: Config, l: Link) {
    forall r | r in l.sent + l.hs.pending :: Made(cfg, l.hs, r)
  }

  lemma MicroMakes(cfg: Config, l: Link, ans: Answer)
    requires AllMade(cfg, l)
    ensures AllMade(cfg, Micro(cfg, l, ans)) && Micro(cfg, l, ans).hs.state.Server? == l.hs.state.Server?
  {
    var l' := Micro(cfg, l, ans);
    hide Do, Early;
    if l.hs.wait.Ok? {
      StepAccounts(cfg, l.hs, ans);
      forall r | r in l'.sent + l'.hs.pending ensures Made(cfg, l'.hs, r) {
        if r !in l'.hs.pending[|l.hs.pending|..] {
          assert l'.hs.pending == l.hs.pending + l'.hs.pending[|l.hs.pending|..];
          assert r in l.sent + l.hs.pending;
          MadeStays(cfg, l.hs, l'.hs, r);
        }
      }
    } else {
      SameRecords(l, l', ans, cfg);
    }
  }

  /** Turns other than steps send what is in the flight, or leave it there. */
  lemma SameRecords(l: Link, l': Link, ans: Answer, cfg: Config)
    requires !l.hs.wait.Ok? && l' == Micro(cfg, l, ans)
    ensures l'.sent + l'.hs.pending == l.sent + l.hs.pending
    ensures l'.hs.state == l.hs.state && l'.hs.hashed == l.hs.hashed && l'.hs.master == l.hs.master
  {
    hide Do;
  }

  /** Every Finished that a run has made, whatever came in. */
  lemma {:induction false} RunMakes(cfg: Config, l: Link, answers: seq<Answer>)
    requires AllMade(cfg, l)
    ensures AllMade(cfg, Turns(cfg, l, answers)) && Turns(cfg, l, answers).hs.state.Server? == l.hs.state.Server?
    decreases |answers|
  {
    hide Micro, AllMade;
    if answers != [] {
      MicroMakes(cfg, l, answers[0]);
      RunMakes(cfg, Micro(cfg, l, answers[0]), answers[1..]);
    }
  }
}
