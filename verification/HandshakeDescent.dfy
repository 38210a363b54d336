/**
 Why either machine's loop ends, whatever the peer sends: each step goes down a ranking
 of the states or halts where it is.
 */
module HandshakeDescent {
  import opened Basics
  import opened HandshakeTypes
  import opened HandshakeDriver
  import opened HandshakeClient
  import opened HandshakeServer

  /** The ways to stop at a state: failing, waiting for a message there is none of,
      being told to try again, and having arrived. */
  predicate Halts(hs: Hs, h: Hs, ans: Answer) {
    || h == Stop(hs, Error)
    || (h == Stop(hs, NeedMessage) && hs.msg.None?)
    || (IsRetry(h.wait) && ans.Retry? && h == Stop(hs, h.wait))
    || (IsDone(hs) && h == Stop(hs, Ok))
  }

  lemma ClientDescendsInHello(cfg: Config, hs: Hs, ans: Answer)
    requires hs.state in {Client(StartConnect), Client(EnterEarlyData), Client(ReadServerHello),
             Client(ReadServerCertificate)}
    ensures var h := ClientDo(cfg, hs, ans);
            Halts(hs, h, ans) || (h.state.Client? && !IsRetry(h.wait)
              && ClientRank(cfg, h.state.client) < ClientRank(cfg, hs.state.client))
  {
    hide Hash, FreeBuffer, AddMessage, NextMessage, Buffered, FinishedOk, HandshakeClient.Say, ClientFinalFlight;
  }

  lemma ClientDescendsInServerFlight(cfg: Config, hs: Hs, ans: Answer)
    requires hs.state in {Client(ReadCertificateStatus), Client(VerifyServerCertificate),
             Client(ReadServerKeyExchange), Client(ReadCertificateRequest)}
    ensures var h := ClientDo(cfg, hs, ans);
            Halts(hs, h, ans) || (h.state.Client? && !IsRetry(h.wait)
              && ClientRank(cfg, h.state.client) < ClientRank(cfg, hs.state.client))
  {
    hide Hash, FreeBuffer, AddMessage, NextMessage, Buffered, FinishedOk, HandshakeClient.Say, ClientFinalFlight;
  }

  lemma ClientDescendsInClientFlight(cfg: Config, hs: Hs, ans: Answer)
    requires hs.state in {Client(ReadServerHelloDone), Client(SendClientCertificate), Client(SendClientKeyExchange),
             Client(SendClientCertificateVerify)}
    ensures var h := ClientDo(cfg, hs, ans);
            Halts(hs, h, ans) || (h.state.Client? && !IsRetry(h.wait)
              && ClientRank(cfg, h.state.client) < ClientRank(cfg, hs.state.client))
  {
    hide Hash, FreeBuffer, AddMessage, NextMessage, Buffered, FinishedOk, HandshakeClient.Say, ClientFinalFlight;
  }

  lemma ClientDescendsInFinished(cfg: Config, hs: Hs, ans: Answer)
    requires hs.state in {Client(SendClientFinished), Client(FinishFlight), Client(ReadSessionTicket),
             Client(ProcessServerChangeCipherSpec)}
    ensures var h := ClientDo(cfg, hs, ans);
            Halts(hs, h, ans) || (h.state.Client? && !IsRetry(h.wait)
              && ClientRank(cfg, h.state.client) < ClientRank(cfg, hs.state.client))
  {
    hide Hash, FreeBuffer, AddMessage, NextMessage, Buffered, FinishedOk, HandshakeClient.Say, ClientFinalFlight;
  }

  lemma ClientDescendsAtEnd(cfg: Config, hs: Hs, ans: Answer)
    requires hs.state in {Client(ReadServerFinished), Client(FinishClientHandshake), Client(ClientDone)}
    ensures var h := ClientDo(cfg, hs, ans);
            Halts(hs, h, ans) || (h.state.Client? && !IsRetry(h.wait)
              && ClientRank(cfg, h.state.client) < ClientRank(cfg, hs.state.client))
  {
    hide Hash, FreeBuffer, AddMessage, NextMessage, Buffered, FinishedOk, HandshakeClient.Say, ClientFinalFlight;
  }

  lemma ServerDescendsInHello(cfg: Config, hs: Hs, ans: Answer)
    requires hs.state in {Server(StartAccept), Server(ReadClientHello), Server(SelectCertificate),
             Server(SelectParameters)}
    ensures var h := ServerDo(cfg, hs, ans);
            Halts(hs, h, ans) || (h.state.Server? && !IsRetry(h.wait)
              && ServerRank(cfg, h.state.server) < ServerRank(cfg, hs.state.server))
  {
    hide Hash, FreeBuffer, AddMessage, NextMessage, Buffered, FinishedOk, HandshakeServer.Say, ServerFinalFlight;
  }

  lemma ServerDescendsInServerFlight(cfg: Config, hs: Hs, ans: Answer)
    requires hs.state in {Server(SendServerHello), Server(SendServerCertificate), Server(SendServerKeyExchange),
             Server(SendServerHelloDone)}
    ensures var h := ServerDo(cfg, hs, ans);
            Halts(hs, h, ans) || (h.state.Server? && !IsRetry(h.wait)
              && ServerRank(cfg, h.state.server) < ServerRank(cfg, hs.state.server))
  {
    hide Hash, FreeBuffer, AddMessage, NextMessage, Buffered, FinishedOk, HandshakeServer.Say, ServerFinalFlight;
  }

  lemma ServerDescendsInClientFlight(cfg: Config, hs: Hs, ans: Answer)
    requires hs.state in {Server(ReadClientCertificate), Server(VerifyClientCertificate),
             Server(ReadClientKeyExchange), Server(ReadClientCertificateVerify)}
    ensures var h := ServerDo(cfg, hs, ans);
            Halts(hs, h, ans) || (h.state.Server? && !IsRetry(h.wait)
              && ServerRank(cfg, h.state.server) < ServerRank(cfg, hs.state.server))
  {
    hide Hash, FreeBuffer, AddMessage, NextMessage, Buffered, FinishedOk, HandshakeServer.Say, ServerFinalFlight;
  }

  lemma ServerDescendsInFinished(cfg: Config, hs: Hs, ans: Answer)
    requires hs.state in {Server(ReadChangeCipherSpec), Server(ProcessClientChangeCipherSpec), Server(ReadNextProto),
             Server(ReadChannelId)}
    ensures var h := ServerDo(cfg, hs, ans);
            Halts(hs, h, ans) || (h.state.Server? && !IsRetry(h.wait)
              && ServerRank(cfg, h.state.server) < ServerRank(cfg, hs.state.server))
  {
    hide Hash, FreeBuffer, AddMessage, NextMessage, Buffered, FinishedOk, HandshakeServer.Say, ServerFinalFlight;
  }

  lemma ServerDescendsAtEnd(cfg: Config, hs: Hs, ans: Answer)
    requires hs.state in {Server(ReadClientFinished), Server(SendServerFinished), Server(FinishServerHandshake),
             Server(ServerDone)}
    ensures var h := ServerDo(cfg, hs, ans);
            Halts(hs, h, ans) || (h.state.Server? && !IsRetry(h.wait)
              && ServerRank(cfg, h.state.server) < ServerRank(cfg, hs.state.server))
  {
    hide Hash, FreeBuffer, AddMessage, NextMessage, Buffered, FinishedOk, HandshakeServer.Say, ServerFinalFlight;
  }

  /** Whatever the peer sent, a step of either machine goes down the ranking, in spite of
      the jump back that resumption takes, or halts where it is. */
  lemma StepDescends(cfg: Config, hs: Hs, ans: Answer)
    ensures var h := Do(cfg, hs, ans);
            Halts(hs, h, ans) || (!IsRetry(h.wait) && Rank(cfg, h.state) < Rank(cfg, hs.state))
  {
    hide Halts, ClientDo, ServerDo, ClientRank, ServerRank;
    if hs.state.Client? {
      ClientDescends(cfg, hs, ans);
    } else {
      ServerDescends(cfg, hs, ans);
    }
  }

  lemma ClientDescends(cfg: Config, hs: Hs, ans: Answer)
    requires hs.state.Client?
    ensures var h := ClientDo(cfg, hs, ans);
            Halts(hs, h, ans) || (h.state.Client? && !IsRetry(h.wait)
              && ClientRank(cfg, h.state.client) < ClientRank(cfg, hs.state.client))
  {
    hide Halts, ClientDo, ClientRank;
    match hs.state.client
    case StartConnect => ClientDescendsInHello(cfg, hs, ans);
    case EnterEarlyData => ClientDescendsInHello(cfg, hs, ans);
    case ReadServerHello => ClientDescendsInHello(cfg, hs, ans);
    case ReadServerCertificate => ClientDescendsInHello(cfg, hs, ans);
    case ReadCertificateStatus => ClientDescendsInServerFlight(cfg, hs, ans);
    case VerifyServerCertificate => ClientDescendsInServerFlight(cfg, hs, ans);
    case ReadServerKeyExchange => ClientDescendsInServerFlight(cfg, hs, ans);
    case ReadCertificateRequest => ClientDescendsInServerFlight(cfg, hs, ans);
    case ReadServerHelloDone => ClientDescendsInClientFlight(cfg, hs, ans);
    case SendClientCertificate => ClientDescendsInClientFlight(cfg, hs, ans);
    case SendClientKeyExchange => ClientDescendsInClientFlight(cfg, hs, ans);
    case SendClientCertificateVerify => ClientDescendsInClientFlight(cfg, hs, ans);
    case SendClientFinished => ClientDescendsInFinished(cfg, hs, ans);
    case FinishFlight => ClientDescendsInFinished(cfg, hs, ans);
    case ReadSessionTicket => ClientDescendsInFinished(cfg, hs, ans);
    case ProcessServerChangeCipherSpec => ClientDescendsInFinished(cfg, hs, ans);
    case ReadServerFinished => ClientDescendsAtEnd(cfg, hs, ans);
    case FinishClientHandshake => ClientDescendsAtEnd(cfg, hs, ans);
    case ClientDone => ClientDescendsAtEnd(cfg, hs, ans);
  }

  lemma ServerDescends(cfg: Config, hs: Hs, ans: Answer)
    requires hs.state.Server?
    ensures var h := ServerDo(cfg, hs, ans);
            Halts(hs, h, ans) || (h.state.Server? && !IsRetry(h.wait)
              && ServerRank(cfg, h.state.server) < ServerRank(cfg, hs.state.server))
  {
    hide Halts, ServerDo, ServerRank;
    match hs.state.server
    case StartAccept => ServerDescendsInHello(cfg, hs, ans);
    case ReadClientHello => ServerDescendsInHello(cfg, hs, ans);
    case SelectCertificate => ServerDescendsInHello(cfg, hs, ans);
    case SelectParameters => ServerDescendsInHello(cfg, hs, ans);
    case SendServerHello => ServerDescendsInServerFlight(cfg, hs, ans);
    case SendServerCertificate => ServerDescendsInServerFlight(cfg, hs, ans);
    case SendServerKeyExchange => ServerDescendsInServerFlight(cfg, hs, ans);
    case SendServerHelloDone => ServerDescendsInServerFlight(cfg, hs, ans);
    case ReadClientCertificate => ServerDescendsInClientFlight(cfg, hs, ans);
    case VerifyClientCertificate => ServerDescendsInClientFlight(cfg, hs, ans);
    case ReadClientKeyExchange => ServerDescendsInClientFlight(cfg, hs, ans);
    case ReadClientCertificateVerify => ServerDescendsInClientFlight(cfg, hs, ans);
    case ReadChangeCipherSpec => ServerDescendsInFinished(cfg, hs, ans);
    case ProcessClientChangeCipherSpec => ServerDescendsInFinished(cfg, hs, ans);
    case ReadNextProto => ServerDescendsInFinished(cfg, hs, ans);
    case ReadChannelId => ServerDescendsInFinished(cfg, hs, ans);
    case ReadClientFinished => ServerDescendsAtEnd(cfg, hs, ans);
    case SendServerFinished => ServerDescendsAtEnd(cfg, hs, ans);
    case FinishServerHandshake => ServerDescendsAtEnd(cfg, hs, ans);
    case ServerDone => ServerDescendsAtEnd(cfg, hs, ans);
  }

  // Turns of the driver.

  function Pause(hs: Hs): nat {
    match hs.wait
    case Ok => if hs.msg.Some? then 1 else 3
    case NeedMessage => 2
    case Error => 0
    case NeedChangeCipherSpec => 4
    case Flush => 4
    case EarlyReturn => 4
    case _ => if hs.msg.Some? then 2 else 4
  }

  function Weight(cfg: Config, hs: Hs): nat {
    8 * Rank(cfg, hs.state) + Pause(hs)
  }

  lemma MicroDescends(cfg: Config, l: Link, ans: Answer)
    ensures var l' := Micro(cfg, l, ans);
            && (!ans.Retry? ==> l' == l || Weight(cfg, l'.hs) < Weight(cfg, l.hs))
            && Weight(cfg, l'.hs) <= Weight(cfg, l.hs) + if ans.Retry? then 1 else 0
  {
    hide Rank, Do;
    if l.hs.wait.Ok? {
      StepDescends(cfg, l.hs, ans);
    }
  }

  /** A step of a machine that may go on: it can go on again only further down, and becomes
      lighter unless it is told to try again. */
  lemma StepLightens(cfg: Config, hs: Hs, ans: Answer)
    requires hs.wait.Ok? && !IsDone(hs)
    ensures var h := Do(cfg, hs, ans);
            && (h.wait.Ok? ==> Rank(cfg, h.state) < Rank(cfg, hs.state))
            && Weight(cfg, h) <= Weight(cfg, hs) + 1 && (!IsRetry(h.wait) ==> Weight(cfg, h) < Weight(cfg, hs))
  {
    hide Rank, Do;
    StepDescends(cfg, hs, ans);
  }
}
