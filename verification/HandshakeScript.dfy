/**
 The message flow of section 7.3 of RFC 5246 (and of section 3.3 of RFC 5077 for
 tickets), written down once, independently of either machine: a list of turns,
 and the records those turns produce from a given transcript and master secret.
 */
module HandshakeScript {
  import opened Basics
  import opened HandshakeTypes

  datatype Turn = Says(fromServer: bool, kind: Kind, epoch: nat) | Switches(fromServer: bool)

  /** A record of the conversation, or its end: the transcript and master secret both
      sides are left with. */
  datatype Item = Item(fromServer: bool, rec: Record) | End(transcript: seq<Message>, master: Bytes)

  function If(b: bool, t: Turn, rest: seq<Turn>): seq<Turn> {
    if b then [t] + rest else rest
  }

  // Suffixes of the flow, last turns first.

  function AfterServerSwitch(rest: seq<Turn>): seq<Turn> {
    [Says(true, Finished, 1)] + rest
  }

  function AfterTicket(rest: seq<Turn>): seq<Turn> {
    [Switches(true)] + AfterServerSwitch(rest)
  }

  function ServerTail(cfg: Config, rest: seq<Turn>): seq<Turn> {
    If(cfg.ticket, Says(true, NewSessionTicket, 0), AfterTicket(rest))
  }

  function AfterChannelId(rest: seq<Turn>): seq<Turn> {
    [Says(false, Finished, 1)] + rest
  }

  function AfterNextProto(cfg: Config, rest: seq<Turn>): seq<Turn> {
    If(cfg.channelId, Says(false, ChannelId, 1), AfterChannelId(rest))
  }

  function AfterClientSwitch(cfg: Config, rest: seq<Turn>): seq<Turn> {
    If(cfg.npn, Says(false, NextProto, 1), AfterNextProto(cfg, rest))
  }

  function ClientTail(cfg: Config, rest: seq<Turn>): seq<Turn> {
    [Switches(false)] + AfterClientSwitch(cfg, rest)
  }

  /** What follows the client's Finished, and the server's: full handshakes end with
      the server, resumptions with the client. */
  function AfterClientFinished(cfg: Config): seq<Turn> {
    if cfg.resume then [] else ServerTail(cfg, [])
  }

  function AfterServerFinished(cfg: Config): seq<Turn> {
    if cfg.resume then ClientTail(cfg, []) else []
  }

  function FromCertificateVerify(cfg: Config): seq<Turn> {
    If(cfg.certRequest && cfg.clientCert, Says(false, CertificateVerify, 0), ClientTail(cfg, AfterClientFinished(cfg)))
  }

  function FromClientKeyExchange(cfg: Config): seq<Turn> {
    [Says(false, ClientKeyExchange, 0)] + FromCertificateVerify(cfg)
  }

  function FromClientCertificate(cfg: Config): seq<Turn> {
    If(cfg.certRequest, Says(false, Certificate, 0), FromClientKeyExchange(cfg))
  }

  function FromServerHelloDone(cfg: Config): seq<Turn> {
    [Says(true, ServerHelloDone, 0)] + FromClientCertificate(cfg)
  }

  function FromCertificateRequest(cfg: Config): seq<Turn> {
    If(cfg.certRequest, Says(true, CertificateRequest, 0), FromServerHelloDone(cfg))
  }

  function FromServerKeyExchange(cfg: Config): seq<Turn> {
    If(cfg.ske, Says(true, ServerKeyExchange, 0), FromCertificateRequest(cfg))
  }

  function FromCertificateStatus(cfg: Config): seq<Turn> {
    If(cfg.ocsp, Says(true, CertificateStatus, 0), FromServerKeyExchange(cfg))
  }

  function FromServerCertificate(cfg: Config): seq<Turn> {
    If(cfg.certAuth, Says(true, Certificate, 0), FromCertificateStatus(cfg))
  }

  function FromServerHello(cfg: Config): seq<Turn> {
    [Says(true, ServerHello, 0)] +
    (if cfg.resume then ServerTail(cfg, AfterServerFinished(cfg)) else FromServerCertificate(cfg))
  }

  function WholeFlow(cfg: Config): seq<Turn> {
    [Says(false, ClientHello, 0)] + FromServerHello(cfg)
  }

  /** The part of the flow a machine still has to send or receive; `ccs` says that it
      is waiting for the peer's ChangeCipherSpec. */
  function Remaining(cfg: Config, s: State, ccs: bool): seq<Turn> {
    match s
    case Client(c) => (
      match c
      case StartConnect => WholeFlow(cfg)
      case EnterEarlyData => FromServerHello(cfg)
      case ReadServerHello => FromServerHello(cfg)
      case ReadServerCertificate => FromServerCertificate(cfg)
      case ReadCertificateStatus => FromCertificateStatus(cfg)
      case VerifyServerCertificate => FromServerKeyExchange(cfg)
      case ReadServerKeyExchange => FromServerKeyExchange(cfg)
      case ReadCertificateRequest => FromCertificateRequest(cfg)
      case ReadServerHelloDone => FromServerHelloDone(cfg)
      case SendClientCertificate => FromClientCertificate(cfg)
      case SendClientKeyExchange => FromClientKeyExchange(cfg)
      case SendClientCertificateVerify => FromCertificateVerify(cfg)
      case SendClientFinished => ClientTail(cfg, AfterClientFinished(cfg))
      case FinishFlight => AfterClientFinished(cfg)
      case ReadSessionTicket => ServerTail(cfg, AfterServerFinished(cfg))
      case ProcessServerChangeCipherSpec =>
        if ccs then AfterTicket(AfterServerFinished(cfg))
        else AfterServerSwitch(AfterServerFinished(cfg))
      case ReadServerFinished => AfterServerSwitch(AfterServerFinished(cfg))
      case FinishClientHandshake => []
      case ClientDone => [])
    case Server(v) =>
      match v
      case StartAccept => WholeFlow(cfg)
      case ReadClientHello => WholeFlow(cfg)
      case SelectCertificate => WholeFlow(cfg)
      case SelectParameters => WholeFlow(cfg)
      case SendServerHello => FromServerHello(cfg)
      case SendServerCertificate => FromServerCertificate(cfg)
      case SendServerKeyExchange => FromServerKeyExchange(cfg)
      case SendServerHelloDone => FromCertificateRequest(cfg)
      case ReadClientCertificate => FromClientCertificate(cfg)
      case VerifyClientCertificate => FromClientKeyExchange(cfg)
      case ReadClientKeyExchange => FromClientKeyExchange(cfg)
      case ReadClientCertificateVerify => FromCertificateVerify(cfg)
      case ReadChangeCipherSpec => ClientTail(cfg, AfterClientFinished(cfg))
      case ProcessClientChangeCipherSpec =>
        if ccs then ClientTail(cfg, AfterClientFinished(cfg))
        else AfterClientSwitch(cfg, AfterClientFinished(cfg))
      case ReadNextProto => AfterClientSwitch(cfg, AfterClientFinished(cfg))
      case ReadChannelId => AfterNextProto(cfg, AfterClientFinished(cfg))
      case ReadClientFinished => AfterChannelId(AfterClientFinished(cfg))
      case SendServerFinished => ServerTail(cfg, AfterServerFinished(cfg))
      case FinishServerHandshake => []
      case ServerDone => []
  }

  function Left(cfg: Config, hs: Hs): seq<Turn> {
    Remaining(cfg, hs.state, hs.wait.NeedChangeCipherSpec?)
  }

  // From turns to records.

  function Content(cfg: Config, fromServer: bool, k: Kind, tr: seq<Message>, ms: Bytes): Bytes {
    match k
    case Finished => cfg.p.finishedMac(ms, fromServer, tr)
    case CertificateVerify => cfg.p.sign(tr)
    case ChannelId => cfg.p.channelSign(cfg.resume, tr)
    case _ => cfg.body(fromServer, k)
  }

  function Conversation(cfg: Config, flow: seq<Turn>, tr: seq<Message>, ms: Bytes): seq<Item> {
    if flow == [] then [End(tr, ms)] else
    match flow[0]
    case Switches(srv) =>
      [Item(srv, ChangeCipherSpec(0, tr))] + Conversation(cfg, flow[1..], tr, ms)
    case Says(srv, k, e) =>
      var m := Message(k, Content(cfg, srv, k, tr, ms));
      [Item(srv, Handshake(Envelope(m, e, tr)))] +
      Conversation(cfg, flow[1..], tr + [m], if k == ClientKeyExchange then cfg.p.masterSecret(m, tr + [m]) else ms)
  }

  lemma Says1(cfg: Config, srv: bool, k: Kind, e: nat, rest: seq<Turn>, tr: seq<Message>, ms: Bytes)
    ensures
      var m := Message(k, Content(cfg, srv, k, tr, ms));
      var ms' := if k == ClientKeyExchange then cfg.p.masterSecret(m, tr + [m]) else ms;
      Conversation(cfg, [Says(srv, k, e)] + rest, tr, ms)
      == [Item(srv, Handshake(Envelope(m, e, tr)))] + Conversation(cfg, rest, tr + [m], ms')
  {
    assert ([Says(srv, k, e)] + rest)[1..] == rest;
  }

  lemma Switches1(cfg: Config, srv: bool, rest: seq<Turn>, tr: seq<Message>, ms: Bytes)
    ensures Conversation(cfg, [Switches(srv)] + rest, tr, ms)
         == [Item(srv, ChangeCipherSpec(0, tr))] + Conversation(cfg, rest, tr, ms)
  {
    assert ([Switches(srv)] + rest)[1..] == rest;
  }

  /** The parameters two honest ends can agree on: signatures verify, honest bodies
      parse, and the optional messages come only where the ciphers allow them. */
  ghost predicate Agreed(cfg: Config) {
    && (cfg.requiresSke ==> cfg.ske) && !(cfg.ske && cfg.rsa)
    && (cfg.ocsp ==> cfg.certAuth)
    && (cfg.certRequest ==> cfg.certAuth && !cfg.resume)
    && (cfg.certRequest && !cfg.clientCert ==> !cfg.requireClientCert)
    && (forall t :: cfg.p.verify(t, cfg.p.sign(t)))
    && (forall b, t :: cfg.p.channelVerify(b, t, cfg.p.channelSign(b, t)))
    && (forall srv, k :: cfg.p.parses(Message(k, cfg.body(srv, k))))
    && (forall t :: cfg.p.parses(Message(CertificateVerify, cfg.p.sign(t))))
    && cfg.p.emptyChain(Message(Certificate, cfg.body(false, Certificate))) == !cfg.clientCert
  }
}
