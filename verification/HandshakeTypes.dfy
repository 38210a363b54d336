/**
 The vocabulary of the TLS 1.2 handshake: messages, sealed records, the two
 machines' state enumerations and the handshake object both of them update.
 */
module HandshakeTypes {
  import opened Basics

  datatype Kind =
    | ClientHello | ServerHello | NewSessionTicket | Certificate | CertificateStatus
    | ServerKeyExchange | CertificateRequest | ServerHelloDone | CertificateVerify
    | ClientKeyExchange | Finished | NextProto | ChannelId | UnknownKind(code: nat)

  datatype Message = Message(kind: Kind, body: Bytes)

  /** A handshake message under the key epoch it was sealed with. `stamp` is what
      the maker's transcript held just before the message: no machine looks at it,
      it lets a theorem compare the two transcripts record by record. */
  datatype Envelope = Envelope(msg: Message, epoch: nat, stamp: seq<Message>)

  datatype Record =
    | Handshake(env: Envelope)
    | ChangeCipherSpec(epoch: nat, stamp: seq<Message>)

  datatype ClientState =
    | StartConnect | EnterEarlyData | ReadServerHello | ReadServerCertificate
    | ReadCertificateStatus | VerifyServerCertificate | ReadServerKeyExchange
    | ReadCertificateRequest | ReadServerHelloDone | SendClientCertificate
    | SendClientKeyExchange | SendClientCertificateVerify | SendClientFinished
    | FinishFlight | ReadSessionTicket | ProcessServerChangeCipherSpec
    | ReadServerFinished | FinishClientHandshake | ClientDone

  datatype ServerState =
    | StartAccept | ReadClientHello | SelectCertificate | SelectParameters
    | SendServerHello | SendServerCertificate | SendServerKeyExchange
    | SendServerHelloDone | ReadClientCertificate | VerifyClientCertificate
    | ReadClientKeyExchange | ReadClientCertificateVerify | ReadChangeCipherSpec
    | ProcessClientChangeCipherSpec | ReadNextProto | ReadChannelId
    | ReadClientFinished | SendServerFinished | FinishServerHandshake | ServerDone

  datatype State = Client(client: ClientState) | Server(server: ServerState)

  /** What the machine waits for; the last six are the application's "try again". */
  datatype Wait =
    | Ok | Error | Flush | NeedMessage | NeedChangeCipherSpec | EarlyReturn
    | CertificateSelectionPending | X509Lookup | ChannelIdLookup
    | PrivateKeyOperation | PendingSession | CertificateVerification

  predicate IsRetry(w: Wait) {
    w.CertificateSelectionPending? || w.X509Lookup? || w.ChannelIdLookup? ||
    w.PrivateKeyOperation? || w.PendingSession? || w.CertificateVerification?
  }

  /** What an application callback answers at the current step. `Fail` also stands
      for any other local failure of the step. */
  datatype Answer = Proceed | Retry | Fail

  /** Cryptography and message parsing, left uninterpreted. */
  datatype Primitives = Primitives(
    finishedMac: (Bytes, bool, seq<Message>) -> Bytes,
    masterSecret: (Message, seq<Message>) -> Bytes,
    sign: seq<Message> -> Bytes,
    verify: (seq<Message>, Bytes) -> bool,
    channelSign: (bool, seq<Message>) -> Bytes,
    channelVerify: (bool, seq<Message>, Bytes) -> bool,
    parses: Message -> bool,
    emptyChain: Message -> bool,
    emptyTicket: Message -> bool)

  /** What the hellos negotiate, each side's credentials, and the bodies the two
      sides put into messages whose content the handshake does not compute. */
  datatype Config = Config(
    resume: bool, resumedMaster: Bytes,
    ticket: bool, certAuth: bool, ocsp: bool,
    requiresSke: bool, ske: bool, rsa: bool,
    certRequest: bool, requireClientCert: bool, clientCert: bool,
    npn: bool, channelId: bool, falseStart: bool,
    body: (bool, Kind) -> Bytes,
    p: Primitives)

  /** The handshake object of either side (SSL_HANDSHAKE with the fields of SSL the
      handshake writes). `hashed` is what the rolling hash has absorbed and `buffer`
      the raw handshake buffer while it is kept. */
  datatype Hs = Hs(
    state: State, wait: Wait,
    msg: Option<Envelope>,
    hashed: seq<Message>, buffer: Option<seq<Message>>,
    master: Bytes,
    readEpoch: nat, writeEpoch: nat,
    pending: seq<Record>,
    certRequest: bool, peerCert: bool, ticketExpected: bool)

  function NewHandshake(cfg: Config, server: bool): Hs {
    Hs(if server then Server(StartAccept) else Client(StartConnect), Ok, None,
       [], Some([]), cfg.resumedMaster, 0, 0, [], false, false, cfg.ticket && !server)
  }

  predicate IsDone(hs: Hs) {
    hs.state == Client(ClientDone) || hs.state == Server(ServerDone)
  }

  // Transcript and flight primitives.

  function Hash(hs: Hs, m: Message): Hs {
    hs.(hashed := hs.hashed + [m],
        buffer := if hs.buffer.Some? then Some(hs.buffer.value + [m]) else None)
  }

  function FreeBuffer(hs: Hs): Hs {
    hs.(buffer := None)
  }

  /** The bytes a CertificateVerify signs: empty once the buffer is gone. */
  function Buffered(hs: Hs): seq<Message> {
    if hs.buffer.Some? then hs.buffer.value else []
  }

  /** add_message: seals under the current write keys, then extends the transcript. */
  function AddMessage(hs: Hs, m: Message): Hs {
    Hash(hs.(pending := hs.pending + [Handshake(Envelope(m, hs.writeEpoch, hs.hashed))]), m)
  }

  /** add_change_cipher_spec followed by the switch to the next write keys. */
  function AddChangeCipherSpec(hs: Hs): Hs {
    hs.(pending := hs.pending + [ChangeCipherSpec(hs.writeEpoch, hs.hashed)],
        writeEpoch := hs.writeEpoch + 1)
  }

  function NextMessage(hs: Hs): Hs {
    hs.(msg := None)
  }

  function Go(hs: Hs, s: State): Hs {
    hs.(state := s, wait := Ok)
  }

  function Stop(hs: Hs, w: Wait): Hs {
    hs.(wait := w)
  }

  /** A received Finished is accepted iff it is the peer's MAC over the transcript. */
  predicate FinishedOk(cfg: Config, hs: Hs, fromServer: bool, m: Message) {
    m.kind == Finished && m.body == cfg.p.finishedMac(hs.master, fromServer, hs.hashed)
  }

  function SendFinished(cfg: Config, hs: Hs, fromServer: bool): Hs {
    AddMessage(hs, Message(Finished, cfg.p.finishedMac(hs.master, fromServer, hs.hashed)))
  }
}
