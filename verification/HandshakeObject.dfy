/**
 The handshake object itself: its fields, and the do_* steps of both machines as they
 assign them (handshake_server.cc, handshake_client.cc, handshake.cc). Each step does to the
 fields what the step function of HandshakeServer or HandshakeClient says; what that means is
 proved in HandshakeCompose, HandshakeTrace and HandshakeClientTrace.
 */
module HandshakeObject {
  import opened Basics
  import opened HandshakeTypes
  import C = HandshakeClient
  import S = HandshakeServer

  class Handshake {
    var state: State
    var wait: Wait
    var msg: Option<Envelope>
    var hashed: seq<Message>
    var buffer: Option<seq<Message>>
    var master: Bytes
    var readEpoch: nat
    var writeEpoch: nat
    var pending: seq<Record>
    var certRequest: bool
    var peerCert: bool
    var ticketExpected: bool

    function Now(): Hs
      reads this
    {
      Hs(state, wait, msg, hashed, buffer, master, readEpoch, writeEpoch, pending, certRequest, peerCert,
        ticketExpected)
    }

    constructor (cfg: Config, server: bool)
      ensures Now() == NewHandshake(cfg, server)
    {
      state, wait, msg := if server then Server(StartAccept) else Client(StartConnect), Ok, None;
      hashed, buffer, master := [], Some([]), cfg.resumedMaster;
      readEpoch, writeEpoch, pending := 0, 0, [];
      certRequest, peerCert, ticketExpected := false, false, cfg.ticket && !server;
    }

    // Transcript and flight.

    /** ssl_hash_message. */
    method HashMessage(m: Message)
      modifies this`hashed, this`buffer
      ensures Now() == Hash(old(Now()), m)
    {
      hashed := hashed + [m];
      if buffer.Some? {
        buffer := Some(buffer.value + [m]);
      }
    }

    /** ssl_hash_message and next_message on the message in hand. */
    method TakeMessage()
      requires msg.Some?
      modifies this`msg, this`hashed, this`buffer
      ensures Now() == NextMessage(Hash(old(Now()), old(msg).value.msg))
    {
      HashMessage(msg.value.msg);
      msg := None;
    }

    method FreeTranscriptBuffer()
      modifies this`buffer
      ensures Now() == FreeBuffer(old(Now()))
    {
      buffer := None;
    }

    /** add_message: into the flight under the present keys, and into the transcript. */
    method Send(m: Message)
      modifies this`pending, this`hashed, this`buffer
      ensures Now() == AddMessage(old(Now()), m)
    {
      pending := pending + [Handshake(Envelope(m, writeEpoch, hashed))];
      HashMessage(m);
    }

    /** add_change_cipher_spec, and the new write keys. */
    method SendChangeCipherSpec()
      modifies this`pending, this`writeEpoch
      ensures Now() == AddChangeCipherSpec(old(Now()))
    {
      pending := pending + [ChangeCipherSpec(writeEpoch, hashed)];
      writeEpoch := writeEpoch + 1;
    }

    /** ssl_send_finished. */
    method SendTheFinished(cfg: Config, fromServer: bool)
      modifies this`pending, this`hashed, this`buffer
      ensures Now() == SendFinished(cfg, old(Now()), fromServer)
    {
      Send(Message(Finished, cfg.p.finishedMac(master, fromServer, hashed)));
    }

    /** ssl_get_finished: nothing to read yet, not the peer's MAC, or taken. */
    method GetFinished(cfg: Config, fromServer: bool) returns (w: Wait)
      modifies this`msg, this`hashed, this`buffer
      ensures w == if old(msg).None? then NeedMessage
                   else if FinishedOk(cfg, old(Now()), fromServer, old(msg).value.msg) then Ok else Error
      ensures Now() == if w.Ok? then NextMessage(Hash(old(Now()), old(msg).value.msg)) else old(Now())
    {
      if msg.None? {
        return NeedMessage;
      }
      var m := msg.value.msg;
      if m.kind != Finished || m.body != cfg.p.finishedMac(master, fromServer, hashed) {
        return Error;
      }
      TakeMessage();
      return Ok;
    }

    // The server.

    method DoReadClientHello(cfg: Config, ans: Answer)
      modifies this
      ensures Now() == S.DoReadClientHello(cfg, old(Now()), ans)
    {
      if msg.None? {
        wait := NeedMessage;
        return;
      }
      var m := msg.value.msg;
      if m.kind != ClientHello || !cfg.p.parses(m) {
        wait := Error;
        return;
      }
      if ans.Retry? {
        wait := CertificateSelectionPending;
        return;
      }
      state, wait := Server(SelectCertificate), Ok;
    }

    method DoSelectCertificate(cfg: Config, ans: Answer)
      modifies this
      ensures Now() == S.DoSelectCertificate(cfg, old(Now()), ans)
    {
      if msg.None? {
        wait := NeedMessage;
        return;
      }
      if ans.Retry? {
        wait := X509Lookup;
        return;
      }
      state, wait := Server(SelectParameters), Ok;
    }

    /** What the session and the cipher decide. */
    method SetParameters(cfg: Config)
      modifies this`ticketExpected, this`certRequest
      ensures Now() == old(Now()).(ticketExpected := cfg.ticket, certRequest := !cfg.resume && cfg.certAuth
              && cfg.certRequest)
    {
      ticketExpected := cfg.ticket;
      certRequest := !cfg.resume && cfg.certAuth && cfg.certRequest;
    }

    method DoSelectParameters(cfg: Config, ans: Answer)
      modifies this
      ensures Now() == S.DoSelectParameters(cfg, old(Now()), ans)
    {
      if msg.None? {
        wait := NeedMessage;
        return;
      }
      if ans.Retry? {
        wait := PendingSession;
        return;
      }
      SetParameters(cfg);
      TakeMessage();
      if !certRequest {
        FreeTranscriptBuffer();
      }
      state, wait := Server(SendServerHello), Ok;
    }

    method DoSendServerHello(cfg: Config)
      modifies this
      ensures Now() == S.DoSendServerHello(cfg, old(Now()))
    {
      Send(Message(ServerHello, cfg.body(true, ServerHello)));
      state, wait := Server(if cfg.resume then SendServerFinished else SendServerCertificate), Ok;
    }

    method DoSendServerCertificate(cfg: Config)
      modifies this
      ensures Now() == S.DoSendServerCertificate(cfg, old(Now()))
    {
      if cfg.certAuth {
        Send(Message(Certificate, cfg.body(true, Certificate)));
        if cfg.ocsp {
          Send(Message(CertificateStatus, cfg.body(true, CertificateStatus)));
        }
      }
      state, wait := Server(SendServerKeyExchange), Ok;
    }

    method DoSendServerKeyExchange(cfg: Config, ans: Answer)
      modifies this
      ensures Now() == S.DoSendServerKeyExchange(cfg, old(Now()), ans)
    {
      if !cfg.ske {
        state, wait := Server(SendServerHelloDone), Ok;
        return;
      }
      if cfg.certAuth && ans.Retry? {
        wait := PrivateKeyOperation;
        return;
      }
      Send(Message(ServerKeyExchange, cfg.body(true, ServerKeyExchange)));
      state, wait := Server(SendServerHelloDone), Ok;
    }

    method DoSendServerHelloDone(cfg: Config)
      modifies this
      ensures Now() == S.DoSendServerHelloDone(cfg, old(Now()))
    {
      if certRequest {
        Send(Message(CertificateRequest, cfg.body(true, CertificateRequest)));
      }
      Send(Message(ServerHelloDone, cfg.body(true, ServerHelloDone)));
      state, wait := Server(ReadClientCertificate), Flush;
    }

    method DoReadClientCertificate(cfg: Config)
      modifies this
      ensures Now() == S.DoReadClientCertificate(cfg, old(Now()))
    {
      if !certRequest {
        state, wait := Server(VerifyClientCertificate), Ok;
        return;
      }
      if msg.None? {
        wait := NeedMessage;
        return;
      }
      var m := msg.value.msg;
      if m.kind != Certificate || !cfg.p.parses(m) {
        wait := Error;
        return;
      }
      if cfg.p.emptyChain(m) && cfg.requireClientCert {
        wait := Error;
        return;
      }
      TakeMessage();
      if cfg.p.emptyChain(m) {
        FreeTranscriptBuffer();
      } else {
        peerCert := true;
      }
      state, wait := Server(VerifyClientCertificate), Ok;
    }

    method DoVerifyClientCertificate(ans: Answer)
      modifies this
      ensures Now() == S.DoVerifyClientCertificate(old(Now()), ans)
    {
      if peerCert && ans.Retry? {
        wait := CertificateVerification;
        return;
      }
      state, wait := Server(ReadClientKeyExchange), Ok;
    }

    method DoReadClientKeyExchange(cfg: Config, ans: Answer)
      modifies this
      ensures Now() == S.DoReadClientKeyExchange(cfg, old(Now()), ans)
    {
      if msg.None? {
        wait := NeedMessage;
        return;
      }
      var m := msg.value.msg;
      if m.kind != ClientKeyExchange || !cfg.p.parses(m) {
        wait := Error;
        return;
      }
      if cfg.rsa && ans.Retry? {
        wait := PrivateKeyOperation;
        return;
      }
      TakeMessage();
      master := cfg.p.masterSecret(m, hashed);
      state, wait := Server(ReadClientCertificateVerify), Ok;
    }

    method DoReadClientCertificateVerify(cfg: Config)
      modifies this
      ensures Now() == S.DoReadClientCertificateVerify(cfg, old(Now()))
    {
      if !peerCert {
        FreeTranscriptBuffer();
        state, wait := Server(ReadChangeCipherSpec), Ok;
        return;
      }
      if msg.None? {
        wait := NeedMessage;
        return;
      }
      var m := msg.value.msg;
      if m.kind != CertificateVerify || !cfg.p.parses(m)
        || !cfg.p.verify(if buffer.Some? then buffer.value else [], m.body) {
        wait := Error;
        return;
      }
      FreeTranscriptBuffer();
      TakeMessage();
      state, wait := Server(ReadChangeCipherSpec), Ok;
    }

    method DoProcessClientChangeCipherSpec()
      modifies this
      ensures Now() == S.DoProcessChangeCipherSpec(old(Now()))
    {
      if msg.Some? {
        wait := Error;
        return;
      }
      readEpoch := readEpoch + 1;
      state, wait := Server(ReadNextProto), Ok;
    }

    method DoReadNextProto(cfg: Config)
      modifies this
      ensures Now() == S.DoReadNextProto(cfg, old(Now()))
    {
      if !cfg.npn {
        state, wait := Server(ReadChannelId), Ok;
        return;
      }
      if msg.None? {
        wait := NeedMessage;
        return;
      }
      var m := msg.value.msg;
      if m.kind != NextProto || !cfg.p.parses(m) {
        wait := Error;
        return;
      }
      TakeMessage();
      state, wait := Server(ReadChannelId), Ok;
    }

    method DoReadChannelId(cfg: Config)
      modifies this
      ensures Now() == S.DoReadChannelId(cfg, old(Now()))
    {
      if !cfg.channelId {
        state, wait := Server(ReadClientFinished), Ok;
        return;
      }
      if msg.None? {
        wait := NeedMessage;
        return;
      }
      var m := msg.value.msg;
      if m.kind != ChannelId || !cfg.p.channelVerify(cfg.resume, hashed, m.body) {
        wait := Error;
        return;
      }
      TakeMessage();
      state, wait := Server(ReadClientFinished), Ok;
    }

    method DoReadClientFinished(cfg: Config)
      modifies this
      ensures Now() == S.DoReadClientFinished(cfg, old(Now()))
    {
      var w := GetFinished(cfg, false);
      if !w.Ok? {
        wait := w;
        return;
      }
      state, wait := Server(if cfg.resume then FinishServerHandshake else SendServerFinished), Ok;
    }

    method DoSendServerFinished(cfg: Config)
      modifies this
      ensures Now() == S.DoSendServerFinished(cfg, old(Now()))
    {
      if ticketExpected {
        Send(Message(NewSessionTicket, cfg.body(true, NewSessionTicket)));
      }
      SendChangeCipherSpec();
      SendTheFinished(cfg, true);
      state, wait := Server(if cfg.resume then ReadChangeCipherSpec else FinishServerHandshake), Flush;
    }

    /** One turn of the switch in ssl_server_handshake. */
    method ServerStep(cfg: Config, ans: Answer)
      requires state.Server?
      modifies this
      ensures Now() == S.ServerDo(cfg, old(Now()), ans)
    {
      hide S.DoReadClientHello, S.DoSelectCertificate, S.DoSelectParameters, S.DoSendServerHello,
        S.DoSendServerCertificate,
        S.DoSendServerKeyExchange, S.DoSendServerHelloDone, S.DoReadClientCertificate, S.DoVerifyClientCertificate,
        S.DoReadClientKeyExchange, S.DoReadClientCertificateVerify, S.DoProcessChangeCipherSpec, S.DoReadNextProto,
        S.DoReadChannelId, S.DoReadClientFinished, S.DoSendServerFinished;
      if ans.Fail? {
        wait := Error;
        return;
      }
      match state.server {
        case StartAccept => state, wait := Server(ReadClientHello), Ok;
        case ReadClientHello => DoReadClientHello(cfg, ans);
        case SelectCertificate => DoSelectCertificate(cfg, ans);
        case SelectParameters => DoSelectParameters(cfg, ans);
        case SendServerHello => DoSendServerHello(cfg);
        case SendServerCertificate => DoSendServerCertificate(cfg);
        case SendServerKeyExchange => DoSendServerKeyExchange(cfg, ans);
        case SendServerHelloDone => DoSendServerHelloDone(cfg);
        case ReadClientCertificate => DoReadClientCertificate(cfg);
        case VerifyClientCertificate => DoVerifyClientCertificate(ans);
        case ReadClientKeyExchange => DoReadClientKeyExchange(cfg, ans);
        case ReadClientCertificateVerify => DoReadClientCertificateVerify(cfg);
        case ReadChangeCipherSpec => state, wait := Server(ProcessClientChangeCipherSpec), NeedChangeCipherSpec;
        case ProcessClientChangeCipherSpec => DoProcessClientChangeCipherSpec();
        case ReadNextProto => DoReadNextProto(cfg);
        case ReadChannelId => DoReadChannelId(cfg);
        case ReadClientFinished => DoReadClientFinished(cfg);
        case SendServerFinished => DoSendServerFinished(cfg);
        case FinishServerHandshake => state, wait := Server(ServerDone), Ok;
        case ServerDone => wait := Ok;
      }
    }

    // The client.

    method DoReadServerHello(cfg: Config)
      modifies this
      ensures Now() == C.DoReadServerHello(cfg, old(Now()))
    {
      if msg.None? {
        wait := NeedMessage;
        return;
      }
      var m := msg.value.msg;
      if m.kind != ServerHello || !cfg.p.parses(m) {
        wait := Error;
        return;
      }
      TakeMessage();
      if cfg.resume || !cfg.certAuth {
        FreeTranscriptBuffer();
      }
      state, wait := Client(if cfg.resume then ReadSessionTicket else ReadServerCertificate), Ok;
    }

    method DoReadServerCertificate(cfg: Config)
      modifies this
      ensures Now() == C.DoReadServerCertificate(cfg, old(Now()))
    {
      if !cfg.certAuth {
        state, wait := Client(ReadCertificateStatus), Ok;
        return;
      }
      if msg.None? {
        wait := NeedMessage;
        return;
      }
      var m := msg.value.msg;
      if m.kind != Certificate || !cfg.p.parses(m) {
        wait := Error;
        return;
      }
      TakeMessage();
      state, wait := Client(ReadCertificateStatus), Ok;
    }

    method DoReadCertificateStatus(cfg: Config)
      modifies this
      ensures Now() == C.DoReadCertificateStatus(cfg, old(Now()))
    {
      if !cfg.ocsp {
        state, wait := Client(VerifyServerCertificate), Ok;
        return;
      }
      if msg.None? {
        wait := NeedMessage;
        return;
      }
      var m := msg.value.msg;
      if m.kind != CertificateStatus {
        state, wait := Client(VerifyServerCertificate), Ok;
        return;
      }
      if !cfg.p.parses(m) {
        wait := Error;
        return;
      }
      TakeMessage();
      state, wait := Client(VerifyServerCertificate), Ok;
    }

    method DoVerifyServerCertificate(cfg: Config, ans: Answer)
      modifies this
      ensures Now() == C.DoVerifyServerCertificate(cfg, old(Now()), ans)
    {
      if cfg.certAuth && ans.Retry? {
        wait := CertificateVerification;
        return;
      }
      state, wait := Client(ReadServerKeyExchange), Ok;
    }

    method DoReadServerKeyExchange(cfg: Config)
      modifies this
      ensures Now() == C.DoReadServerKeyExchange(cfg, old(Now()))
    {
      if msg.None? {
        wait := NeedMessage;
        return;
      }
      var m := msg.value.msg;
      if m.kind != ServerKeyExchange {
        if cfg.requiresSke {
          wait := Error;
          return;
        }
        state, wait := Client(ReadCertificateRequest), Ok;
        return;
      }
      if cfg.rsa || !cfg.p.parses(m) {
        wait := Error;
        return;
      }
      TakeMessage();
      state, wait := Client(ReadCertificateRequest), Ok;
    }

    method DoReadCertificateRequest(cfg: Config)
      modifies this
      ensures Now() == C.DoReadCertificateRequest(cfg, old(Now()))
    {
      if !cfg.certAuth {
        state, wait := Client(ReadServerHelloDone), Ok;
        return;
      }
      if msg.None? {
        wait := NeedMessage;
        return;
      }
      var m := msg.value.msg;
      if m.kind == ServerHelloDone {
        FreeTranscriptBuffer();
        state, wait := Client(ReadServerHelloDone), Ok;
        return;
      }
      if m.kind != CertificateRequest || !cfg.p.parses(m) {
        wait := Error;
        return;
      }
      certRequest := true;
      TakeMessage();
      state, wait := Client(ReadServerHelloDone), Ok;
    }

    method DoReadServerHelloDone(cfg: Config)
      modifies this
      ensures Now() == C.DoReadServerHelloDone(cfg, old(Now()))
    {
      if msg.None? {
        wait := NeedMessage;
        return;
      }
      var m := msg.value.msg;
      if m.kind != ServerHelloDone || !cfg.p.parses(m) {
        wait := Error;
        return;
      }
      TakeMessage();
      state, wait := Client(SendClientCertificate), Ok;
    }

    method DoSendClientCertificate(cfg: Config, ans: Answer)
      modifies this
      ensures Now() == C.DoSendClientCertificate(cfg, old(Now()), ans)
    {
      if !certRequest {
        state, wait := Client(SendClientKeyExchange), Ok;
        return;
      }
      if ans.Retry? {
        wait := X509Lookup;
        return;
      }
      if !cfg.clientCert {
        FreeTranscriptBuffer();
      }
      Send(Message(Certificate, cfg.body(false, Certificate)));
      state, wait := Client(SendClientKeyExchange), Ok;
    }

    method DoSendClientKeyExchange(cfg: Config)
      modifies this
      ensures Now() == C.DoSendClientKeyExchange(cfg, old(Now()))
    {
      var m := Message(ClientKeyExchange, cfg.body(false, ClientKeyExchange));
      Send(m);
      master := cfg.p.masterSecret(m, hashed);
      state, wait := Client(SendClientCertificateVerify), Ok;
    }

    method DoSendClientCertificateVerify(cfg: Config, ans: Answer)
      modifies this
      ensures Now() == C.DoSendClientCertificateVerify(cfg, old(Now()), ans)
    {
      if !certRequest || !cfg.clientCert {
        state, wait := Client(SendClientFinished), Ok;
        return;
      }
      if ans.Retry? {
        wait := PrivateKeyOperation;
        return;
      }
      Send(Message(CertificateVerify, cfg.p.sign(if buffer.Some? then buffer.value else [])));
      FreeTranscriptBuffer();
      state, wait := Client(SendClientFinished), Ok;
    }

    method DoSendClientFinished(cfg: Config, ans: Answer)
      modifies this
      ensures Now() == C.DoSendClientFinished(cfg, old(Now()), ans)
    {
      if cfg.channelId && ans.Retry? {
        wait := ChannelIdLookup;
        return;
      }
      SendChangeCipherSpec();
      if cfg.npn {
        Send(Message(NextProto, cfg.body(false, NextProto)));
      }
      if cfg.channelId {
        Send(Message(ChannelId, cfg.p.channelSign(cfg.resume, hashed)));
      }
      SendTheFinished(cfg, false);
      state, wait := Client(FinishFlight), Flush;
    }

    method DoFinishFlight(cfg: Config)
      modifies this
      ensures Now() == C.DoFinishFlight(cfg, old(Now()))
    {
      if cfg.resume {
        state, wait := Client(FinishClientHandshake), Ok;
        return;
      }
      state, wait := Client(ReadSessionTicket), if cfg.falseStart then EarlyReturn else Ok;
    }

    /** The message in hand is the ticket; an empty one is no ticket. */
    method TakeTicket(cfg: Config)
      requires msg.Some?
      modifies this`msg, this`hashed, this`buffer, this`ticketExpected
      ensures var was, m := old(Now()), old(msg).value.msg;
              Now() == NextMessage(Hash(was, m)).(ticketExpected := was.ticketExpected && !cfg.p.emptyTicket(m))
    {
      if cfg.p.emptyTicket(msg.value.msg) {
        ticketExpected := false;
      }
      TakeMessage();
    }

    method DoReadSessionTicket(cfg: Config)
      modifies this
      ensures Now() == C.DoReadSessionTicket(cfg, old(Now()))
    {
      if !ticketExpected {
        state, wait := Client(ProcessServerChangeCipherSpec), NeedChangeCipherSpec;
        return;
      }
      if msg.None? {
        wait := NeedMessage;
        return;
      }
      var m := msg.value.msg;
      if m.kind != NewSessionTicket || !cfg.p.parses(m) {
        wait := Error;
        return;
      }
      TakeTicket(cfg);
      state, wait := Client(ProcessServerChangeCipherSpec), NeedChangeCipherSpec;
    }

    method DoProcessServerChangeCipherSpec()
      modifies this
      ensures Now() == C.DoProcessChangeCipherSpec(old(Now()))
    {
      if msg.Some? {
        wait := Error;
        return;
      }
      readEpoch := readEpoch + 1;
      state, wait := Client(ReadServerFinished), Ok;
    }

    method DoReadServerFinished(cfg: Config)
      modifies this
      ensures Now() == C.DoReadServerFinished(cfg, old(Now()))
    {
      var w := GetFinished(cfg, true);
      if !w.Ok? {
        wait := w;
        return;
      }
      state, wait := Client(if cfg.resume then SendClientFinished else FinishClientHandshake), Ok;
    }

    /** One turn of the switch in ssl_client_handshake. */
    method ClientStep(cfg: Config, ans: Answer)
      requires state.Client?
      modifies this
      ensures Now() == C.ClientDo(cfg, old(Now()), ans)
    {
      hide C.DoReadServerHello, C.DoReadServerCertificate, C.DoReadCertificateStatus, C.DoVerifyServerCertificate,
        C.DoReadServerKeyExchange, C.DoReadCertificateRequest, C.DoReadServerHelloDone, C.DoSendClientCertificate,
        C.DoSendClientKeyExchange, C.DoSendClientCertificateVerify, C.DoSendClientFinished, C.DoFinishFlight,
        C.DoReadSessionTicket, C.DoProcessChangeCipherSpec, C.DoReadServerFinished;
      if ans.Fail? {
        wait := Error;
        return;
      }
      match state.client {
        case StartConnect =>
          Send(Message(ClientHello, cfg.body(false, ClientHello)));
          state, wait := Client(EnterEarlyData), Flush;
        case EnterEarlyData => state, wait := Client(ReadServerHello), Ok;
        case ReadServerHello => DoReadServerHello(cfg);
        case ReadServerCertificate => DoReadServerCertificate(cfg);
        case ReadCertificateStatus => DoReadCertificateStatus(cfg);
        case VerifyServerCertificate => DoVerifyServerCertificate(cfg, ans);
        case ReadServerKeyExchange => DoReadServerKeyExchange(cfg);
        case ReadCertificateRequest => DoReadCertificateRequest(cfg);
        case ReadServerHelloDone => DoReadServerHelloDone(cfg);
        case SendClientCertificate => DoSendClientCertificate(cfg, ans);
        case SendClientKeyExchange => DoSendClientKeyExchange(cfg);
        case SendClientCertificateVerify => DoSendClientCertificateVerify(cfg, ans);
        case SendClientFinished => DoSendClientFinished(cfg, ans);
        case FinishFlight => DoFinishFlight(cfg);
        case ReadSessionTicket => DoReadSessionTicket(cfg);
        case ProcessServerChangeCipherSpec => DoProcessServerChangeCipherSpec();
        case ReadServerFinished => DoReadServerFinished(cfg);
        case FinishClientHandshake => state, wait := Client(ClientDone), Ok;
        case ClientDone => wait := Ok;
      }
    }
  }
}
