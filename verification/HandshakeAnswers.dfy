/**
 What the application's answers decide, over whole runs against an arbitrary peer: a failing
 callback ends the handshake, a step that asks is only left with its consent, and so no side
 finishes past a certificate that did not verify.
 */
module HandshakeAnswers {
  import opened HandshakeTypes
  import opened HandshakeDriver
  import opened HandshakeClient
  import opened HandshakeServer
  import HandshakeClientTrace
  import HandshakeLoop

  function Start(cfg: Config, server: bool, input: seq<Record>): Link {
    Link(NewHandshake(cfg, server), input, [])
  }

  /** Where the run stands before its k-th turn. */
  function Before(cfg: Config, l: Link, answers: seq<Answer>, k: nat): Link
    requires k <= |answers|
  {
    Turns(cfg, l, answers[..k])
  }

  /** A turn taken by the machine, not by the transport. */
  predicate Steps(hs: Hs) {
    hs.wait.Ok? && !IsDone(hs)
  }

  lemma FailFails(cfg: Config, l: Link)
    requires Steps(l.hs)
    ensures Micro(cfg, l, Fail) == Link(l.hs.(wait := Error), l.inbox, l.sent)
  {
  }

  lemma OneTurn(cfg: Config, l: Link, answers: seq<Answer>, k: nat)
    requires k < |answers|
    ensures Before(cfg, l, answers, k + 1) == Micro(cfg, Before(cfg, l, answers, k), answers[k])
  {
    hide Micro;
    assert answers[..k + 1] == answers[..k] + [answers[k]];
    HandshakeLoop.TurnsThen(cfg, l, answers[..k], [answers[k]]);
    assert [answers[k]][1..] == [];
  }

  /** A step whose callback fails is the run's last: from then on the handshake is in error where
      it stood, with nothing taken from the peer and nothing sent. */
  lemma FailedTurnEndsTheRun(cfg: Config, l: Link, answers: seq<Answer>, k: nat, j: nat)
    requires k < j <= |answers|
    requires Steps(Before(cfg, l, answers, k).hs) && answers[k] == Fail
    ensures var failed := Before(cfg, l, answers, k);
            Before(cfg, l, answers, j) == Link(failed.hs.(wait := Error), failed.inbox, failed.sent)
  {
    var failed := Before(cfg, l, answers, k);
    OneTurn(cfg, l, answers, k);
    FailFails(cfg, failed);
    hide Micro, Turns;
    assert answers[..j] == answers[..k + 1] + answers[k + 1..j];
    HandshakeLoop.TurnsThen(cfg, l, answers[..k + 1], answers[k + 1..j]);
    HandshakeClientTrace.ErrorStays(cfg, Before(cfg, l, answers, k + 1), answers[k + 1..j]);
  }

  /** The steps that ask the application, and when they do. */
  predicate Asks(cfg: Config, hs: Hs) {
    match hs.state
    case Client(s) =>
      || (s.VerifyServerCertificate? && cfg.certAuth)
      || (s.SendClientCertificate? && hs.certRequest)
      || (s.SendClientCertificateVerify? && hs.certRequest && cfg.clientCert)
      || (s.SendClientFinished? && cfg.channelId)
    case Server(s) =>
      || s.ReadClientHello? || s.SelectCertificate? || s.SelectParameters?
      || (s.SendServerKeyExchange? && cfg.ske && cfg.certAuth)
      || (s.VerifyClientCertificate? && hs.peerCert)
      || (s.ReadClientKeyExchange? && cfg.rsa)
  }

  lemma OnlyConsentMoves(cfg: Config, hs: Hs, ans: Answer)
    requires Asks(cfg, hs) && Do(cfg, hs, ans).state != hs.state
    ensures ans == Proceed
  {
    hide AddMessage, Hash, NextMessage, HandshakeClient.Say, HandshakeServer.Say, ClientFinalFlight, ServerFinalFlight;
  }

  /** How each of these steps says that it is to be tried again. */
  function Pending(s: State): Wait {
    match s
    case Client(c) =>
      if c.VerifyServerCertificate? then CertificateVerification
      else if c.SendClientCertificate? then X509Lookup
      else if c.SendClientFinished? then ChannelIdLookup
      else PrivateKeyOperation
    case Server(c) =>
      if c.ReadClientHello? then CertificateSelectionPending
      else if c.SelectCertificate? then X509Lookup
      else if c.SelectParameters? then PendingSession
      else if c.VerifyClientCertificate? then CertificateVerification
      else PrivateKeyOperation
  }

  /** The step stayed as it is and says so, unless it had no message to look at, or a bad one. */
  predicate StaysPending(hs: Hs, h: Hs) {
    && h == Stop(hs, h.wait)
    && (|| h.wait == Pending(hs.state) || (h.wait == NeedMessage && hs.msg.None?)
        || (h.wait == Error && hs.state in {Server(ReadClientHello), Server(ReadClientKeyExchange)}))
  }

  lemma ClientRetryStays(cfg: Config, hs: Hs)
    requires hs.state.Client? && Asks(cfg, hs)
    ensures StaysPending(hs, ClientDo(cfg, hs, Retry))
  {
    hide AddMessage, FreeBuffer, HandshakeClient.Say, ClientFinalFlight;
  }

  lemma ServerRetryStays(cfg: Config, hs: Hs)
    requires hs.state.Server? && Asks(cfg, hs)
    ensures StaysPending(hs, ServerDo(cfg, hs, Retry))
  {
    hide AddMessage, Hash, NextMessage, FreeBuffer, HandshakeServer.Say, ServerFinalFlight;
  }

  /** Told to try again, a step that asks does. */
  lemma RetryStays(cfg: Config, hs: Hs)
    requires Asks(cfg, hs)
    ensures StaysPending(hs, Do(cfg, hs, Retry))
  {
    if hs.state.Client? {
      ClientRetryStays(cfg, hs);
    } else {
      ServerRetryStays(cfg, hs);
    }
    hide StaysPending, ClientDo, ServerDo;
  }

  predicate NotEarly(hs: Hs) {
    !hs.wait.EarlyReturn?
  }

  lemma HelloIsNotEarly(cfg: Config, hs: Hs)
    ensures NotEarly(Stop(Go(HandshakeClient.Say(cfg, hs, ClientHello), Client(EnterEarlyData)), Flush))
    ensures NotEarly(Go(hs, Client(ReadServerHello))) && NotEarly(Go(hs, Client(ClientDone)))
    ensures NotEarly(Stop(hs, Ok)) && NotEarly(Stop(hs, Error))
  {
    hide HandshakeClient.Say;
  }

  lemma FlightIsNotEarly(cfg: Config, hs: Hs)
    ensures NotEarly(DoReadServerHello(cfg, hs)) && NotEarly(DoReadServerCertificate(cfg, hs))
    ensures NotEarly(DoReadCertificateStatus(cfg, hs)) && NotEarly(DoReadServerKeyExchange(cfg, hs))
  {
    hide Hash, NextMessage, FreeBuffer;
  }

  lemma ReadsAreNotEarly(cfg: Config, hs: Hs)
    ensures NotEarly(DoReadCertificateRequest(cfg, hs)) && NotEarly(DoReadServerHelloDone(cfg, hs))
    ensures NotEarly(DoReadSessionTicket(cfg, hs)) && NotEarly(DoReadServerFinished(cfg, hs))
  {
    hide Hash, NextMessage, FreeBuffer, FinishedOk;
  }

  lemma SendsAreNotEarly(cfg: Config, hs: Hs, ans: Answer)
    ensures NotEarly(DoVerifyServerCertificate(cfg, hs, ans)) && NotEarly(DoSendClientCertificate(cfg, hs, ans))
    ensures NotEarly(DoSendClientKeyExchange(cfg, hs)) && NotEarly(DoSendClientCertificateVerify(cfg, hs, ans))
    ensures NotEarly(DoSendClientFinished(cfg, hs, ans)) && NotEarly(HandshakeClient.DoProcessChangeCipherSpec(hs))
  {
    hide AddMessage, FreeBuffer, HandshakeClient.Say, ClientFinalFlight;
  }

  lemma OthersAreNotEarly(cfg: Config, hs: Hs, ans: Answer)
    requires hs.state.Client? && !hs.state.client.FinishFlight?
    ensures NotEarly(ClientDo(cfg, hs, ans))
  {
    HelloIsNotEarly(cfg, hs);
    FlightIsNotEarly(cfg, hs);
    ReadsAreNotEarly(cfg, hs);
    SendsAreNotEarly(cfg, hs, ans);
    hide NotEarly, Go, Stop, HandshakeClient.Say, DoReadServerHello, DoReadServerCertificate, DoReadCertificateStatus,
      DoReadServerKeyExchange, DoReadCertificateRequest, DoReadServerHelloDone, DoReadSessionTicket,
      DoReadServerFinished, DoVerifyServerCertificate, DoSendClientCertificate, DoSendClientKeyExchange,
      DoSendClientCertificateVerify, DoSendClientFinished, HandshakeClient.DoProcessChangeCipherSpec;
  }

  /** The client hands control back early in one place only: when its Finished is on its way in a full
      handshake with False Start. */
  lemma EarlyOnlyForFalseStart(cfg: Config, hs: Hs, ans: Answer)
    requires hs.state.Client?
    ensures ClientDo(cfg, hs, ans).wait.EarlyReturn?
       <==> hs.state == Client(FinishFlight) && !cfg.resume && cfg.falseStart && !ans.Fail?
  {
    if !hs.state.client.FinishFlight? {
      OthersAreNotEarly(cfg, hs, ans);
      hide ClientDo;
    }
  }

  /** A turn that leaves a step which asks was answered Proceed. */
  lemma LeftOnConsent(cfg: Config, l: Link, answers: seq<Answer>, k: nat)
    requires k < |answers| && Asks(cfg, Before(cfg, l, answers, k).hs)
    requires Before(cfg, l, answers, k + 1).hs.state != Before(cfg, l, answers, k).hs.state
    ensures Before(cfg, l, answers, k).hs.wait.Ok? && answers[k] == Proceed
  {
    hide Turns, Asks, Do;
    OneTurn(cfg, l, answers, k);
    OnlyConsentMoves(cfg, Before(cfg, l, answers, k).hs, answers[k]);
  }

  // The server's certificate.

  predicate Holds(hashed: seq<Message>, k: Kind) {
    exists i :: 0 <= i < |hashed| && hashed[i].kind == k
  }

  /** Up to the verification of the server's certificate; behind it once it has been read. */
  predicate ClientNotPast(hs: Hs) {
    && hs.state.Client?
    && match hs.state.client
       case StartConnect => true
       case EnterEarlyData => true
       case ReadServerHello => true
       case ReadServerCertificate => true
       case ReadCertificateStatus => Holds(hs.hashed, Certificate)
       case VerifyServerCertificate => Holds(hs.hashed, Certificate)
       case _ => false
  }

  lemma HashHolds(hs: Hs, m: Message, k: Kind)
    ensures Holds(hs.hashed, k) || m.kind == k ==> Holds(Hash(hs, m).hashed, k)
  {
    if m.kind == k {
      assert Hash(hs, m).hashed[|hs.hashed|].kind == k;
    } else if Holds(hs.hashed, k) {
      var i :| 0 <= i < |hs.hashed| && hs.hashed[i].kind == k;
      assert Hash(hs, m).hashed[i].kind == k;
    }
  }

  /** The only way past is the verification itself. */
  lemma ClientPasses(cfg: Config, hs: Hs, ans: Answer)
    requires ClientNotPast(hs) && cfg.certAuth && !cfg.resume
    ensures var h := Do(cfg, hs, ans);
            h.wait.Error? || ClientNotPast(h) || (hs.state == Client(VerifyServerCertificate) && h.state != hs.state)
  {
    hide Holds, Hash, HandshakeClient.Say;
    if hs.msg.Some? {
      HashHolds(hs, hs.msg.value.msg, Certificate);
    }
  }

  lemma ClientTurnPasses(cfg: Config, l: Link, ans: Answer)
    requires ClientNotPast(l.hs) && cfg.certAuth && !cfg.resume
    ensures var h := Micro(cfg, l, ans).hs;
            || h.wait.Error? || ClientNotPast(h)
            || (l.hs.state == Client(VerifyServerCertificate) && h.state != l.hs.state)
  {
    hide Holds, Do;
    if l.hs.wait.Ok? {
      ClientPasses(cfg, l.hs, ans);
    }
  }

  lemma {:induction false} ClientPassed(cfg: Config, l: Link, answers: seq<Answer>, n: nat) returns (k: nat)
    requires n <= |answers| && cfg.certAuth && !cfg.resume
    requires ClientNotPast(l.hs) && !ClientNotPast(Before(cfg, l, answers, n).hs)
    requires !Before(cfg, l, answers, n).hs.wait.Error?
    ensures k < n && ClientNotPast(Before(cfg, l, answers, k).hs)
    ensures Before(cfg, l, answers, k).hs.state == Client(VerifyServerCertificate)
    ensures Before(cfg, l, answers, k + 1).hs.state != Client(VerifyServerCertificate)
  {
    assert answers[..0] == [];
    assert n != 0;
    hide ClientNotPast, Turns, Do;
    OneTurn(cfg, l, answers, n - 1);
    var last := Before(cfg, l, answers, n - 1);
    assert !last.hs.wait.Error?;
    if ClientNotPast(last.hs) {
      ClientTurnPasses(cfg, last, answers[n - 1]);
      k := n - 1;
    } else {
      k := ClientPassed(cfg, l, answers, n - 1);
    }
  }

  /** A client that finished a full handshake with a certificate cipher had read the server's
      Certificate and then asked whether it verifies, and was told that it does. */
  lemma FinishedClientVerified(cfg: Config, input: seq<Record>, answers: seq<Answer>) returns (k: nat)
    requires var hs := Turns(cfg, Start(cfg, false, input), answers).hs;
             hs.state == Client(ClientDone) && !hs.wait.Error?
    requires cfg.certAuth && !cfg.resume
    ensures k < |answers| && answers[k] == Proceed
    ensures var hs := Before(cfg, Start(cfg, false, input), answers, k).hs;
            hs.state == Client(VerifyServerCertificate) && hs.wait.Ok? && Holds(hs.hashed, Certificate)
    ensures Before(cfg, Start(cfg, false, input), answers, k + 1).hs.state != Client(VerifyServerCertificate)
  {
    var l := Start(cfg, false, input);
    assert ClientNotPast(l.hs);
    hide Turns, Start, Holds;
    assert answers[..|answers|] == answers;
    k := ClientPassed(cfg, l, answers, |answers|);
    LeftOnConsent(cfg, l, answers, k);
  }

  // The client's certificate.

  /** No client's certificate has come yet, or it is there to be verified. */
  predicate ServerNotPast(hs: Hs) {
    && hs.state.Server?
    && (hs.peerCert ==> hs.state == Server(VerifyClientCertificate) && Holds(hs.hashed, Certificate))
  }

  predicate Keeps(hs: Hs, h: Hs) {
    h.state.Server? && h.peerCert == hs.peerCert
  }

  lemma SayKeeps(cfg: Config, hs: Hs, k: Kind)
    requires hs.state.Server?
    ensures Keeps(hs, HandshakeServer.Say(cfg, hs, k))
  {
  }

  lemma HelloKeeps(cfg: Config, hs: Hs, ans: Answer)
    requires hs.state.Server?
    ensures Keeps(hs, Go(hs, Server(ReadClientHello)))
    ensures Keeps(hs, DoReadClientHello(cfg, hs, ans))
    ensures Keeps(hs, DoSelectCertificate(cfg, hs, ans))
    ensures Keeps(hs, DoSelectParameters(cfg, hs, ans))
    ensures Keeps(hs, DoSendServerHello(cfg, hs))
  {
  }

  lemma SendsKeep(cfg: Config, hs: Hs, ans: Answer)
    requires hs.state.Server?
    ensures Keeps(hs, DoSendServerCertificate(cfg, hs))
    ensures Keeps(hs, DoSendServerKeyExchange(cfg, hs, ans))
    ensures Keeps(hs, DoSendServerHelloDone(cfg, hs))
  {
    SayKeeps(cfg, hs, Certificate);
    SayKeeps(cfg, HandshakeServer.Say(cfg, hs, Certificate), CertificateStatus);
    SayKeeps(cfg, hs, ServerKeyExchange);
    SayKeeps(cfg, hs, ServerHelloDone);
    SayKeeps(cfg, hs, CertificateRequest);
    SayKeeps(cfg, HandshakeServer.Say(cfg, hs, CertificateRequest), ServerHelloDone);
    hide HandshakeServer.Say;
  }

  lemma EndsKeep(cfg: Config, hs: Hs, ans: Answer)
    requires hs.state.Server?
    ensures Keeps(hs, DoVerifyClientCertificate(hs, ans))
    ensures Keeps(hs, DoSendServerFinished(cfg, hs))
    ensures Keeps(hs, Go(hs, Server(ServerDone)))
    ensures Keeps(hs, Stop(hs, Ok)) && Keeps(hs, Stop(hs, Error))
  {
  }

  lemma ReadsKeep(cfg: Config, hs: Hs, ans: Answer)
    requires hs.state.Server?
    ensures Keeps(hs, DoReadClientKeyExchange(cfg, hs, ans))
    ensures Keeps(hs, DoReadClientCertificateVerify(cfg, hs))
    ensures Keeps(hs, Stop(Go(hs, Server(ProcessClientChangeCipherSpec)), NeedChangeCipherSpec))
    ensures Keeps(hs, HandshakeServer.DoProcessChangeCipherSpec(hs))
    ensures Keeps(hs, DoReadNextProto(cfg, hs))
    ensures Keeps(hs, DoReadChannelId(cfg, hs))
    ensures Keeps(hs, DoReadClientFinished(cfg, hs))
  {
  }

  /** Only reading the client's Certificate sets the peer's certificate. */
  lemma StepKeeps(cfg: Config, hs: Hs, ans: Answer)
    requires hs.state.Server? && !hs.state.server.ReadClientCertificate?
    ensures Keeps(hs, ServerDo(cfg, hs, ans))
  {
    HelloKeeps(cfg, hs, ans);
    SendsKeep(cfg, hs, ans);
    EndsKeep(cfg, hs, ans);
    ReadsKeep(cfg, hs, ans);
    hide Keeps, Go, Stop, DoReadClientHello, DoSelectCertificate, DoSelectParameters, DoSendServerHello,
      DoSendServerCertificate, DoSendServerKeyExchange, DoSendServerHelloDone, DoVerifyClientCertificate,
      DoReadClientKeyExchange, DoReadClientCertificateVerify, HandshakeServer.DoProcessChangeCipherSpec,
      DoReadNextProto, DoReadChannelId, DoReadClientFinished, DoSendServerFinished;
  }

  lemma CertificateIsHeld(cfg: Config, hs: Hs)
    requires hs.state.Server? && !hs.peerCert
    ensures ServerNotPast(DoReadClientCertificate(cfg, hs))
  {
    if hs.msg.Some? {
      HashHolds(hs, hs.msg.value.msg, Certificate);
    }
    hide Holds;
  }

  /** A client's certificate is only ever read, and then there is no way past its verification. */
  lemma ServerPasses(cfg: Config, hs: Hs, ans: Answer)
    requires ServerNotPast(hs)
    ensures var h := Do(cfg, hs, ans);
            || h.wait.Error? || ServerNotPast(h)
            || (hs.state == Server(VerifyClientCertificate) && hs.peerCert && h.state != hs.state)
  {
    if hs.state == Server(VerifyClientCertificate) {
      hide Holds;
    } else if hs.state == Server(ReadClientCertificate) {
      CertificateIsHeld(cfg, hs);
      hide Holds, DoReadClientCertificate;
    } else {
      StepKeeps(cfg, hs, ans);
      hide Holds, ServerDo;
    }
  }

  lemma ServerTurnPasses(cfg: Config, l: Link, ans: Answer)
    requires ServerNotPast(l.hs)
    ensures var h := Micro(cfg, l, ans).hs;
            || h.wait.Error? || ServerNotPast(h)
            || (l.hs.state == Server(VerifyClientCertificate) && l.hs.peerCert && h.state != l.hs.state)
  {
    hide Holds, Do;
    if l.hs.wait.Ok? {
      ServerPasses(cfg, l.hs, ans);
    }
  }

  lemma {:induction false} ServerPassed(cfg: Config, l: Link, answers: seq<Answer>, n: nat) returns (k: nat)
    requires n <= |answers| && ServerNotPast(l.hs)
    requires var hs := Before(cfg, l, answers, n).hs; !ServerNotPast(hs) && !hs.wait.Error?
    ensures k < n && ServerNotPast(Before(cfg, l, answers, k).hs)
    ensures var hs := Before(cfg, l, answers, k).hs; hs.state == Server(VerifyClientCertificate) && hs.peerCert
    ensures Before(cfg, l, answers, k + 1).hs.state != Server(VerifyClientCertificate)
  {
    assert answers[..0] == [];
    assert n != 0;
    hide ServerNotPast, Turns, Do;
    OneTurn(cfg, l, answers, n - 1);
    var last := Before(cfg, l, answers, n - 1);
    assert !last.hs.wait.Error?;
    if ServerNotPast(last.hs) {
      ServerTurnPasses(cfg, last, answers[n - 1]);
      k := n - 1;
    } else {
      k := ServerPassed(cfg, l, answers, n - 1);
    }
  }

  /** A server that finished with a client's certificate had read the client's Certificate and
      then asked whether it verifies, and was told that it does. */
  lemma FinishedServerVerified(cfg: Config, input: seq<Record>, answers: seq<Answer>) returns (k: nat)
    requires var hs := Turns(cfg, Start(cfg, true, input), answers).hs;
             hs.state == Server(ServerDone) && !hs.wait.Error? && hs.peerCert
    ensures k < |answers| && answers[k] == Proceed
    ensures var hs := Before(cfg, Start(cfg, true, input), answers, k).hs;
            && hs.state == Server(VerifyClientCertificate) && hs.wait.Ok? && hs.peerCert
            && Holds(hs.hashed, Certificate)
    ensures Before(cfg, Start(cfg, true, input), answers, k + 1).hs.state != Server(VerifyClientCertificate)
  {
    var l := Start(cfg, true, input);
    assert ServerNotPast(l.hs);
    hide Turns, Start, Holds;
    assert answers[..|answers|] == answers;
    k := ServerPassed(cfg, l, answers, |answers|);
    LeftOnConsent(cfg, l, answers, k);
  }
}
