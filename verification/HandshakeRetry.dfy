/**
 "Try again" answers leave no mark: one side, run against any inbound records at all
 (an arbitrary peer), ends where the run that was never told to try again ends.
 */
module HandshakeRetry {
  import opened HandshakeTypes
  import opened HandshakeDriver
  import opened HandshakeClient
  import opened HandshakeServer
  import opened HandshakeDescent

  /** `n` turns that are never told to try again. */
  function Straight(cfg: Config, l: Link, n: nat): Link
    decreases n
  {
    if n == 0 then l else Straight(cfg, Micro(cfg, l, Proceed), n - 1)
  }

  /** The same point of the run with no retry outstanding. */
  function Calm(l: Link): Link {
    if IsRetry(l.hs.wait) then l.(hs := Stop(l.hs, Ok)) else l
  }

  predicate Over(hs: Hs) {
    hs.wait.Error? || (IsDone(hs) && hs.wait.Ok?)
  }

  /** A retried step changes nothing but what it waits for. */
  predicate OnlyWaits(hs: Hs, retried: Hs, straight: Hs) {
    retried == straight || (IsRetry(retried.wait) && retried == Stop(hs, retried.wait))
  }

  lemma ClientOnlyWaits(cfg: Config, hs: Hs)
    requires hs.state.Client?
    ensures OnlyWaits(hs, ClientDo(cfg, hs, Retry), ClientDo(cfg, hs, Proceed))
  {
    hide AddMessage, FreeBuffer, HandshakeClient.Say, ClientFinalFlight, DoReadServerHello, DoReadServerCertificate,
      DoReadCertificateStatus, DoReadServerKeyExchange, DoReadCertificateRequest, DoReadServerHelloDone,
        DoSendClientKeyExchange,
      DoFinishFlight, DoReadSessionTicket, HandshakeClient.DoProcessChangeCipherSpec, DoReadServerFinished;
  }

  /** The steps that ask a callback. */
  predicate Asks(s: ServerState) {
    s.ReadClientHello? || s.SelectCertificate? || s.SelectParameters? || s.SendServerKeyExchange?
      || s.VerifyClientCertificate?
    || s.ReadClientKeyExchange?
  }

  lemma ServerAsks(cfg: Config, hs: Hs)
    requires hs.state.Server? && Asks(hs.state.server)
    ensures OnlyWaits(hs, ServerDo(cfg, hs, Retry), ServerDo(cfg, hs, Proceed))
  {
    hide AddMessage, Hash, FreeBuffer, NextMessage, HandshakeServer.Say;
  }

  lemma ServerOnlyWaits(cfg: Config, hs: Hs)
    requires hs.state.Server?
    ensures OnlyWaits(hs, ServerDo(cfg, hs, Retry), ServerDo(cfg, hs, Proceed))
  {
    if Asks(hs.state.server) {
      ServerAsks(cfg, hs);
      hide ServerDo;
    } else {
      hide AddMessage, Hash, FreeBuffer, HandshakeServer.Say, DoSendServerHello, DoSendServerCertificate,
        DoSendServerHelloDone,
        DoReadClientCertificate, DoReadClientCertificateVerify, HandshakeServer.DoProcessChangeCipherSpec,
          DoReadNextProto,
        DoReadChannelId, DoReadClientFinished, DoSendServerFinished, DoReadClientHello, DoSelectCertificate,
          DoSelectParameters,
        DoSendServerKeyExchange, DoVerifyClientCertificate, DoReadClientKeyExchange;
    }
  }

  lemma ProceedNeverRetries(cfg: Config, hs: Hs)
    ensures !IsRetry(Do(cfg, hs, Proceed).wait)
  {
    StepDescends(cfg, hs, Proceed);
    hide Do, Rank;
  }

  lemma DoOnlyWaits(cfg: Config, hs: Hs)
    ensures OnlyWaits(hs, Do(cfg, hs, Retry), Do(cfg, hs, Proceed))
  {
    hide ClientDo, ServerDo, OnlyWaits;
    if hs.state.Client? {
      ClientOnlyWaits(cfg, hs);
    } else {
      ServerOnlyWaits(cfg, hs);
    }
  }

  lemma MicroOnlyWaits(cfg: Config, l: Link, ans: Answer)
    requires !ans.Fail?
    ensures var l' := Micro(cfg, l, ans);
            Calm(l') == Calm(l) || Calm(l') == Micro(cfg, Calm(l), Proceed)
  {
    hide Do;
    if l.hs.wait.Ok? {
      ProceedNeverRetries(cfg, l.hs);
      DoOnlyWaits(cfg, l.hs);
    }
  }

  /** Every run is, up to the retry it may be in, a run that was never told to retry. */
  lemma {:induction false} RetriesAreInvisible(cfg: Config, l: Link, answers: seq<Answer>) returns (n: nat)
    requires Fail !in answers
    ensures Calm(Turns(cfg, l, answers)) == Straight(cfg, Calm(l), n)
    decreases |answers|
  {
    hide Micro, Calm;
    if answers == [] {
      n := 0;
    } else {
      var l' := Micro(cfg, l, answers[0]);
      var k := RetriesAreInvisible(cfg, l', answers[1..]);
      MicroOnlyWaits(cfg, l, answers[0]);
      n := if Calm(l') == Calm(l) then k else k + 1;
    }
  }

  lemma OverStays(cfg: Config, l: Link)
    requires Over(l.hs)
    ensures Micro(cfg, l, Proceed) == l && Calm(l) == l
  {
    hide Hash, FreeBuffer, AddMessage, NextMessage, Buffered, FinishedOk;
  }

  lemma {:induction false} StraightStays(cfg: Config, l: Link, n: nat)
    requires Over(l.hs)
    ensures Straight(cfg, l, n) == l
    decreases n
  {
    hide Micro, Over;
    if n > 0 {
      OverStays(cfg, l);
      StraightStays(cfg, l, n - 1);
    }
  }

  lemma {:induction false} StraightThen(cfg: Config, l: Link, n: nat, k: nat)
    ensures Straight(cfg, l, n + k) == Straight(cfg, Straight(cfg, l, n), k)
    decreases n
  {
    hide Micro;
    if n > 0 {
      StraightThen(cfg, Micro(cfg, l, Proceed), n - 1, k);
    }
  }

  /** Two runs over the same inbound records that both end, done or failed, end in the
      same handshake object with the same records sent and the same records unread,
      whatever each was told at every turn. */
  lemma EndedRunsCoincide(cfg: Config, l: Link, one: seq<Answer>, two: seq<Answer>)
    requires Fail !in one && Fail !in two
    requires Over(Turns(cfg, l, one).hs) && Over(Turns(cfg, l, two).hs)
    ensures Turns(cfg, l, one) == Turns(cfg, l, two)
  {
    hide Micro, Over;
    var n := RetriesAreInvisible(cfg, l, one);
    var k := RetriesAreInvisible(cfg, l, two);
    var a, b := Turns(cfg, l, one), Turns(cfg, l, two);
    OverStays(cfg, a);
    OverStays(cfg, b);
    if n <= k {
      StraightThen(cfg, Calm(l), n, k - n);
      StraightStays(cfg, a, k - n);
    } else {
      StraightThen(cfg, Calm(l), k, n - k);
      StraightStays(cfg, b, n - k);
    }
  }
}
