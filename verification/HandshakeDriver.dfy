/**
 ssl_run_handshake over either machine: resolve what the handshake waits for, run
 the machine again. `Micro` is one turn of that loop, on a handshake object with its
 inbound records and the records it has put on the wire.
 */
module HandshakeDriver {
  import opened Basics
  import opened HandshakeTypes
  import HandshakeClient
  import HandshakeServer

  datatype Link = Link(hs: Hs, inbox: seq<Record>, sent: seq<Record>)

  function Do(cfg: Config, hs: Hs, ans: Answer): Hs {
    if hs.state.Client? then HandshakeClient.ClientDo(cfg, hs, ans)
    else HandshakeServer.ServerDo(cfg, hs, ans)
  }

  function Rank(cfg: Config, s: State): nat {
    if s.Client? then HandshakeClient.ClientRank(cfg, s.client)
    else HandshakeServer.ServerRank(cfg, s.server)
  }

  /** The message that has been read and not yet taken. */
  function Held(hs: Hs): seq<Record> {
    if hs.msg.Some? then [Handshake(hs.msg.value)] else []
  }

  /** Opening the next record under the current read keys. */
  function ReadHandshake(l: Link): Link
    requires l.inbox != []
  {
    var r := l.inbox[0];
    Link(if r.Handshake? && r.env.epoch == l.hs.readEpoch then l.hs.(msg := Some(r.env), wait := Ok)
         else Stop(l.hs, Error), l.inbox[1..], l.sent)
  }

  function ReadCcs(l: Link): Link
    requires l.inbox != []
  {
    var r := l.inbox[0];
    Link(Stop(l.hs, if r.ChangeCipherSpec? && r.epoch == l.hs.readEpoch then Ok else Error),
         l.inbox[1..], l.sent)
  }

  /** `Retry` at a flush or a read is a transport that is not ready. */
  function Micro(cfg: Config, l: Link, ans: Answer): Link {
    match l.hs.wait
    case Error => l
    case Flush =>
      if ans.Retry? then l
      else Link(l.hs.(pending := [], wait := Ok), l.inbox, l.sent + l.hs.pending)
    case NeedMessage => if ans.Retry? || l.inbox == [] then l else ReadHandshake(l)
    case NeedChangeCipherSpec => if ans.Retry? || l.inbox == [] then l else ReadCcs(l)
    case Ok => l.(hs := Do(cfg, l.hs, ans))
    case _ => l.(hs := Stop(l.hs, Ok))
  }

  /** The turns of one side, the callbacks and the transport answering as given. */
  function Turns(cfg: Config, l: Link, answers: seq<Answer>): Link
    decreases |answers|
  {
    if answers == [] then l else Turns(cfg, Micro(cfg, l, answers[0]), answers[1..])
  }
}
