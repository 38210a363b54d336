/**
 The loops themselves: ssl_server_handshake / ssl_client_handshake, which step a machine
 until it must wait, and ssl_run_handshake, which resolves the wait and steps it again.
 */
module HandshakeLoop {
  import opened Basics
  import opened HandshakeTypes
  import opened HandshakeDriver
  import opened HandshakeDescent
  import opened HandshakeObject

  /** How ssl_run_handshake returns. */
  datatype Status = Completed | Failed | NotReady | Early

  function Slice(oracle: nat -> Answer, from: nat, to: nat): (s: seq<Answer>)
    requires from <= to
    ensures |s| == to - from
  {
    seq(to - from, i requires 0 <= i => oracle(from + i))
  }

  lemma {:induction false} TurnsThen(cfg: Config, l: Link, a: seq<Answer>, b: seq<Answer>)
    ensures Turns(cfg, l, a + b) == Turns(cfg, Turns(cfg, l, a), b)
    decreases |a|
  {
    hide Micro;
    if a == [] {
      assert a + b == b;
    } else {
      assert (a + b)[1..] == a[1..] + b;
      TurnsThen(cfg, Micro(cfg, l, a[0]), a[1..], b);
    }
  }

  /** One more turn, answered by the oracle. */
  lemma OneMore(cfg: Config, l: Link, oracle: nat -> Answer, from: nat, to: nat)
    requires from <= to
    ensures Turns(cfg, l, Slice(oracle, from, to + 1)) == Micro(cfg, Turns(cfg, l, Slice(oracle, from, to)), oracle(to))
  {
    hide Micro;
    var s := Slice(oracle, from, to);
    assert Slice(oracle, from, to + 1) == s + [oracle(to)];
    TurnsThen(cfg, l, s, [oracle(to)]);
    assert [oracle(to)][1..] == [];
  }

  /** How a wait for the transport ends. */
  datatype Resolved = Ready | Blocked | Unreadable

  class Connection {
    const hs: Handshake
    var inbox: seq<Record>
    var sent: seq<Record>
    /** ssl_set_read_error: a record could not be read, and no read will be tried again. */
    var readError: bool

    predicate Valid()
      reads this, hs
    {
      readError ==> hs.wait.NeedMessage? || hs.wait.NeedChangeCipherSpec?
    }

    constructor (cfg: Config, server: bool, input: seq<Record>)
      ensures Valid() && Now() == Link(NewHandshake(cfg, server), input, []) && fresh(hs)
    {
      hs := new Handshake(cfg, server);
      inbox, sent, readError := input, [], false;
    }

    /** The side as turns are specified on: a read error leaves the machine waiting, and is an
        error all the same. */
    function Now(): Link
      reads this, hs
    {
      Link(if readError then Stop(hs.Now(), Error) else hs.Now(), inbox, sent)
    }

    /** One step of either machine. */
    method Turn(cfg: Config, ans: Answer)
      requires !readError && hs.wait.Ok? && !IsDone(hs.Now())
      modifies hs
      ensures Now() == Micro(cfg, old(Now()), ans)
      ensures hs.wait.Ok? ==> Rank(cfg, hs.state) < old(Rank(cfg, hs.state))
      ensures Weight(cfg, hs.Now()) <= old(Weight(cfg, hs.Now())) + 1
      ensures !IsRetry(hs.wait) ==> Weight(cfg, hs.Now()) < old(Weight(cfg, hs.Now()))
    {
      hide Rank, HandshakeClient.ClientDo, HandshakeServer.ServerDo, Weight;
      StepLightens(cfg, hs.Now(), ans);
      if hs.state.Client? {
        hs.ClientStep(cfg, ans);
      } else {
        hs.ServerStep(cfg, ans);
      }
    }

    /** The state loop: it ends although resumption jumps back, either done or with
        something to wait for, and is so many turns of the specification. */
    method DoHandshake(cfg: Config, oracle: nat -> Answer, from: nat) returns (to: nat)
      requires !readError && hs.wait.Ok?
      modifies hs
      ensures from <= to && Now() == Turns(cfg, old(Now()), Slice(oracle, from, to))
      ensures hs.wait.Ok? ==> IsDone(hs.Now())
      ensures IsDone(old(hs.Now())) ==> hs.Now() == old(hs.Now())
      ensures Weight(cfg, hs.Now()) <= old(Weight(cfg, hs.Now())) + 1
      ensures !IsDone(old(hs.Now())) && !IsRetry(hs.wait) ==> Weight(cfg, hs.Now()) < old(Weight(cfg, hs.Now()))
    {
      to := from;
      assert Turns(cfg, Now(), Slice(oracle, from, from)) == Now();
      hide Turns, Micro, Rank, Weight;
      while hs.state != Client(ClientDone) && hs.state != Server(ServerDone)
        invariant from <= to && hs.wait.Ok? && (IsDone(old(hs.Now())) ==> hs.Now() == old(hs.Now()))
        invariant Now() == Turns(cfg, old(Now()), Slice(oracle, from, to))
        invariant Weight(cfg, hs.Now()) <= old(Weight(cfg, hs.Now()))
        invariant to > from ==> Weight(cfg, hs.Now()) < old(Weight(cfg, hs.Now()))
        decreases Rank(cfg, hs.state)
      {
        OneMore(cfg, old(Now()), oracle, from, to);
        Turn(cfg, oracle(to));
        to := to + 1;
        if !hs.wait.Ok? {
          return;
        }
      }
    }

    /** Resolves what the machine waits for, if the transport allows. After a record that cannot
        be read, every later read fails too, with nothing taken. */
    method Resolve(cfg: Config, ans: Answer) returns (r: Resolved)
      requires Valid() && (hs.wait.Flush? || hs.wait.NeedMessage? || hs.wait.NeedChangeCipherSpec?)
      modifies this, hs
      ensures Valid() && (!r.Blocked? ==> Now() == Micro(cfg, old(Now()), ans))
      ensures r.Ready? ==> !old(readError) && !readError && hs.wait.Ok?
      ensures r.Unreadable? ==> readError && hs.Now() == old(hs.Now())
      ensures r.Blocked? ==> Now() == old(Now()) && hs.Now() == old(hs.Now()) && !readError
      ensures r.Blocked? ==> ans.Retry? || (inbox == [] && !hs.wait.Flush?)
    {
      if readError {
        return Unreadable;
      }
      if ans.Retry? || (inbox == [] && !hs.wait.Flush?) {
        return Blocked;
      }
      if hs.wait.Flush? {
        sent := sent + hs.pending;
        hs.pending, hs.wait := [], Ok;
        return Ready;
      }
      r := ReadRecord();
    }

    method ReadRecord() returns (r: Resolved)
      requires Valid() && !readError && inbox != [] && (hs.wait.NeedMessage? || hs.wait.NeedChangeCipherSpec?)
      modifies this, hs
      ensures Valid() && !r.Blocked?
      ensures Now() == if old(hs.wait).NeedMessage? then ReadHandshake(old(Now())) else ReadCcs(old(Now()))
      ensures r.Ready? ==> !readError && hs.wait.Ok?
      ensures r.Unreadable? ==> readError && hs.Now() == old(hs.Now())
    {
      var record := inbox[0];
      inbox := inbox[1..];
      if hs.wait.NeedMessage? && record.Handshake? && record.env.epoch == hs.readEpoch {
        hs.msg, hs.wait := Some(record.env), Ok;
        return Ready;
      }
      if hs.wait.NeedChangeCipherSpec? && record.ChangeCipherSpec? && record.epoch == hs.readEpoch {
        hs.wait := Ok;
        return Ready;
      }
      readError := true;
      return Unreadable;
    }

    /** The first half of ssl_run_handshake's loop: None when the machine can go on. */
    method Await(cfg: Config, ans: Answer) returns (r: Option<Status>, turns: nat)
      requires Valid()
      modifies this, hs
      ensures Valid() && turns <= 1 && Now() == if turns == 0 then old(Now()) else Micro(cfg, old(Now()), ans)
      ensures r.Some? ==> !r.value.Completed? && (r.value.Failed? <==> Now().hs.wait.Error?)
      ensures r.None? ==>
                && !readError && hs.wait.Ok? && Weight(cfg, hs.Now()) <= old(Weight(cfg, hs.Now()))
                && !old(IsRetry(hs.wait)) && !old(hs.wait.EarlyReturn?)
    {
      hide Micro, Weight;
      ghost var before := Now();
      if hs.wait.Error? {
        return Some(Failed), 0;
      }
      if IsRetry(hs.wait) || hs.wait.EarlyReturn? {
        GoesOn(cfg, before, ans);
        r := Some(if hs.wait.EarlyReturn? then Early else NotReady);
        hs.wait := Ok;
        return r, 1;
      }
      if hs.wait.Ok? {
        return None, 0;
      }
      var ready := Resolve(cfg, ans);
      if ready.Blocked? {
        return Some(NotReady), 0;
      }
      if ready.Unreadable? {
        return Some(Failed), 1;
      }
      StaysReady(cfg, before, ans);
      return None, 1;
    }

    /** One round of ssl_run_handshake's loop; None when there is to be another. */
    method Round(cfg: Config, oracle: nat -> Answer, from: nat) returns (to: nat, r: Option<Status>)
      requires Valid()
      modifies this, hs
      ensures Valid() && from <= to && Now() == Turns(cfg, old(Now()), Slice(oracle, from, to))
      ensures r.Some? ==> (r.value.Completed? ==> IsDone(hs.Now()) && hs.wait.Ok?)
                          && (r.value.Failed? <==> Now().hs.wait.Error?)
      ensures r.None? ==> !old(IsRetry(hs.wait) || hs.wait.EarlyReturn?)
      ensures r.None? && !IsRetry(hs.wait) && !hs.wait.EarlyReturn? ==>
                Weight(cfg, hs.Now()) < old(Weight(cfg, hs.Now()))
    {
      assert Now() == Turns(cfg, Now(), Slice(oracle, from, from));
      OneMore(cfg, Now(), oracle, from, from);
      hide Turns, Micro, Weight, IsDone;
      var turns;
      r, turns := Await(cfg, oracle(from));
      to := from + turns;
      if r.Some? {
        return;
      }
      ghost var mid := to;
      to := DoHandshake(cfg, oracle, to);
      Appended(cfg, old(Now()), oracle, from, mid, to);
      if hs.wait.Error? {
        r := Some(Failed);
      } else if hs.wait.Ok? {
        r := Some(Completed);
      }
    }

    /** One call of ssl_run_handshake: it returns, and everything it did is a sequence of
        turns, so the results about turns hold of any calls made to it. */
    method RunHandshake(cfg: Config, oracle: nat -> Answer, from: nat) returns (to: nat, status: Status)
      requires Valid()
      modifies this, hs
      ensures Valid() && from <= to && Now() == Turns(cfg, old(Now()), Slice(oracle, from, to))
      ensures status.Completed? ==> IsDone(hs.Now()) && hs.wait.Ok?
      ensures status.Failed? <==> Now().hs.wait.Error?
    {
      to := from;
      assert Now() == Turns(cfg, old(Now()), Slice(oracle, from, to));
      hide Turns, Weight, IsDone, IsRetry, Valid, Now;
      while true
        invariant Valid() && from <= to && Now() == Turns(cfg, old(Now()), Slice(oracle, from, to))
        decreases !(IsRetry(hs.wait) || hs.wait.EarlyReturn?), Weight(cfg, hs.Now())
      {
        ghost var mid := to;
        var r;
        to, r := Round(cfg, oracle, to);
        Appended(cfg, old(Now()), oracle, from, mid, to);
        if r.Some? {
          return to, r.value;
        }
      }
    }
  }

  /** Told to try again, or returning early, the machine goes on with the next call. */
  lemma GoesOn(cfg: Config, l: Link, ans: Answer)
    requires IsRetry(l.hs.wait) || l.hs.wait.EarlyReturn?
    ensures Micro(cfg, l, ans) == l.(hs := Stop(l.hs, Ok))
  {
  }

  /** Resolving a wait does not make the side heavier. */
  lemma StaysReady(cfg: Config, l: Link, ans: Answer)
    requires l.hs.wait.Flush? || l.hs.wait.NeedMessage? || l.hs.wait.NeedChangeCipherSpec?
    requires Micro(cfg, l, ans).hs.wait.Ok?
    ensures Weight(cfg, Micro(cfg, l, ans).hs) <= Weight(cfg, l.hs)
  {
    hide Rank;
  }

  lemma Appended(cfg: Config, l: Link, oracle: nat -> Answer, from: nat, mid: nat, to: nat)
    requires from <= mid <= to
    ensures Turns(cfg, Turns(cfg, l, Slice(oracle, from, mid)), Slice(oracle, mid, to))
            == Turns(cfg, l, Slice(oracle, from, to))
  {
    hide Turns;
    assert Slice(oracle, from, to) == Slice(oracle, from, mid) + Slice(oracle, mid, to);
    TurnsThen(cfg, l, Slice(oracle, from, mid), Slice(oracle, mid, to));
  }
}
