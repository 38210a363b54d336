/** Saturating reference counts: the locked version (crypto/refcount_lock.c) is the
    specification; the compare-and-swap loops (crypto/refcount_c11.c) run as a machine whose
    every interleaving linearizes to it. */
module RefCount {
  import opened Basics

  const MAX: nat := 0xFFFF_FFFF

  datatype Op = Inc | Dec

  datatype Outcome = Counted | Dropped(zero: bool) | Aborted

  function After(op: Op, n: nat): nat {
    if n == MAX || (op.Dec? && n == 0) then n else if op.Inc? then n + 1 else n - 1
  }

  function Result(op: Op, n: nat): Outcome {
    if op.Inc? then Counted else if n == 0 then Aborted else Dropped(n == 1)
  }

  // The locked version.

  class LockedCount {
    var count: nat

    ghost predicate Valid()
      reads this
    {
      count <= MAX
    }

    constructor (n: nat)
      requires n <= MAX
      ensures Valid() && count == n
    {
      count := n;
    }

    method Inc()
      requires Valid()
      modifies this
      ensures Valid() && count == After(Op.Inc, old(count))
    {
      if count < MAX {
        count := count + 1;
      }
    }

    /** None where the program aborts. */
    method DecAndTestZero() returns (zero: Option<bool>)
      requires Valid()
      modifies this
      ensures Valid() && count == After(Dec, old(count))
      ensures Result(Dec, old(count)) == if zero.None? then Aborted else Dropped(zero.value)
    {
      if count == 0 {
        return None;
      }
      if count < MAX {
        count := count - 1;
      }
      return Some(count == 0);
    }
  }

  // Sequences of operations on it.

  datatype Event = Event(thread: nat, op: Op, outcome: Outcome)

  function Replay(n: nat, log: seq<Event>): nat {
    if log == [] then n else After(log[|log| - 1].op, Replay(n, log[..|log| - 1]))
  }

  ghost predicate Legal(n: nat, log: seq<Event>) {
    forall i | 0 <= i < |log| :: log[i].outcome == Result(log[i].op, Replay(n, log[..i]))
  }

  function Count(op: Op, log: seq<Event>): nat {
    if log == [] then 0 else Count(op, log[..|log| - 1]) + if log[|log| - 1].op == op then 1 else 0
  }

  function Zeros(log: seq<Event>): nat {
    if log == [] then 0 else Zeros(log[..|log| - 1]) + if log[|log| - 1].outcome == Dropped(true) then 1 else 0
  }

  /** Saturation, at the largest number of 32 bits, is permanent, and a saturated count never
      reports zero. */
  lemma {:induction false} SaturationIsPermanent(n: nat, log: seq<Event>, i: nat)
    requires i <= |log| && Replay(n, log[..i]) == 0xFFFF_FFFF && Legal(n, log)
    ensures Replay(n, log) == 0xFFFF_FFFF
    ensures forall j | i <= j < |log| :: log[j].outcome != Dropped(true) && log[j].outcome != Aborted
    decreases |log|
  {
    hide Replay, Legal;
    if i == |log| {
      assert log[..i] == log;
    } else {
      var front := log[..|log| - 1];
      LastOutcome(n, log);
      assert front[..i] == log[..i];
      Prefixes(n, log, |log| - 1);
      SaturationIsPermanent(n, front, i);
      forall j | i <= j < |log| ensures log[j].outcome != Dropped(true) && log[j].outcome != Aborted {
        assert j < |log| - 1 ==> front[j] == log[j];
      }
    }
  }

  lemma LastOutcome(n: nat, log: seq<Event>)
    requires log != [] && Legal(n, log)
    ensures var e, before := log[|log| - 1], Replay(n, log[..|log| - 1]);
            e.outcome == Result(e.op, before) && Replay(n, log) == After(e.op, before)
  {
  }

  lemma Prefixes(n: nat, log: seq<Event>, k: nat)
    requires Legal(n, log) && k <= |log|
    ensures Legal(n, log[..k])
  {
    forall i | 0 <= i < k ensures log[..k][i].outcome == Result(log[..k][i].op, Replay(n, log[..k][..i])) {
      assert log[..k][..i] == log[..i];
    }
  }

  /** The count never saturates, and nobody takes a reference when there is none left. */
  ghost predicate Disciplined(n: nat, log: seq<Event>) {
    forall i | 0 <= i < |log| ::
      Replay(n, log[..i]) < MAX && (log[i].op.Inc? ==> 0 < Replay(n, log[..i]) < MAX - 1)
  }

  /** With disciplined use no update is lost, and exactly one decrement reports zero once all
      references are gone, none before; one more aborts. */
  lemma {:induction false} ExactlyOneZero(n: nat, log: seq<Event>)
    requires 0 < n < MAX && Legal(n, log) && Disciplined(n, log)
    requires forall i | 0 <= i < |log| :: log[i].outcome != Aborted
    ensures Replay(n, log) == n + Count(Inc, log) - Count(Dec, log)
    ensures Zeros(log) == if Replay(n, log) == 0 then 1 else 0
    ensures forall i | 0 <= i < |log| :: log[i].outcome == Dropped(true) ==> i == |log| - 1
    decreases |log|
  {
    if log != [] {
      var front := log[..|log| - 1];
      Prefixes(n, log, |log| - 1);
      forall i | 0 <= i < |front|
        ensures Replay(n, front[..i]) < MAX && (front[i].op.Inc? ==> 0 < Replay(n, front[..i]) < MAX - 1)
      {
        assert front[..i] == log[..i];
      }
      ExactlyOneZero(n, front);
      OnlyLastIsZero(n, log);
      LastOutcome(n, log);
      assert Replay(n, front) < MAX && (log[|log| - 1].op.Inc? ==> Replay(n, front) < MAX - 1);
      hide Replay, Legal, Disciplined;
    }
  }

  /** After a zero there is nothing left to count. */
  lemma OnlyLastIsZero(n: nat, log: seq<Event>)
    requires log != [] && Legal(n, log) && Disciplined(n, log)
             && (forall i | 0 <= i < |log| :: log[i].outcome != Aborted)
    ensures Replay(n, log[..|log| - 1]) > 0
    ensures forall i | 0 <= i < |log| - 1 :: log[i].outcome != Dropped(true)
  {
    assert Replay(n, log[..|log| - 1]) > 0;
    forall i | 0 <= i < |log| - 1 ensures log[i].outcome != Dropped(true) {
      assert Replay(n, log[..i + 1]) > 0 by {
        assert log[i + 1].outcome == Result(log[i + 1].op, Replay(n, log[..i + 1]));
      }
      assert log[..i + 1][..i] == log[..i];
    }
  }

  // The lock-free version: threads between their reads and their swaps.

  /** A thread in a call: the value it last read, how many operations had taken effect when it
      read it, and how many when the call began. */
  datatype Thread = Trying(op: Op, expected: nat, at: nat, since: nat)

  /** A call that has returned: it took effect at position at, while the call lasted. */
  datatype Call = Call(thread: nat, op: Op, outcome: Outcome, since: nat, at: nat, until: nat)

  datatype World = World(count: nat, threads: map<nat, Thread>, log: seq<Event>, calls: seq<Call>)

  datatype Action = Begin(thread: nat, op: Op) | Swap(thread: nat, spurious: bool) | Return(thread: nat)

  /** Reading this value decides the call without a swap. */
  predicate Settles(op: Op, n: nat) {
    n == MAX || (op.Dec? && n == 0)
  }

  predicate Enabled(w: World, a: Action) {
    match a
    case Begin(t, _) => t !in w.threads
    case Swap(t, _) => t in w.threads && !Settles(w.threads[t].op, w.threads[t].expected)
    case Return(t) => t in w.threads && Settles(w.threads[t].op, w.threads[t].expected)
  }

  /** atomic_load, or a failed compare-exchange, which reads too. */
  function Read(w: World, t: nat, op: Op, since: nat): World {
    w.(threads := w.threads[t := Trying(op, w.count, |w.log|, since)],
       log := if Settles(op, w.count) then w.log + [Event(t, op, Result(op, w.count))] else w.log)
  }

  function Step(w: World, a: Action): World
    requires Enabled(w, a)
  {
    match a
    case Begin(t, op) => Read(w, t, op, |w.log|)
    case Swap(t, spurious) =>
      var c := w.threads[t];
      if spurious || w.count != c.expected then Read(w, t, c.op, c.since)
      else
        var outcome := Result(c.op, c.expected);
        World(After(c.op, c.expected), w.threads - {t}, w.log + [Event(t, c.op, outcome)],
              w.calls + [Call(t, c.op, outcome, c.since, |w.log|, |w.log| + 1)])
    case Return(t) =>
      var c := w.threads[t];
      w.(threads := w.threads - {t},
         calls := w.calls + [Call(t, c.op, Result(c.op, c.expected), c.since, c.at, |w.log|)])
  }

  function Start(n: nat): World {
    World(n, map[], [], [])
  }

  ghost predicate Run(n: nat, ws: seq<World>, actions: seq<Action>) {
    && |ws| == |actions| + 1 && ws[0] == Start(n)
    && forall i | 0 <= i < |actions| :: Enabled(ws[i], actions[i]) && ws[i + 1] == Step(ws[i], actions[i])
  }

  // Linearizability.

  ghost predicate ThreadOk(n: nat, w: World, t: nat, c: Thread) {
    && c.since <= c.at <= |w.log| && c.expected == Replay(n, w.log[..c.at])
    && (Settles(c.op, c.expected) ==> c.at < |w.log| && w.log[c.at] == Event(t, c.op, Result(c.op, c.expected)))
  }

  ghost predicate CallOk(w: World, c: Call) {
    c.since <= c.at < c.until <= |w.log| && w.log[c.at] == Event(c.thread, c.op, c.outcome)
  }

  /** The operation that took effect at i belongs to a call that has returned, or is about to. */
  ghost predicate Owned(w: World, i: nat) {
    || (exists k :: 0 <= k < |w.calls| && w.calls[k].at == i)
    || (exists t :: t in w.threads && Settles(w.threads[t].op, w.threads[t].expected) && w.threads[t].at == i)
  }

  ghost predicate AllOwned(w: World) {
    forall i | 0 <= i < |w.log| :: Owned(w, i)
  }

  /** A thread's calls follow one another. */
  ghost predicate InOrder(w: World) {
    && (forall j, k | 0 <= j < k < |w.calls|
       && w.calls[j].thread == w.calls[k].thread :: w.calls[j].until <= w.calls[k].since)
    && (forall j | 0 <= j < |w.calls| && w.calls[j].thread in w.threads ::
          w.calls[j].until <= w.threads[w.calls[j].thread].since)
  }

  ghost predicate History(n: nat, w: World) {
    Legal(n, w.log) && Replay(n, w.log) == w.count <= MAX
  }

  ghost predicate ThreadsOk(n: nat, w: World) {
    forall t | t in w.threads :: ThreadOk(n, w, t, w.threads[t])
  }

  ghost predicate CallsOk(w: World) {
    forall k | 0 <= k < |w.calls| :: CallOk(w, w.calls[k])
  }

  /** The operations in the order they took effect are a legal history of the locked count, it
      ends in the present count, and each call took effect once, between its beginning and end. */
  ghost predicate Linearized(n: nat, w: World) {
    History(n, w) && ThreadsOk(n, w) && CallsOk(w) && AllOwned(w) && InOrder(w)
  }

  /** What one more operation at the end adds. */
  lemma Appended(n: nat, log: seq<Event>, e: Event)
    requires Legal(n, log) && e.outcome == Result(e.op, Replay(n, log))
    ensures Legal(n, log + [e]) && Replay(n, log + [e]) == After(e.op, Replay(n, log))
    ensures forall i | 0 <= i <= |log| :: (log + [e])[..i] == log[..i]
  {
    var more := log + [e];
    assert more[..|log|] == log;
    forall i | 0 <= i < |more| ensures more[i].outcome == Result(more[i].op, Replay(n, more[..i])) {
      assert more[..i] == log[..i];
    }
  }

  /** What a step does to the log: nothing, or one operation more. */
  lemma LogGrows(w: World, a: Action)
    requires Enabled(w, a)
    ensures var v := Step(w, a);
            || (v.log == w.log && v.count == w.count)
            || (|v.log| == |w.log| + 1 && v.log == w.log + [v.log[|w.log|]])
  {
  }

  lemma HistoryKept(n: nat, w: World, a: Action)
    requires Enabled(w, a) && History(n, w)
    ensures History(n, Step(w, a))
    ensures forall i | 0 <= i <= |w.log| :: Replay(n, Step(w, a).log[..i]) == Replay(n, w.log[..i])
  {
    var v := Step(w, a);
    LogGrows(w, a);
    if v.log != w.log {
      var e := v.log[|w.log|];
      assert e.outcome == Result(e.op, w.count) && v.count == After(e.op, w.count);
      Appended(n, w.log, e);
    }
    forall i | 0 <= i <= |w.log| ensures v.log[..i] == w.log[..i] {
    }
  }

  lemma ThreadsKept(n: nat, w: World, a: Action)
    requires Enabled(w, a) && History(n, w) && ThreadsOk(n, w)
    ensures ThreadsOk(n, Step(w, a))
  {
    var v := Step(w, a);
    HistoryKept(n, w, a);
    forall t | t in v.threads ensures ThreadOk(n, v, t, v.threads[t]) {
      if t == a.thread {
        ReaderOk(n, w, a);
      } else {
        OtherOk(n, w, a, t);
      }
    }
  }

  /** A thread that has just read. */
  lemma ReaderOk(n: nat, w: World, a: Action)
    requires Enabled(w, a) && History(n, w) && ThreadsOk(n, w) && a.thread in Step(w, a).threads
    requires Replay(n, Step(w, a).log[..|w.log|]) == Replay(n, w.log[..|w.log|])
    ensures ThreadOk(n, Step(w, a), a.thread, Step(w, a).threads[a.thread])
  {
    assert w.log[..|w.log|] == w.log;
    if a.Swap? {
      assert ThreadOk(n, w, a.thread, w.threads[a.thread]);
    }
    hide Replay, Result, After, Legal;
  }

  lemma OtherOk(n: nat, w: World, a: Action, t: nat)
    requires Enabled(w, a) && ThreadsOk(n, w) && t != a.thread && t in Step(w, a).threads
    requires forall i | 0 <= i <= |w.log| :: Replay(n, Step(w, a).log[..i]) == Replay(n, w.log[..i])
    ensures ThreadOk(n, Step(w, a), t, Step(w, a).threads[t])
  {
    LogGrows(w, a);
    assert t in w.threads && Step(w, a).threads[t] == w.threads[t];
    assert ThreadOk(n, w, t, w.threads[t]);
    hide Replay, Result, After, Legal, Step;
  }

  lemma CallsKept(n: nat, w: World, a: Action)
    requires Enabled(w, a) && ThreadsOk(n, w) && CallsOk(w)
    ensures CallsOk(Step(w, a))
  {
    var v := Step(w, a);
    LogGrows(w, a);
    hide Replay, Result, After;
    if !a.Begin? {
      assert ThreadOk(n, w, a.thread, w.threads[a.thread]);
    }
    forall k | 0 <= k < |v.calls| ensures CallOk(v, v.calls[k]) {
      if k < |w.calls| {
        assert CallOk(w, w.calls[k]);
      }
    }
  }

  lemma OrderKept(n: nat, w: World, a: Action)
    requires Enabled(w, a) && ThreadsOk(n, w) && CallsOk(w) && InOrder(w)
    ensures InOrder(Step(w, a))
  {
    var v := Step(w, a);
    hide Replay, Result, After;
    forall k | 0 <= k < |w.calls| ensures w.calls[k].until <= |w.log| {
      assert CallOk(w, w.calls[k]);
    }
  }

  lemma OwnersKept(w: World, a: Action)
    requires Enabled(w, a) && AllOwned(w)
    ensures AllOwned(Step(w, a))
  {
    var v := Step(w, a);
    LogGrows(w, a);
    hide Result, After;
    forall i | 0 <= i < |v.log| ensures Owned(v, i) {
      if i < |w.log| {
        assert Owned(w, i);
        OwnerKept(w, a, i);
      } else if a.Swap? && !a.spurious && w.count == w.threads[a.thread].expected {
        assert v.calls[|w.calls|].at == i;
      } else {
        assert a.thread in v.threads && v.threads[a.thread].at == i;
      }
    }
  }

  lemma OwnerKept(w: World, a: Action, i: nat)
    requires Enabled(w, a) && Owned(w, i)
    ensures Owned(Step(w, a), i)
  {
    var v := Step(w, a);
    hide Result, After;
    if k :| 0 <= k < |w.calls| && w.calls[k].at == i {
      assert v.calls[k] == w.calls[k];
    } else {
      var t :| t in w.threads && Settles(w.threads[t].op, w.threads[t].expected) && w.threads[t].at == i;
      if a.Return? && a.thread == t {
        assert v.calls[|w.calls|].at == i;
      } else {
        assert t in v.threads && v.threads[t] == w.threads[t];
      }
    }
  }

  lemma StepLinearized(n: nat, w: World, a: Action)
    requires Enabled(w, a) && Linearized(n, w)
    ensures Linearized(n, Step(w, a))
  {
    hide Enabled, Step, History, ThreadsOk, CallsOk, AllOwned, InOrder;
    HistoryKept(n, w, a);
    ThreadsKept(n, w, a);
    CallsKept(n, w, a);
    OrderKept(n, w, a);
    OwnersKept(w, a);
  }

  /** Different calls are different operations, and a call that ended before another began took
      effect before it. */
  ghost predicate CallsInOrder(w: World) {
    forall j, k | 0 <= j < |w.calls| && 0 <= k < |w.calls| ::
      && (j != k ==> w.calls[j].at != w.calls[k].at)
      && (w.calls[j].until <= w.calls[k].since ==> w.calls[j].at < w.calls[k].at)
  }

  /** Whatever the threads do and whenever swaps fail: the calls are the operations of a legal
      history of the locked count, in an order that keeps to theirs. */
  lemma RunsLinearize(n: nat, ws: seq<World>, actions: seq<Action>)
    requires n <= MAX && Run(n, ws, actions)
    ensures Linearized(n, ws[|actions|]) && CallsInOrder(ws[|actions|])
  {
    RunKeepsLinearized(n, ws, actions);
    var w := ws[|actions|];
    hide Run, History, ThreadsOk, AllOwned, Start;
    forall j | 0 <= j < |w.calls| ensures CallOk(w, w.calls[j]) {
    }
  }

  lemma {:induction false} RunKeepsLinearized(n: nat, ws: seq<World>, actions: seq<Action>)
    requires n <= MAX && Run(n, ws, actions)
    ensures Linearized(n, ws[|actions|])
    decreases |actions|
  {
    if actions == [] {
      assert [] == Start(n).log[..0];
    } else {
      var m := |actions| - 1;
      RunKeepsLinearized(n, ws[..m + 1], actions[..m]);
      assert ws[..m + 1][m] == ws[m];
      StepLinearized(n, ws[m], actions[m]);
    }
  }

  // What that gives the callers.

  /** Lock freedom: a swap that fails for a reason fails because another operation took effect
      since the read. */
  lemma FailuresAreProgress(n: nat, w: World, t: nat)
    requires Linearized(n, w) && t in w.threads && w.threads[t].expected != w.count
    ensures |w.log| > w.threads[t].at
  {
    assert ThreadOk(n, w, t, w.threads[t]);
    assert w.log[..|w.log|] == w.log;
  }

  /** With every reference taken once and dropped once, exactly one call is told it was the last. */
  lemma OneLastReference(n: nat, ws: seq<World>, actions: seq<Action>)
    requires 0 < n < MAX && Run(n, ws, actions)
    requires var w := ws[|actions|];
             && w.threads == map[] && Disciplined(n, w.log)
                && (forall k | 0 <= k < |w.calls| :: w.calls[k].outcome != Aborted)
    ensures var w := ws[|actions|];
            && w.count == n + Count(Inc, w.log) - Count(Dec, w.log)
            && (forall j, k | 0 <= j < k < |w.calls| ::
                  !(w.calls[j].outcome == w.calls[k].outcome == Dropped(true)))
            && (w.count == 0 <==> exists k :: 0 <= k < |w.calls| && w.calls[k].outcome == Dropped(true))
  {
    var w := ws[|actions|];
    RunsLinearize(n, ws, actions);
    hide Run, History, ThreadsOk, InOrder;
    AllReturned(n, w);
    ExactlyOneZero(n, w.log);
    ZeroIsThere(w.log);
    hide Disciplined, Count, Zeros, Replay;
    forall j, k | 0 <= j < k < |w.calls| ensures !(w.calls[j].outcome == w.calls[k].outcome == Dropped(true)) {
      assert CallOk(w, w.calls[j]) && CallOk(w, w.calls[k]);
    }
  }

  lemma AllReturned(n: nat, w: World)
    requires Linearized(n, w) && w.threads == map[] && (forall k | 0 <= k < |w.calls| :: w.calls[k].outcome != Aborted)
    ensures Legal(n, w.log) && Replay(n, w.log) == w.count
    ensures forall i | 0 <= i < |w.log| :: w.log[i].outcome != Aborted
    ensures (exists i :: 0 <= i < |w.log| && w.log[i].outcome == Dropped(true))
       <==> (exists k :: 0 <= k < |w.calls| && w.calls[k].outcome == Dropped(true))
  {
    hide Replay, Legal;
    forall i | 0 <= i < |w.log| ensures exists k :: 0 <= k < |w.calls| && w.log[i].outcome == w.calls[k].outcome {
      assert Owned(w, i);
      var k :| 0 <= k < |w.calls| && w.calls[k].at == i;
      assert CallOk(w, w.calls[k]);
    }
    forall k | 0 <= k < |w.calls| ensures exists i :: 0 <= i < |w.log| && w.log[i].outcome == w.calls[k].outcome {
      assert CallOk(w, w.calls[k]);
    }
  }

  lemma {:induction false} ZeroIsThere(log: seq<Event>)
    ensures Zeros(log) > 0 <==> exists i :: 0 <= i < |log| && log[i].outcome == Dropped(true)
    decreases |log|
  {
    if log != [] {
      var front := log[..|log| - 1];
      ZeroIsThere(front);
      forall i | 0 <= i < |front| ensures front[i] == log[i] {
      }
    }
  }
}
