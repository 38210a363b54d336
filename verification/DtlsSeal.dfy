/** Numbers on sealed records: two epochs, two counters (dtls_record.cc, dtls_method.cc). */
module DtlsSeal {
  import opened Basics
  import opened DtlsReplay

  /** One sealing counter over its epoch: the next number, and whether the counter has come
      round, which the seal that used the last number reported as a failure. */
  datatype Counter = Counter(next: nat, overflowed: bool)

  /** A seal whose cipher may refuse, or whose output may not fit a record; or new keys. */
  datatype Event = Seal(previous: bool, aeadOk: bool, fits: bool) | ChangeKeys

  /** Every change of write keys begins a generation; the epoch on the wire is its low 16 bits.
      `sealed` are the (generation, number) pairs the ciphers have sealed under. */
  datatype State = State(generation: nat, current: Counter, last: Counter, sealed: set<(nat, nat)>)

  /** w_epoch, 16 bits wide. */
  function Epoch(generation: nat): (e: nat)
    ensures e < 0x1_0000
  {
    generation % 0x1_0000
  }

  /** The 64-bit number in the header of a record. */
  function OnWire(p: (nat, nat)): nat {
    Epoch(p.0) * TWO_48 + p.1
  }

  predicate Plausible(c: Counter) {
    c.next < TWO_48
  }

  /** ssl_record_sequence_update on the six low bytes. */
  function Bump(c: Counter): Counter
    requires Plausible(c)
  {
    if c.next + 1 == TWO_48 then Counter(0, true) else Counter(c.next + 1, c.overflowed)
  }

  function GenerationOf(s: State, previous: bool): nat
    requires previous ==> s.generation >= 1
  {
    if previous then s.generation - 1 else s.generation
  }

  function CounterOf(s: State, previous: bool): Counter {
    if previous then s.last else s.current
  }

  /** The previous epoch is asked for only where there is one before the present one. */
  predicate Possible(s: State, e: Event) {
    Plausible(s.current) && Plausible(s.last) && (e.Seal? && e.previous ==> Epoch(s.generation) >= 1)
  }

  /** The pair a seal uses, when the cipher does its part. */
  function Used(s: State, e: Event): Option<(nat, nat)>
    requires Possible(s, e)
  {
    if e.Seal? && e.aeadOk then Some((GenerationOf(s, e.previous), CounterOf(s, e.previous).next)) else None
  }

  /** dtls_seal_record succeeds if besides the counter does not come round and the result
      fits. */
  predicate Succeeds(s: State, e: Event)
    requires Possible(s, e)
  {
    e.Seal? && e.aeadOk && CounterOf(s, e.previous).next + 1 < TWO_48 && e.fits
  }

  function Step(s: State, e: Event): State
    requires Possible(s, e)
  {
    match e
    case ChangeKeys => State(s.generation + 1, Counter(0, false), s.current, s.sealed)
    case Seal(previous, aeadOk, _) =>
      if !aeadOk then s
      else if previous then s.(last := Bump(s.last), sealed := s.sealed + {Used(s, e).value})
      else s.(current := Bump(s.current), sealed := s.sealed + {Used(s, e).value})
  }

  /** In its generation a counter has used every number below it, and no other; once it has come
      round, every number there is. */
  ghost predicate Accounts(sealed: set<(nat, nat)>, generation: nat, c: Counter) {
    && Plausible(c)
    && forall n: nat :: (generation, n) in sealed <==> n < if c.overflowed then TWO_48 else c.next
  }

  ghost predicate Valid(s: State) {
    && Plausible(s.current) && Plausible(s.last) && Accounts(s.sealed, s.generation, s.current)
    && (s.generation >= 1 ==> Accounts(s.sealed, s.generation - 1, s.last))
    && forall p | p in s.sealed :: p.0 <= s.generation && p.1 < TWO_48
  }

  function Start(): State {
    State(0, Counter(0, false), Counter(0, false), {})
  }

  lemma StepKeeps(s: State, e: Event)
    requires Valid(s) && Possible(s, e)
    ensures Valid(Step(s, e))
  {
    var s' := Step(s, e);
    if e.ChangeKeys? {
      assert forall p | p in s.sealed :: p.0 != s.generation + 1;
    }
  }

  /** A seal repeats a (generation, number) pair if and only if the counter it uses has come
      round before. */
  lemma RepeatsIffOverflowed(s: State, e: Event)
    requires Valid(s) && Possible(s, e) && Used(s, e).Some?
    ensures Used(s, e).value in s.sealed <==> CounterOf(s, e.previous).overflowed
  {
  }

  // Whole runs.

  predicate PossibleRun(s: State, events: seq<Event>)
    decreases |events|
  {
    events == [] || (Possible(s, events[0]) && PossibleRun(Step(s, events[0]), events[1..]))
  }

  function Run(s: State, events: seq<Event>): State
    requires PossibleRun(s, events)
    decreases |events|
  {
    if events == [] then s else Run(Step(s, events[0]), events[1..])
  }

  /** The pairs a run seals under, in order. */
  function Seals(s: State, events: seq<Event>): seq<(nat, nat)>
    requires PossibleRun(s, events)
    decreases |events|
  {
    if events == [] then []
    else
      var rest := Seals(Step(s, events[0]), events[1..]);
      if Used(s, events[0]).Some? then [Used(s, events[0]).value] + rest else rest
  }

  /** No seal of the run brings its counter round. */
  predicate NoOverflow(s: State, events: seq<Event>)
    requires PossibleRun(s, events)
    decreases |events|
  {
    events == [] ||
    ((events[0].Seal? && events[0].aeadOk ==> CounterOf(s, events[0].previous).next + 1 < TWO_48)
     && NoOverflow(Step(s, events[0]), events[1..]))
  }

  ghost predicate AllNew(q: seq<(nat, nat)>, sealed: set<(nat, nat)>) {
    && (forall i: nat | i < |q| :: q[i] !in sealed)
    && (forall i: nat, j: nat | i < j < |q| :: q[i] != q[j])
  }

  lemma OneMoreNew(p: (nat, nat), q: seq<(nat, nat)>, sealed: set<(nat, nat)>)
    requires p !in sealed && AllNew(q, sealed + {p})
    ensures AllNew([p] + q, sealed)
  {
    var r := [p] + q;
    forall i: nat | i < |r| ensures r[i] !in sealed && (i > 0 ==> r[i] != p) {
      if i > 0 {
        assert r[i] == q[i - 1] && q[i - 1] !in sealed + {p};
      }
    }
  }

  lemma {:induction false} SealsAreNew(s: State, events: seq<Event>)
    requires Valid(s) && PossibleRun(s, events) && NoOverflow(s, events)
    requires !s.current.overflowed && (s.generation >= 1 ==> !s.last.overflowed)
    ensures AllNew(Seals(s, events), s.sealed)
    decreases |events|
  {
    if events != [] {
      var e := events[0];
      var s' := Step(s, e);
      StepKeeps(s, e);
      SealsAreNew(s', events[1..]);
      hide AllNew, Valid;
      if Used(s, e).Some? {
        RepeatsIffOverflowed(s, e);
        OneMoreNew(Used(s, e).value, Seals(s', events[1..]), s.sealed);
      }
    }
  }

  lemma {:induction false} SealsInRange(s: State, events: seq<Event>)
    requires Valid(s) && PossibleRun(s, events)
    ensures forall i: nat | i < |Seals(s, events)| :: Seals(s, events)[i].1 < TWO_48
    decreases |events|
  {
    if events != [] {
      StepKeeps(s, events[0]);
      SealsInRange(Step(s, events[0]), events[1..]);
    }
  }

  /** Over every interleaving of sealing in both epochs and key changes, of any length, no two
      seals are under the same keys and the same number, as long as no counter comes round.
      Nor do two records then have the same number on the wire, except in generations that
      share their low 16 bits. */
  lemma NumbersNeverRepeat(events: seq<Event>)
    requires PossibleRun(Start(), events) && NoOverflow(Start(), events)
    ensures var q := Seals(Start(), events);
            forall i: nat, j: nat | i < j < |q| ::
              q[i] != q[j] && (OnWire(q[i]) == OnWire(q[j]) <==> q[i].1 == q[j].1 && Epoch(q[i].0) == Epoch(q[j].0))
  {
    SealsAreNew(Start(), events);
    SealsInRange(Start(), events);
  }

  /** Past the failed seal the code goes on and repeats itself: nothing latches the error. */
  lemma AfterOverflowZeroComesAgain(s: State)
    requires Valid(s) && s.current == Counter(TWO_48 - 1, false)
    ensures var e := Seal(false, true, true);
            && !Succeeds(s, e) && Possible(Step(s, e), e) && Succeeds(Step(s, e), e)
            && Used(Step(s, e), e) == Some((s.generation, 0)) && (s.generation, 0) in s.sealed
  {
  }
}
