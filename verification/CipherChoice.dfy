/** Which cipher suite the server picks: reading the client's list and ssl3_choose_cipher's
    single pass over equal-preference groups (handshake_server.cc). */
module CipherChoice {
  import opened Basics

  datatype Cipher = Cipher(id: nat, minVersion: nat, maxVersion: nat, mkey: bv32, auth: bv32)

  /** The protocol version and the two masks of ssl_get_compatible_server_ciphers. */
  datatype Policy = Policy(version: nat, maskK: bv32, maskA: bv32)

  /** The suites known to the library, by their value on the wire. */
  type Table = map<nat, Cipher>

  predicate Eligible(c: Cipher, p: Policy) {
    && c.minVersion <= p.version <= c.maxVersion
    && c.mkey & p.maskK != 0 && c.auth & p.maskA != 0
  }

  // The client's list.

  function U16(high: byte, low: byte): nat {
    var h: nat := high;
    0x100 * h + low
  }

  /** Known suites in order; a list with half a suite at its end is refused. */
  function ClientList(b: seq<byte>, known: Table): Option<seq<Cipher>>
    decreases |b|
  {
    if b == [] then Some([])
    else if |b| == 1 then None
    else
      var rest := ClientList(b[2..], known);
      var n := U16(b[0], b[1]);
      if rest.None? then None
      else Some((if n in known then [known[n]] else []) + rest.value)
  }

  lemma {:induction false} OddListsAreRefused(b: seq<byte>, known: Table)
    ensures ClientList(b, known).None? <==> |b| % 2 == 1
    decreases |b|
  {
    if |b| >= 2 {
      OddListsAreRefused(b[2..], known);
    }
  }

  method ParseClientCipherList(b: seq<byte>, known: Table) returns (list: Option<seq<Cipher>>)
    ensures list == ClientList(b, known)
  {
    var rest, ciphers := b, [];
    assert ClientList(b, known).Some? ==> [] + ClientList(b, known).value == ClientList(b, known).value;
    while |rest| > 0
      invariant ClientList(b, known)
             == if ClientList(rest, known).None? then None else Some(ciphers + ClientList(rest, known).value)
      decreases |rest|
    {
      if |rest| < 2 {
        return None;
      }
      var suite := U16(rest[0], rest[1]);
      ghost var later := ClientList(rest[2..], known);
      if suite in known {
        assert later.Some? ==> ciphers + ([known[suite]] + later.value) == ciphers + [known[suite]] + later.value;
        ciphers := ciphers + [known[suite]];
      } else {
        assert later.Some? ==> [] + later.value == later.value;
      }
      rest := rest[2..];
    }
    assert ciphers + [] == ciphers;
    return Some(ciphers);
  }

  // The rule.

  /** A suite's preference for the side that made the list: the position of its first occurrence. */
  function Rank(allow: seq<Cipher>, c: Cipher): (k: nat)
    requires c in allow
    ensures k < |allow| && allow[k] == c && c !in allow[..k]
  {
    if allow[0] == c then 0 else
      var k := Rank(allow[1..], c);
      assert allow[..k + 1] == [allow[0]] + allow[1..][..k];
      k + 1
  }

  predicate Shared(prio: seq<Cipher>, allow: seq<Cipher>, p: Policy, i: nat) {
    i < |prio| && Eligible(prio[i], p) && prio[i] in allow
  }

  /** The best-ranked position with a suite that can be used. */
  predicate FirstShared(prio: seq<Cipher>, allow: seq<Cipher>, p: Policy, f: nat) {
    Shared(prio, allow, p, f) && forall j: nat | j < f :: !Shared(prio, allow, p, j)
  }

  /** Positions f and j are in one equal-preference group: every flag from f up to j says "not
      the last of its group". Without flags, every suite is alone. */
  predicate Together(flags: Option<seq<bool>>, f: nat, j: nat) {
    if flags.None? then j == f
    else f <= j < |flags.value| && forall k | f <= k < j :: flags.value[k]
  }

  /** The group of f ends in the list. */
  predicate Closed(flags: Option<seq<bool>>, f: nat) {
    flags.None? || exists k | f <= k < |flags.value| :: !flags.value[k]
  }

  /** Of the usable suites in f's group, the one at j is the other side's favourite. */
  ghost predicate BestOfGroup(prio: seq<Cipher>, flags: Option<seq<bool>>, allow: seq<Cipher>, p: Policy, f: nat,
      j: nat) {
    && Shared(prio, allow, p, j) && Together(flags, f, j)
    && forall i: nat | Shared(prio, allow, p, i) && Together(flags, f, i) ::
         Rank(allow, prio[j]) <= Rank(allow, prio[i])
  }

  /** The rule: nothing when no suite is usable, else the best of the first usable group --
      which the pass forgets when that group runs off the end of the list. */
  ghost predicate Picked(prio: seq<Cipher>, flags: Option<seq<bool>>, allow: seq<Cipher>, p: Policy,
      r: Option<Cipher>) {
    && ((forall i: nat :: !Shared(prio, allow, p, i)) ==> r == None)
    && forall f: nat | FirstShared(prio, allow, p, f) ::
         if Closed(flags, f) then exists j: nat :: BestOfGroup(prio, flags, allow, p, f, j) && r == Some(prio[j])
         else r == None
  }

  /** sk_SSL_CIPHER_find. */
  method Find(allow: seq<Cipher>, c: Cipher) returns (k: Option<nat>)
    ensures k.None? <==> c !in allow
    ensures k.Some? ==> c in allow && k.value == Rank(allow, c)
  {
    for i := 0 to |allow|
      invariant c !in allow[..i]
    {
      if allow[i] == c {
        return Some(i);
      }
    }
    return None;
  }

  ghost predicate NoneShared(prio: seq<Cipher>, allow: seq<Cipher>, p: Policy, n: nat) {
    forall j: nat | j < n :: !Shared(prio, allow, p, j)
  }

  /** What the pass knows after the first n positions, while the group of the first usable
      suite lasts: m is the best rank so far, that of the suite at j. */
  ghost predicate GroupSoFar(prio: seq<Cipher>, flags: Option<seq<bool>>, allow: seq<Cipher>, p: Policy,
                             f: nat, j: nat, n: nat, m: nat) {
    && FirstShared(prio, allow, p, f) && f <= j < n && Shared(prio, allow, p, j) && m == Rank(allow, prio[j])
    && (flags.None? ==> j == f && n == f + 1)
    && (flags.Some? ==> n <= |flags.value| && forall k | f <= k < n - 1 :: flags.value[k])
    && (forall i: nat | i < n && Shared(prio, allow, p, i) :: m <= Rank(allow, prio[i]))
  }

  /** The pass of ssl3_choose_cipher. */
  method Choose(prio: seq<Cipher>, flags: Option<seq<bool>>, allow: seq<Cipher>, p: Policy) returns (r: Option<Cipher>)
    requires flags.Some? ==> |flags.value| == |prio|
    ensures Picked(prio, flags, allow, p, r)
  {
    hide Picked, GroupSoFar, NoneShared, Rank, Eligible;
    var groupMin: Option<nat> := None;
    ghost var f, j := 0, 0;
    NothingYet(prio, allow, p);
    for i := 0 to |prio|
      invariant groupMin.None? ==> NoneShared(prio, allow, p, i)
      invariant groupMin.Some? ==> flags.Some? && i > 0 && flags.value[i - 1]
      invariant groupMin.Some? ==> GroupSoFar(prio, flags, allow, p, f, j, i, groupMin.value)
    {
      var c := prio[i];
      if groupMin.None? {
        Starts(prio, flags, allow, p, i);
      } else {
        Extends(prio, flags, allow, p, f, j, i, groupMin.value);
      }
      if Eligible(c, p) {
        var index := Find(allow, c);
        if index.Some? {
          f := if groupMin.None? then i else f;
          j := if groupMin.None? || groupMin.value > index.value then i else j;
          if flags.Some? && flags.value[i] {
            if groupMin.None? || groupMin.value > index.value {
              groupMin := index;
            }
          } else {
            var cipherIndex := if groupMin.Some? && groupMin.value < index.value then groupMin.value else index.value;
            GroupDone(prio, flags, allow, p, f, j, i + 1, cipherIndex);
            return Some(allow[cipherIndex]);
          }
        }
      }
      if flags.Some? && !flags.value[i] && groupMin.Some? {
        GroupDone(prio, flags, allow, p, f, j, i + 1, groupMin.value);
        return Some(allow[groupMin.value]);
      }
    }
    if groupMin.None? {
      NothingShared(prio, flags, allow, p);
    } else {
      GroupUnclosed(prio, flags, allow, p, f, j, groupMin.value);
    }
    return None;
  }

  lemma NothingYet(prio: seq<Cipher>, allow: seq<Cipher>, p: Policy)
    ensures NoneShared(prio, allow, p, 0)
  {
  }

  lemma Starts(prio: seq<Cipher>, flags: Option<seq<bool>>, allow: seq<Cipher>, p: Policy, i: nat)
    requires i < |prio| && (flags.Some? ==> |flags.value| == |prio|) && NoneShared(prio, allow, p, i)
    ensures if Shared(prio, allow, p, i) then GroupSoFar(prio, flags, allow, p, i, i, i + 1, Rank(allow, prio[i]))
            else NoneShared(prio, allow, p, i + 1)
  {
    hide Eligible, Rank;
  }

  lemma Extends(prio: seq<Cipher>, flags: Option<seq<bool>>, allow: seq<Cipher>, p: Policy, f: nat, j: nat, i: nat,
      m: nat)
    requires flags.Some? && 0 < i < |prio| == |flags.value| && flags.value[i - 1]
    requires GroupSoFar(prio, flags, allow, p, f, j, i, m)
    ensures if Shared(prio, allow, p, i) && m > Rank(allow, prio[i])
            then GroupSoFar(prio, flags, allow, p, f, i, i + 1, Rank(allow, prio[i]))
            else GroupSoFar(prio, flags, allow, p, f, j, i + 1, m)
  {
    hide Eligible, Rank;
  }

  lemma OneFirst(prio: seq<Cipher>, allow: seq<Cipher>, p: Policy, f: nat, g: nat)
    requires FirstShared(prio, allow, p, f) && FirstShared(prio, allow, p, g)
    ensures f == g
  {
  }

  /** At the end of its group, the best so far is the rule's answer. */
  lemma GroupDone(prio: seq<Cipher>, flags: Option<seq<bool>>, allow: seq<Cipher>, p: Policy, f: nat, j: nat, n: nat,
      m: nat)
    requires GroupSoFar(prio, flags, allow, p, f, j, n, m)
    requires flags.Some? ==> !flags.value[n - 1]
    ensures m < |allow| && allow[m] == prio[j] && Picked(prio, flags, allow, p, Some(allow[m]))
  {
    hide Eligible, Rank;
    assert BestOfGroup(prio, flags, allow, p, f, j);
    assert Closed(flags, f);
    forall g: nat | FirstShared(prio, allow, p, g) ensures g == f {
      OneFirst(prio, allow, p, f, g);
    }
  }

  lemma GroupUnclosed(prio: seq<Cipher>, flags: Option<seq<bool>>, allow: seq<Cipher>, p: Policy, f: nat, j: nat,
      m: nat)
    requires flags.Some? && 0 < |prio| == |flags.value| && flags.value[|prio| - 1]
    requires GroupSoFar(prio, flags, allow, p, f, j, |prio|, m)
    ensures Picked(prio, flags, allow, p, None)
  {
    hide Eligible, Rank;
    forall g: nat | FirstShared(prio, allow, p, g) ensures !Closed(flags, g) {
      OneFirst(prio, allow, p, f, g);
    }
    assert Shared(prio, allow, p, f);
  }

  lemma NothingShared(prio: seq<Cipher>, flags: Option<seq<bool>>, allow: seq<Cipher>, p: Policy)
    requires NoneShared(prio, allow, p, |prio|)
    ensures Picked(prio, flags, allow, p, None)
  {
    hide Eligible, Rank;
    forall g: nat ensures !Shared(prio, allow, p, g) {
    }
  }

  // What the rule means.

  /** The rule leaves no choice. */
  lemma PickedIsUnique(prio: seq<Cipher>, flags: Option<seq<bool>>, allow: seq<Cipher>, p: Policy,
                       r: Option<Cipher>, q: Option<Cipher>)
    requires Picked(prio, flags, allow, p, r) && Picked(prio, flags, allow, p, q)
    ensures r == q
  {
    hide Eligible, Rank;
    if i: nat :| Shared(prio, allow, p, i) {
      var f := FirstOne(prio, allow, p, i);
    }
  }

  /** There is a first usable suite when there is one. */
  lemma {:induction false} FirstOne(prio: seq<Cipher>, allow: seq<Cipher>, p: Policy, i: nat) returns (f: nat)
    requires Shared(prio, allow, p, i)
    ensures FirstShared(prio, allow, p, f)
  {
    hide Eligible;
    if j: nat :| j < i && Shared(prio, allow, p, j) {
      f := FirstOne(prio, allow, p, j);
    } else {
      f := i;
    }
  }

  /** Nothing is picked exactly when no suite is usable, or the first usable one is in a group
      that the list does not end. */
  lemma NoneIff(prio: seq<Cipher>, flags: Option<seq<bool>>, allow: seq<Cipher>, p: Policy, r: Option<Cipher>)
    requires Picked(prio, flags, allow, p, r)
    ensures r.None? <==> forall f: nat | FirstShared(prio, allow, p, f) :: !Closed(flags, f)
  {
    hide Eligible, Rank;
    if i: nat :| Shared(prio, allow, p, i) {
      var f := FirstOne(prio, allow, p, i);
      forall g: nat | FirstShared(prio, allow, p, g) ensures g == f {
        OneFirst(prio, allow, p, f, g);
      }
    }
  }

  /** A suite both sides have, alone in a group that the list does not end, is not picked. */
  lemma UnendedGroup()
    ensures var c, p := Cipher(1, 0, 9, 1, 1), Policy(5, 1, 1);
            Shared([c], [c], p, 0) && Picked([c], Some([true]), [c], p, None)
  {
    var c, p := Cipher(1, 0, 9, 1, 1), Policy(5, 1, 1);
    assert [c][0] == c && Eligible(c, p);
    forall f: nat | FirstShared([c], [c], p, f) ensures !Closed(Some([true]), f) {
    }
  }

  /** Without groups the other side's order does not matter: the first usable suite is picked. */
  lemma FirstWithoutGroups(prio: seq<Cipher>, allow: seq<Cipher>, p: Policy, r: Option<Cipher>, f: nat)
    requires Picked(prio, None, allow, p, r) && FirstShared(prio, allow, p, f)
    ensures r == Some(prio[f])
  {
    hide Eligible, Rank;
  }

  lemma PickedIsShared(prio: seq<Cipher>, flags: Option<seq<bool>>, allow: seq<Cipher>, p: Policy, r: Option<Cipher>)
    requires Picked(prio, flags, allow, p, r)
    ensures r.Some? ==> r.value in prio && r.value in allow && Eligible(r.value, p)
    ensures r.None? && flags.None? ==> forall c | c in prio && c in allow :: !Eligible(c, p)
  {
    NoneIff(prio, flags, allow, p, r);
    hide Eligible, Rank;
    if i: nat :| Shared(prio, allow, p, i) {
      var f := FirstOne(prio, allow, p, i);
    } else {
      forall c | c in prio && c in allow ensures !Eligible(c, p) {
        var i: nat :| i < |prio| && prio[i] == c;
        assert !Shared(prio, allow, p, i);
      }
    }
  }

  /** In plain terms: a suite that is picked is on both lists, known at the version, and shares a key
      exchange and an authentication with the masks. */
  lemma PickedMeans(prio: seq<Cipher>, flags: Option<seq<bool>>, allow: seq<Cipher>, p: Policy, c: Cipher)
    requires Picked(prio, flags, allow, p, Some(c))
    ensures c in prio && c in allow && c.minVersion <= p.version <= c.maxVersion
    ensures c.mkey & p.maskK != 0 && c.auth & p.maskA != 0
  {
    PickedIsShared(prio, flags, allow, p, Some(c));
    hide Picked;
  }

  /** And without groups one is picked if there is any such suite. */
  lemma UsableMeansPicked(prio: seq<Cipher>, allow: seq<Cipher>, p: Policy, r: Option<Cipher>, c: Cipher)
    requires Picked(prio, None, allow, p, r) && c in prio && c in allow
    requires c.minVersion <= p.version <= c.maxVersion && c.mkey & p.maskK != 0 && c.auth & p.maskA != 0
    ensures r.Some?
  {
    PickedIsShared(prio, None, allow, p, r);
    hide Picked;
  }

  /** A list of suites as a client writes it: two bytes each, the more significant first. */
  function SuiteBytes(ids: seq<nat>): (b: seq<byte>)
    requires forall i | 0 <= i < |ids| :: ids[i] < 0x1_0000
    ensures |b| == 2 * |ids|
  {
    if ids == [] then [] else [ids[0] / 0x100, ids[0] % 0x100] + SuiteBytes(ids[1..])
  }

  function KnownOf(ids: seq<nat>, known: Table): seq<Cipher> {
    if ids == [] then [] else (if ids[0] in known then [known[ids[0]]] else []) + KnownOf(ids[1..], known)
  }

  /** It is read as the suites written, less the unknown ones. */
  lemma {:induction false} ListTrip(ids: seq<nat>, known: Table)
    requires forall i | 0 <= i < |ids| :: ids[i] < 0x1_0000
    ensures ClientList(SuiteBytes(ids), known) == Some(KnownOf(ids, known))
    decreases |ids|
  {
    if ids != [] {
      assert SuiteBytes(ids)[2..] == SuiteBytes(ids[1..]);
      ListTrip(ids[1..], known);
    }
  }

  // Both together.

  datatype Preferences = Preferences(ciphers: seq<Cipher>, inGroup: Option<seq<bool>>)

  /** ssl3_choose_cipher: the server's list with its groups, or the client's without. */
  method ChooseCipher(suites: seq<byte>, known: Table, server: Preferences, serverPreference: bool, p: Policy)
    returns (r: Option<Cipher>)
    requires server.inGroup.Some? ==> |server.inGroup.value| == |server.ciphers|
    ensures |suites| % 2 == 1 ==> r == None
    ensures var client := ClientList(suites, known);
            if client.None? then r == None
            else if serverPreference then Picked(server.ciphers, server.inGroup, client.value, p, r)
            else Picked(client.value, None, server.ciphers, p, r)
  {
    hide Picked;
    OddListsAreRefused(suites, known);
    var client := ParseClientCipherList(suites, known);
    if client.None? {
      return None;
    }
    if serverPreference {
      r := Choose(server.ciphers, server.inGroup, client.value, p);
    } else {
      r := Choose(client.value, None, server.ciphers, p);
    }
  }
}
