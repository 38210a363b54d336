/** The server's choice of RSA premaster secret, made without branching on the decrypted block
    (crypto/internal.h, handshake_server.cc), against the branching rule of sections 7.4.7.1 of
    RFC 5246 and 7.2.2 of RFC 3447. */
module RsaPremaster {
  import opened Basics

  type word = bv64

  const PREMASTER_LENGTH: nat := 48

  // Masks: all ones for true, zero for false.

  function Mask(b: bool): word {
    if b then 0xFFFF_FFFF_FFFF_FFFF else 0
  }

  function Mask8(b: bool): bv8 {
    if b then 0xFF else 0
  }

  function MsbW(a: word): word {
    0 - (a >> 63)
  }

  function IsZeroW(a: word): word {
    MsbW(!a & (a - 1))
  }

  function EqW(a: word, b: word): word {
    IsZeroW(a ^ b)
  }

  function SelectW(mask: word, a: word, b: word): word {
    (mask & a) | (!mask & b)
  }

  /** The cast to uint8_t. */
  function Low8(a: word): bv8 {
    (a & 0xFF) as bv8
  }

  function IsZero8(a: bv8): bv8 {
    Low8(IsZeroW(a as word))
  }

  function Eq8(a: bv8, b: bv8): bv8 {
    Low8(EqW(a as word, b as word))
  }

  function And(a: bv8, b: bv8): bv8 {
    a & b
  }

  function AndNot(a: bv8, b: bv8): bv8 {
    a & !b
  }

  function Select8(mask: bv8, a: bv8, b: bv8): bv8 {
    Low8(SelectW(mask as word, a as word, b as word))
  }

  const TOP: word := 0x8000_0000_0000_0000

  lemma TopOfAnd(x: word, y: word)
    requires x < TOP || y < TOP
    ensures x & y < TOP
  {
  }

  lemma MaskOfTop(x: word)
    ensures x < TOP ==> MsbW(x) == 0
    ensures MsbW(0xFFFF_FFFF_FFFF_FFFF) == Mask(true)
  {
  }

  lemma ZeroIsMask(a: word)
    ensures IsZeroW(a) == Mask(a == 0)
  {
    MaskOfTop(!a & (a - 1));
    if a == 0 {
      assert !a & (a - 1) == 0xFFFF_FFFF_FFFF_FFFF;
    } else {
      assert a >= TOP ==> !a < TOP;
      assert a < TOP ==> a - 1 < TOP;
      TopOfAnd(!a, a - 1);
    }
  }

  lemma XorIsZero(a: word, b: word)
    ensures a ^ b == 0 <==> a == b
  {
  }

  lemma ComparisonsAreMasks(a: word, b: word)
    ensures IsZeroW(a) == Mask(a == 0) && EqW(a, b) == Mask(a == b)
  {
    hide IsZeroW, Mask;
    ZeroIsMask(a);
    ZeroIsMask(a ^ b);
    XorIsZero(a, b);
  }

  // Where words have 32 bits, the same formulas.

  const TOP_32: bv32 := 0x8000_0000

  function Mask32(b: bool): bv32 {
    if b then 0xFFFF_FFFF else 0
  }

  function Msb32(a: bv32): bv32 {
    0 - (a >> 31)
  }

  function IsZero32(a: bv32): bv32 {
    Msb32(!a & (a - 1))
  }

  function Eq32(a: bv32, b: bv32): bv32 {
    IsZero32(a ^ b)
  }

  lemma ZeroIsMask32(a: bv32)
    ensures IsZero32(a) == Mask32(a == 0)
  {
    if a == 0 {
      assert !a & (a - 1) == 0xFFFF_FFFF;
    } else {
      assert a >= TOP_32 ==> !a < TOP_32;
      assert a < TOP_32 ==> a - 1 < TOP_32;
      assert !a & (a - 1) < TOP_32;
    }
  }

  lemma ComparisonsAreMasks32(a: bv32, b: bv32)
    ensures IsZero32(a) == Mask32(a == 0) && Eq32(a, b) == Mask32(a == b)
  {
    ZeroIsMask32(a);
    ZeroIsMask32(a ^ b);
    hide IsZero32, Mask32;
    assert a ^ b == 0 <==> a == b;
  }

  lemma LowOfMask(c: bool)
    ensures Low8(Mask(c)) == Mask8(c)
  {
  }

  lemma IsZeroMask(a: bv8)
    ensures IsZero8(a) == Mask8(a == 0)
  {
    ComparisonsAreMasks(a as word, 0);
    assert a as word == 0 <==> a == 0;
    hide IsZeroW, EqW, Mask, Mask8, Low8;
    LowOfMask(a == 0);
  }

  lemma EqMask(a: bv8, b: bv8)
    ensures Eq8(a, b) == Mask8(a == b)
  {
    ComparisonsAreMasks(a as word, b as word);
    assert a as word == b as word <==> a == b;
    hide IsZeroW, EqW, Mask, Mask8, Low8;
    LowOfMask(a == b);
  }

  lemma SelectChooses(c: bool, a: bv8, b: bv8)
    ensures Select8(Mask8(c), a, b) == if c then a else b
  {
  }

  lemma MasksConjoin(p: bool, q: bool)
    ensures And(Mask8(p), Mask8(q)) == Mask8(p && q)
    ensures AndNot(Mask8(p), Mask8(q)) == Mask8(p && !q)
  {
  }

  // The rule.

  /** The first zero at or after i, or the end. */
  function FirstZero(b: seq<bv8>, i: nat): (z: nat)
    requires i <= |b|
    ensures i <= z <= |b| && (forall k | i <= k < z :: b[k] != 0) && (z < |b| ==> b[z] == 0)
    decreases |b| - i
  {
    if i == |b| || b[i] == 0 then i else FirstZero(b, i + 1)
  }

  /** RFC 3447: 00 02, at least eight non-zero bytes, 00, the message. */
  function Unpad(b: seq<bv8>): Option<seq<bv8>> {
    if |b| < 11 || b[0] != 0 || b[1] != 2 then None
    else
      var z := FirstZero(b, 2);
      if z < 10 || z == |b| then None else Some(b[z + 1..])
  }

  /** RFC 5246: the message, if it is a premaster for the version the client offered; otherwise
      the random one. */
  function Premaster(block: seq<bv8>, major: bv8, minor: bv8, random: seq<bv8>): seq<bv8> {
    var m := Unpad(block);
    if m.Some? && |m.value| == PREMASTER_LENGTH && m.value[0] == major && m.value[1] == minor then m.value else random
  }

  /** The same as one conjunction over fixed positions. */
  predicate WellFormed(b: seq<bv8>, major: bv8, minor: bv8)
    requires |b| >= 11 + PREMASTER_LENGTH
  {
    var padding := |b| - PREMASTER_LENGTH;
    && b[0] == 0 && b[1] == 2 && (forall i | 2 <= i < padding - 1 :: b[i] != 0) && b[padding - 1] == 0
    && b[padding] == major && b[padding + 1] == minor
  }

  lemma PositionsSuffice(b: seq<bv8>, major: bv8, minor: bv8, random: seq<bv8>)
    requires |b| >= 11 + PREMASTER_LENGTH
    ensures Premaster(b, major, minor, random)
         == if WellFormed(b, major, minor) then b[|b| - PREMASTER_LENGTH..] else random
  {
    var padding := |b| - PREMASTER_LENGTH;
    var z := FirstZero(b, 2);
    if WellFormed(b, major, minor) {
      assert z == padding - 1;
    } else if z + 1 == padding {
      assert b[padding..][0] == b[padding] && b[padding..][1] == b[padding + 1];
    }
  }

  /** 00 02, no zero in the padding, a zero after it, and the client's version: all ones or zero. */
  method CheckBlock(block: array<bv8>, major: bv8, minor: bv8) returns (good: bv8)
    requires block.Length >= 11 + PREMASTER_LENGTH
    ensures good == Mask8(WellFormed(block[..], major, minor))
  {
    hide IsZero8, Eq8, And, AndNot, Mask8;
    ghost var b := block[..];
    var paddingLen := block.Length - PREMASTER_LENGTH;
    good := And(Eq8(block[0], 0), Eq8(block[1], 2));
    EqMask(b[0], 0);
    EqMask(b[1], 2);
    MasksConjoin(b[0] == 0, b[1] == 2);
    ghost var right := b[0] == 0 && b[1] == 2;
    for i := 2 to paddingLen - 1
      invariant right <==> b[0] == 0 && b[1] == 2 && forall k | 2 <= k < i :: b[k] != 0
      invariant good == Mask8(right)
    {
      IsZeroMask(b[i]);
      MasksConjoin(right, b[i] == 0);
      good := AndNot(good, IsZero8(block[i]));
      right := right && b[i] != 0;
    }
    IsZeroMask(b[paddingLen - 1]);
    MasksConjoin(right, b[paddingLen - 1] == 0);
    good, right := And(good, IsZero8(block[paddingLen - 1])), right && b[paddingLen - 1] == 0;
    EqMask(b[paddingLen], major);
    MasksConjoin(right, b[paddingLen] == major);
    good, right := And(good, Eq8(block[paddingLen], major)), right && b[paddingLen] == major;
    EqMask(b[paddingLen + 1], minor);
    MasksConjoin(right, b[paddingLen + 1] == minor);
    good := And(good, Eq8(block[paddingLen + 1], minor));
  }

  /** The whole choice, in place of the random premaster. */
  method SelectPremaster(block: array<bv8>, decryptLen: nat, clientVersion: bv16, premaster: array<bv8>)
    returns (ok: bool)
    requires premaster.Length == PREMASTER_LENGTH && block != premaster
    modifies premaster
    ensures ok <==> decryptLen == block.Length && decryptLen >= 11 + PREMASTER_LENGTH
    ensures premaster[..] == if !ok then old(premaster[..])
            else Premaster(block[..], (clientVersion >> 8) as bv8, (clientVersion & 0xFF) as bv8, old(premaster[..]))
  {
    if decryptLen != block.Length || decryptLen < 11 + premaster.Length {
      return false;
    }
    ghost var b, random := block[..], premaster[..];
    var major, minor := (clientVersion >> 8) as bv8, (clientVersion & 0xFF) as bv8;
    hide *;
    var paddingLen := decryptLen - premaster.Length;
    var good := CheckBlock(block, major, minor);
    ghost var right := WellFormed(b, major, minor);
    for i := 0 to premaster.Length
      invariant forall k | 0 <= k < i :: premaster[k] == if right then b[paddingLen + k] else random[k]
      invariant forall k | i <= k < premaster.Length :: premaster[k] == random[k]
    {
      SelectChooses(right, b[paddingLen + i], random[i]);
      premaster[i] := Select8(good, block[paddingLen + i], premaster[i]);
    }
    PositionsSuffice(b, major, minor, random);
    assert premaster[..] == if right then b[paddingLen..] else random;
    return true;
  }
}
