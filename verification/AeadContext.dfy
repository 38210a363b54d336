/** The record cipher of one direction: nonce, additional data, sealing and opening
    (ssl_aead_ctx.cc). */
module AeadContext {
  import opened Basics

  /** An AEAD primitive, left uninterpreted: key, nonce, text, additional data. */
  datatype Primitive = Primitive(
    nonceLength: nat, maxOverhead: nat,
    seal: (Raw, Raw, Raw, Raw) -> Option<Raw>,
    open: (Raw, Raw, Raw, Raw) -> Option<Raw>)

  ghost predicate Correct(p: Primitive) {
    forall k, n, text, ad :: p.seal(k, n, text, ad).Some? ==>
      p.open(k, n, p.seal(k, n, text, ad).value, ad) == Some(text)
  }

  ghost predicate FixedOverhead(p: Primitive) {
    forall k, n, text, ad :: p.seal(k, n, text, ad).Some? ==> |p.seal(k, n, text, ad).value| == |text| + p.maxOverhead
  }

  datatype Version = Ssl3 | Tls1To12 | Tls13

  /** What ssl_cipher_get_evp_aead says of a cipher suite at a version. */
  datatype Suite = Suite(gcm: bool, chacha: bool, macKeyLen: nat, fixedIvLen: nat, p: Primitive)

  /** The suites there are: stateful ones with a MAC key before TLS 1.3, AES-GCM with a
      4-byte salt, ChaCha20-Poly1305 with a whole nonce, and TLS 1.3 with a whole nonce. */
  predicate Known(s: Suite, v: Version) {
    && s.p.nonceLength <= 24
    && if s.macKeyLen > 0 then !v.Tls13? && !s.gcm && !s.chacha
       else s.gcm != s.chacha && s.p.nonceLength == 12 && s.fixedIvLen == if v.Tls13? || s.chacha then 12 else 4
  }

  datatype Flags = Flags(
    fixedNonce: Raw, variableNonceLen: nat, inRecord: bool, randomNonce: bool,
    omitLength: bool, omitVersion: bool, omitAd: bool, xorNonce: bool)

  /** The four configurations, written down as a table. */
  function Table(s: Suite, v: Version, fixedIv: Raw): Flags {
    if s.macKeyLen > 0 then Flags([], s.p.nonceLength, true, true, true, v.Ssl3?, false, false)
    else if v.Tls13? then Flags(fixedIv, 8, false, false, false, false, true, true)
    else if s.chacha then Flags(fixedIv, 8, false, false, false, false, false, true)
    else Flags(fixedIv, 8, true, false, false, false, false, false)
  }

  /** What Open and SealScatter rely on, which every configuration grants. */
  predicate Sound(f: Flags) {
    && (f.xorNonce ==> |f.fixedNonce| >= f.variableNonceLen && !f.inRecord)
    && (f.randomNonce ==> f.inRecord)
    && (!f.randomNonce ==> f.variableNonceLen == 8)
    && |f.fixedNonce| + f.variableNonceLen <= 24
  }

  lemma TableIsSound(s: Suite, v: Version, fixedIv: Raw)
    requires Known(s, v) && |fixedIv| == s.fixedIvLen
    ensures Sound(Table(s, v, fixedIv))
  {
  }

  function XorByte(a: bv8, b: bv8): bv8 {
    a ^ b
  }

  function Xor(a: Raw, b: Raw): (r: Raw)
    requires |a| == |b|
    ensures |r| == |a|
  {
    seq(|a|, i requires 0 <= i < |a| => XorByte(a[i], b[i]))
  }

  function Zeros(n: nat): Raw {
    seq(n, i => 0)
  }

  /** The nonce from its variable part. */
  function Nonce(f: Flags, variable: Raw): Raw
    requires Sound(f) && |variable| == f.variableNonceLen
  {
    if f.xorNonce then Xor(Zeros(|f.fixedNonce| - |variable|) + variable, f.fixedNonce) else f.fixedNonce + variable
  }

  function Be16(n: nat): Raw {
    [(n / 0x100 % 0x100) as bv8, (n % 0x100) as bv8]
  }

  /** `b` holds the low sixteen bits of `n` from position `i` on, the more significant byte first. */
  predicate Big16At(b: Raw, i: nat, n: nat)
    requires i + 2 <= |b|
  {
    b[i] == (n / 0x100 % 0x100) as bv8 && b[i + 1] == (n % 0x100) as bv8
  }

  function AdditionalData(f: Flags, kind: bv8, version: nat, seqnum: Raw, plaintextLen: nat): Raw {
    if f.omitAd then []
    else
      seqnum + [kind] + (if f.omitVersion then [] else Be16(version))
      + (if f.omitLength then [] else Be16(plaintextLen))
  }

  /** Position by position: the eight bytes of the number, the type, the version if it is in, the
      length last if it is in. */
  lemma AdLayout(f: Flags, kind: bv8, version: nat, seqnum: Raw, plaintextLen: nat)
    requires |seqnum| == 8
    ensures var ad := AdditionalData(f, kind, version, seqnum, plaintextLen);
            if f.omitAd then ad == []
            else
              && |ad| == 9 + (if f.omitVersion then 0 else 2) + (if f.omitLength then 0 else 2)
              && ad[..8] == seqnum && ad[8] == kind
              && (!f.omitVersion ==> Big16At(ad, 9, version))
              && (!f.omitLength ==> Big16At(ad, |ad| - 2, plaintextLen))
  {
  }

  /** And there is nothing else in it. */
  lemma AdFromParts(f: Flags, kind: bv8, version: nat, seqnum: Raw, plaintextLen: nat, ad: Raw)
    requires |seqnum| == 8 && !f.omitAd
    requires |ad| == 9 + (if f.omitVersion then 0 else 2) + (if f.omitLength then 0 else 2)
    requires ad[..8] == seqnum && ad[8] == kind
    requires !f.omitVersion ==> Big16At(ad, 9, version)
    requires !f.omitLength ==> Big16At(ad, |ad| - 2, plaintextLen)
    ensures ad == AdditionalData(f, kind, version, seqnum, plaintextLen)
  {
  }

  /** The fixed part in front, as it is; behind it the variable part, over the end of the fixed
      nonce where that is XORed. */
  lemma NonceLayout(f: Flags, variable: Raw)
    requires Sound(f) && |variable| == f.variableNonceLen
    ensures var nonce := Nonce(f, variable);
            var front := |nonce| - |variable|;
            && |nonce| == |f.fixedNonce| + (if f.xorNonce then 0 else |variable|)
            && nonce[..front] == f.fixedNonce[..front]
            && forall i | 0 <= i < |variable| ::
                 nonce[front + i] == if f.xorNonce then variable[i] ^ f.fixedNonce[front + i] else variable[i]
  {
    if f.xorNonce {
      var front := |f.fixedNonce| - |variable|;
      forall i | 0 <= i < front ensures Nonce(f, variable)[i] == f.fixedNonce[i] {
        XorZero(f.fixedNonce[i]);
      }
    }
  }

  lemma XorZero(b: bv8)
    ensures XorByte(0, b) == b
  {
  }

  function ExplicitNonceLen(f: Flags): nat {
    if f.inRecord then f.variableNonceLen else 0
  }

  /** Different numbers make different nonces under one key, wherever the number makes the
      nonce. */
  lemma NonceInjective(f: Flags, a: Raw, b: Raw)
    requires Sound(f) && |a| == |b| == f.variableNonceLen && Nonce(f, a) == Nonce(f, b)
    ensures a == b
  {
    if f.xorNonce {
      var pad := Zeros(|f.fixedNonce| - |a|);
      XorInjective(pad + a, pad + b, f.fixedNonce);
      assert a == (pad + a)[|pad|..] && b == (pad + b)[|pad|..];
    } else {
      assert a == (f.fixedNonce + a)[|f.fixedNonce|..] && b == (f.fixedNonce + b)[|f.fixedNonce|..];
    }
  }

  lemma XorInjective(x: Raw, y: Raw, k: Raw)
    requires |x| == |y| == |k| && Xor(x, k) == Xor(y, k)
    ensures x == y
  {
    hide XorByte;
    forall i | 0 <= i < |x| ensures x[i] == y[i] {
      assert Xor(x, k)[i] == Xor(y, k)[i];
      XorCancels(x[i], y[i], k[i]);
    }
  }

  lemma XorCancels(a: bv8, b: bv8, k: bv8)
    requires XorByte(a, k) == XorByte(b, k)
    ensures a == b
  {
    assert (a ^ k) ^ k == a && (b ^ k) ^ k == b;
  }

  class Context {
    const isNull: bool
    const key: Raw
    const p: Primitive
    var fixedNonce: Raw
    var variableNonceLen: nat
    var inRecord: bool
    var randomNonce: bool
    var omitLength: bool
    var omitVersion: bool
    var omitAd: bool
    var xorNonce: bool

    function F(): Flags
      reads this
    {
      Flags(fixedNonce, variableNonceLen, inRecord, randomNonce, omitLength, omitVersion, omitAd, xorNonce)
    }

    predicate Valid()
      reads this
    {
      isNull || Sound(F())
    }

    /** The all-default context: the null cipher, and what Create starts from. */
    constructor Blank(isNull: bool, key: Raw, p: Primitive)
      ensures this.isNull == isNull && this.key == key && this.p == p
      ensures F() == Flags([], 0, false, false, false, false, false, false)
    {
      this.isNull, this.key, this.p := isNull, key, p;
      fixedNonce, variableNonceLen, inRecord, randomNonce := [], 0, false, false;
      omitLength, omitVersion, omitAd, xorNonce := false, false, false, false;
    }

    /** Create, setting one flag after another as the cases overlap. */
    static method Create(s: Suite, v: Version, encKey: Raw, macKey: Raw, fixedIv: Raw) returns (ctx: Context?)
      requires Known(s, v)
      ensures ctx != null <==> |fixedIv| == s.fixedIvLen && |macKey| == s.macKeyLen
      ensures ctx != null ==> fresh(ctx) && ctx.Valid() && !ctx.isNull
      ensures ctx != null ==> ctx.p == s.p && ctx.F() == Table(s, v, fixedIv)
      ensures ctx != null ==> ctx.key == if macKey != [] then macKey + encKey + fixedIv else encKey
    {
      if s.fixedIvLen != |fixedIv| || s.macKeyLen != |macKey| {
        return null;
      }
      ctx := new Context.Blank(false, if macKey != [] then macKey + encKey + fixedIv else encKey, s.p);
      ctx.variableNonceLen := s.p.nonceLength;
      if macKey == [] {
        ctx.fixedNonce := fixedIv;
        if s.chacha {
          ctx.xorNonce := true;
          ctx.variableNonceLen := 8;
        } else {
          ctx.variableNonceLen := ctx.variableNonceLen - |fixedIv|;
        }
        if s.gcm {
          ctx.inRecord := true;
        }
        if v.Tls13? {
          ctx.xorNonce := true;
          ctx.variableNonceLen := 8;
          ctx.inRecord := false;
          ctx.omitAd := true;
        }
      } else {
        ctx.inRecord := true;
        ctx.randomNonce := true;
        ctx.omitLength := true;
        ctx.omitVersion := v.Ssl3?;
      }
    }

    function MaxOverhead(): nat
      reads this
    {
      ExplicitNonceLen(F()) + if isNull then 0 else p.maxOverhead
    }

    method GetAdditionalData(out: array<bv8>, kind: bv8, version: nat, seqnum: Raw,
        plaintextLen: nat) returns (len: nat)
      requires out.Length == 13 && |seqnum| == 8
      modifies out
      ensures len <= 13 && out[..len] == AdditionalData(F(), kind, version, seqnum, plaintextLen)
      ensures len == if omitAd then 0 else 9 + (if omitVersion then 0 else 2) + if omitLength then 0 else 2
      ensures !omitAd ==> out[..8] == seqnum && out[8] == kind
      ensures !omitAd && !omitVersion ==> Big16At(out[..], 9, version)
      ensures !omitAd && !omitLength ==> Big16At(out[..], len - 2, plaintextLen)
    {
      if omitAd {
        return 0;
      }
      forall i | 0 <= i < 8 {
        out[i] := seqnum[i];
      }
      out[8] := kind;
      len := 9;
      if !omitVersion {
        out[9], out[10] := (version / 0x100 % 0x100) as bv8, (version % 0x100) as bv8;
        len := 11;
      }
      if !omitLength {
        out[len], out[len + 1] := (plaintextLen / 0x100 % 0x100) as bv8, (plaintextLen % 0x100) as bv8;
        len := len + 2;
      }
      AdFromParts(F(), kind, version, seqnum, plaintextLen, out[..len]);
    }

    /** The nonce, assembled in place: the fixed part or padding, the variable part, then
        the loop that XORs. */
    method AssembleNonce(nonce: array<bv8>, variable: Raw) returns (len: nat)
      requires nonce.Length == 24 && Sound(F()) && |variable| == variableNonceLen
      modifies nonce
      ensures len <= 24 && nonce[..len] == Nonce(F(), variable)
    {
      ghost var head: Raw;
      if xorNonce {
        len := |fixedNonce| - variableNonceLen;
        forall i | 0 <= i < len {
          nonce[i] := 0;
        }
        head := Zeros(len);
      } else {
        len := |fixedNonce|;
        forall i | 0 <= i < len {
          nonce[i] := fixedNonce[i];
        }
        head := fixedNonce;
      }
      assert nonce[..len] == head;
      forall i | 0 <= i < variableNonceLen {
        nonce[len + i] := variable[i];
      }
      len := len + variableNonceLen;
      assert nonce[..len] == head + variable;
      if xorNonce {
        ghost var padded := nonce[..len];
        for i := 0 to |fixedNonce|
          invariant forall j | 0 <= j < len :: nonce[j] == if j < i then XorByte(padded[j], fixedNonce[j])
                    else padded[j]
        {
          nonce[i] := XorByte(nonce[i], fixedNonce[i]);
        }
        assert nonce[..len] == Xor(padded, fixedNonce);
      }
    }

    /** Open: the variable nonce comes from the record or is the number. */
    method Open(kind: bv8, version: nat, seqnum: Raw, input: Raw) returns (out: Option<Raw>)
      requires Valid() && |seqnum| == 8
      ensures out == Opened(isNull, F(), p, key, kind, version, seqnum, input)
    {
      hide Big16At, AdditionalData, Nonce;
      if isNull {
        return Some(input);
      }
      var plaintextLen := 0;
      if !omitLength {
        var overhead := MaxOverhead();
        if |input| < overhead {
          return None;
        }
        plaintextLen := |input| - overhead;
      }
      var ad := new bv8[13];
      var adLen := GetAdditionalData(ad, kind, version, seqnum, plaintextLen);
      if inRecord && |input| < variableNonceLen {
        return None;
      }
      var nonce := new bv8[24];
      var nonceLen := AssembleNonce(nonce, if inRecord then input[..variableNonceLen] else seqnum);
      var ciphertext := if inRecord then input[variableNonceLen..] else input;
      return p.open(key, nonce[..nonceLen], ciphertext, ad[..adLen]);
    }

    /** Seal: `random` is what RAND_bytes gives where the nonce is random. */
    method Seal(kind: bv8, version: nat, seqnum: Raw, input: Raw, random: Raw) returns (out: Option<Raw>)
      requires Valid() && |seqnum| == 8 && (randomNonce ==> |random| == variableNonceLen)
      ensures out == Sealed(isNull, F(), p, key, kind, version, seqnum, input, random)
    {
      if isNull {
        return Some(input);
      }
      var ad := new bv8[13];
      var adLen := GetAdditionalData(ad, kind, version, seqnum, |input|);
      var nonce := new bv8[24];
      var variable := if randomNonce then random else seqnum;
      var nonceLen := AssembleNonce(nonce, variable);
      var sealed := p.seal(key, nonce[..nonceLen], input, ad[..adLen]);
      return if sealed.None? then None else if inRecord then Some(variable + sealed.value) else sealed;
    }
  }

  function Sealed(isNull: bool, f: Flags, p: Primitive, key: Raw, kind: bv8, version: nat, seqnum: Raw,
      text: Raw, random: Raw): Option<Raw>
    requires (isNull || Sound(f)) && |seqnum| == 8 && (!isNull && f.randomNonce ==> |random| == f.variableNonceLen)
  {
    if isNull then Some(text)
    else
      var variable := if f.randomNonce then random else seqnum;
      var sealed := p.seal(key, Nonce(f, variable), text, AdditionalData(f, kind, version, seqnum, |text|));
      if sealed.None? then None else if f.inRecord then Some(variable + sealed.value) else sealed
  }

  function Opened(isNull: bool, f: Flags, p: Primitive, key: Raw, kind: bv8, version: nat, seqnum: Raw,
      input: Raw): Option<Raw>
    requires (isNull || Sound(f)) && |seqnum| == 8
  {
    var overhead := ExplicitNonceLen(f) + p.maxOverhead;
    if isNull then Some(input)
    else if (!f.omitLength && |input| < overhead) || (f.inRecord && |input| < f.variableNonceLen) then None
    else
      var variable := if f.inRecord then input[..f.variableNonceLen] else seqnum;
      var ciphertext := if f.inRecord then input[f.variableNonceLen..] else input;
      var plaintextLen := if f.omitLength then 0 else |input| - overhead;
      p.open(key, Nonce(f, variable), ciphertext, AdditionalData(f, kind, version, seqnum, plaintextLen))
  }

  /** The number, padded on the left with zeros to twelve bytes, XORed with the static nonce
      (section 5.3 of RFC 8446, section 2 of RFC 7905). */
  function PerRecordNonce(iv: Raw, seqnum: Raw): Raw
    requires |iv| == 12 && |seqnum| == 8
  {
    seq(12, i requires 0 <= i < 12 => if i < 4 then iv[i] else iv[i] ^ seqnum[i - 4])
  }

  /** The additional data of TLS 1.2: number, type, version and plaintext length (section 6.2.3.3 of
      RFC 5246). */
  predicate IsTls12Ad(ad: Raw, kind: bv8, version: nat, seqnum: Raw, plaintextLen: nat) {
    |ad| == 13 && ad[..8] == seqnum && ad[8] == kind && Big16At(ad, 9, version) && Big16At(ad, 11, plaintextLen)
  }

  /** The nonce of each suite: random bytes, the salt and the number, or the number over the static
      nonce. */
  function NonceForm(s: Suite, v: Version, fixedIv: Raw, seqnum: Raw, random: Raw): Raw
    requires Known(s, v) && |fixedIv| == s.fixedIvLen && |seqnum| == 8
  {
    if s.macKeyLen > 0 then random
    else if s.gcm && !v.Tls13? then fixedIv + seqnum
    else PerRecordNonce(fixedIv, seqnum)
  }

  lemma NonceHasForm(s: Suite, v: Version, fixedIv: Raw, seqnum: Raw, random: Raw)
    requires Known(s, v) && |fixedIv| == s.fixedIvLen && |seqnum| == 8
    requires s.macKeyLen > 0 ==> |random| == s.p.nonceLength
    ensures Sound(Table(s, v, fixedIv))
    ensures Nonce(Table(s, v, fixedIv), if s.macKeyLen > 0 then random else seqnum)
         == NonceForm(s, v, fixedIv, seqnum, random)
  {
    TableIsSound(s, v, fixedIv);
    NonceLayout(Table(s, v, fixedIv), if s.macKeyLen > 0 then random else seqnum);
    hide Nonce;
  }

  /** The additional data of each suite: nothing in TLS 1.3, and the length only in the suites of
      TLS 1.2 that are AEADs of themselves. */
  predicate HasAdForm(ad: Raw, s: Suite, v: Version, kind: bv8, version: nat, seqnum: Raw, plaintextLen: nat) {
    if s.macKeyLen > 0 then
      && |ad| == (if v.Ssl3? then 9 else 11) && ad[..8] == seqnum && ad[8] == kind
      && (!v.Ssl3? ==> Big16At(ad, 9, version))
    else if v.Tls13? then ad == []
    else IsTls12Ad(ad, kind, version, seqnum, plaintextLen)
  }

  lemma AdHasForm(s: Suite, v: Version, fixedIv: Raw, kind: bv8, version: nat, seqnum: Raw, plaintextLen: nat)
    requires Known(s, v) && |seqnum| == 8
    ensures HasAdForm(AdditionalData(Table(s, v, fixedIv), kind, version, seqnum, plaintextLen),
                      s, v, kind, version, seqnum, plaintextLen)
  {
    AdLayout(Table(s, v, fixedIv), kind, version, seqnum, plaintextLen);
    hide AdditionalData, Big16At;
  }

  /** What goes on the wire, suite by suite, in the terms of the standards: the explicit part of the
      nonce where there is one, and the text sealed under that nonce with that additional data. */
  lemma SealedForm(s: Suite, v: Version, fixedIv: Raw, key: Raw, kind: bv8, version: nat, seqnum: Raw, text: Raw,
      random: Raw) returns (ad: Raw)
    requires Known(s, v) && |fixedIv| == s.fixedIvLen && |seqnum| == 8
    requires s.macKeyLen > 0 ==> |random| == s.p.nonceLength
    ensures Sound(Table(s, v, fixedIv)) && HasAdForm(ad, s, v, kind, version, seqnum, |text|)
    ensures var sealed := s.p.seal(key, NonceForm(s, v, fixedIv, seqnum, random), text, ad);
            Sealed(false, Table(s, v, fixedIv), s.p, key, kind, version, seqnum, text, random)
            == if sealed.None? then None
               else if s.macKeyLen > 0 then Some(random + sealed.value)
               else if s.gcm && !v.Tls13? then Some(seqnum + sealed.value)
               else sealed
  {
    ad := AdditionalData(Table(s, v, fixedIv), kind, version, seqnum, |text|);
    NonceHasForm(s, v, fixedIv, seqnum, random);
    AdHasForm(s, v, fixedIv, kind, version, seqnum, |text|);
    hide AdditionalData, Nonce, NonceForm, HasAdForm;
  }

  /** Open undoes Seal in every configuration that Create can build, whatever the random
      nonce: both derive the same nonce and additional data. Where no length goes into the
      additional data of a stateful cipher, the overhead need not be fixed. */
  lemma OpenInvertsSeal(s: Suite, v: Version, fixedIv: Raw, key: Raw, kind: bv8, version: nat, seqnum: Raw,
      text: Raw, random: Raw)
    requires Known(s, v) && |fixedIv| == s.fixedIvLen && |seqnum| == 8
    requires s.macKeyLen > 0 ==> |random| == s.p.nonceLength
    requires Correct(s.p) && (s.macKeyLen > 0 || FixedOverhead(s.p))
    ensures Sound(Table(s, v, fixedIv))
    ensures var f := Table(s, v, fixedIv);
            var sealed := Sealed(false, f, s.p, key, kind, version, seqnum, text, random);
            sealed.Some? ==> Opened(false, f, s.p, key, kind, version, seqnum, sealed.value) == Some(text)
  {
    TableIsSound(s, v, fixedIv);
    var f := Table(s, v, fixedIv);
    SplitsRecord(f, s.p, key, kind, version, seqnum, text, random);
  }

  /** TLS 1.3 leaves out the additional data and still checks the length, so there a record
      opens if and only if it is at least as long as the overhead allowed for. */
  lemma Tls13Opens(s: Suite, fixedIv: Raw, key: Raw, kind: bv8, version: nat, seqnum: Raw, text: Raw,
      random: Raw)
    requires Known(s, Tls13) && |fixedIv| == s.fixedIvLen && |seqnum| == 8 && Correct(s.p)
    ensures Sound(Table(s, Tls13, fixedIv))
    ensures var f := Table(s, Tls13, fixedIv);
            var sealed := Sealed(false, f, s.p, key, kind, version, seqnum, text, random);
            sealed.Some? ==>
              (Opened(false, f, s.p, key, kind, version, seqnum, sealed.value) == Some(text) <==>
                |sealed.value| >= s.p.maxOverhead)
  {
    TableIsSound(s, Tls13, fixedIv);
    var f := Table(s, Tls13, fixedIv);
    SplitsRecord(f, s.p, key, kind, version, seqnum, text, random);
  }

  /** A primitive that allows for sixteen bytes and adds none: its empty record is refused. */
  lemma ShortRecord(fixedIv: Raw, key: Raw, kind: bv8, version: nat, seqnum: Raw)
    requires |fixedIv| == 12 && |seqnum| == 8
    ensures var p := Primitive(12, 16, (k, n, text, ad) => Some(text), (k, n, text, ad) => Some(text));
            var s := Suite(true, false, 0, 12, p);
            Known(s, Tls13) && Correct(p) && Sound(Table(s, Tls13, fixedIv)) &&
            var sealed := Sealed(false, Table(s, Tls13, fixedIv), p, key, kind, version, seqnum, [], []);
            sealed == Some([]) && Opened(false, Table(s, Tls13, fixedIv), p, key, kind, version, seqnum, []) == None
  {
  }

  /** The receiver finds the sender's variable nonce and ciphertext in the record. */
  lemma SplitsRecord(f: Flags, p: Primitive, key: Raw, kind: bv8, version: nat, seqnum: Raw, text: Raw,
      random: Raw)
    requires Sound(f) && |seqnum| == 8 && (f.randomNonce ==> |random| == f.variableNonceLen)
    ensures var sealed := Sealed(false, f, p, key, kind, version, seqnum, text, random);
            var variable := if f.randomNonce then random else seqnum;
            sealed.Some? && f.inRecord ==>
              |sealed.value| >= f.variableNonceLen && sealed.value[..f.variableNonceLen] == variable &&
              Some(sealed.value[f.variableNonceLen..])
              == p.seal(key, Nonce(f, variable), text, AdditionalData(f, kind, version, seqnum, |text|))
  {
    var sealed := Sealed(false, f, p, key, kind, version, seqnum, text, random);
    var variable := if f.randomNonce then random else seqnum;
    if sealed.Some? && f.inRecord {
      var body := p.seal(key, Nonce(f, variable), text, AdditionalData(f, kind, version, seqnum, |text|)).value;
      assert sealed.value == variable + body;
    }
  }
}
