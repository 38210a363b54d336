/**
 What comes out of the parser, for any bytes at all: a session within its ranges, which printed
 again parses to itself.
 */
module SessionParsed {
  import opened Basics
  import opened BigEndian
  import opened Der
  import opened SessionAsn1

  lemma TwoBytes(b: Bytes)
    requires |b| == 2
    ensures FromBe(b) < TWO_16
  {
    var c := b[..1];
    assert c[..0] == [] && FromBe(c) == c[0];
  }

  lemma FourBytes(b: Bytes)
    requires |b| == 4
    ensures FromBe(b) < TWO_32
  {
    assert b[..3][..2] == b[..2];
    TwoBytes(b[..2]);
  }

  lemma TimesInRange(version: nat, cipher: nat, id: Bytes, key: Bytes, b: Bytes)
    requires ParseTimes(version, cipher, id, key, b).Some?
    ensures var h := ParseTimes(version, cipher, id, key, b).value.0;
            && h.sslVersion == version && h.cipher == cipher && h.sessionId == id && h.masterKey == key
            && h.time < TWO_64 && h.timeout < TWO_32
  {
    hide Get;
  }

  lemma HeaderInRange(b: Bytes, k: Known)
    requires ParseHeader(b, k).Some?
    ensures var h := ParseHeader(b, k).value.0; HeaderFits(h) && k.version(h.sslVersion) && k.cipher(h.cipher)
  {
    var v := TakeUint(TakeUint(b).value.1).value;
    var c := Get(v.1, OCTET_STRING).value;
    TwoBytes(c.0);
    var id := Get(c.1, OCTET_STRING).value;
    var key := Get(id.1, OCTET_STRING).value;
    TimesInRange(v.0, FromBe(c.0), id.0, key.0, key.1);
    hide ParseTimes, TakeUint, Get, FromBe;
  }

  lemma FirstInRange(c: seq<Option<Bytes>>)
    requires |c| >= 7 && DecodeFirst(c).Some?
    ensures var f := DecodeFirst(c).value;
            && |f.sidCtx| <= SID_CTX_MAX && f.verifyResult <= LONG_MAX
            && (f.pskIdentity.Some? ==> 0 !in f.pskIdentity.value)
            && f.ticketLifetimeHint < TWO_32 && f.ticket != Some([])
  {
    hide OctetField, GetOnly, Uint64;
  }

  lemma MiddleInRange(c: seq<Option<Bytes>>)
    requires |c| >= 13 && DecodeMiddle(c).Some?
    ensures var m := DecodeMiddle(c).value;
            && (m.peerSha256.Some? ==> |m.peerSha256.value| == SHA256_LENGTH)
            && |m.originalHandshakeHash| <= HANDSHAKE_HASH_MAX && m.groupId < TWO_16
  {
    hide OctetField, GetOnly, Uint64;
  }

  lemma LastInRange(timeout: nat, c: seq<Option<Bytes>>)
    requires |c| >= 20 && timeout < TWO_32 && DecodeLast(timeout, c).Some?
    ensures var l := DecodeLast(timeout, c).value;
            && (l.ticketAgeAdd.Some? ==> l.ticketAgeAdd.value < TWO_32) && l.peerSignatureAlgorithm < TWO_16
            && l.ticketMaxEarlyData < TWO_32 && l.authTimeout < TWO_32 && l.earlyAlpn != Some([])
  {
    var age := OctetField(c[14]);
    if age.Some? && age.value.Some? && |age.value.value| == 4 {
      FourBytes(age.value.value);
    }
    hide OctetField, GetOnly, Uint64, FromBe;
  }

  lemma CertsInRange(peer: Option<Bytes>, chain: Option<Bytes>)
    requires CertsField(peer, chain).Some?
    ensures var certs := CertsField(peer, chain).value;
            certs != [] ==> certs[0] != [] && forall i | 1 <= i < |certs| :: IsElement(certs[i])
  {
    if peer.Some? && chain.Some? {
      SplitGivesElements(chain.value, SplitCerts(chain.value).value);
    }
    hide SplitCerts, IsElement;
  }

  /** Whatever bytes come: what is parsed is within the ranges of a session's fields, of a version and
      cipher that are known, with no negative verify result and certificates that are elements. */
  lemma ParsedInRange(b: Bytes, k: Known)
    requires Parse(b, k).Some?
    ensures var q := Parse(b, k).value.0;
            Typed(q) && Parseable(q, k) && q.ticket != Some([]) && q.earlyAlpn != Some([])
  {
    var body := Get(b, SEQUENCE).value.0;
    HeaderInRange(body, k);
    var h := ParseHeader(body, k).value;
    FieldsInRange(h.0, h.1, k);
    hide Get, ParseHeader, ParseFields, Typed, Parseable;
  }

  lemma FieldsInRange(h: Header, b: Bytes, k: Known)
    requires HeaderFits(h) && k.version(h.sslVersion) && k.cipher(h.cipher) && ParseFields(h, b).Some?
    ensures var q := ParseFields(h, b).value;
            Typed(q) && Parseable(q, k) && q.ticket != Some([]) && q.earlyAlpn != Some([])
  {
    var c := TakeOptionals(Tags(), b).value;
    FirstInRange(c);
    MiddleInRange(c);
    LastInRange(h.timeout, c);
    CertsInRange(c[0], c[13]);
    hide TakeOptionals, Tags, DecodeFirst, DecodeMiddle, DecodeLast, CertsField, IsElement;
  }

  /** Printed again, it parses to itself, but for a chain that came with its own hash. */
  lemma Reprints(b: Bytes, k: Known, tail: Bytes)
    requires Parse(b, k).Some?
    ensures var q := Parse(b, k).value.0;
            && Typed(q)
            && var p := Print(q, false);
               p.Some? && (q.peerSha256.None? || q.certs == []) ==> Parse(p.value + tail, k) == Some((q, tail))
  {
    ParsedInRange(b, k);
    var q := Parse(b, k).value.0;
    ParseOfPrint(q, false, k, tail);
    hide Parse, Print, Typed, Parseable;
  }
}
