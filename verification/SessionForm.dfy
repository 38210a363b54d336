/**
 The bytes of a session as any DER reader sees them, with the identifier octets of the ASN.1
 module written out, and that sessions of ordinary size do get printed.
 */
module SessionForm {
  import opened Basics
  import opened BigEndian
  import opened Der
  import opened SessionAsn1

  /** `c` is the content of an INTEGER with this value. */
  predicate IsInteger(c: Bytes, n: nat) {
    c != [] && c[0] < 0x80 && FromBe(c) == n
  }

  lemma UintForm(n: nat, rest: Bytes)
    requires n < TWO_64
    ensures Get(Uint(n) + rest, 0x02) == Some((Content(n), rest)) && IsInteger(Content(n), n)
  {
    Uint64Trip(n);
    GetTrip(INTEGER, Content(n), rest);
  }

  lemma OctetsForm(b: Bytes, rest: Bytes)
    requires |b| <= MAX_LENGTH
    ensures Get(Octets(b) + rest, 0x04) == Some((b, rest))
  {
    GetTrip(OCTET_STRING, b, rest);
  }

  lemma BoolForm(b: bool)
    ensures Bool(b) == [0x01, 0x01, if b then 0xff else 0x00]
  {
  }

  /** [n] EXPLICIT: constructed and context-specific. */
  lemma ExplicitForm(n: nat, content: Bytes, rest: Bytes)
    requires n < 31 && |content| <= MAX_LENGTH
    ensures Get(OptionalElement(n, Some(content)) + rest, 0xA0 + n) == Some((content, rest))
  {
    GetTrip(Tag(n), content, rest);
  }

  lemma PrintForm(s: Session, forTicket: bool, rest: Bytes)
    requires Typed(s)
    ensures var p := Print(s, forTicket); p.Some? ==> Get(p.value + rest, 0x30) == Some((PrintBody(s, forTicket), rest))
  {
    if Print(s, forTicket).Some? {
      GetTrip(SEQUENCE, PrintBody(s, forTicket), rest);
    }
    hide PrintBody, Fits;
  }

  /** `e` holds one INTEGER with this value and nothing else. */
  ghost predicate HoldsInteger(e: Bytes, n: nat) {
    exists c: Bytes :: Get(e, 0x02) == Some((c, [])) && IsInteger(c, n)
  }

  lemma HoldsUint(n: nat)
    requires n < TWO_64
    ensures HoldsInteger(Uint(n), n)
  {
    UintForm(n, []);
    assert Uint(n) + [] == Uint(n);
    hide Uint, Get;
  }

  lemma CipherForm(n: nat)
    requires n < TWO_16
    ensures Be(n, 2) == [n / 0x100, n % 0x100]
  {
    assert Be(n / 0x100, 1) == Be(n / 0x100 / 0x100, 0) + [n / 0x100 % 0x100];
  }

  /** The first fields as they stand: the version of the format, the protocol version, and the cipher
      as two bytes. */
  lemma VersionForm(h: Header, rest: Bytes) returns (version: Bytes, b1: Bytes, b2: Bytes, b3: Bytes)
    requires HeaderFits(h)
    ensures Get(PrintHeader(h, rest), 0x02) == Some(([1], b1))
    ensures Get(b1, 0x02) == Some((version, b2)) && IsInteger(version, h.sslVersion)
    ensures Get(b2, 0x04) == Some(([h.cipher / 0x100, h.cipher % 0x100], b3)) && b3 == SecretsAndTimes(h, rest)
  {
    version, b3 := Content(h.sslVersion), SecretsAndTimes(h, rest);
    CipherForm(h.cipher);
    b2 := Octets(Be(h.cipher, 2)) + b3;
    b1 := Uint(h.sslVersion) + b2;
    assert PrintHeader(h, rest) == Uint(VERSION) + b1;
    assert Content(1) == [1];
    hide PrintHeader, SecretsAndTimes, Get, Uint, Octets, Be, FromBe, Content;
    UintForm(VERSION, b1);
    UintForm(h.sslVersion, b2);
    OctetsForm(Be(h.cipher, 2), b3);
  }

  function SecretsAndTimes(h: Header, rest: Bytes): Bytes
    requires HeaderFits(h)
  {
    SmallElements();
    Octets(h.sessionId) + (Octets(h.masterKey) + (Element(Tag(1), Uint(h.time))
      + (Element(Tag(2), Uint(h.timeout)) + rest)))
  }

  /** Then the session ID, the master key, and the two times under their tags. */
  lemma SecretsForm(h: Header, rest: Bytes) returns (time: Bytes, timeout: Bytes, b4: Bytes, b5: Bytes, b6: Bytes)
    requires HeaderFits(h)
    ensures Get(SecretsAndTimes(h, rest), 0x04) == Some((h.sessionId, b4))
    ensures Get(b4, 0x04) == Some((h.masterKey, b5))
    ensures Get(b5, 0xA1) == Some((time, b6)) && HoldsInteger(time, h.time)
    ensures Get(b6, 0xA2) == Some((timeout, rest)) && HoldsInteger(timeout, h.timeout)
  {
    SmallElements();
    time, timeout := Uint(h.time), Uint(h.timeout);
    HoldsUint(h.time);
    HoldsUint(h.timeout);
    hide Get, Uint, Octets, HoldsInteger;
    b6 := OptionalElement(2, Some(timeout)) + rest;
    b5 := OptionalElement(1, Some(time)) + b6;
    b4 := Octets(h.masterKey) + b5;
    hide Element;
    OctetsForm(h.sessionId, b4);
    OctetsForm(h.masterKey, b5);
    ExplicitForm(1, time, b6);
    ExplicitForm(2, timeout, rest);
  }

  // Sessions that are printed.

  /** Far more than any session holds. */
  const ORDINARY: nat := 0x400_0000

  predicate IsOrdinary(o: Option<Bytes>) {
    o.Some? ==> |o.value| <= ORDINARY
  }

  predicate Ordinary(s: Session) {
    && (s.certs != [] ==> |s.certs[0]| <= ORDINARY && |Concat(s.certs[1..])| <= ORDINARY)
    && IsOrdinary(s.pskIdentity) && IsOrdinary(s.ticket) && IsOrdinary(s.sctList) && IsOrdinary(s.ocspResponse)
    && IsOrdinary(s.earlyAlpn)
  }

  lemma ElementGrows(tag: byte, content: Bytes)
    requires |content| <= MAX_LENGTH
    ensures |Element(tag, content)| <= |content| + 6
  {
    LengthDigits(|content|);
  }

  lemma OctetsFit(o: Option<Bytes>)
    requires IsOrdinary(o)
    ensures Nests(o) && Short(o) && (o.Some? ==> |Octets(o.value)| <= ORDINARY + 6)
  {
    if o.Some? {
      ElementGrows(OCTET_STRING, o.value);
    }
  }

  lemma OrdinaryFits(s: Session, forTicket: bool)
    requires Typed(s) && Ordinary(s)
    ensures Fits(s, forTicket)
  {
    hide Octets;
    OctetsFit(s.pskIdentity);
    OctetsFit(s.ticket);
    OctetsFit(s.sctList);
    OctetsFit(s.ocspResponse);
    OctetsFit(s.earlyAlpn);
  }

  predicate AllBelow(c: seq<Option<Bytes>>, most: nat) {
    forall i | 0 <= i < |c| && c[i].Some? :: |c[i].value| <= most
  }

  lemma {:induction false} OptionalsGrow(tags: seq<nat>, c: seq<Option<Bytes>>, most: nat)
    requires |tags| == |c| && (forall i | 0 <= i < |tags| :: tags[i] < 31) && Sized(c) && AllBelow(c, most)
    ensures |PrintOptionals(tags, c)| <= |tags| * (most + 6)
    decreases |tags|
  {
    hide Element;
    if tags != [] {
      if c[0].Some? {
        ElementGrows(Tag(tags[0]), c[0].value);
      }
      OptionalsGrow(tags[1..], c[1..], most);
      OneMore(|tags|, most + 6);
    }
  }

  lemma OneMore(n: nat, m: nat)
    requires n > 0
    ensures n * m == m + (n - 1) * m
  {
  }

  lemma PeerToPskBelow(s: Session)
    requires Typed(s) && Ordinary(s) && FitsPeer(s)
    ensures AllBelow(PeerToPsk(s), ORDINARY + 6)
  {
    SmallElements();
    OctetsFit(s.pskIdentity);
    hide Octets, Uint, Bool;
  }

  lemma HintToSctBelow(s: Session, forTicket: bool)
    requires Typed(s) && Ordinary(s) && FitsTicket(s, forTicket)
    ensures AllBelow(HintToSct(s, forTicket), ORDINARY + 6)
  {
    SmallElements();
    OctetsFit(s.ticket);
    OctetsFit(s.peerSha256);
    OctetsFit(s.sctList);
    hide Octets, Uint, Bool;
  }

  lemma OcspToAgeBelow(s: Session)
    requires Typed(s) && Ordinary(s) && FitsChain(s)
    ensures AllBelow(OcspToAge(s), ORDINARY + 6)
  {
    SmallElements();
    OctetsFit(s.ocspResponse);
    hide Octets, Uint, Bool, Concat, Be;
  }

  lemma ServerToAlpnBelow(s: Session)
    requires Typed(s) && Ordinary(s) && FitsAlpn(s)
    ensures AllBelow(ServerToAlpn(s), ORDINARY + 6)
  {
    SmallElements();
    OctetsFit(s.earlyAlpn);
    hide Octets, Uint, Bool;
  }

  lemma JoinBelow(a: seq<Option<Bytes>>, b: seq<Option<Bytes>>, most: nat)
    requires AllBelow(a, most) && AllBelow(b, most)
    ensures AllBelow(a + b, most)
  {
  }

  lemma ContentsBelow(s: Session, forTicket: bool)
    requires Typed(s) && Ordinary(s) && Fits(s, forTicket)
    ensures AllBelow(Contents(s, forTicket), ORDINARY + 6)
  {
    PeerToPskBelow(s);
    HintToSctBelow(s, forTicket);
    OcspToAgeBelow(s);
    ServerToAlpnBelow(s);
    hide PeerToPsk, HintToSct, OcspToAge, ServerToAlpn, AllBelow, Typed, Ordinary;
    JoinBelow(PeerToPsk(s), HintToSct(s, forTicket), ORDINARY + 6);
    JoinBelow(OcspToAge(s), ServerToAlpn(s), ORDINARY + 6);
    JoinBelow(Early(s, forTicket), Late(s, forTicket), ORDINARY + 6);
  }

  lemma HeaderGrows(h: Header, rest: Bytes)
    requires HeaderFits(h)
    ensures |PrintHeader(h, rest)| <= |rest| + 600
  {
    SmallElements();
    ElementGrows(Tag(1), Uint(h.time));
    ElementGrows(Tag(2), Uint(h.timeout));
    ElementGrows(OCTET_STRING, h.sessionId);
    ElementGrows(OCTET_STRING, h.masterKey);
    ElementGrows(OCTET_STRING, Be(h.cipher, 2));
    hide Uint, Element;
  }

  lemma BodyIsShort(s: Session, forTicket: bool)
    requires Typed(s) && Ordinary(s) && Fits(s, forTicket)
    ensures |PrintBody(s, forTicket)| <= MAX_LENGTH
  {
    ContentsBelow(s, forTicket);
    var c := Contents(s, forTicket);
    OptionalsGrow(Tags(), c, ORDINARY + 6);
    HeaderKept(s, forTicket);
    HeaderGrows(HeaderOf(s, forTicket), PrintOptionals(Tags(), c));
    assert PrintBody(s, forTicket) == PrintHeader(HeaderOf(s, forTicket), PrintOptionals(Tags(), c));
    hide *;
    assert |Tags()| * (ORDINARY + 12) + 600 <= MAX_LENGTH;
  }

  /** Printing does not fail on a session whose fields and chain are below 64 MiB each. */
  lemma OrdinaryIsPrinted(s: Session, forTicket: bool)
    requires Typed(s) && Ordinary(s)
    ensures Print(s, forTicket).Some?
  {
    OrdinaryFits(s, forTicket);
    BodyIsShort(s, forTicket);
    hide Ordinary, Fits, PrintBody, Element;
  }
}
