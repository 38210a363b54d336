/** Sessions as bytes: the printer, the parser, and that the second undoes the first
    (ssl_asn1.cc). */
module SessionAsn1 {
  import opened Basics
  import opened BigEndian
  import opened Der

  const VERSION: nat := 1
  const SSL3_MAX_SSL_SESSION_ID_LENGTH: nat := 32
  const SSL_MAX_MASTER_KEY_LENGTH: nat := 48
  const SID_CTX_MAX: nat := 32
  const HANDSHAKE_HASH_MAX: nat := 64
  const SHA256_LENGTH: nat := 32
  const LONG_MIN: int := -0x8000_0000_0000_0000
  const LONG_MAX: nat := 0x7FFF_FFFF_FFFF_FFFF
  const TWO_16: nat := 0x1_0000

  datatype Session = Session(
    sslVersion: nat, cipher: nat, sessionId: Bytes, masterKey: Bytes, time: nat, timeout: nat,
    certs: seq<Bytes>, sidCtx: Bytes, verifyResult: int, pskIdentity: Option<Bytes>, ticketLifetimeHint: nat,
    ticket: Option<Bytes>, peerSha256: Option<Bytes>, originalHandshakeHash: Bytes, sctList: Option<Bytes>,
    ocspResponse: Option<Bytes>, extendedMasterSecret: bool, groupId: nat, ticketAgeAdd: Option<nat>,
    isServer: bool, peerSignatureAlgorithm: nat, ticketMaxEarlyData: nat, authTimeout: nat, earlyAlpn: Option<Bytes>)

  /** The versions and ciphers the library knows. */
  datatype Known = Known(version: nat -> bool, cipher: nat -> bool)

  /** The numbers of the explicit tags, in their order in the structure. */
  function Tags(): (t: seq<nat>)
    ensures |t| == 20 && Ascending(t)
  {
    Ascend([3, 4, 5, 6, 8], [9, 10, 13, 14, 15]);
    Ascend([16, 17, 18, 19, 21], [22, 23, 24, 25, 26]);
    [3, 4, 5, 6, 8] + [9, 10, 13, 14, 15] + ([16, 17, 18, 19, 21] + [22, 23, 24, 25, 26])
  }

  lemma Ascend(a: seq<nat>, b: seq<nat>)
    requires |a| == |b| == 5 && a[0] < a[1] < a[2] < a[3] < a[4] < b[0] < b[1] < b[2] < b[3] < b[4] < 31
    ensures Ascending(a + b) && forall i | 0 <= i < 10 :: a[0] <= (a + b)[i] <= b[4]
  {
  }

  predicate Ascending(tags: seq<nat>) {
    && (forall i | 0 <= i < |tags| :: tags[i] < 31)
    && (forall i, j | 0 <= i < j < |tags| :: tags[i] < tags[j])
  }

  lemma TagsAre()
    ensures var t := Tags();
            && t[0] == 3 && t[1] == 4 && t[2] == 5 && t[3] == 6 && t[4] == 8 && t[5] == 9 && t[6] == 10
            && t[7] == 13 && t[8] == 14 && t[9] == 15 && t[10] == 16 && t[11] == 17 && t[12] == 18 && t[13] == 19
            && t[14] == 21 && t[15] == 22 && t[16] == 23 && t[17] == 24 && t[18] == 25 && t[19] == 26
  {
  }

  function Tag(n: nat): (t: byte)
    requires n < 31
  {
    0xA0 + n
  }

  // Contents.

  function Uint(n: nat): Bytes
    requires n < TWO_64
  {
    Uint64Trip(n);
    Element(INTEGER, Content(n))
  }

  function Octets(b: Bytes): Bytes
    requires |b| <= MAX_LENGTH
  {
    Element(OCTET_STRING, b)
  }

  function Bool(b: bool): Bytes {
    Element(BOOLEAN, [if b then 0xff else 0])
  }

  function Be(n: nat, width: nat): (b: Bytes)
    ensures |b| == width
  {
    if width == 0 then [] else Be(n / 0x100, width - 1) + [n % 0x100]
  }

  function Concat(certs: seq<Bytes>): Bytes {
    if certs == [] then [] else certs[0] + Concat(certs[1..])
  }

  /** An octet string short enough to be wrapped in one more element. */
  predicate Nests(o: Option<Bytes>) {
    o.Some? ==> |o.value| <= MAX_LENGTH && |Octets(o.value)| <= MAX_LENGTH
  }

  // No element under an explicit tag is too long for the builder.

  predicate FitsPeer(s: Session) {
    (SendsChain(s) ==> |s.certs[0]| <= MAX_LENGTH) && Nests(s.pskIdentity)
  }

  predicate FitsTicket(s: Session, forTicket: bool) {
    (!forTicket ==> Nests(s.ticket)) && Nests(s.sctList)
  }

  predicate FitsChain(s: Session) {
    Nests(s.ocspResponse) && (SendsChain(s) && |s.certs| >= 2 ==> |Concat(s.certs[1..])| <= MAX_LENGTH)
  }

  predicate FitsAlpn(s: Session) {
    Nests(s.earlyAlpn)
  }

  predicate Fits(s: Session, forTicket: bool) {
    FitsPeer(s) && FitsTicket(s, forTicket) && FitsChain(s) && FitsAlpn(s)
  }

  /** Certificates are printed only if the hash of the first is not printed instead. */
  predicate SendsChain(s: Session) {
    s.certs != [] && s.peerSha256.None?
  }

  /** The ranges of the structure's fields. */
  predicate Typed(s: Session) {
    && s.sslVersion < TWO_16 && s.cipher < TWO_16
    && |s.sessionId| <= SSL3_MAX_SSL_SESSION_ID_LENGTH && |s.masterKey| <= SSL_MAX_MASTER_KEY_LENGTH
    && s.time < TWO_64 && s.timeout < TWO_32 && |s.sidCtx| <= SID_CTX_MAX
    && LONG_MIN <= s.verifyResult <= LONG_MAX && (s.pskIdentity.Some? ==> 0 !in s.pskIdentity.value)
    && s.ticketLifetimeHint < TWO_32 && (s.peerSha256.Some? ==> |s.peerSha256.value| == SHA256_LENGTH)
    && |s.originalHandshakeHash| <= HANDSHAKE_HASH_MAX && s.groupId < TWO_16
    && (s.ticketAgeAdd.Some? ==> s.ticketAgeAdd.value < TWO_32)
    && s.peerSignatureAlgorithm < TWO_16 && s.ticketMaxEarlyData < TWO_32 && s.authTimeout < TWO_32
  }

  /** What the parser insists on besides: a version and a cipher it knows, a verify result that is
      not negative, and certificates, if they are printed, of which the first is not empty and
      each other is one DER element. */
  predicate Parseable(s: Session, k: Known) {
    && k.version(s.sslVersion) && k.cipher(s.cipher) && s.verifyResult >= 0
    && (SendsChain(s) ==> s.certs[0] != [] && forall i | 1 <= i < |s.certs| :: IsElement(s.certs[i]))
  }

  /** The conversion of a long to uint64_t. */
  function Unsigned(n: int): nat
    requires LONG_MIN <= n <= LONG_MAX
  {
    if n < 0 then n + TWO_64 else n
  }

  /** Exactly one DER element. */
  predicate IsElement(b: Bytes) {
    var r := ReadElement(b);
    r.Some? && r.value.rest == []
  }

  /** What is lost on the way: the session ID and the ticket in tickets, an empty ticket or
      ALPN string, the chain when its hash is kept. */
  function Canonical(s: Session, forTicket: bool): Session {
    s.(sessionId := if forTicket then [] else s.sessionId,
       certs := if s.peerSha256.Some? then [] else s.certs,
       ticket := if forTicket || s.ticket == Some([]) then None else s.ticket,
       earlyAlpn := if s.earlyAlpn == Some([]) then None else s.earlyAlpn)
  }

  // Printing.

  function When(b: bool, content: Bytes): Option<Bytes> {
    if b then Some(content) else None
  }

  function OctetsOf(o: Option<Bytes>): Option<Bytes>
    requires o.Some? ==> |o.value| <= MAX_LENGTH
  {
    if o.Some? then Some(Octets(o.value)) else None
  }

  predicate Short(o: Option<Bytes>) {
    o.Some? ==> |o.value| <= MAX_LENGTH
  }

  predicate Sized(contents: seq<Option<Bytes>>) {
    forall i | 0 <= i < |contents| :: Short(contents[i])
  }

  lemma AllShort(c: seq<Option<Bytes>>)
    requires |c| == 5 && Short(c[0]) && Short(c[1]) && Short(c[2]) && Short(c[3]) && Short(c[4])
    ensures Sized(c)
  {
  }

  /** What stands under each tag, if anything. */
  function Contents(s: Session, forTicket: bool): (c: seq<Option<Bytes>>)
    requires Typed(s) && Fits(s, forTicket)
    ensures |c| == 20 && Sized(c)
  {
    Early(s, forTicket) + Late(s, forTicket)
  }

  function Early(s: Session, forTicket: bool): (c: seq<Option<Bytes>>)
    requires Typed(s) && Fits(s, forTicket)
    ensures |c| == 10 && Sized(c)
  {
    PeerToPsk(s) + HintToSct(s, forTicket)
  }

  function Late(s: Session, forTicket: bool): (c: seq<Option<Bytes>>)
    requires Typed(s) && Fits(s, forTicket)
    ensures |c| == 10 && Sized(c)
  {
    OcspToAge(s) + ServerToAlpn(s)
  }

  function PeerToPsk(s: Session): (c: seq<Option<Bytes>>)
    requires Typed(s) && FitsPeer(s)
    ensures |c| == 5 && Sized(c)
  {
    SmallElements();
    var c: seq<Option<Bytes>> :=
      [When(SendsChain(s), if SendsChain(s) then s.certs[0] else []),
       Some(Octets(s.sidCtx)),
       When(s.verifyResult != 0, Uint(Unsigned(s.verifyResult))),
       None,
       OctetsOf(s.pskIdentity)];
    AllShort(c);
    c
  }

  function HintToSct(s: Session, forTicket: bool): (c: seq<Option<Bytes>>)
    requires Typed(s) && FitsTicket(s, forTicket)
    ensures |c| == 5 && Sized(c)
  {
    SmallElements();
    var c: seq<Option<Bytes>> :=
      [When(s.ticketLifetimeHint > 0, Uint(s.ticketLifetimeHint)),
       if forTicket then None else OctetsOf(s.ticket),
       OctetsOf(s.peerSha256),
       When(|s.originalHandshakeHash| > 0, Octets(s.originalHandshakeHash)),
       OctetsOf(s.sctList)];
    AllShort(c);
    c
  }

  function OcspToAge(s: Session): (c: seq<Option<Bytes>>)
    requires Typed(s) && FitsChain(s)
    ensures |c| == 5 && Sized(c)
  {
    SmallElements();
    var chained := SendsChain(s) && |s.certs| >= 2;
    var c: seq<Option<Bytes>> :=
      [OctetsOf(s.ocspResponse),
       When(s.extendedMasterSecret, Bool(true)),
       When(s.groupId > 0, Uint(s.groupId)),
       When(chained, if chained then Concat(s.certs[1..]) else []),
       if s.ticketAgeAdd.Some? then Some(Octets(Be(s.ticketAgeAdd.value, 4))) else None];
    AllShort(c);
    c
  }

  function ServerToAlpn(s: Session): (c: seq<Option<Bytes>>)
    requires Typed(s) && FitsAlpn(s)
    ensures |c| == 5 && Sized(c)
  {
    SmallElements();
    var c: seq<Option<Bytes>> :=
      [When(!s.isServer, Bool(false)),
       When(s.peerSignatureAlgorithm != 0, Uint(s.peerSignatureAlgorithm)),
       When(s.ticketMaxEarlyData != 0, Uint(s.ticketMaxEarlyData)),
       When(s.timeout != s.authTimeout, Uint(s.authTimeout)),
       OctetsOf(s.earlyAlpn)];
    AllShort(c);
    c
  }

  lemma SmallElements()
    ensures forall n: nat | n < TWO_64 :: |Uint(n)| <= 11
    ensures forall b: Bytes | |b| <= 0x7F :: |Octets(b)| <= 0x81
    ensures forall b: bool :: |Bool(b)| == 3
  {
    forall n: nat | n < TWO_64 ensures |Uint(n)| <= 11 {
      Uint64Trip(n);
    }
  }

  function OptionalElement(n: nat, o: Option<Bytes>): Bytes
    requires n < 31 && (o.Some? ==> |o.value| <= MAX_LENGTH)
  {
    if o.Some? then Element(Tag(n), o.value) else []
  }

  function PrintOptionals(tags: seq<nat>, contents: seq<Option<Bytes>>): Bytes
    requires |tags| == |contents| && (forall i | 0 <= i < |tags| :: tags[i] < 31) && Sized(contents)
    decreases |tags|
  {
    if tags == [] then [] else OptionalElement(tags[0], contents[0]) + PrintOptionals(tags[1..], contents[1..])
  }

  /** The fields that are always there, followed by the others. */
  function PrintHeader(h: Header, rest: Bytes): Bytes
    requires HeaderFits(h)
  {
    SmallElements();
    Uint(VERSION) + (Uint(h.sslVersion) + (Octets(Be(h.cipher, 2)) + (Octets(h.sessionId) + (Octets(h.masterKey)
      + (Element(Tag(1), Uint(h.time)) + (Element(Tag(2), Uint(h.timeout)) + rest))))))
  }

  datatype Header = Header(sslVersion: nat, cipher: nat, sessionId: Bytes, masterKey: Bytes, time: nat, timeout: nat)

  predicate HeaderFits(h: Header) {
    && h.sslVersion < TWO_16 && h.cipher < TWO_16 && h.time < TWO_64 && h.timeout < TWO_32
    && |h.sessionId| <= SSL3_MAX_SSL_SESSION_ID_LENGTH && |h.masterKey| <= SSL_MAX_MASTER_KEY_LENGTH
  }

  function HeaderOf(s: Session, forTicket: bool): Header {
    Header(s.sslVersion, s.cipher, if forTicket then [] else s.sessionId, s.masterKey, s.time, s.timeout)
  }

  /** What is inside the SEQUENCE. */
  function PrintBody(s: Session, forTicket: bool): Bytes
    requires Typed(s) && Fits(s, forTicket)
  {
    PrintHeader(HeaderOf(s, forTicket), PrintOptionals(Tags(), Contents(s, forTicket)))
  }

  /** SSL_SESSION_to_bytes_full: it fails only when an element grows too long. */
  function Print(s: Session, forTicket: bool): Option<Bytes>
    requires Typed(s)
  {
    if !Fits(s, forTicket) then None
    else
      var body := PrintBody(s, forTicket);
      if |body| > MAX_LENGTH then None else Some(Element(SEQUENCE, body))
  }

  // Parsing.

  /** CBS_get_optional_asn1: the content of an element with this tag if one comes next, and
      what follows it. */
  function TakeOptional(n: nat, b: Bytes): Option<(Option<Bytes>, Bytes)>
    requires n < 31
  {
    if b != [] && b[0] == Tag(n) then
      var g := Get(b, Tag(n));
      if g.None? then None else Some((Some(g.value.0), g.value.1))
    else Some((None, b))
  }

  /** Each tag in turn; nothing may be left over. */
  function TakeOptionals(tags: seq<nat>, b: Bytes): (r: Option<seq<Option<Bytes>>>)
    requires forall i | 0 <= i < |tags| :: tags[i] < 31
    ensures r.Some? ==> |r.value| == |tags|
    decreases |tags|
  {
    if tags == [] then (if b == [] then Some([]) else None)
    else
      var o := TakeOptional(tags[0], b);
      if o.None? then None
      else
        var rest := TakeOptionals(tags[1..], o.value.1);
        if rest.None? then None else Some([o.value.0] + rest.value)
  }

  /** CBS_get_asn1_uint64. */
  function TakeUint(b: Bytes): Option<(nat, Bytes)> {
    var g := Get(b, INTEGER);
    if g.None? || Uint64(g.value.0).None? then None else Some((Uint64(g.value.0).value, g.value.1))
  }

  function ParseHeader(b: Bytes, k: Known): Option<(Header, Bytes)> {
    var v := TakeUint(b);
    if v.None? || v.value.0 != VERSION then None
    else ParseVersion(v.value.1, k)
  }

  function ParseVersion(b: Bytes, k: Known): Option<(Header, Bytes)> {
    var v := TakeUint(b);
    if v.None? || v.value.0 >= TWO_16 || !k.version(v.value.0) then None
    else
      var c := Get(v.value.1, OCTET_STRING);
      if c.None? || |c.value.0| != 2 || !k.cipher(FromBe(c.value.0)) then None
      else ParseSecrets(v.value.0, FromBe(c.value.0), c.value.1)
  }

  function ParseSecrets(version: nat, cipher: nat, b: Bytes): Option<(Header, Bytes)> {
    var id := Get(b, OCTET_STRING);
    if id.None? || |id.value.0| > SSL3_MAX_SSL_SESSION_ID_LENGTH then None
    else
      var key := Get(id.value.1, OCTET_STRING);
      if key.None? || |key.value.0| > SSL_MAX_MASTER_KEY_LENGTH then None
      else ParseTimes(version, cipher, id.value.0, key.value.0, key.value.1)
  }

  /** The two children are not checked for trailing bytes. */
  function ParseTimes(version: nat, cipher: nat, sessionId: Bytes, masterKey: Bytes, b: Bytes): Option<(Header,
      Bytes)> {
    var time := Get(b, Tag(1));
    if time.None? || TakeUint(time.value.0).None? then None
    else
      var timeout := Get(time.value.1, Tag(2));
      if timeout.None? || TakeUint(timeout.value.0).None? || TakeUint(timeout.value.0).value.0 >= TWO_32 then None
      else Some((Header(version, cipher, sessionId, masterKey, TakeUint(time.value.0).value.0,
                        TakeUint(timeout.value.0).value.0), timeout.value.1))
  }

  /** An optional octet string. */
  function OctetField(o: Option<Bytes>): Option<Option<Bytes>> {
    if o.None? then Some(None)
    else
      var g := GetOnly(o.value, OCTET_STRING);
      if g.None? then None else Some(g)
  }

  /** One of bounded length, absent meaning empty. */
  function BoundedField(o: Option<Bytes>, most: nat): Option<Bytes> {
    var f := OctetField(o);
    if f.None? then None
    else if f.value.None? then Some([])
    else if |f.value.value| > most then None else f.value
  }

  /** One that CBS_stow keeps, for which empty is absent. */
  function StowedField(o: Option<Bytes>): Option<Option<Bytes>> {
    var f := OctetField(o);
    if f == Some(Some([])) then Some(None) else f
  }

  function NumberField(o: Option<Bytes>, absent: nat, most: nat): (r: Option<nat>)
    ensures r.Some? && absent <= most ==> r.value <= most
  {
    if o.None? then Some(absent)
    else
      var g := GetOnly(o.value, INTEGER);
      if g.None? || Uint64(g.value).None? || Uint64(g.value).value > most then None else Uint64(g.value)
  }

  function BoolField(o: Option<Bytes>, absent: bool): Option<bool> {
    if o.None? then Some(absent)
    else
      var g := GetOnly(o.value, BOOLEAN);
      if g == Some([0]) then Some(false) else if g == Some([0xff]) then Some(true) else None
  }

  function AgeField(o: Option<Bytes>): Option<Option<nat>> {
    var f := OctetField(o);
    if f.None? then None
    else if f.value.None? then Some(None)
    else if |f.value.value| != 4 then None else Some(Some(FromBe(f.value.value)))
  }

  function PskField(o: Option<Bytes>): Option<Option<Bytes>> {
    var f := OctetField(o);
    if f.Some? && f.value.Some? && 0 in f.value.value then None else f
  }

  function Sha256Field(o: Option<Bytes>): Option<Option<Bytes>> {
    var f := OctetField(o);
    if f.Some? && f.value.Some? && |f.value.value| != SHA256_LENGTH then None else f
  }

  /** One element after the other until nothing is left. */
  function SplitCerts(b: Bytes): Option<seq<Bytes>>
    decreases |b|
  {
    if b == [] then Some([])
    else
      var r := ReadElement(b);
      if r.None? then None
      else
        var n := r.value.header + |r.value.content|;
        var rest := SplitCerts(b[n..]);
        if rest.None? then None else Some([b[..n]] + rest.value)
  }

  function CertsField(peer: Option<Bytes>, chain: Option<Bytes>): Option<seq<Bytes>> {
    if peer == Some([]) || chain == Some([]) then None
    else if peer.None? then (if chain.Some? then None else Some([]))
    else if chain.None? then Some([peer.value])
    else
      var rest := SplitCerts(chain.value);
      if rest.None? then None else Some([peer.value] + rest.value)
  }

  datatype First = First(sidCtx: Bytes, verifyResult: nat, pskIdentity: Option<Bytes>, ticketLifetimeHint: nat,
                         ticket: Option<Bytes>)

  function DecodeFirst(c: seq<Option<Bytes>>): Option<First>
    requires |c| >= 7
  {
    var sidCtx := BoundedField(c[1], SID_CTX_MAX);
    var verify := NumberField(c[2], 0, LONG_MAX);
    var psk := PskField(c[4]);
    var hint := NumberField(c[5], 0, TWO_32 - 1);
    var ticket := StowedField(c[6]);
    if sidCtx.None? || verify.None? || psk.None? || hint.None? || ticket.None? then None
    else Some(First(sidCtx.value, verify.value, psk.value, hint.value, ticket.value))
  }

  datatype Middle = Middle(peerSha256: Option<Bytes>, originalHandshakeHash: Bytes, sctList: Option<Bytes>,
                           ocspResponse: Option<Bytes>, extendedMasterSecret: bool, groupId: nat)

  function DecodeMiddle(c: seq<Option<Bytes>>): Option<Middle>
    requires |c| >= 13
  {
    var sha := Sha256Field(c[7]);
    var hash := BoundedField(c[8], HANDSHAKE_HASH_MAX);
    var sct := OctetField(c[9]);
    var ocsp := OctetField(c[10]);
    var ems := BoolField(c[11], false);
    var group := NumberField(c[12], 0, TWO_16 - 1);
    if sha.None? || hash.None? || sct.None? || ocsp.None? || ems.None? || group.None? then None
    else Some(Middle(sha.value, hash.value, sct.value, ocsp.value, ems.value, group.value))
  }

  datatype Last = Last(ticketAgeAdd: Option<nat>, isServer: bool, peerSignatureAlgorithm: nat, ticketMaxEarlyData: nat,
                       authTimeout: nat, earlyAlpn: Option<Bytes>)

  function DecodeLast(timeout: nat, c: seq<Option<Bytes>>): Option<Last>
    requires |c| >= 20
  {
    var age := AgeField(c[14]);
    var isServer := BoolField(c[15], true);
    var sigalg := NumberField(c[16], 0, TWO_16 - 1);
    var early := NumberField(c[17], 0, TWO_32 - 1);
    var auth := NumberField(c[18], timeout, TWO_32 - 1);
    var alpn := StowedField(c[19]);
    if age.None? || isServer.None? || sigalg.None? || early.None? || auth.None? || alpn.None? then None
    else Some(Last(age.value, isServer.value, sigalg.value, early.value, auth.value, alpn.value))
  }

  function Assemble(h: Header, f: First, m: Middle, certs: seq<Bytes>, l: Last): Session {
    Session(h.sslVersion, h.cipher, h.sessionId, h.masterKey, h.time, h.timeout, certs, f.sidCtx, f.verifyResult,
            f.pskIdentity, f.ticketLifetimeHint, f.ticket, m.peerSha256, m.originalHandshakeHash, m.sctList,
            m.ocspResponse, m.extendedMasterSecret, m.groupId, l.ticketAgeAdd, l.isServer, l.peerSignatureAlgorithm,
            l.ticketMaxEarlyData, l.authTimeout, l.earlyAlpn)
  }

  function Decode(h: Header, c: seq<Option<Bytes>>): Option<Session>
    requires |c| == 20
  {
    var f, m, certs, l := DecodeFirst(c), DecodeMiddle(c), CertsField(c[0], c[13]), DecodeLast(h.timeout, c);
    if f.None? || m.None? || certs.None? || l.None? then None
    else Some(Assemble(h, f.value, m.value, certs.value, l.value))
  }

  /** The optional fields after a header. */
  function ParseFields(h: Header, b: Bytes): Option<Session> {
    var c := TakeOptionals(Tags(), b);
    if c.None? then None else Decode(h, c.value)
  }

  /** What is inside the SEQUENCE. */
  function ParseBody(b: Bytes, k: Known): Option<Session> {
    var header := ParseHeader(b, k);
    if header.None? then None else ParseFields(header.value.0, header.value.1)
  }

  /** SSL_SESSION_parse: the session and the bytes after it. */
  function Parse(b: Bytes, k: Known): Option<(Session, Bytes)> {
    var body := Get(b, SEQUENCE);
    if body.None? then None
    else
      var s := ParseBody(body.value.0, k);
      if s.None? then None else Some((s.value, body.value.1))
  }

  // The parser undoes the printer.

  /** Nothing, or an element with a higher tag. */
  predicate Above(n: nat, b: Bytes) {
    b != [] ==> b[0] > 0xA0 + n
  }

  lemma {:induction false} OptionalsAbove(tags: seq<nat>, contents: seq<Option<Bytes>>, n: nat)
    requires |tags| == |contents| && (forall i | 0 <= i < |tags| :: n < tags[i] < 31) && Sized(contents)
    ensures Above(n, PrintOptionals(tags, contents))
    decreases |tags|
  {
    if tags != [] {
      OptionalsAbove(tags[1..], contents[1..], n);
      assert n < tags[0];
    }
  }

  lemma {:induction false} OptionalsTrip(tags: seq<nat>, contents: seq<Option<Bytes>>)
    requires |tags| == |contents| && Ascending(tags) && Sized(contents)
    ensures TakeOptionals(tags, PrintOptionals(tags, contents)) == Some(contents)
    decreases |tags|
  {
    if tags != [] {
      AscendingTail(tags);
      OptionalsTrip(tags[1..], contents[1..]);
      OptionalsAbove(tags[1..], contents[1..], tags[0]);
      OptionalTrip(tags[0], contents[0], PrintOptionals(tags[1..], contents[1..]));
      assert contents == [contents[0]] + contents[1..];
      hide TakeOptional, OptionalElement, Ascending, Sized;
    }
  }

  lemma AscendingTail(tags: seq<nat>)
    requires tags != [] && Ascending(tags)
    ensures Ascending(tags[1..]) && forall i | 0 <= i < |tags| - 1 :: tags[0] < tags[1..][i]
  {
  }

  /** One optional element and what follows it. */
  lemma OptionalTrip(n: nat, o: Option<Bytes>, rest: Bytes)
    requires n < 31 && (o.Some? ==> |o.value| <= MAX_LENGTH) && Above(n, rest)
    ensures var b := OptionalElement(n, o) + rest;
            TakeOptional(n, b) == Some((o, rest))
  {
    if o.Some? {
      GetTrip(Tag(n), o.value, rest);
    } else {
      assert [] + rest == rest;
    }
  }

  lemma {:induction false} NumberOfBe(n: nat, width: nat)
    requires n < Bits.Pow2(8 * width)
    ensures FromBe(Be(n, width)) == n
  {
    if width > 0 {
      var b := Be(n, width);
      assert b[..|b| - 1] == Be(n / 0x100, width - 1);
      assert Bits.Pow2(8 * width) == 0x100 * Bits.Pow2(8 * (width - 1)) by {
        Bits.Pow2Adds(8, 8 * (width - 1));
        Bits.WordSizes();
      }
      NumberOfBe(n / 0x100, width - 1);
    } else {
      Bits.WordSizes();
    }
  }

  lemma TakeUintTrip(n: nat, tail: Bytes)
    requires n < TWO_64
    ensures TakeUint(Uint(n) + tail) == Some((n, tail))
    ensures GetOnly(Uint(n), INTEGER) == Some(Content(n)) && Uint64(Content(n)) == Some(n)
  {
    Uint64Trip(n);
    GetTrip(INTEGER, Content(n), tail);
  }

  lemma UintAlone(n: nat)
    requires n < TWO_64
    ensures TakeUint(Uint(n)) == Some((n, []))
  {
    TakeUintTrip(n, []);
    hide TakeUint, Uint;
    assert Uint(n) + [] == Uint(n);
  }

  lemma HeaderTrip(h: Header, tail: Bytes, k: Known)
    requires HeaderFits(h) && k.version(h.sslVersion) && k.cipher(h.cipher)
    ensures ParseHeader(PrintHeader(h, tail), k) == Some((h, tail))
  {
    SmallElements();
    var times := Element(Tag(1), Uint(h.time)) + (Element(Tag(2), Uint(h.timeout)) + tail);
    var secrets := Octets(h.sessionId) + (Octets(h.masterKey) + times);
    TimesTrip(h, tail);
    SecretsTrip(h, times);
    VersionTrip(h, secrets, k);
    TakeUintTrip(VERSION, Uint(h.sslVersion) + (Octets(Be(h.cipher, 2)) + secrets));
    hide Get, Element, TakeUint, FromBe, Be, ParseVersion, ParseSecrets, ParseTimes, Uint;
  }

  lemma VersionTrip(h: Header, secrets: Bytes, k: Known)
    requires HeaderFits(h) && k.version(h.sslVersion) && k.cipher(h.cipher)
    ensures ParseVersion(Uint(h.sslVersion) + (Octets(Be(h.cipher, 2)) + secrets), k)
         == ParseSecrets(h.sslVersion, h.cipher, secrets)
  {
    assert h.cipher < Bits.Pow2(16) by {
      Bits.WordSizes();
    }
    NumberOfBe(h.cipher, 2);
    TakeUintTrip(h.sslVersion, Octets(Be(h.cipher, 2)) + secrets);
    GetTrip(OCTET_STRING, Be(h.cipher, 2), secrets);
    hide Get, Element, TakeUint, FromBe, Be, ParseSecrets, Uint;
  }

  lemma TimesTrip(h: Header, tail: Bytes)
    requires HeaderFits(h) && |Uint(h.time)| <= MAX_LENGTH && |Uint(h.timeout)| <= MAX_LENGTH
    ensures ParseTimes(h.sslVersion, h.cipher, h.sessionId, h.masterKey,
                       Element(Tag(1), Uint(h.time)) + (Element(Tag(2), Uint(h.timeout)) + tail)) == Some((h, tail))
  {
    hide Uint, Get, Element, TakeUint;
    var t, u := Uint(h.time), Uint(h.timeout);
    UintAlone(h.time);
    UintAlone(h.timeout);
    GetTrip(Tag(1), t, Element(Tag(2), u) + tail);
    GetTrip(Tag(2), u, tail);
  }

  lemma SecretsTrip(h: Header, times: Bytes)
    requires HeaderFits(h)
    ensures ParseSecrets(h.sslVersion, h.cipher, Octets(h.sessionId) + (Octets(h.masterKey) + times))
         == ParseTimes(h.sslVersion, h.cipher, h.sessionId, h.masterKey, times)
  {
    GetTrip(OCTET_STRING, h.sessionId, Octets(h.masterKey) + times);
    GetTrip(OCTET_STRING, h.masterKey, times);
    hide Get, Element, ParseTimes;
  }

  lemma {:induction false} SplitTrip(certs: seq<Bytes>)
    requires forall i | 0 <= i < |certs| :: IsElement(certs[i])
    ensures SplitCerts(Concat(certs)) == Some(certs)
    decreases |certs|
  {
    if certs != [] {
      SplitTrip(certs[1..]);
      OneSplit(certs[0], Concat(certs[1..]));
      hide SplitCerts, IsElement;
      assert certs == [certs[0]] + certs[1..];
    }
  }

  lemma OneSplit(c: Bytes, rest: Bytes)
    requires IsElement(c)
    ensures SplitCerts(c + rest)
         == if SplitCerts(rest).None? then None else Some([c] + SplitCerts(rest).value)
  {
    PrefixElement(c, rest);
    hide ReadElement, IsElement;
    assert (c + rest)[..|c|] == c && (c + rest)[|c|..] == rest;
  }

  /** An element is read the same whatever follows it. */
  lemma PrefixElement(c: Bytes, tail: Bytes)
    requires IsElement(c)
    ensures c != []
    ensures var r := ReadElement(c + tail); r.Some? && r.value.header + |r.value.content| == |c|
  {
    if c[1] >= 0x80 {
      var k := c[1] - 0x80;
      assert (c + tail)[2..2 + k] == c[2..2 + k];
    }
  }

  // One field each.

  lemma OctetsTrip(o: Option<Bytes>)
    requires Nests(o)
    ensures OctetField(OctetsOf(o)) == Some(o)
    ensures StowedField(OctetsOf(o)) == Some(if o == Some([]) then None else o)
  {
    if o.Some? {
      GetTrip(OCTET_STRING, o.value, []);
    }
  }

  lemma BoundedTrip(b: Bytes, most: nat, always: bool)
    requires |b| <= most <= 0x7F
    ensures BoundedField(When(always || |b| > 0, Octets(b)), most) == Some(b)
  {
    GetTrip(OCTET_STRING, b, []);
  }

  lemma NumberTrip(n: nat, absent: nat, most: nat)
    requires n <= most < TWO_64
    ensures NumberField(When(n != absent, Uint(n)), absent, most) == Some(n)
  {
    TakeUintTrip(n, []);
  }

  lemma BoolTrip(b: bool, absent: bool)
    ensures BoolField(When(b != absent, Bool(b)), absent) == Some(b)
  {
    GetTrip(BOOLEAN, [if b then 0xff else 0], []);
  }

  lemma AgeTrip(age: Option<nat>)
    requires age.Some? ==> age.value < TWO_32
    ensures AgeField(if age.Some? then Some(Octets(Be(age.value, 4))) else None) == Some(age)
  {
    if age.Some? {
      Bits.WordSizes();
      NumberOfBe(age.value, 4);
      GetTrip(OCTET_STRING, Be(age.value, 4), []);
    }
  }

  lemma CertsTrip(certs: seq<Bytes>)
    requires certs != [] && certs[0] != [] && (forall i | 1 <= i < |certs| :: IsElement(certs[i]))
    ensures CertsField(Some(certs[0]), When(|certs| >= 2, Concat(certs[1..]))) == Some(certs)
  {
    var chain := certs[1..];
    SplitTrip(chain);
    assert certs == [certs[0]] + chain;
    if chain == [] {
      assert certs == [certs[0]];
    } else {
      PrefixElement(chain[0], []);
      assert Concat(chain) != [] by {
        assert |Concat(chain)| >= |chain[0]|;
      }
      hide SplitCerts, IsElement, Concat;
    }
  }

  lemma ContentsAre(s: Session, forTicket: bool)
    requires Typed(s) && Fits(s, forTicket)
    ensures var c, e, l := Contents(s, forTicket), Early(s, forTicket), Late(s, forTicket);
            (forall i | 0 <= i < 10 :: c[i] == e[i]) && (forall i | 10 <= i < 20 :: c[i] == l[i - 10])
  {
  }

  lemma EarlyAre(s: Session, forTicket: bool)
    requires Typed(s) && Fits(s, forTicket)
    ensures var e := Early(s, forTicket);
            && e[1] == When(true, Octets(s.sidCtx))
            && e[2] == When(s.verifyResult != 0, Uint(Unsigned(s.verifyResult)))
            && e[4] == OctetsOf(s.pskIdentity)
            && e[5] == When(s.ticketLifetimeHint != 0, Uint(s.ticketLifetimeHint))
            && e[6] == (if forTicket then None else OctetsOf(s.ticket))
            && e[7] == OctetsOf(s.peerSha256)
            && e[8] == When(|s.originalHandshakeHash| > 0, Octets(s.originalHandshakeHash))
            && e[9] == OctetsOf(s.sctList)
  {
    hide OctetsOf, Octets, Uint, Sized, IsElement;
  }

  lemma LateAre(s: Session, forTicket: bool)
    requires Typed(s) && Fits(s, forTicket)
    ensures var l := Late(s, forTicket);
            && l[0] == OctetsOf(s.ocspResponse)
            && l[1] == When(s.extendedMasterSecret != false, Bool(s.extendedMasterSecret))
            && l[2] == When(s.groupId != 0, Uint(s.groupId))
            && l[4] == (if s.ticketAgeAdd.Some? then Some(Octets(Be(s.ticketAgeAdd.value, 4))) else None)
            && l[5] == When(s.isServer != true, Bool(s.isServer))
            && l[6] == When(s.peerSignatureAlgorithm != 0, Uint(s.peerSignatureAlgorithm))
            && l[7] == When(s.ticketMaxEarlyData != 0, Uint(s.ticketMaxEarlyData))
            && l[8] == When(s.authTimeout != s.timeout, Uint(s.authTimeout))
            && l[9] == OctetsOf(s.earlyAlpn)
  {
    hide OctetsOf, Octets, Uint, Sized, IsElement;
  }

  /** Every field decodes to what was there, or to what its absence stands for. */
  lemma EarlyTrip(s: Session, forTicket: bool)
    requires Typed(s) && Fits(s, forTicket)
    ensures var e := Early(s, forTicket);
            && PskField(e[4]) == Some(s.pskIdentity)
            && StowedField(e[6]) == Some(Canonical(s, forTicket).ticket)
            && Sha256Field(e[7]) == Some(s.peerSha256)
            && OctetField(e[9]) == Some(s.sctList)
  {
    EarlyAre(s, forTicket);
    hide Early, IsElement, Sized;
    OctetsTrip(s.pskIdentity);
    if !forTicket {
      OctetsTrip(s.ticket);
    }
    assert Nests(s.peerSha256) by {
      SmallElements();
    }
    OctetsTrip(s.peerSha256);
    OctetsTrip(s.sctList);
    hide *;
  }

  lemma EarlyBoundsTrip(s: Session, forTicket: bool)
    requires Typed(s) && Fits(s, forTicket) && s.verifyResult >= 0
    ensures var e := Early(s, forTicket);
            && BoundedField(e[1], SID_CTX_MAX) == Some(s.sidCtx)
            && NumberField(e[2], 0, LONG_MAX) == Some(s.verifyResult)
            && NumberField(e[5], 0, TWO_32 - 1) == Some(s.ticketLifetimeHint)
            && BoundedField(e[8], HANDSHAKE_HASH_MAX) == Some(s.originalHandshakeHash)
  {
    EarlyAre(s, forTicket);
    hide Early, IsElement, Sized;
    BoundedTrip(s.sidCtx, SID_CTX_MAX, true);
    NumberTrip(s.verifyResult, 0, LONG_MAX);
    NumberTrip(s.ticketLifetimeHint, 0, TWO_32 - 1);
    BoundedTrip(s.originalHandshakeHash, HANDSHAKE_HASH_MAX, false);
    hide *;
  }

  lemma LateTrip(s: Session, forTicket: bool)
    requires Typed(s) && Fits(s, forTicket)
    ensures var l := Late(s, forTicket);
            && OctetField(l[0]) == Some(s.ocspResponse)
            && StowedField(l[9]) == Some(Canonical(s, forTicket).earlyAlpn)
  {
    LateAre(s, forTicket);
    hide Late, IsElement, Sized;
    OctetsTrip(s.ocspResponse);
    OctetsTrip(s.earlyAlpn);
    hide *;
  }

  lemma LateFlagsTrip(s: Session, forTicket: bool)
    requires Typed(s) && Fits(s, forTicket)
    ensures var l := Late(s, forTicket);
            && BoolField(l[1], false) == Some(s.extendedMasterSecret)
            && AgeField(l[4]) == Some(s.ticketAgeAdd)
            && BoolField(l[5], true) == Some(s.isServer)
  {
    LateAre(s, forTicket);
    hide Late, IsElement, Sized;
    BoolTrip(s.extendedMasterSecret, false);
    AgeTrip(s.ticketAgeAdd);
    BoolTrip(s.isServer, true);
    hide *;
  }

  lemma LateNumbersTrip(s: Session, forTicket: bool)
    requires Typed(s) && Fits(s, forTicket)
    ensures var l := Late(s, forTicket);
            && NumberField(l[2], 0, TWO_16 - 1) == Some(s.groupId)
            && NumberField(l[6], 0, TWO_16 - 1) == Some(s.peerSignatureAlgorithm)
            && NumberField(l[7], 0, TWO_32 - 1) == Some(s.ticketMaxEarlyData)
            && NumberField(l[8], s.timeout, TWO_32 - 1) == Some(s.authTimeout)
  {
    LateAre(s, forTicket);
    hide Late, IsElement, Sized;
    NumberTrip(s.groupId, 0, TWO_16 - 1);
    NumberTrip(s.peerSignatureAlgorithm, 0, TWO_16 - 1);
    NumberTrip(s.ticketMaxEarlyData, 0, TWO_32 - 1);
    NumberTrip(s.authTimeout, s.timeout, TWO_32 - 1);
    hide *;
  }

  lemma ChainTrip(s: Session, forTicket: bool, k: Known)
    requires Typed(s) && Fits(s, forTicket) && Parseable(s, k)
    ensures CertsField(Early(s, forTicket)[0], Late(s, forTicket)[3]) == Some(Canonical(s, forTicket).certs)
  {
    if SendsChain(s) {
      CertsTrip(s.certs);
    }
    ChainAre(s, forTicket);
    hide Early, Late, SplitCerts, IsElement, Concat, Octets, Uint;
  }

  lemma DecodeTrip(s: Session, forTicket: bool, k: Known)
    requires Typed(s) && Fits(s, forTicket) && Parseable(s, k)
    ensures Decode(HeaderOf(s, forTicket), Contents(s, forTicket)) == Some(Canonical(s, forTicket))
  {
    FirstTrip(s, forTicket);
    MiddleTrip(s, forTicket, k);
    LastTrip(s, forTicket);
    hide DecodeFirst, DecodeMiddle, DecodeLast, CertsField, Contents, Typed, Fits, Sized;
  }

  lemma FirstTrip(s: Session, forTicket: bool)
    requires Typed(s) && Fits(s, forTicket) && s.verifyResult >= 0
    ensures DecodeFirst(Contents(s, forTicket))
         == Some(First(s.sidCtx, s.verifyResult, s.pskIdentity, s.ticketLifetimeHint, Canonical(s, forTicket).ticket))
  {
    ContentsAre(s, forTicket);
    EarlyTrip(s, forTicket);
    EarlyBoundsTrip(s, forTicket);
    hide BoundedField, NumberField, StowedField, PskField, Early, Late, Contents, Typed, Fits, Sized;
  }

  lemma MiddleTrip(s: Session, forTicket: bool, k: Known)
    requires Typed(s) && Fits(s, forTicket) && Parseable(s, k)
    ensures DecodeMiddle(Contents(s, forTicket))
         == Some(Middle(s.peerSha256, s.originalHandshakeHash, s.sctList, s.ocspResponse, s.extendedMasterSecret,
                        s.groupId))
    ensures CertsField(Contents(s, forTicket)[0], Contents(s, forTicket)[13]) == Some(Canonical(s, forTicket).certs)
  {
    ContentsAre(s, forTicket);
    EarlyTrip(s, forTicket);
    EarlyBoundsTrip(s, forTicket);
    LateTrip(s, forTicket);
    LateFlagsTrip(s, forTicket);
    LateNumbersTrip(s, forTicket);
    ChainTrip(s, forTicket, k);
    hide CertsField, BoundedField, BoolField, NumberField, OctetField, Sha256Field;
    hide Early, Late, Contents, Typed, Fits, Sized;
  }

  lemma LastTrip(s: Session, forTicket: bool)
    requires Typed(s) && Fits(s, forTicket)
    ensures DecodeLast(s.timeout, Contents(s, forTicket))
         == Some(Last(s.ticketAgeAdd, s.isServer, s.peerSignatureAlgorithm, s.ticketMaxEarlyData, s.authTimeout,
                      Canonical(s, forTicket).earlyAlpn))
  {
    ContentsAre(s, forTicket);
    LateTrip(s, forTicket);
    LateFlagsTrip(s, forTicket);
    LateNumbersTrip(s, forTicket);
    hide BoolField, NumberField, StowedField, AgeField, Early, Late, Contents, Typed, Fits, Sized;
  }

  // When it does not.

  lemma HeaderRefused(h: Header, tail: Bytes, k: Known)
    requires HeaderFits(h) && !(k.version(h.sslVersion) && k.cipher(h.cipher))
    ensures ParseHeader(PrintHeader(h, tail), k) == None
  {
    SmallElements();
    var times := Element(Tag(1), Uint(h.time)) + (Element(Tag(2), Uint(h.timeout)) + tail);
    var secrets := Octets(h.sessionId) + (Octets(h.masterKey) + times);
    VersionRefused(h, secrets, k);
    TakeUintTrip(VERSION, Uint(h.sslVersion) + (Octets(Be(h.cipher, 2)) + secrets));
    hide Get, Element, TakeUint, FromBe, Be, ParseVersion, Uint;
  }

  lemma VersionRefused(h: Header, secrets: Bytes, k: Known)
    requires HeaderFits(h) && !(k.version(h.sslVersion) && k.cipher(h.cipher))
    ensures ParseVersion(Uint(h.sslVersion) + (Octets(Be(h.cipher, 2)) + secrets), k) == None
  {
    assert h.cipher < Bits.Pow2(16) by {
      Bits.WordSizes();
    }
    NumberOfBe(h.cipher, 2);
    TakeUintTrip(h.sslVersion, Octets(Be(h.cipher, 2)) + secrets);
    GetTrip(OCTET_STRING, Be(h.cipher, 2), secrets);
    hide Get, Element, TakeUint, FromBe, Be, ParseSecrets, Uint;
  }

  lemma {:induction false} SplitGivesElements(b: Bytes, certs: seq<Bytes>)
    requires SplitCerts(b) == Some(certs)
    ensures forall i | 0 <= i < |certs| :: IsElement(certs[i])
    decreases |b|
  {
    if b != [] {
      var r := ReadElement(b).value;
      var n := r.header + |r.content|;
      SplitGivesElements(b[n..], certs[1..]);
      CutElement(b, n);
      hide ReadElement, IsElement, SplitCerts;
      forall i | 0 <= i < |certs| ensures IsElement(certs[i]) {
        assert i > 0 ==> certs[i] == certs[1..][i - 1];
      }
    }
  }

  /** The bytes of the first element are one element. */
  lemma CutElement(b: Bytes, n: nat)
    requires ReadElement(b).Some? && n == ReadElement(b).value.header + |ReadElement(b).value.content|
    ensures n <= |b| && IsElement(b[..n])
  {
    var c := b[..n];
    if b[1] >= 0x80 {
      var k := b[1] - 0x80;
      assert c[2..2 + k] == b[2..2 + k];
    }
  }

  lemma CertsRefused(certs: seq<Bytes>)
    requires certs != []
    requires CertsField(Some(certs[0]), When(|certs| >= 2, if |certs| >= 2 then Concat(certs[1..]) else []))
             == Some(certs)
    ensures certs[0] != [] && forall i | 1 <= i < |certs| :: IsElement(certs[i])
  {
    if |certs| >= 2 {
      var rest := SplitCerts(Concat(certs[1..])).value;
      SplitGivesElements(Concat(certs[1..]), rest);
      hide SplitCerts, IsElement, Concat;
      forall i | 1 <= i < |certs| ensures IsElement(certs[i]) {
        assert ([certs[0]] + rest)[i] == rest[i - 1];
      }
    }
  }

  lemma NegativeRefused(s: Session, forTicket: bool)
    requires Typed(s) && Fits(s, forTicket) && s.verifyResult < 0
    ensures DecodeFirst(Contents(s, forTicket)) == None
  {
    ContentsAre(s, forTicket);
    EarlyAre(s, forTicket);
    TakeUintTrip(Unsigned(s.verifyResult), []);
    hide Early, Late, Contents, Fits, Sized, Uint, Get;
  }

  lemma DecodeRefused(s: Session, forTicket: bool, k: Known)
    requires Typed(s) && Fits(s, forTicket) && k.version(s.sslVersion) && k.cipher(s.cipher) && !Parseable(s, k)
    ensures Decode(HeaderOf(s, forTicket), Contents(s, forTicket)) != Some(Canonical(s, forTicket))
  {
    if s.verifyResult < 0 {
      NegativeRefused(s, forTicket);
      hide DecodeFirst, Contents, CertsField;
    } else {
      ContentsAre(s, forTicket);
      ChainAre(s, forTicket);
      var certs := s.certs;
      if CertsField(Some(certs[0]), When(|certs| >= 2, if |certs| >= 2 then Concat(certs[1..]) else []))
        == Some(certs) {
        CertsRefused(certs);
      }
      hide DecodeFirst, DecodeMiddle, DecodeLast, Contents, Early, Late, CertsField, IsElement, Typed, Fits;
    }
  }

  lemma ChainAre(s: Session, forTicket: bool)
    requires Typed(s) && Fits(s, forTicket)
    ensures Early(s, forTicket)[0] == When(SendsChain(s), if SendsChain(s) then s.certs[0] else [])
    ensures Late(s, forTicket)[3]
         == When(SendsChain(s) && |s.certs| >= 2, if SendsChain(s) && |s.certs| >= 2 then Concat(s.certs[1..]) else [])
  {
    hide Concat, Octets, Uint;
  }

  /** What was printed parses to what it should exactly when the session is one the parser takes. */
  lemma BodyTrip(s: Session, forTicket: bool, k: Known)
    requires Typed(s) && Fits(s, forTicket)
    ensures ParseBody(PrintBody(s, forTicket), k) == Some(Canonical(s, forTicket)) <==> Parseable(s, k)
  {
    HeaderKept(s, forTicket);
    hide Typed, Fits, Canonical, HeaderOf, HeaderFits, PrintHeader, Contents, Tags, PrintOptionals, Sized, Ascending;
    hide IsElement, SendsChain;
    var h, c := HeaderOf(s, forTicket), Contents(s, forTicket);
    var o := PrintOptionals(Tags(), c);
    assert PrintBody(s, forTicket) == PrintHeader(h, o);
    if k.version(s.sslVersion) && k.cipher(s.cipher) {
      hide *;
      HeaderTrip(h, o, k);
      AllTagsTrip(c);
      ParseBodyIs(PrintHeader(h, o), k, h, o, c);
      if Parseable(s, k) {
        DecodeTrip(s, forTicket, k);
      } else {
        DecodeRefused(s, forTicket, k);
      }
    } else {
      HeaderRefused(h, o, k);
      hide ParseHeader, ParseFields;
    }
  }

  lemma AllTagsTrip(c: seq<Option<Bytes>>)
    requires |c| == 20 && Sized(c)
    ensures TakeOptionals(Tags(), PrintOptionals(Tags(), c)) == Some(c)
  {
    hide Tags, PrintOptionals, TakeOptionals, Sized;
    OptionalsTrip(Tags(), c);
  }

  lemma ParseBodyIs(b: Bytes, k: Known, h: Header, o: Bytes, c: seq<Option<Bytes>>)
    requires |c| == 20 && ParseHeader(b, k) == Some((h, o)) && TakeOptionals(Tags(), o) == Some(c)
    ensures ParseBody(b, k) == Decode(h, c)
  {
    hide Tags, ParseHeader, TakeOptionals, Decode;
  }

  lemma HeaderKept(s: Session, forTicket: bool)
    requires Typed(s)
    ensures var h := HeaderOf(s, forTicket);
            HeaderFits(h) && h.sslVersion == s.sslVersion && h.cipher == s.cipher
  {
  }

  lemma ParsesToCanonical(s: Session, forTicket: bool, k: Known, tail: Bytes)
    requires Typed(s)
    ensures var p := Print(s, forTicket);
            p.Some? ==> (Parse(p.value + tail, k) == Some((Canonical(s, forTicket), tail)) <==> Parseable(s, k))
  {
    hide Typed, Parseable;
    if Print(s, forTicket).Some? {
      BodyTrip(s, forTicket, k);
      GetTrip(SEQUENCE, PrintBody(s, forTicket), tail);
    }
    hide Get, Element, PrintBody, ParseBody, Fits, Canonical;
  }

  /** `q` is `s` field by field, but for the session ID and the ticket in tickets, an empty ticket
      or ALPN string, and the chain when its hash is kept. */
  predicate Restores(q: Session, s: Session, forTicket: bool) {
    && q.sessionId == (if forTicket then [] else s.sessionId)
    && q.certs == (if s.peerSha256.Some? then [] else s.certs)
    && q.ticket == (if forTicket || s.ticket == Some([]) then None else s.ticket)
    && q.earlyAlpn == (if s.earlyAlpn == Some([]) then None else s.earlyAlpn)
    && q.sslVersion == s.sslVersion && q.cipher == s.cipher && q.masterKey == s.masterKey
    && q.time == s.time && q.timeout == s.timeout && q.authTimeout == s.authTimeout
    && q.sidCtx == s.sidCtx && q.verifyResult == s.verifyResult && q.pskIdentity == s.pskIdentity
    && q.ticketLifetimeHint == s.ticketLifetimeHint && q.ticketAgeAdd == s.ticketAgeAdd
    && q.peerSha256 == s.peerSha256 && q.originalHandshakeHash == s.originalHandshakeHash
    && q.sctList == s.sctList && q.ocspResponse == s.ocspResponse
    && q.extendedMasterSecret == s.extendedMasterSecret && q.groupId == s.groupId && q.isServer == s.isServer
    && q.peerSignatureAlgorithm == s.peerSignatureAlgorithm && q.ticketMaxEarlyData == s.ticketMaxEarlyData
  }

  lemma OnlyCanonicalRestores(q: Session, s: Session, forTicket: bool)
    ensures Restores(q, s, forTicket) <==> q == Canonical(s, forTicket)
  {
  }

  /** Parsing what was printed gives the session back, short of what Restores drops, and leaves
      the bytes after it alone: for all the sessions the parser takes, and for no others. */
  lemma ParseOfPrint(s: Session, forTicket: bool, k: Known, tail: Bytes)
    requires Typed(s)
    ensures var p := Print(s, forTicket);
            p.Some? ==>
              var r := Parse(p.value + tail, k);
              Parseable(s, k) <==> r.Some? && Restores(r.value.0, s, forTicket) && r.value.1 == tail
  {
    hide Parse, Print, Parseable, Typed, Restores, Canonical;
    ParsesToCanonical(s, forTicket, k, tail);
    if Print(s, forTicket).Some? {
      var r := Parse(Print(s, forTicket).value + tail, k);
      if r.Some? {
        OnlyCanonicalRestores(r.value.0, s, forTicket);
      }
    }
  }
}
