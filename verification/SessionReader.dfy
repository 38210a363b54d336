/** SSL_SESSION_parse as the code runs it: one cursor, each field checked as it is read. It
    computes what SessionAsn1.Parse says. */
module SessionReader {
  import opened Basics
  import opened BigEndian
  import opened Der
  import opened SessionAsn1

  /** What reading the fields under `tags` amounts to when some have been read. */
  ghost function Resume(got: seq<Option<Bytes>>, rest: Option<seq<Option<Bytes>>>): Option<seq<Option<Bytes>>> {
    if rest.None? then None else Some(got + rest.value)
  }

  /** A CBS. */
  class Cursor {
    var data: Bytes

    constructor (data: Bytes)
      ensures this.data == data
    {
      this.data := data;
    }

    method GetAsn1(tag: byte) returns (content: Option<Bytes>)
      modifies this
      ensures var g := Get(old(data), tag);
              if g.None? then content == None && data == old(data) else content == Some(g.value.0) && data == g.value.1
    {
      var r := ReadElement(data);
      if r.None? || r.value.tag != tag {
        return None;
      }
      data := r.value.rest;
      return Some(r.value.content);
    }

    method GetUint64() returns (n: Option<nat>)
      modifies this
      ensures var t := TakeUint(old(data));
              if t.None? then n == None else n == Some(t.value.0) && data == t.value.1
    {
      var content := GetAsn1(INTEGER);
      if content.None? {
        return None;
      }
      n := ReadUint64(content.value);
    }
  }

  /** The mandatory fields. */
  method ReadHeader(c: Cursor, k: Known) returns (h: Option<Header>)
    modifies c
    ensures var p := ParseHeader(old(c.data), k);
            if p.None? then h == None else h == Some(p.value.0) && c.data == p.value.1
    ensures h.Some? ==> h.value.timeout < TWO_32
  {
    hide Get, Uint64, FromBe, TakeUint;
    var version := c.GetUint64();
    if version.None? || version.value != VERSION {
      return None;
    }
    var sslVersion := c.GetUint64();
    if sslVersion.None? || sslVersion.value >= TWO_16 || !k.version(sslVersion.value) {
      return None;
    }
    var cipher := c.GetAsn1(OCTET_STRING);
    if cipher.None? || |cipher.value| != 2 || !k.cipher(FromBe(cipher.value)) {
      return None;
    }
    h := ReadSecrets(c, sslVersion.value, FromBe(cipher.value));
  }

  method ReadSecrets(c: Cursor, version: nat, cipher: nat) returns (h: Option<Header>)
    modifies c
    ensures var p := ParseSecrets(version, cipher, old(c.data));
            if p.None? then h == None else h == Some(p.value.0) && c.data == p.value.1
    ensures h.Some? ==> h.value.timeout < TWO_32
  {
    hide Get, Uint64, TakeUint;
    var sessionId := c.GetAsn1(OCTET_STRING);
    if sessionId.None? || |sessionId.value| > SSL3_MAX_SSL_SESSION_ID_LENGTH {
      return None;
    }
    var masterKey := c.GetAsn1(OCTET_STRING);
    if masterKey.None? || |masterKey.value| > SSL_MAX_MASTER_KEY_LENGTH {
      return None;
    }
    var child := c.GetAsn1(Tag(1));
    if child.None? {
      return None;
    }
    var inner := new Cursor(child.value);
    var time := inner.GetUint64();
    if time.None? {
      return None;
    }
    child := c.GetAsn1(Tag(2));
    if child.None? {
      return None;
    }
    inner := new Cursor(child.value);
    var timeout := inner.GetUint64();
    if timeout.None? || timeout.value >= TWO_32 {
      return None;
    }
    return Some(Header(version, cipher, sessionId.value, masterKey.value, time.value, timeout.value));
  }

  /** The loop over the chain. */
  method ReadChain(chain: Bytes) returns (certs: Option<seq<Bytes>>)
    ensures certs == SplitCerts(chain)
  {
    var rest, read := chain, [];
    assert SplitCerts(chain).Some? ==> [] + SplitCerts(chain).value == SplitCerts(chain).value;
    hide ReadElement;
    while |rest| > 0
      invariant SplitCerts(chain) == Onward(read, SplitCerts(rest))
      decreases |rest|
    {
      var r := ReadElement(rest);
      if r.None? {
        return None;
      }
      var n := r.value.header + |r.value.content|;
      OneMoreCert(read, rest, n);
      rest, read := rest[n..], read + [rest[..n]];
    }
    assert read + [] == read;
    return Some(read);
  }

  ghost function Onward(read: seq<Bytes>, rest: Option<seq<Bytes>>): Option<seq<Bytes>> {
    if rest.None? then None else Some(read + rest.value)
  }

  lemma OneMoreCert(read: seq<Bytes>, rest: Bytes, n: nat)
    requires rest != [] && n <= |rest| && ReadElement(rest).Some?
    requires n == ReadElement(rest).value.header + |ReadElement(rest).value.content|
    ensures Onward(read, SplitCerts(rest)) == Onward(read + [rest[..n]], SplitCerts(rest[n..]))
  {
    var later := SplitCerts(rest[n..]);
    assert SplitCerts(rest) == if later.None? then None else Some([rest[..n]] + later.value);
    hide *;
    OnwardByOne(read, rest[..n], later);
  }

  lemma OnwardByOne(read: seq<Bytes>, cert: Bytes, later: Option<seq<Bytes>>)
    ensures Onward(read, if later.None? then None else Some([cert] + later.value)) == Onward(read + [cert], later)
  {
    if later.Some? {
      assert read + ([cert] + later.value) == read + [cert] + later.value;
    }
  }

  // Fields that cannot be.

  /** What makes the i-th optional field, if it is there, an invalid session. */
  predicate Fails(h: Header, i: nat, o: Option<Bytes>) {
    match i
    case 0 => o == Some([])
    case 1 => BoundedField(o, SID_CTX_MAX).None?
    case 2 => NumberField(o, 0, LONG_MAX).None?
    case 4 => PskField(o).None?
    case 5 => NumberField(o, 0, TWO_32 - 1).None?
    case 6 => StowedField(o).None?
    case 7 => Sha256Field(o).None?
    case 8 => BoundedField(o, HANDSHAKE_HASH_MAX).None?
    case 9 => OctetField(o).None?
    case 10 => OctetField(o).None?
    case 11 => BoolField(o, false).None?
    case 12 => NumberField(o, 0, TWO_16 - 1).None?
    case 13 => o == Some([])
    case 14 => AgeField(o).None?
    case 15 => BoolField(o, true).None?
    case 16 => NumberField(o, 0, TWO_16 - 1).None?
    case 17 => NumberField(o, 0, TWO_32 - 1).None?
    case 18 => NumberField(o, h.timeout, TWO_32 - 1).None?
    case 19 => StowedField(o).None?
    case _ => false
  }

  lemma Refused(h: Header, start: Bytes, got: seq<Option<Bytes>>, data: Bytes, i: nat)
    requires i < |got| <= 20 && TakeOptionals(Tags(), start) == Resume(got, TakeOptionals(Tags()[|got|..], data))
    requires Fails(h, i, got[i]) || (|got| == 14 && CertsField(got[0], got[13]).None?)
    ensures ParseFields(h, start) == None
  {
    hide Tags, TakeOptionals, BoundedField, NumberField, PskField, StowedField, Sha256Field, OctetField, BoolField,
      AgeField;
    hide SplitCerts;
    var rest := TakeOptionals(Tags()[|got|..], data);
    if rest.Some? {
      var c := got + rest.value;
      assert c[i] == got[i];
      assert |got| == 14 ==> c[0] == got[0] && c[13] == got[13];
      assert Decode(h, c) == None;
    }
  }

  /** The cursor among the optional fields; what has been read so far. */
  class Fields {
    var cursor: Cursor
    ghost const start: Bytes
    ghost var got: seq<Option<Bytes>>

    ghost predicate Valid()
      reads this, cursor
    {
      && |got| <= 20
      && TakeOptionals(Tags(), start) == Resume(got, TakeOptionals(Tags()[|got|..], cursor.data))
    }

    constructor (cursor: Cursor)
      ensures Valid() && this.cursor == cursor && start == cursor.data && got == []
    {
      this.cursor, start, got := cursor, cursor.data, [];
      new;
      assert Tags()[0..] == Tags();
      ghost var all := TakeOptionals(Tags(), start);
      assert all.Some? ==> [] + all.value == all.value;
    }

    /** CBS_get_optional_asn1. */
    method Next(n: nat) returns (ok: bool, o: Option<Bytes>)
      requires Valid() && |got| < 20 && n == Tags()[|got|]
      modifies this`got, cursor
      ensures ok ==> Valid() && got == old(got) + [o]
      ensures !ok ==> TakeOptionals(Tags(), start) == None
    {
      ghost var rest := Tags()[|got|..];
      OneMoreField(got, cursor.data);
      o := None;
      if cursor.data != [] && cursor.data[0] == Tag(n) {
        o := cursor.GetAsn1(Tag(n));
        if o.None? {
          return false, None;
        }
      }
      got := got + [o];
      return true, o;
    }

    /** One more field read, or no session. */
    ghost predicate Went(h: Header, before: seq<Option<Bytes>>, ok: bool)
      reads this, cursor
    {
      if ok then Valid() && |got| == |before| + 1 && before <= got else ParseFields(h, start) == None
    }

    lemma NothingLeft(h: Header)
      requires Valid() && |got| == 20
      ensures if cursor.data == [] then TakeOptionals(Tags(), start) == Some(got) else ParseFields(h, start) == None
    {
      assert Tags()[20..] == [] && got + [] == got;
      hide Tags;
    }

    lemma Refuse(h: Header, i: nat)
      requires Valid() && i < |got|
      requires Fails(h, i, got[i]) || (|got| == 14 && CertsField(got[0], got[13]).None?)
      ensures ParseFields(h, start) == None
    {
      Refused(h, start, got, cursor.data, i);
    }

    /** An explicitly tagged OCTET STRING, which must be all there is under the tag. */
    method OctetString(n: nat, ghost h: Header) returns (ok: bool, value: Option<Bytes>)
      requires Valid() && |got| < 20 && n == Tags()[|got|]
      requires forall o :: OctetField(o).None? ==> Fails(h, |got|, o)
      modifies this`got, cursor
      ensures Went(h, old(got), ok) && (ok ==> OctetField(got[|old(got)|]) == Some(value))
      ensures ok && Fails(h, |old(got)|, got[|old(got)|]) ==> ParseFields(h, start) == None
    {
      hide Fails, TakeOptionals, Get;
      var o;
      ok, o := Next(n);
      if !ok {
        return false, None;
      }
      if Fails(h, |got| - 1, o) {
        Refused(h, start, got, cursor.data, |got| - 1);
      }
      value := None;
      if o.Some? {
        var child := new Cursor(o.value);
        value := child.GetAsn1(OCTET_STRING);
        ok := value.Some? && child.data == [];
      }
    }

    /** SSL_SESSION_parse_bounded_octet_string. */
    method BoundedOctetString(n: nat, most: nat, ghost h: Header) returns (ok: bool, value: Bytes)
      requires Valid() && |got| < 20 && n == Tags()[|got|]
      requires forall o :: BoundedField(o, most).None? <==> Fails(h, |got|, o)
      modifies this`got, cursor
      ensures Went(h, old(got), ok) && (ok ==> BoundedField(got[|old(got)|], most) == Some(value))
    {
      hide Fails, TakeOptionals, OctetField, ParseFields;
      var o;
      ok, o := OctetString(n, h);
      value := if o.Some? then o.value else [];
      ok := ok && |value| <= most;
    }

    /** SSL_SESSION_parse_u16, _u32 and _long. */
    method Uint(n: nat, absent: nat, most: nat, ghost h: Header) returns (ok: bool, value: nat)
      requires Valid() && |got| < 20 && n == Tags()[|got|] && absent <= most
      requires forall o :: NumberField(o, absent, most).None? <==> Fails(h, |got|, o)
      modifies this`got, cursor
      ensures Went(h, old(got), ok) && (ok ==> NumberField(got[|old(got)|], absent, most) == Some(value))
    {
      hide Fails, TakeOptionals, Get, Uint64, ParseFields;
      var o;
      ok, o := Next(n);
      value := absent;
      if !ok {
        ParseNothing(h, start);
        return;
      }
      if o.Some? {
        var child := new Cursor(o.value);
        var v := child.GetUint64();
        ok := v.Some? && child.data == [] && v.value <= most;
        value := if v.Some? then v.value else absent;
      }
      if Fails(h, |got| - 1, o) {
        Refused(h, start, got, cursor.data, |got| - 1);
      }
    }

    /** CBS_get_optional_asn1_bool. */
    method Boolean(n: nat, absent: bool, ghost h: Header) returns (ok: bool, value: bool)
      requires Valid() && |got| < 20 && n == Tags()[|got|]
      requires forall o :: BoolField(o, absent).None? <==> Fails(h, |got|, o)
      modifies this`got, cursor
      ensures Went(h, old(got), ok) && (ok ==> BoolField(got[|old(got)|], absent) == Some(value))
    {
      hide Fails, TakeOptionals, Get, ParseFields;
      var o;
      ok, o := Next(n);
      value := absent;
      if !ok {
        ParseNothing(h, start);
        return;
      }
      if o.Some? {
        var child := new Cursor(o.value);
        var b := child.GetAsn1(BOOLEAN);
        ok := b.Some? && child.data == [] && |b.value| == 1 && (b.value[0] == 0 || b.value[0] == 0xff);
        value := ok && b.value[0] != 0;
        assert ok ==> b.value == [b.value[0]];
      }
      if Fails(h, |got| - 1, o) {
        Refused(h, start, got, cursor.data, |got| - 1);
      }
    }
  }

  lemma ParseNothing(h: Header, start: Bytes)
    requires TakeOptionals(Tags(), start) == None
    ensures ParseFields(h, start) == None
  {
  }

  lemma OneMoreField(got: seq<Option<Bytes>>, data: Bytes)
    requires |got| < 20
    ensures var t := TakeOptional(Tags()[|got|], data);
            Resume(got, TakeOptionals(Tags()[|got|..], data))
            == if t.None? then None
               else Resume(got + [t.value.0], TakeOptionals(Tags()[|got| + 1..], t.value.1))
  {
    var tags := Tags()[|got|..];
    assert tags[0] == Tags()[|got|] && tags[1..] == Tags()[|got| + 1..];
    hide Tags, TakeOptional;
    var t := TakeOptional(tags[0], data);
    if t.Some? {
      var rest := TakeOptionals(tags[1..], t.value.1);
      if rest.Some? {
        assert got + ([t.value.0] + rest.value) == got + [t.value.0] + rest.value;
      }
    }
  }

  /** Tags 3 to 10. */
  method ReadFirst(f: Fields, ghost h: Header) returns (peer: Option<Bytes>, r: Option<First>)
    requires f.Valid() && f.got == []
    modifies f`got, f.cursor
    ensures r.Some? ==> f.Valid() && |f.got| == 7 && f.got[0] == peer && peer != Some([]) && DecodeFirst(f.got) == r
    ensures r.None? ==> ParseFields(h, f.start) == None
  {
    TagsAre();
    hide Tags, Fields.Valid, TakeOptionals, BoundedField, NumberField, OctetField, ParseFields;
    r := None;
    var ok;
    ok, peer := f.Next(3);
    if !ok {
      ParseNothing(h, f.start);
      return;
    }
    if peer == Some([]) {
      f.Refuse(h, 0);
      return;
    }
    var sidCtx, verify, hostName, psk, hint, ticket;
    ok, sidCtx := f.BoundedOctetString(4, SID_CTX_MAX, h);
    if !ok {
      return;
    }
    ok, verify := f.Uint(5, 0, LONG_MAX, h);
    if !ok {
      return;
    }
    ok, hostName := f.Next(6);
    if !ok {
      ParseNothing(h, f.start);
      return;
    }
    ok, psk := f.OctetString(8, h);
    if !ok || (psk.Some? && 0 in psk.value) {
      return;
    }
    ok, hint := f.Uint(9, 0, TWO_32 - 1, h);
    if !ok {
      return;
    }
    ok, ticket := f.OctetString(10, h);
    if !ok {
      return;
    }
    r := Some(First(sidCtx, verify, psk, hint, if ticket == Some([]) then None else ticket));
  }

  /** Tags 13 to 18. */
  method ReadMiddle(f: Fields, ghost h: Header) returns (r: Option<Middle>)
    requires f.Valid() && |f.got| == 7
    modifies f`got, f.cursor
    ensures r.Some? ==> f.Valid() && |f.got| == 13 && old(f.got) <= f.got && DecodeMiddle(f.got) == r
    ensures r.None? ==> ParseFields(h, f.start) == None
  {
    TagsAre();
    hide Tags, Fields.Valid, TakeOptionals, BoundedField, NumberField, BoolField, OctetField, ParseFields;
    r := None;
    var ok, sha, hash, sct, ocsp, ems, groupId;
    ok, sha := f.OctetString(13, h);
    if !ok || (sha.Some? && |sha.value| != SHA256_LENGTH) {
      return;
    }
    ok, hash := f.BoundedOctetString(14, HANDSHAKE_HASH_MAX, h);
    if !ok {
      return;
    }
    ok, sct := f.OctetString(15, h);
    if !ok {
      return;
    }
    ok, ocsp := f.OctetString(16, h);
    if !ok {
      return;
    }
    ok, ems := f.Boolean(17, false, h);
    if !ok {
      return;
    }
    ok, groupId := f.Uint(18, 0, TWO_16 - 1, h);
    if !ok {
      return;
    }
    r := Some(Middle(sha, hash, sct, ocsp, ems, groupId));
  }

  /** Tag 19, and the certificates. */
  method ReadCertificates(f: Fields, ghost h: Header, peer: Option<Bytes>) returns (r: Option<seq<Bytes>>)
    requires f.Valid() && |f.got| == 13 && f.got[0] == peer && peer != Some([])
    modifies f`got, f.cursor
    ensures r.Some? ==> f.Valid() && |f.got| == 14 && old(f.got) <= f.got && CertsField(f.got[0], f.got[13]) == r
    ensures r.None? ==> ParseFields(h, f.start) == None
  {
    TagsAre();
    hide Tags, Fields.Valid, TakeOptionals, ParseFields, CertsField;
    var ok, chain := f.Next(19);
    if !ok {
      ParseNothing(h, f.start);
      return None;
    }
    r := ReadCerts(peer, chain);
    if r.None? {
      f.Refuse(h, 13);
    }
  }

  /** The peer's certificate and the chain behind it. */
  method ReadCerts(peer: Option<Bytes>, chain: Option<Bytes>) returns (certs: Option<seq<Bytes>>)
    requires peer != Some([])
    ensures certs == CertsField(peer, chain)
  {
    if chain == Some([]) || (chain.Some? && peer.None?) {
      return None;
    }
    var list := if peer.Some? then [peer.value] else [];
    if chain.Some? {
      var rest := ReadChain(chain.value);
      if rest.None? {
        return None;
      }
      list := list + rest.value;
    }
    return Some(list);
  }

  /** Tags 21 to 26, and nothing after them. */
  method ReadLast(f: Fields, h: Header) returns (r: Option<Last>)
    requires f.Valid() && |f.got| == 14 && h.timeout < TWO_32
    modifies f`got, f.cursor
    ensures r.Some? ==> |f.got| == 20 && old(f.got) <= f.got && DecodeLast(h.timeout, f.got) == r
                        && TakeOptionals(Tags(), f.start) == Some(f.got)
    ensures r.None? ==> ParseFields(h, f.start) == None
  {
    TagsAre();
    hide Tags, Fields.Valid, TakeOptionals, BoundedField, NumberField, BoolField, OctetField, ParseFields;
    r := None;
    var ok, age, isServer, sigalg, early, auth, alpn;
    ok, age := f.OctetString(21, h);
    if !ok || (age.Some? && |age.value| != 4) {
      return;
    }
    ok, isServer := f.Boolean(22, true, h);
    if !ok {
      return;
    }
    ok, sigalg := f.Uint(23, 0, TWO_16 - 1, h);
    if !ok {
      return;
    }
    ok, early := f.Uint(24, 0, TWO_32 - 1, h);
    if !ok {
      return;
    }
    ok, auth := f.Uint(25, h.timeout, TWO_32 - 1, h);
    if !ok {
      return;
    }
    ok, alpn := f.OctetString(26, h);
    if !ok {
      return;
    }
    f.NothingLeft(h);
    if f.cursor.data != [] {
      return;
    }
    r := Some(Last(if age.Some? then Some(FromBe(age.value)) else None, isServer, sigalg, early, auth,
                   if alpn == Some([]) then None else alpn));
  }

  /** SSL_SESSION_parse. */
  method ParseSession(cbs: Cursor, k: Known) returns (s: Option<Session>)
    modifies cbs
    ensures var p := Parse(old(cbs.data), k);
            if p.None? then s == None else s == Some(p.value.0) && cbs.data == p.value.1
  {
    hide Get, ParseHeader, TakeOptionals, DecodeFirst, DecodeMiddle, DecodeLast, CertsField, Tags;
    var session := cbs.GetAsn1(SEQUENCE);
    if session.None? {
      return None;
    }
    var c := new Cursor(session.value);
    var h := ReadHeader(c, k);
    if h.None? {
      return None;
    }
    var f := new Fields(c);
    var peer, first := ReadFirst(f, h.value);
    if first.None? {
      return None;
    }
    ghost var seven := f.got;
    var middle := ReadMiddle(f, h.value);
    if middle.None? {
      return None;
    }
    ghost var thirteen := f.got;
    var certs := ReadCertificates(f, h.value, peer);
    if certs.None? {
      return None;
    }
    ghost var fourteen := f.got;
    var last := ReadLast(f, h.value);
    if last.None? {
      return None;
    }
    SamePrefix(seven, f.got);
    SamePrefix(thirteen, f.got);
    SamePrefix(fourteen, f.got);
    return Some(Assemble(h.value, first.value, middle.value, certs.value, last.value));
  }

  lemma SamePrefix(c: seq<Option<Bytes>>, d: seq<Option<Bytes>>)
    requires 7 <= |c| && c <= d
    ensures DecodeFirst(c) == DecodeFirst(d) && (13 <= |c| ==> DecodeMiddle(c) == DecodeMiddle(d))
    ensures 14 <= |c| ==> c[0] == d[0] && c[13] == d[13]
  {
  }
}
