/** SSL_SESSION_to_bytes_full as the code runs it: field after field at the end of a builder,
    failing where an element is too long. It computes what SessionAsn1.Print says. */
module SessionWriter {
  import opened Basics
  import opened Der
  import opened SessionAsn1

  lemma {:induction false} OptionalsThen(tags: seq<nat>, contents: seq<Option<Bytes>>, n: nat, o: Option<Bytes>)
    requires |tags| == |contents| && (forall i | 0 <= i < |tags| :: tags[i] < 31) && Sized(contents) && n < 31
             && Short(o)
    ensures Sized(contents + [o])
    ensures PrintOptionals(tags + [n], contents + [o]) == PrintOptionals(tags, contents) + OptionalElement(n, o)
    decreases |tags|
  {
    hide OptionalElement;
    var t, c, x := tags + [n], contents + [o], OptionalElement(n, o);
    SizedThen(contents, o);
    if tags == [] {
      assert t[1..] == [] && c[1..] == [];
      assert x + [] == [] + x;
    } else {
      assert t[1..] == tags[1..] + [n] && c[1..] == contents[1..] + [o];
      OptionalsThen(tags[1..], contents[1..], n, o);
      var first, rest := OptionalElement(tags[0], contents[0]), PrintOptionals(tags[1..], contents[1..]);
      assert first + (rest + x) == first + rest + x;
    }
  }

  lemma SizedThen(contents: seq<Option<Bytes>>, o: Option<Bytes>)
    requires Sized(contents) && Short(o)
    ensures Sized(contents + [o])
  {
  }

  lemma HeaderThen(h: Header, a: Bytes, b: Bytes)
    requires HeaderFits(h)
    ensures PrintHeader(h, a + b) == PrintHeader(h, a) + b
  {
    hide PrintHeader, HeaderFits;
    var p := PrintHeader(h, []);
    HeaderFirst(h, a);
    HeaderFirst(h, a + b);
    assert p + (a + b) == p + a + b;
  }

  lemma HeaderFirst(h: Header, rest: Bytes)
    requires HeaderFits(h)
    ensures PrintHeader(h, rest) == PrintHeader(h, []) + rest
  {
    SmallElements();
    hide Uint, Octets, Element, Be;
    var a, b, c, d := Uint(VERSION), Uint(h.sslVersion), Octets(Be(h.cipher, 2)), Octets(h.sessionId);
    var e, f, g := Octets(h.masterKey), Element(Tag(1), Uint(h.time)), Element(Tag(2), Uint(h.timeout));
    assert g + [] == g;
    assert f + (g + rest) == f + g + rest;
    assert e + (f + g + rest) == e + (f + g) + rest;
    assert d + (e + (f + g) + rest) == d + (e + (f + g)) + rest;
    assert c + (d + (e + (f + g)) + rest) == c + (d + (e + (f + g))) + rest;
    assert b + (c + (d + (e + (f + g))) + rest) == b + (c + (d + (e + (f + g)))) + rest;
  }

  /** The header and the first fields. */
  ghost function Printed(h: Header, done: seq<Option<Bytes>>): Bytes
    requires HeaderFits(h) && |done| <= 20 && Sized(done)
  {
    PrintHeader(h, PrintOptionals(Tags()[..|done|], done))
  }

  lemma OneMorePrinted(h: Header, done: seq<Option<Bytes>>, o: Option<Bytes>)
    requires HeaderFits(h) && |done| < 20 && Sized(done) && Short(o)
    ensures Sized(done + [o]) && Printed(h, done + [o]) == Printed(h, done) + OptionalElement(Tags()[|done|], o)
  {
    hide PrintHeader, HeaderFits, PrintOptionals, OptionalElement, Sized;
    var t, n := Tags()[..|done|], Tags()[|done|];
    assert Tags()[..|done| + 1] == t + [n];
    hide Tags;
    OptionalsThen(t, done, n, o);
    HeaderThen(h, PrintOptionals(t, done), OptionalElement(n, o));
  }

  /** The builder of the SEQUENCE's content. */
  class Builder {
    var out: Bytes
    ghost const header: Header
    ghost var done: seq<Option<Bytes>>

    ghost predicate Valid()
      reads this
    {
      && HeaderFits(header) && |done| <= 20 && Sized(done)
      && out == Printed(header, done)
    }

    lemma Whole()
      requires Valid() && |done| == 20
      ensures out == PrintHeader(header, PrintOptionals(Tags(), done))
    {
      hide PrintHeader, PrintOptionals;
      assert Tags()[..20] == Tags();
    }

    /** The mandatory fields. */
    constructor (h: Header)
      requires HeaderFits(h)
      ensures Valid() && header == h && done == []
    {
      SmallElements();
      hide Uint, Octets, Element, Be;
      var session := Uint(VERSION);
      session := session + Uint(h.sslVersion);
      session := session + Octets(Be(h.cipher, 2));
      session := session + Octets(h.sessionId);
      session := session + Octets(h.masterKey);
      session := session + Element(Tag(1), Uint(h.time));
      session := session + Element(Tag(2), Uint(h.timeout));
      out, header, done := session, h, [];
    }

    /** An element under an explicit tag, if there is something to put there. */
    method Explicit(n: nat, o: Option<Bytes>) returns (ok: bool)
      requires Valid() && |done| < 20 && n == Tags()[|done|]
      modifies this
      ensures ok <==> Short(o)
      ensures ok ==> Valid() && done == old(done) + [o]
    {
      if o.Some? && |o.value| > MAX_LENGTH {
        return false;
      }
      OneMorePrinted(header, done, o);
      hide Tags, Printed, Element, Sized, HeaderFits;
      if o.Some? {
        out := out + Element(Tag(n), o.value);
      } else {
        assert out + [] == out;
      }
      done := done + [o];
      return true;
    }

    method OctetString(n: nat, o: Option<Bytes>) returns (ok: bool)
      requires Valid() && |done| < 20 && n == Tags()[|done|]
      modifies this
      ensures ok <==> Nests(o)
      ensures ok ==> Valid() && done == old(done) + [OctetsOf(o)]
    {
      hide Tags, Builder.Valid, Octets;
      if o.Some? && |o.value| > MAX_LENGTH {
        return false;
      }
      ok := Explicit(n, OctetsOf(o));
    }

    method Number(n: nat, present: bool, value: nat)
      requires Valid() && |done| < 20 && n == Tags()[|done|] && value < TWO_64
      modifies this
      ensures Valid() && done == old(done) + [When(present, Uint(value))]
    {
      SmallElements();
      hide Tags, Builder.Valid, Uint;
      var ok := Explicit(n, When(present, Uint(value)));
    }

    method Boolean(n: nat, present: bool, value: bool)
      requires Valid() && |done| < 20 && n == Tags()[|done|]
      modifies this
      ensures Valid() && done == old(done) + [When(present, Bool(value))]
    {
      SmallElements();
      hide Tags, Builder.Valid, Bool;
      var ok := Explicit(n, When(present, Bool(value)));
    }
  }

  /** The loop over the certificates after the first. */
  method Chain(certs: seq<Bytes>) returns (chain: Bytes)
    requires certs != []
    ensures chain == Concat(certs[1..])
  {
    chain := [];
    assert [] + Concat(certs[1..]) == Concat(certs[1..]);
    for i := 1 to |certs|
      invariant chain + Concat(certs[i..]) == Concat(certs[1..])
    {
      assert certs[i..][0] == certs[i] && certs[i..][1..] == certs[i + 1..];
      assert chain + (certs[i] + Concat(certs[i + 1..])) == chain + certs[i] + Concat(certs[i + 1..]);
      chain := chain + certs[i];
    }
    assert certs[|certs|..] == [] && chain + [] == chain;
  }

  /** Tags 3 to 8. */
  method WritePeerToPsk(w: Builder, s: Session) returns (ok: bool)
    requires w.Valid() && |w.done| == 0 && Typed(s)
    modifies w
    ensures ok <==> FitsPeer(s)
    ensures ok ==> w.Valid() && w.done == old(w.done) + PeerToPsk(s)
  {
    TagsAre();
    SmallElements();
    hide Tags, Builder.Valid, Octets, Uint, Sized, IsElement;
    ok := w.Explicit(3, if SendsChain(s) then Some(s.certs[0]) else None);
    if !ok {
      return;
    }
    ok := w.OctetString(4, Some(s.sidCtx));
    w.Number(5, s.verifyResult != 0, Unsigned(s.verifyResult));
    ok := w.Explicit(6, None);
    ok := w.OctetString(8, s.pskIdentity);
  }

  /** Tags 9 to 15. */
  method WriteHintToSct(w: Builder, s: Session, forTicket: bool) returns (ok: bool)
    requires w.Valid() && |w.done| == 5 && Typed(s)
    modifies w
    ensures ok <==> FitsTicket(s, forTicket)
    ensures ok ==> w.Valid() && w.done == old(w.done) + HintToSct(s, forTicket)
  {
    TagsAre();
    SmallElements();
    hide Tags, Builder.Valid, Octets, Uint, Sized, IsElement;
    w.Number(9, s.ticketLifetimeHint > 0, s.ticketLifetimeHint);
    ok := w.OctetString(10, if forTicket then None else s.ticket);
    if !ok {
      return;
    }
    ok := w.OctetString(13, s.peerSha256);
    ok := w.OctetString(14, if |s.originalHandshakeHash| > 0 then Some(s.originalHandshakeHash) else None);
    ok := w.OctetString(15, s.sctList);
  }

  /** Tags 16 to 21. */
  method WriteOcspToAge(w: Builder, s: Session) returns (ok: bool)
    requires w.Valid() && |w.done| == 10 && Typed(s)
    modifies w
    ensures ok <==> FitsChain(s)
    ensures ok ==> w.Valid() && w.done == old(w.done) + OcspToAge(s)
  {
    TagsAre();
    SmallElements();
    hide Tags, Builder.Valid, Octets, Uint, Bool, Sized, IsElement, Concat;
    ok := w.OctetString(16, s.ocspResponse);
    if !ok {
      return;
    }
    w.Boolean(17, s.extendedMasterSecret, true);
    w.Number(18, s.groupId > 0, s.groupId);
    var chain := None;
    if SendsChain(s) && |s.certs| >= 2 {
      var certs := Chain(s.certs);
      chain := Some(certs);
    }
    ok := w.Explicit(19, chain);
    if !ok {
      return;
    }
    ok := w.OctetString(21, if s.ticketAgeAdd.Some? then Some(Be(s.ticketAgeAdd.value, 4)) else None);
  }

  /** Tags 22 to 26. */
  method WriteServerToAlpn(w: Builder, s: Session) returns (ok: bool)
    requires w.Valid() && |w.done| == 15 && Typed(s)
    modifies w
    ensures ok <==> FitsAlpn(s)
    ensures ok ==> w.Valid() && w.done == old(w.done) + ServerToAlpn(s)
  {
    TagsAre();
    SmallElements();
    hide Tags, Builder.Valid, Octets, Uint, Bool, Sized, IsElement;
    w.Boolean(22, !s.isServer, false);
    w.Number(23, s.peerSignatureAlgorithm != 0, s.peerSignatureAlgorithm);
    w.Number(24, s.ticketMaxEarlyData != 0, s.ticketMaxEarlyData);
    w.Number(25, s.timeout != s.authTimeout, s.authTimeout);
    ok := w.OctetString(26, s.earlyAlpn);
  }

  /** SSL_SESSION_to_bytes_full. */
  method WriteSession(s: Session, forTicket: bool) returns (r: Option<Bytes>)
    requires Typed(s)
    ensures r == Print(s, forTicket)
  {
    HeaderKept(s, forTicket);
    hide Builder.Valid, Typed, HeaderFits, HeaderOf, PeerToPsk, HintToSct, OcspToAge, ServerToAlpn;
    hide FitsPeer, FitsTicket, FitsChain, FitsAlpn, PrintBody, PrintHeader, PrintOptionals, Tags, Sized, Element;
    var w := new Builder(HeaderOf(s, forTicket));
    var ok := WritePeerToPsk(w, s);
    if ok {
      ok := WriteHintToSct(w, s, forTicket);
    }
    if ok {
      ok := WriteOcspToAge(w, s);
    }
    if ok {
      ok := WriteServerToAlpn(w, s);
    }
    if !ok {
      return None;
    }
    w.Whole();
    BodyIs(s, forTicket, w.done);
    return if |w.out| > MAX_LENGTH then None else Some(Element(SEQUENCE, w.out));
  }

  lemma BodyIs(s: Session, forTicket: bool, done: seq<Option<Bytes>>)
    requires Typed(s) && Fits(s, forTicket)
    requires done == [] + PeerToPsk(s) + HintToSct(s, forTicket) + OcspToAge(s) + ServerToAlpn(s)
    ensures HeaderFits(HeaderOf(s, forTicket)) && Sized(done)
    ensures PrintHeader(HeaderOf(s, forTicket), PrintOptionals(Tags(), done)) == PrintBody(s, forTicket)
  {
    HeaderKept(s, forTicket);
    hide PrintHeader, PrintOptionals, Tags, Sized, PeerToPsk, HintToSct, OcspToAge, ServerToAlpn, Typed;
    Regroup(PeerToPsk(s), HintToSct(s, forTicket), OcspToAge(s), ServerToAlpn(s));
  }

  lemma Regroup<T>(a: seq<T>, b: seq<T>, c: seq<T>, d: seq<T>)
    ensures [] + a + b + c + d == (a + b) + (c + d)
  {
  }
}
