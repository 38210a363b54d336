/** DTLS handshake fragments on the wire (section 4.2.2 of RFC 6347). */
module DtlsWire {
  import opened Basics
  import opened BigEndian

  const DTLS1_HM_HEADER_LENGTH: nat := 12
  const SSL_MAX_HANDSHAKE_FLIGHT: nat := 7

  /** A fragment of the message numbered `number`: `body` stands at `off` in its `len` bytes. */
  datatype Fragment = Fragment(kind: byte, len: nat, number: nat, off: nat, body: Bytes)

  datatype Message = Message(kind: byte, body: Bytes)

  /** `f` is a piece of one of the messages sent. */
  predicate Cut(sent: seq<Message>, f: Fragment) {
    && f.number < |sent| && f.kind == sent[f.number].kind && f.len == |sent[f.number].body|
    && f.off + |f.body| <= f.len && f.body == sent[f.number].body[f.off..f.off + |f.body|]
  }

  function Be16(n: nat): (b: Bytes)
    requires n < 0x1_0000
    ensures |b| == 2
  {
    [n / 0x100, n % 0x100]
  }

  function Be24(n: nat): (b: Bytes)
    requires n < 0x100_0000
    ensures |b| == 3
  {
    [n / 0x1_0000, n / 0x100 % 0x100, n % 0x100]
  }

  predicate Encodable(f: Fragment) {
    f.len < 0x100_0000 && f.number < 0x1_0000 && f.off < 0x100_0000 && |f.body| < 0x100_0000
  }

  function Header(kind: byte, len: nat, number: nat, off: nat, fragLen: nat): (b: Bytes)
    requires len < 0x100_0000 && number < 0x1_0000 && off < 0x100_0000 && fragLen < 0x100_0000
    ensures |b| == DTLS1_HM_HEADER_LENGTH
  {
    [kind] + Be24(len) + Be16(number) + Be24(off) + Be24(fragLen)
  }

  function Print(f: Fragment): Bytes
    requires Encodable(f)
  {
    Header(f.kind, f.len, f.number, f.off, |f.body|) + f.body
  }

  /** The whole message as one fragment: what the transcript hashes. */
  function Serialized(m: Message, number: nat): Bytes
    requires |m.body| < 0x100_0000 && number < 0x1_0000
  {
    Print(Fragment(m.kind, |m.body|, number, 0, m.body))
  }

  /** dtls1_parse_fragment. */
  function Parse(b: Bytes): (r: Option<(Fragment, Bytes)>)
    ensures r.Some? ==> |r.value.1| < |b| && Encodable(r.value.0)
  {
    if |b| < DTLS1_HM_HEADER_LENGTH then None
    else
      BeBounds(b[1..4]);
      BeBounds(b[4..6]);
      BeBounds(b[6..9]);
      BeBounds(b[9..12]);
      var fragLen := FromBe(b[9..12]);
      if |b| - DTLS1_HM_HEADER_LENGTH < fragLen then None
      else Some((Fragment(b[0], FromBe(b[1..4]), FromBe(b[4..6]), FromBe(b[6..9]), b[12..12 + fragLen]),
        b[12 + fragLen..]))
  }

  lemma BeBounds(b: Bytes)
    ensures |b| == 2 ==> FromBe(b) < 0x1_0000
    ensures |b| == 3 ==> FromBe(b) < 0x100_0000
  {
    if |b| == 2 {
      FromBe2(b);
    } else if |b| == 3 {
      FromBe3(b);
    }
  }

  lemma FromBe2(b: Bytes)
    requires |b| == 2
    ensures FromBe(b) == 0x100 * (b[0] as int) + b[1]
  {
    var c := b[..1];
    assert c[..0] == [] && FromBe(c) == c[0];
  }

  lemma FromBe3(b: Bytes)
    requires |b| == 3
    ensures FromBe(b) == 0x1_0000 * (b[0] as int) + 0x100 * (b[1] as int) + b[2]
  {
    FromBe2(b[..2]);
  }

  lemma BeTrip(n: nat)
    ensures n < 0x1_0000 ==> FromBe(Be16(n)) == n
    ensures n < 0x100_0000 ==> FromBe(Be24(n)) == n
  {
    if n < 0x1_0000 {
      FromBe2(Be16(n));
    }
    if n < 0x100_0000 {
      FromBe3(Be24(n));
      assert n / 0x100 == 0x100 * (n / 0x1_0000) + n / 0x100 % 0x100;
    }
  }

  lemma ParsePrint(f: Fragment, tail: Bytes)
    requires Encodable(f)
    ensures Parse(Print(f) + tail) == Some((f, tail))
  {
    var b := Print(f) + tail;
    BeTrip(f.len);
    BeTrip(f.number);
    BeTrip(f.off);
    BeTrip(|f.body|);
    assert b[1..4] == Be24(f.len) && b[4..6] == Be16(f.number) && b[6..9] == Be24(f.off) && b[9..12] == Be24(|f.body|);
    assert b[12..12 + |f.body|] == f.body && b[12 + |f.body|..] == tail;
  }

  /** Where everything stands in a fragment: the type, three bytes of message length, two of message
      number, three of offset, three of fragment length, each most significant byte first, and the
      body. */
  lemma PrintLayout(f: Fragment)
    requires Encodable(f)
    ensures var b := Print(f);
            && |b| == 12 + |f.body| && b[0] == f.kind && b[12..] == f.body
            && 0x1_0000 * (b[1] as int) + 0x100 * (b[2] as int) + b[3] == f.len
            && 0x100 * (b[4] as int) + b[5] == f.number
            && 0x1_0000 * (b[6] as int) + 0x100 * (b[7] as int) + b[8] == f.off
            && 0x1_0000 * (b[9] as int) + 0x100 * (b[10] as int) + b[11] == |f.body|
  {
    var b := Print(f);
    assert b[1..4] == Be24(f.len) && b[4..6] == Be16(f.number) && b[6..9] == Be24(f.off) && b[9..12] == Be24(|f.body|);
    Be24Says(f.len);
    Be24Says(f.off);
    Be24Says(|f.body|);
  }

  lemma Be24Says(n: nat)
    requires n < 0x100_0000
    ensures var b := Be24(n); 0x1_0000 * (b[0] as int) + 0x100 * (b[1] as int) + b[2] == n
  {
    assert n / 0x100 == 0x100 * (n / 0x1_0000) + n / 0x100 % 0x100;
  }
}
