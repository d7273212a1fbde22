/** The wire format, byte by byte, and exactly which bytes are packets. */
module Layouts {
  import opened Words
  import opened Quotients
  import opened Collections
  import opened Packets

  // ---------------------------------------------------------------- the header

  /** The number that two bytes spell, the more significant one first. */
  function Spelt16(b: seq<u8>, at: nat): int
    requires at + 2 <= |b|
  {
    var high: int, low: int := b[at], b[at + 1];
    0x100 * high + low
  }

  function Spelt32(b: seq<u8>, at: nat): int
    requires at + 4 <= |b|
  {
    0x1_0000 * Spelt16(b, at) + Spelt16(b, at + 2)
  }

  /** The first byte holds the type, and then the version. */
  predicate Begins(t: PacketType, version: u8, b: u8) {
    && b / 16 == (match t case Data => 0 case Fin => 1 case State => 2 case Reset => 3 case Syn => 4)
    && b % 16 == version
  }

  /** Where each field of a header stands in its 20 bytes. */
  predicate LaidOut(h: Header, b: seq<u8>) {
    && |b| == 20 && Begins(h.ptype, h.version, b[0]) && b[1] == h.extension
    && Spelt16(b, 2) == h.connId && Spelt32(b, 4) == Wrap32(h.timestamp) && Spelt32(b, 8) == h.tsDiff
    && Spelt32(b, 12) == h.wnd && Spelt16(b, 16) == h.seqNum && Spelt16(b, 18) == h.ackNum
  }

  lemma FirstByteIsCode(t: PacketType, version: u8)
    requires version < 16
    ensures Begins(t, version, TypeCode(t) * 16 + version)
  {
  }

  lemma HalvesSpell(b: seq<u8>, at: nat, x: u16)
    requires at + 2 <= |b| && b[at] == x / 0x100 && b[at + 1] == x % 0x100
    ensures Spelt16(b, at) == x
  {
  }

  lemma BytesSpell(b: seq<u8>, at: nat, x: u32)
    requires at + 4 <= |b| && forall i :: 0 <= i < 4 ==> b[at + i] == ByteAt(x, i)
    ensures Spelt32(b, at) == x
  {
    assert b[at + 0] == ByteAt(x, 0);
    ReadBytesOf(x);
  }

  lemma HeaderLayout(h: Header)
    requires h.version < 16
    ensures LaidOut(h, EncodeHeader(h))
  {
    var b := EncodeHeader(h);
    FirstByteIsCode(h.ptype, h.version);
    HalvesSpell(b, 2, h.connId);
    BytesSpell(b, 4, Wrap32(h.timestamp));
    BytesSpell(b, 8, h.tsDiff);
    BytesSpell(b, 12, h.wnd);
    HalvesSpell(b, 16, h.seqNum);
    HalvesSpell(b, 18, h.ackNum);
  }

  lemma Spells16(a: u8, b: u8, c: u8, d: u8)
    requires 0x100 * a + b == 0x100 * c + d
    ensures a == c && b == d
  {
  }

  lemma Spells32(a: seq<u8>, b: seq<u8>, at: nat)
    requires at + 4 <= |a| && at + 4 <= |b| && Spelt32(a, at) == Spelt32(b, at)
    ensures a[at..at + 4] == b[at..at + 4]
  {
    Spells16(a[at], a[at + 1], b[at], b[at + 1]);
    Spells16(a[at + 2], a[at + 3], b[at + 2], b[at + 3]);
  }

  lemma BeginsOneWay(t: PacketType, version: u8, a: u8, b: u8)
    requires Begins(t, version, a) && Begins(t, version, b)
    ensures a == b
  {
  }

  /** There is one layout. */
  lemma LayoutIsUnique(h: Header, a: seq<u8>, b: seq<u8>)
    requires LaidOut(h, a) && LaidOut(h, b)
    ensures a == b
  {
    BeginsOneWay(h.ptype, h.version, a[0], b[0]);
    Spells16(a[2], a[3], b[2], b[3]);
    Spells32(a, b, 4);
    Spells32(a, b, 8);
    Spells32(a, b, 12);
    Spells16(a[16], a[17], b[16], b[17]);
    Spells16(a[18], a[19], b[18], b[19]);
    assert a == [a[0], a[1], a[2], a[3]] + a[4..8] + a[8..12] + a[12..16] + [a[16], a[17], a[18], a[19]];
    assert b == [b[0], b[1], b[2], b[3]] + b[4..8] + b[8..12] + b[12..16] + [b[16], b[17], b[18], b[19]];
  }

  /** A header whose fields fit the wire. */
  predicate FitsWire(h: Header) {
    h.version < 16 && 0 <= h.timestamp < 0x1_0000_0000
  }

  lemma ReadIsSpelt(b: seq<u8>, at: nat)
    requires at + 4 <= |b|
    ensures Read16(b[at], b[at + 1]) == Spelt16(b, at)
    ensures Read32(b[at], b[at + 1], b[at + 2], b[at + 3]) == Spelt32(b, at)
  {
  }

  lemma CodeBegins(b: u8)
    ensures TypeOf(b / 16).Ok? <==> b / 16 <= 4
    ensures TypeOf(b / 16).Ok? ==> Begins(TypeOf(b / 16).value, b % 16, b)
  {
  }

  lemma DecodedIsLaidOut(b: seq<u8>)
    requires |b| == 20
    ensures DecodeHeader(b).Ok? <==> b[0] / 16 <= 4
    ensures DecodeHeader(b).Ok? ==>
              FitsWire(DecodeHeader(b).value) && LaidOut(DecodeHeader(b).value, b)
  {
    CodeBegins(b[0]);
    ReadIsSpelt(b, 2);
    ReadIsSpelt(b, 4);
    ReadIsSpelt(b, 8);
    ReadIsSpelt(b, 12);
    ReadIsSpelt(b, 16);
    assert Read16(b[18], b[19]) == Spelt16(b, 18);
  }

  lemma LaidOutDecodes(h: Header, b: seq<u8>)
    requires FitsWire(h) && LaidOut(h, b)
    ensures DecodeHeader(b) == Ok(h)
  {
    HeaderLayout(h);
    LayoutIsUnique(h, b, EncodeHeader(h));
    HeaderRoundTrip(h);
    assert h == h.(timestamp := Wrap32(h.timestamp));
  }

  /** 20 bytes are a header exactly if they are laid out as one, and only one header is laid out so. */
  lemma HeaderDecodesIff(b: seq<u8>, h: Header)
    requires |b| == 20
    ensures DecodeHeader(b) == Ok(h) <==> FitsWire(h) && LaidOut(h, b)
  {
    DecodedIsLaidOut(b);
    if FitsWire(h) && LaidOut(h, b) {
      LaidOutDecodes(h, b);
    }
  }

  // ---------------------------------------------------------------- the bitmap

  lemma {:induction false} ShiftIsHalved(b: nat, n: nat)
    ensures Shift(b, n) == Halved(b, n)
  {
    if n > 0 {
      ShiftIsHalved(b, n - 1);
      HalvedOnceMore(b, n - 1);
    }
  }

  /** Bit i of a bitmap stands in byte i / 8, the first of eight being the most significant. */
  lemma SackLayout(s: SelectiveAck, i: nat)
    requires WholeWords(s) && i < 32 * |s.words|
    ensures |EncodeSack(s)| == 4 * |s.words|
    ensures EncodeSack(s)[i / 8] / Pow2(7 - i % 8) % 2 == 1 <==> s.words[i / 32][i % 32]
  {
    var n := i / 8;
    var octet := Octet(s, n);
    BitOfByte(octet, i % 8);
    ShiftIsHalved(ByteOf(octet), 7 - i % 8);
    HalvedIsQuotient(ByteOf(octet), 7 - i % 8);
    assert n / 4 == i / 32 && 8 * (n % 4) + i % 8 == i % 32;
  }

  // ---------------------------------------------------------------- the whole packet

  /** The bytes spell the packet: its header, extensions of which the last of kind 1 is its bitmap, and its body. */
  ghost predicate Spells(b: seq<u8>, p: Packet, exts: seq<Extension>) {
    && FitsWire(p.header) && Encodable(exts) && FirstKind(exts) == p.header.extension
    && |b| >= 20 && LaidOut(p.header, b[..20]) && b[20..] == EncodeChain(exts) + p.body
    && (p.header.ptype == Data ==> p.body != [])
    && match p.eack
       case None => SackPayload(exts) == []
       case Some(s) => WholeWords(s) && s.words != [] && SackPayload(exts) == EncodeSack(s)
  }

  lemma ChainParses(exts: seq<Extension>, body: seq<u8>)
    requires Encodable(exts)
    ensures ParseExtensions(FirstKind(exts), EncodeChain(exts) + body) == Ok(Chain(exts, |EncodeChain(exts)|))
  {
    ChainRoundTrip(exts, EncodeChain(exts) + body, 0, []);
    assert [] + exts == exts;
  }

  lemma SpeltDecodes(b: seq<u8>, p: Packet, exts: seq<Extension>)
    requires Spells(b, p, exts)
    ensures Decode(b) == Ok(p)
  {
    HeaderDecodesIff(b[..20], p.header);
    ChainParses(exts, p.body);
    assert b[20..][|EncodeChain(exts)|..] == p.body;
    if p.eack.Some? {
      SackRoundTrip(p.eack.value);
    }
  }

  lemma DecodedIsSpelt(b: seq<u8>) returns (exts: seq<Extension>)
    requires Decode(b).Ok?
    ensures Spells(b, Decode(b).value, exts)
  {
    var p, rest := Decode(b).value, b[20..];
    HeaderDecodesIff(b[..20], p.header);
    exts := ParsedIsEncoded(p.header.extension, rest, 0, []);
    var chain := ParseExtensions(p.header.extension, rest).value;
    assert [] + exts == exts && rest == rest[0..chain.end] + rest[chain.end..];
    if SackPayload(exts) != [] {
      SackDecodeIsInjective(SackPayload(exts));
    }
  }

  /** Bytes decode to a packet if and only if they spell it. All others are refused. */
  lemma DecodesIff(b: seq<u8>, p: Packet)
    ensures Decode(b) == Ok(p) <==> exists exts :: Spells(b, p, exts)
  {
    if Decode(b) == Ok(p) {
      var exts := DecodedIsSpelt(b);
    }
    if exts :| Spells(b, p, exts) {
      SpeltDecodes(b, p, exts);
    }
  }
}
