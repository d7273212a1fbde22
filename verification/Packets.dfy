/** Packets, their selective acks and their wire format (packet.go). */
module Packets {
  import opened Words
  import opened Collections

  datatype PacketType = Data | Fin | State | Reset | Syn

  datatype DecodeError =
    | InvalidHeaderSize
    | InvalidPacketType
    | InsufficientLen
    | InsufficientSelectiveAckLen
    | InvalidSelectiveAckLen
    | EmptyDataPayload

  datatype Header = Header(
    ptype: PacketType,
    version: u8,
    extension: u8,
    connId: u16,
    timestamp: int,
    tsDiff: u32,
    wnd: u32,
    seqNum: u16,
    ackNum: u16)

  /** A bitmap of received sequence numbers, in words of 32 bits. */
  datatype SelectiveAck = SelectiveAck(words: seq<seq<bool>>) {
    /** The bitmap as one sequence of bits. */
    function Acked(): seq<bool> {
      Join(words)
    }
  }

  datatype Packet = Packet(header: Header, eack: Option<SelectiveAck>, body: seq<u8>)

  datatype Extension = Extension(kind: u8, payload: seq<u8>)

  // ---------------------------------------------------------------- selective acks

  predicate WholeWords(s: SelectiveAck) {
    forall i :: 0 <= i < |s.words| ==> |s.words[i]| == 32
  }

  /** The i-th word of a bitmap, padded with false past its end. */
  function WordAt(bits: seq<bool>, i: nat): seq<bool> {
    seq(32, (j: int) => 0 <= 32 * i + j < |bits| && bits[32 * i + j])
  }

  function Pack(bits: seq<bool>): SelectiveAck {
    SelectiveAck(seq((|bits| + 31) / 32, (i: int) => if 0 <= i then WordAt(bits, i) else []))
  }

  method NewSelectiveAck(acked: seq<bool>) returns (ack: SelectiveAck)
    ensures ack == Pack(acked)
  {
    var chunks := |acked| / 32;
    var remainder := |acked| % 32;
    var words: seq<seq<bool>> := [];
    for i := 0 to chunks
      invariant |words| == i
      invariant forall k :: 0 <= k < i ==> words[k] == WordAt(acked, k)
    {
      words := words + [acked[i * 32..(i + 1) * 32]];
    }
    if remainder > 0 {
      words := words + [acked[chunks * 32..] + seq(32 - remainder, _ => false)];
      assert words[chunks] == WordAt(acked, chunks);
    }
    ack := SelectiveAck(words);
  }

  lemma {:induction false} JoinedWords(words: seq<seq<bool>>)
    requires forall i :: 0 <= i < |words| ==> |words[i]| == 32
    ensures |Join(words)| == 32 * |words|
    ensures forall n :: 0 <= n < |Join(words)| ==> Join(words)[n] == words[n / 32][n % 32]
  {
    if words != [] {
      var front := words[..|words| - 1];
      JoinedWords(front);
      forall n | 0 <= n < |Join(words)| ensures Join(words)[n] == words[n / 32][n % 32] {
        if n < 32 * |front| {
          assert Join(words)[n] == Join(front)[n] == front[n / 32][n % 32];
        } else {
          assert n / 32 == |front| && n % 32 == n - 32 * |front|;
        }
      }
    }
  }

  /** Packing keeps every bit and pads with false up to a whole number of words. */
  lemma PackKeepsBits(bits: seq<bool>)
    ensures WholeWords(Pack(bits))
    ensures |Pack(bits).Acked()| == 32 * ((|bits| + 31) / 32)
    ensures forall n :: 0 <= n < |Pack(bits).Acked()| ==> (Pack(bits).Acked()[n] <==> n < |bits| && bits[n])
  {
    var words := Pack(bits).words;
    JoinedWords(words);
    forall n | 0 <= n < |Join(words)| ensures Join(words)[n] <==> n < |bits| && bits[n] {
      assert words[n / 32] == WordAt(bits, n / 32);
      assert 32 * (n / 32) + n % 32 == n;
    }
  }

  /** `1 << (7 - k)`: the most significant bit comes first. */
  function Weight(k: nat): nat
    requires k < 8
    decreases 8 - k
  {
    if k == 7 then 1 else 2 * Weight(k + 1)
  }

  /** `b >> n`. */
  function Shift(b: nat, n: nat): nat {
    if n == 0 then b else Shift(b, n - 1) / 2
  }

  function Bit(b: u8, k: nat): bool
    requires k < 8
  {
    Shift(b, 7 - k) % 2 == 1
  }

  /** The number spelt by the first n of eight bits. */
  function Leading(bits: seq<bool>, n: nat): nat
    requires |bits| == 8 && n <= 8
  {
    if n == 0 then 0 else 2 * Leading(bits, n - 1) + if bits[n - 1] then 1 else 0
  }

  lemma LeadingBound(bits: seq<bool>)
    requires |bits| == 8
    ensures Leading(bits, 8) < 0x100
  {
    assert Leading(bits, 1) < 2;
    assert Leading(bits, 2) < 4;
    assert Leading(bits, 3) < 8;
    assert Leading(bits, 4) < 16;
    assert Leading(bits, 5) < 32;
    assert Leading(bits, 6) < 64;
    assert Leading(bits, 7) < 128;
  }

  function ByteOf(bits: seq<bool>): u8
    requires |bits| == 8
  {
    LeadingBound(bits);
    Leading(bits, 8)
  }

  lemma {:induction false} ShiftedByte(bits: seq<bool>, n: nat)
    requires |bits| == 8 && n <= 8
    ensures Shift(ByteOf(bits), n) == Leading(bits, 8 - n)
  {
    if n > 0 {
      ShiftedByte(bits, n - 1);
    }
  }

  lemma LowestBit(n: nat, bit: bool)
    ensures (2 * n + if bit then 1 else 0) % 2 == 1 <==> bit
  {
  }

  lemma BitOfByte(bits: seq<bool>, k: nat)
    requires |bits| == 8 && k < 8
    ensures Bit(ByteOf(bits), k) == bits[k]
  {
    ShiftedByte(bits, 7 - k);
    LowestBit(Leading(bits, k), bits[k]);
    assert Shift(ByteOf(bits), 7 - k) == 2 * Leading(bits, k) + if bits[k] then 1 else 0;
  }

  lemma {:induction false} LeadingOfBits(b: u8, bits: seq<bool>, n: nat)
    requires |bits| == 8 && n <= 8 && forall k :: 0 <= k < 8 ==> bits[k] == Bit(b, k)
    ensures Leading(bits, n) == Shift(b, 8 - n)
  {
    if n == 0 {
      assert Shift(b, 1) < 128;
      assert Shift(b, 2) < 64;
      assert Shift(b, 3) < 32;
      assert Shift(b, 4) < 16;
      assert Shift(b, 5) < 8;
      assert Shift(b, 6) < 4;
      assert Shift(b, 7) < 2;
    } else {
      LeadingOfBits(b, bits, n - 1);
      assert Shift(b, 9 - n) == Shift(b, 8 - n) / 2;
      assert bits[n - 1] == Bit(b, n - 1);
    }
  }

  lemma ByteOfBits(b: u8, bits: seq<bool>)
    requires |bits| == 8 && forall k :: 0 <= k < 8 ==> bits[k] == Bit(b, k)
    ensures ByteOf(bits) == b
  {
    LeadingOfBits(b, bits, 8);
  }

  /** Bits 8*j .. 8*j+8 of the i-th word. */
  function Octet(s: SelectiveAck, n: nat): seq<bool>
    requires WholeWords(s) && n < 4 * |s.words|
  {
    s.words[n / 4][8 * (n % 4)..8 * (n % 4) + 8]
  }

  function EncodeSack(s: SelectiveAck): (bytes: seq<u8>)
    requires WholeWords(s)
    ensures |bytes| == 4 * |s.words|
  {
    seq(4 * |s.words|, (n: int) requires 0 <= n < 4 * |s.words| => ByteOf(Octet(s, n)))
  }

  function DecodedWord(data: seq<u8>, i: nat): seq<bool>
    requires 4 * i + 4 <= |data|
  {
    seq(32, (j: int) requires 0 <= j < 32 => Bit(data[4 * i + j / 8], j % 8))
  }

  function DecodeSack(data: seq<u8>): Result<SelectiveAck, DecodeError> {
    if |data| < 4 then Err(InsufficientSelectiveAckLen)
    else if |data| % 4 != 0 then Err(InvalidSelectiveAckLen)
    else Ok(SelectiveAck(seq(|data| / 4, (i: int) requires 0 <= i < |data| / 4 => DecodedWord(data, i))))
  }

  lemma NextLeading(n: nat, w: nat, bit: bool)
    ensures (2 * n + if bit then 1 else 0) * w == n * (2 * w) + if bit then w else 0
  {
  }

  /** Sets bit after bit of one byte. */
  method EncodeOctet(bits: seq<bool>) returns (byteVal: u8)
    requires |bits| == 8
    ensures byteVal == ByteOf(bits)
  {
    var sum: nat := 0;
    ghost var scale := 0x100;
    for j := 0 to 8
      invariant scale == if j == 0 then 0x100 else Weight(j - 1)
      invariant sum == Leading(bits, j) * scale
    {
      NextLeading(Leading(bits, j), Weight(j), bits[j]);
      if bits[j] {
        sum := sum + Weight(j);
      }
      scale := Weight(j);
    }
    LeadingBound(bits);
    byteVal := sum;
  }

  method EncodeSelectiveAck(s: SelectiveAck) returns (bitmask: seq<u8>)
    requires WholeWords(s)
    ensures bitmask == EncodeSack(s)
  {
    bitmask := [];
    for w := 0 to |s.words|
      invariant |bitmask| == 4 * w
      invariant forall n :: 0 <= n < |bitmask| ==> bitmask[n] == ByteOf(Octet(s, n))
    {
      var word := s.words[w];
      for o := 0 to 4
        invariant |bitmask| == 4 * w + o
        invariant forall n :: 0 <= n < |bitmask| ==> bitmask[n] == ByteOf(Octet(s, n))
      {
        assert word[8 * o..8 * o + 8] == Octet(s, 4 * w + o);
        var byteVal := EncodeOctet(word[8 * o..8 * o + 8]);
        bitmask := bitmask + [byteVal];
      }
    }
  }

  method DecodeSelectiveAck(data: seq<u8>) returns (r: Result<SelectiveAck, DecodeError>)
    ensures r == DecodeSack(data)
  {
    if |data| < 4 {
      return Err(InsufficientSelectiveAckLen);
    }
    if |data| % 4 != 0 {
      return Err(InvalidSelectiveAckLen);
    }
    var words: seq<seq<bool>> := [];
    for i := 0 to |data| / 4
      invariant |words| == i
      invariant forall n :: 0 <= n < i ==> words[n] == DecodedWord(data, n)
    {
      var tmp: seq<bool> := [];
      for j := 0 to 4
        invariant tmp == DecodedWord(data, i)[..8 * j]
      {
        var byteVal := data[4 * i + j];
        for k := 0 to 8
          invariant tmp == DecodedWord(data, i)[..8 * j + k]
        {
          tmp := tmp + [Bit(byteVal, k)];
        }
      }
      words := words + [tmp];
    }
    assert words == DecodeSack(data).value.words;
    r := Ok(SelectiveAck(words));
  }

  /** A bitmap of at least one word survives the wire. */
  lemma SackRoundTrip(s: SelectiveAck)
    requires WholeWords(s) && s.words != []
    ensures DecodeSack(EncodeSack(s)) == Ok(s)
  {
    var data := EncodeSack(s);
    forall i | 0 <= i < |s.words| ensures DecodedWord(data, i) == s.words[i] {
      forall j | 0 <= j < 32 ensures DecodedWord(data, i)[j] == s.words[i][j] {
        var n := 4 * i + j / 8;
        assert n / 4 == i && n % 4 == j / 8;
        BitOfByte(Octet(s, n), j % 8);
        assert Octet(s, n)[j % 8] == s.words[i][8 * (j / 8) + j % 8];
      }
    }
    assert DecodeSack(data).value.words == s.words;
  }

  /** Decoding loses nothing: the bytes can be rebuilt from the bitmap. */
  lemma SackDecodeIsInjective(data: seq<u8>)
    requires DecodeSack(data).Ok?
    ensures WholeWords(DecodeSack(data).value) && EncodeSack(DecodeSack(data).value) == data
  {
    var s := DecodeSack(data).value;
    forall n | 0 <= n < |data| ensures ByteOf(Octet(s, n)) == data[n] {
      var octet := Octet(s, n);
      forall k | 0 <= k < 8 ensures octet[k] == Bit(data[n], k) {
        var j := 8 * (n % 4) + k;
        assert j / 8 == n % 4 && j % 8 == k;
        assert octet[k] == DecodedWord(data, n / 4)[j];
        assert 4 * (n / 4) + j / 8 == n;
      }
      ByteOfBits(data[n], octet);
    }
  }

  // ---------------------------------------------------------------- header

  function TypeCode(t: PacketType): u8 {
    match t case Data => 0 case Fin => 1 case State => 2 case Reset => 3 case Syn => 4
  }

  function TypeOf(code: u8): Result<PacketType, DecodeError> {
    if code == 0 then Ok(Data) else if code == 1 then Ok(Fin) else if code == 2 then Ok(State)
    else if code == 3 then Ok(Reset) else if code == 4 then Ok(Syn) else Err(InvalidPacketType)
  }

  /** Byte i of a big-endian 32-bit number. */
  function ByteAt(x: u32, i: nat): u8
    requires i < 4
  {
    if i == 0 then x / 0x100_0000
    else if i == 1 then x / 0x1_0000 % 0x100
    else if i == 2 then x / 0x100 % 0x100
    else x % 0x100
  }

  function Read16(hi: u8, lo: u8): u16 {
    hi * 0x100 + lo
  }

  function Read32(a: u8, b: u8, c: u8, d: u8): u32 {
    a * 0x100_0000 + b * 0x1_0000 + c * 0x100 + d
  }

  lemma ReadBytesOf(x: u32)
    ensures Read32(ByteAt(x, 0), ByteAt(x, 1), ByteAt(x, 2), ByteAt(x, 3)) == x
  {
    assert x / 0x1_0000 == x / 0x100 / 0x100;
    assert x / 0x100_0000 == x / 0x1_0000 / 0x100;
  }

  function EncodeHeader(h: Header): (b: seq<u8>)
    requires h.version < 16
    ensures |b| == 20
  {
    var ts := Wrap32(h.timestamp);
    [TypeCode(h.ptype) * 16 + h.version, h.extension, h.connId / 0x100, h.connId % 0x100,
     ByteAt(ts, 0), ByteAt(ts, 1), ByteAt(ts, 2), ByteAt(ts, 3),
     ByteAt(h.tsDiff, 0), ByteAt(h.tsDiff, 1), ByteAt(h.tsDiff, 2), ByteAt(h.tsDiff, 3),
     ByteAt(h.wnd, 0), ByteAt(h.wnd, 1), ByteAt(h.wnd, 2), ByteAt(h.wnd, 3),
     h.seqNum / 0x100, h.seqNum % 0x100, h.ackNum / 0x100, h.ackNum % 0x100]
  }

  function DecodeHeader(b: seq<u8>): Result<Header, DecodeError> {
    if |b| < 20 then Err(InvalidHeaderSize)
    else
      var t := TypeOf(b[0] / 16);
      if t.Err? then Err(t.error)
      else Ok(Header(t.value, b[0] % 16, b[1], Read16(b[2], b[3]), Read32(b[4], b[5], b[6], b[7]),
                     Read32(b[8], b[9], b[10], b[11]), Read32(b[12], b[13], b[14], b[15]),
                     Read16(b[16], b[17]), Read16(b[18], b[19])))
  }

  lemma FirstByteSplits(t: PacketType, version: nat)
    requires version < 16
    ensures var b := TypeCode(t) * 16 + version; b < 0x100 && TypeOf(b / 16) == Ok(t) && b % 16 == version
  {
  }

  lemma ReadHalves(x: u16)
    ensures Read16(x / 0x100, x % 0x100) == x
  {
  }

  /** A header survives the wire, its timestamp cut to 32 bits. */
  lemma HeaderRoundTrip(h: Header)
    requires h.version < 16
    ensures DecodeHeader(EncodeHeader(h)) == Ok(h.(timestamp := Wrap32(h.timestamp)))
  {
    FirstByteSplits(h.ptype, h.version);
    ReadHalves(h.connId);
    ReadBytesOf(Wrap32(h.timestamp));
    ReadBytesOf(h.tsDiff);
    ReadBytesOf(h.wnd);
    ReadHalves(h.seqNum);
    ReadHalves(h.ackNum);
  }

  // ---------------------------------------------------------------- extension chain

  /** A parsed chain and the index just past it. */
  datatype Chain = Chain(extensions: seq<Extension>, end: nat)

  /** Parses the chain that starts at `index` with an extension of kind `ext`, after those already in `done`. */
  function ParseFrom(ext: u8, data: seq<u8>, index: nat, done: seq<Extension>): (r: Result<Chain, DecodeError>)
    requires index <= |data|
    ensures r.Ok? ==> index <= r.value.end <= |data|
    decreases |data| - index
  {
    if ext == 0 then Ok(Chain(done, index))
    else if |data| - index < 2 || |data| - index - 2 < data[index + 1] then Err(InsufficientLen)
    else
      var length: int := data[index + 1];
      var next := index + 2 + length;
      ParseFrom(data[index], data, next, done + [Extension(ext, data[index + 2..next])])
  }

  function ParseExtensions(first: u8, data: seq<u8>): (r: Result<Chain, DecodeError>)
    ensures r.Ok? ==> r.value.end <= |data|
  {
    ParseFrom(first, data, 0, [])
  }

  /** The parser's loop: every index stays inside the data and the result is the recursive parse. */
  method DecodeRawExtensions(first: u8, data: seq<u8>) returns (r: Result<Chain, DecodeError>)
    ensures r == ParseExtensions(first, data)
  {
    var ext := first;
    var index := 0;
    var extensions: seq<Extension> := [];
    while ext != 0
      invariant 0 <= index <= |data|
      invariant ParseFrom(ext, data, index, extensions) == ParseExtensions(first, data)
      decreases |data| - index
    {
      if |data| - index < 2 {
        return Err(InsufficientLen);
      }
      var nextExt := data[index];
      var extLen: int := data[index + 1];
      var extStart := index + 2;
      if |data| - extStart < extLen {
        return Err(InsufficientLen);
      }
      var extData := data[extStart..extStart + extLen];
      extensions := extensions + [Extension(ext, extData)];
      ext := nextExt;
      index := extStart + extLen;
    }
    r := Ok(Chain(extensions, index));
  }

  function FirstKind(exts: seq<Extension>): u8 {
    if exts == [] then 0 else exts[0].kind
  }

  predicate Encodable(exts: seq<Extension>) {
    forall i :: 0 <= i < |exts| ==> exts[i].kind != 0 && |exts[i].payload| < 0x100
  }

  /** The bytes of a chain: each extension names the kind of the next one. */
  function EncodeChain(exts: seq<Extension>): seq<u8>
    requires Encodable(exts)
  {
    if exts == [] then []
    else [FirstKind(exts[1..]), |exts[0].payload|] + exts[0].payload + EncodeChain(exts[1..])
  }

  /** The first extension's bytes, and then those of the rest. */
  lemma ChainLayout(exts: seq<Extension>)
    requires Encodable(exts) && exts != []
    ensures var n := 2 + |exts[0].payload|; var bytes := EncodeChain(exts); var tail := exts[1..];
            && |bytes| == n + |EncodeChain(tail)|
            && bytes[0] == FirstKind(tail) && bytes[1] == |exts[0].payload|
            && bytes[2..n] == exts[0].payload && bytes[n..] == EncodeChain(tail)
  {
  }

  /** `bytes` stands in `data` at position `at`. */
  predicate StandsAt(data: seq<u8>, at: nat, bytes: seq<u8>) {
    at + |bytes| <= |data| && forall i :: 0 <= i < |bytes| ==> data[at + i] == bytes[i]
  }

  /** Parsing the first extension leads to the place where the others stand. */
  lemma ParseStep(exts: seq<Extension>, data: seq<u8>, index: nat, done: seq<Extension>)
    requires Encodable(exts) && exts != [] && StandsAt(data, index, EncodeChain(exts))
    ensures var next := index + 2 + |exts[0].payload|;
            && StandsAt(data, next, EncodeChain(exts[1..]))
            && ParseFrom(FirstKind(exts), data, index, done) ==
               ParseFrom(FirstKind(exts[1..]), data, next, done + [exts[0]])
  {
    ChainLayout(exts);
    var bytes := EncodeChain(exts);
    var n := 2 + |exts[0].payload|;
    assert data[index] == bytes[0] && data[index + 1] == bytes[1];
    assert data[index + 2..index + n] == exts[0].payload by {
      forall i | 0 <= i < n - 2 ensures data[index + 2..index + n][i] == exts[0].payload[i] {
        assert data[index + (2 + i)] == bytes[2 + i] == bytes[2..n][i];
      }
    }
    forall i | 0 <= i < |EncodeChain(exts[1..])| ensures data[index + n + i] == EncodeChain(exts[1..])[i] {
      assert data[index + (n + i)] == bytes[n + i] == bytes[n..][i];
    }
  }

  /** Wherever a chain's bytes stand in the data, and whatever follows, they parse back to that chain. */
  lemma {:induction false} ChainRoundTrip(exts: seq<Extension>, data: seq<u8>, index: nat, done: seq<Extension>)
    requires Encodable(exts) && StandsAt(data, index, EncodeChain(exts))
    ensures ParseFrom(FirstKind(exts), data, index, done) == Ok(Chain(done + exts, index + |EncodeChain(exts)|))
    decreases |exts|
  {
    if exts == [] {
      assert done + exts == done;
    } else {
      ParseStep(exts, data, index, done);
      var tail := exts[1..];
      ChainRoundTrip(tail, data, index + 2 + |exts[0].payload|, done + [exts[0]]);
      assert done + [exts[0]] + tail == done + exts;
    }
  }

  /** Only encoded chains parse: a successful parse consumed exactly the bytes of what it found. */
  lemma {:induction false} ParsedIsEncoded(ext: u8, data: seq<u8>, index: nat,
                                           done: seq<Extension>) returns (found: seq<Extension>)
    requires index <= |data| && ParseFrom(ext, data, index, done).Ok?
    ensures var c := ParseFrom(ext, data, index, done).value;
            && c.extensions == done + found
            && Encodable(found) && FirstKind(found) == ext
            && data[index..c.end] == EncodeChain(found)
    decreases |data| - index
  {
    if ext == 0 {
      found := [];
      assert done + found == done;
    } else {
      var length: int := data[index + 1];
      var next := index + 2 + length;
      var x := Extension(ext, data[index + 2..next]);
      var tail := ParsedIsEncoded(data[index], data, next, done + [x]);
      found := [x] + tail;
      assert found[1..] == tail;
      assert done + [x] + tail == done + found;
      ChainLayout(found);
      var end := ParseFrom(ext, data, index, done).value.end;
      ConsecutiveSlices(data, index, next, end, EncodeChain(found));
    }
  }

  lemma ConsecutiveSlices(data: seq<u8>, lo: nat, mid: nat, hi: nat, bytes: seq<u8>)
    requires lo + 2 <= mid <= hi <= |data| && |bytes| == hi - lo
    requires bytes[0] == data[lo] && bytes[1] == data[lo + 1]
    requires bytes[2..mid - lo] == data[lo + 2..mid] && bytes[mid - lo..] == data[mid..hi]
    ensures data[lo..hi] == bytes
  {
    forall i | 0 <= i < |bytes| ensures data[lo..hi][i] == bytes[i] {
      if 2 <= i < mid - lo {
        assert bytes[i] == bytes[2..mid - lo][i - 2];
      } else if mid - lo <= i {
        assert bytes[i] == bytes[mid - lo..][i - (mid - lo)];
      }
    }
  }

  // ---------------------------------------------------------------- packets

  /** The payload of the last extension of kind 1, empty when there is none. */
  function SackPayload(exts: seq<Extension>): seq<u8> {
    if exts == [] then []
    else if exts[|exts| - 1].kind == 1 then exts[|exts| - 1].payload
    else SackPayload(exts[..|exts| - 1])
  }

  function EackBytes(eack: Option<SelectiveAck>): seq<u8>
    requires eack.Some? ==> WholeWords(eack.value)
  {
    if eack.None? then []
    else var bytes := EncodeSack(eack.value); [0, |bytes| % 0x100] + bytes
  }

  predicate WellFormed(p: Packet) {
    && p.header.version < 16
    && (p.eack.Some? ==> WholeWords(p.eack.value))
  }

  function EncodedLen(p: Packet): nat {
    20 + (if p.eack.Some? then |p.eack.value.words| * 32 / 8 + 2 else 0) + |p.body|
  }

  function Encode(p: Packet): (b: seq<u8>)
    requires WellFormed(p)
    ensures |b| == EncodedLen(p)
  {
    EncodeHeader(p.header) + (EackBytes(p.eack) + p.body)
  }

  /** Everything after the header has been read. */
  function DecodeRest(header: Header, rest: seq<u8>): Result<Packet, DecodeError> {
    var chain := ParseExtensions(header.extension, rest);
    if chain.Err? then Err(chain.error)
    else
      var bitmap := SackPayload(chain.value.extensions);
      var sack := DecodeSack(bitmap);
      if bitmap != [] && sack.Err? then Err(sack.error)
      else
        var body := rest[chain.value.end..];
        if header.ptype == Data && body == [] then Err(EmptyDataPayload)
        else Ok(Packet(header, if bitmap == [] then None else Some(sack.value), body))
  }

  function Decode(b: seq<u8>): Result<Packet, DecodeError> {
    if |b| < 20 then Err(InvalidHeaderSize)
    else
      var header := DecodeHeader(b[..20]);
      if header.Err? then Err(header.error) else DecodeRest(header.value, b[20..])
  }

  method DecodePacket(b: seq<u8>) returns (r: Result<Packet, DecodeError>)
    ensures r == Decode(b)
  {
    if |b| < 20 {
      return Err(InvalidHeaderSize);
    }
    var header := DecodeHeader(b[..20]);
    if header.Err? {
      return Err(header.error);
    }
    var chain := DecodeRawExtensions(header.value.extension, b[20..]);
    if chain.Err? {
      return Err(chain.error);
    }
    var exts := chain.value.extensions;
    var bitmap: seq<u8> := [];
    for i := 0 to |exts|
      invariant bitmap == SackPayload(exts[..i])
    {
      assert exts[..i + 1][..i] == exts[..i];
      if exts[i].kind == 1 {
        bitmap := exts[i].payload;
      }
    }
    assert exts[..|exts|] == exts;
    var ack: Option<SelectiveAck> := None;
    if |bitmap| != 0 {
      var sack := DecodeSelectiveAck(bitmap);
      if sack.Err? {
        return Err(sack.error);
      }
      ack := Some(sack.value);
    }
    var payload := b[20 + chain.value.end..];
    assert payload == b[20..][chain.value.end..];
    if header.value.ptype == Data && |payload| == 0 {
      return Err(EmptyDataPayload);
    }
    r := Ok(Packet(header.value, ack, payload));
  }

  /** `PacketBuilder.Build`: version one, and the extension byte tells whether a bitmap follows. */
  function Build(ptype: PacketType, connId: u16, ts: u32, wnd: u32, seqNum: u16, tsDiff: u32,
                 ackNum: u16, eack: Option<SelectiveAck>, body: seq<u8>): (p: Packet)
    ensures ExtensionAgrees(p) && p.header.version == 1
  {
    Packet(Header(ptype, 1, if eack.Some? then 1 else 0, connId, ts, tsDiff, wnd, seqNum, ackNum), eack, body)
  }

  /** The header's extension byte says what the packet carries. */
  predicate ExtensionAgrees(p: Packet) {
    p.header.extension == if p.eack.Some? then 1 else 0
  }

  /** A bitmap that fits the one-byte length field: 1 to 63 words. */
  predicate Sendable(p: Packet) {
    && WellFormed(p)
    && p.header.extension <= 1
    && (p.eack.Some? ==> 1 <= |p.eack.value.words| <= 63)
  }

  /** What the wire keeps of a packet: everything but the high half of its timestamp. */
  function OnWire(p: Packet): Packet {
    p.(header := p.header.(timestamp := Wrap32(p.header.timestamp)))
  }

  lemma DecodeSplit(head: seq<u8>, rest: seq<u8>)
    requires |head| == 20 && DecodeHeader(head).Ok?
    ensures Decode(head + rest) == DecodeRest(DecodeHeader(head).value, rest)
  {
    assert (head + rest)[..20] == head;
    assert (head + rest)[20..] == rest;
  }

  /** Decoding an encoded packet reads the header back and goes on with what follows it. */
  lemma DecodeAfterHeader(p: Packet)
    requires WellFormed(p)
    ensures Decode(Encode(p)) == DecodeRest(OnWire(p).header, EackBytes(p.eack) + p.body)
  {
    HeaderRoundTrip(p.header);
    DecodeSplit(EncodeHeader(p.header), EackBytes(p.eack) + p.body);
  }

  /** A bitmap of 1 to 63 words is parsed back as the only extension. */
  lemma EackRoundTrip(s: SelectiveAck, body: seq<u8>)
    requires WholeWords(s) && 1 <= |s.words| <= 63
    ensures var rest := EackBytes(Some(s)) + body;
            ParseExtensions(1, rest) == Ok(Chain([Extension(1, EncodeSack(s))], |EackBytes(Some(s))|))
  {
    var exts := [Extension(1, EncodeSack(s))];
    assert exts[1..] == [];
    assert EncodeChain(exts) == EackBytes(Some(s));
    var rest := EackBytes(Some(s)) + body;
    ChainRoundTrip(exts, rest, 0, []);
    assert [] + exts == exts;
  }

  /** A packet whose extension byte is right comes back from the wire. */
  lemma PacketRoundTrip(p: Packet)
    requires Sendable(p) && ExtensionAgrees(p)
    requires p.header.ptype == Data ==> p.body != []
    ensures Decode(Encode(p)) == Ok(OnWire(p))
  {
    DecodeAfterHeader(p);
    var rest := EackBytes(p.eack) + p.body;
    if p.eack.Some? {
      EackRoundTrip(p.eack.value, p.body);
      SackRoundTrip(p.eack.value);
      assert rest[|EackBytes(p.eack)|..] == p.body;
    } else {
      assert rest == p.body == p.body[0..];
    }
  }

  /**
   * A packet comes back from the wire exactly when its extension byte agrees with its bitmap
   * (and a data packet is not empty). A timeout retransmission copies the old extension byte
   * beside a fresh bitmap, so it can fail this.
   */
  lemma RoundTripIffExtensionAgrees(p: Packet)
    requires Sendable(p)
    ensures Decode(Encode(p)) == Ok(OnWire(p)) <==>
            ExtensionAgrees(p) && (p.header.ptype == Data ==> p.body != [])
  {
    if ExtensionAgrees(p) && (p.header.ptype == Data ==> p.body != []) {
      PacketRoundTrip(p);
    } else {
      DecodeAfterHeader(p);
      var rest := EackBytes(p.eack) + p.body;
      var d := DecodeRest(OnWire(p).header, rest);
      if d.Ok? {
        var end := ParseExtensions(p.header.extension, rest).value.end;
        assert |d.value.body| == |rest| - end;
      }
    }
  }

  /**
   * A packet that claims an extension it does not carry: when its body starts with two zero bytes,
   * the receiver takes those for an empty extension and accepts the rest as the body.
   */
  lemma MismatchCorruptsBody(p: Packet, tail: seq<u8>)
    requires Sendable(p) && p.header.extension == 1 && p.eack == None
    requires p.body == [0, 0] + tail && tail != []
    ensures Decode(Encode(p)) == Ok(OnWire(p).(body := tail))
  {
    DecodeAfterHeader(p);
    assert EackBytes(p.eack) + p.body == p.body;
    ZerosAreAnExtension(p.body, tail);
    assert p.body[2..] == tail;
  }

  lemma ZerosAreAnExtension(data: seq<u8>, tail: seq<u8>)
    requires data == [0, 0] + tail
    ensures ParseExtensions(1, data) == Ok(Chain([Extension(1, [])], 2))
  {
    var exts := [Extension(1, [])];
    assert exts[1..] == [];
    assert EncodeChain(exts) == [0, 0];
    ChainRoundTrip(exts, data, 0, []);
    assert [] + exts == exts;
  }

  /** A wrong extension byte never goes unnoticed: the packet is undecodable, or its body has another length. */
  lemma MismatchChangesBody(p: Packet)
    requires Sendable(p) && !ExtensionAgrees(p) && Decode(Encode(p)).Ok?
    ensures var d := Decode(Encode(p)).value; d.header == OnWire(p).header && |d.body| != |p.body|
  {
    DecodeAfterHeader(p);
    var rest := EackBytes(p.eack) + p.body;
    var end := ParseExtensions(p.header.extension, rest).value.end;
    assert |DecodeRest(OnWire(p).header, rest).value.body| == |rest| - end;
  }

  /** A packet that carries a bitmap its extension byte does not announce: the bitmap arrives as part of the body. */
  lemma UnannouncedBitmapJoinsBody(p: Packet)
    requires Sendable(p) && p.header.extension == 0 && p.eack.Some?
    ensures Decode(Encode(p)) == Ok(OnWire(p).(eack := None, body := EackBytes(p.eack) + p.body))
  {
    DecodeAfterHeader(p);
    var rest := EackBytes(p.eack) + p.body;
    assert rest[0..] == rest;
  }

  /**
   * A packet that announces a bitmap it does not carry: if its body begins like one, the receiver takes that part of
   * the body for the acks of the sender.
   */
  lemma BodyTakenForBitmap(p: Packet, s: SelectiveAck, tail: seq<u8>)
    requires Sendable(p) && p.header.extension == 1 && p.eack == None && WholeWords(s) && 1 <= |s.words| <= 63
    requires p.body == EackBytes(Some(s)) + tail && (p.header.ptype == Data ==> tail != [])
    ensures Decode(Encode(p)) == Ok(OnWire(p).(eack := Some(s), body := tail))
  {
    var q := p.(eack := Some(s), body := tail);
    assert Encode(q) == Encode(p);
    PacketRoundTrip(q);
  }

  /** What a receiver makes of a packet it gets from the wire. */
  function FromWire(p: Packet): Result<Packet, DecodeError>
    requires WellFormed(p)
  {
    Decode(Encode(p))
  }

  /** Whatever a packet decodes to has its header, and DATA is never empty. */
  lemma WireKeepsHeader(p: Packet)
    requires WellFormed(p) && FromWire(p).Ok?
    ensures var g := FromWire(p).value; g.header == OnWire(p).header && (p.header.ptype == Data ==> g.body != [])
  {
    DecodeAfterHeader(p);
  }
}
