/** The server's WebSocket framing: the encoder of unmasked text frames it
    sends and the decoder of the frames clients send (RFC 6455, sections
    5.1 to 5.3). Payloads are bytes; their UTF-8 reading is left abstract. */
module FrameCodec {
  import opened Wrappers

  /** An octet, as the int values `InputStream.read()` returns. */
  newtype byte = x: int | 0 <= x < 256

  /** Bitwise exclusive or of the low `width` bits of `a` and `b`. */
  function XorBits(a: nat, b: nat, width: nat): (r: nat)
    ensures r < Pow2(width)
  {
    if width == 0 then 0
    else 2 * XorBits(a / 2, b / 2, width - 1) + (a % 2 + b % 2) % 2
  }

  function Pow2(n: nat): (r: nat)
    ensures r >= 1
  {
    if n == 0 then 1 else 2 * Pow2(n - 1)
  }

  /** Java's `^` on two bytes. */
  function Xor(a: byte, b: byte): byte {
    assert Pow2(8) == 256;
    XorBits(a as nat, b as nat, 8) as byte
  }

  /** `n >> s` for a non-negative `n` and a shift count that Java would not mask. */
  function Shr(n: nat, s: nat): nat {
    if s == 0 then n else Shr(n / 2, s - 1)
  }

  /** `(n >> (8 * j)) & 0xFF`: byte `j` of `n`, counting from the least significant. */
  function ByteAt(n: nat, j: nat): byte {
    (Shr(n, 8 * j) % 256) as byte
  }

  /** The 8-byte extended length of RFC 6455 section 5.2: most significant byte first. */
  function LongField(n: nat): (r: seq<byte>)
    ensures |r| == 8
  {
    seq(8, k requires 0 <= k < 8 => ByteAt(n, 7 - k))
  }

  /** The length part of the header of a frame whose payload has `n` bytes. */
  function LengthField(n: nat): (r: seq<byte>)
    ensures |r| == if n < 126 then 1 else if n < 65536 then 3 else 9
    ensures r[0] as int == if n < 126 then n else if n < 65536 then 126 else 127
  {
    if n < 126 then [n as byte]
    else if n < 65536 then [126, ByteAt(n, 1), ByteAt(n, 0)]
    else [127] + LongField(n)
  }

  /** The frame the server sends for `payload`: FIN set, text opcode, no mask. */
  function Frame(payload: seq<byte>): (r: seq<byte>)
    ensures |r| >= 2 && r[0] == 0x81 && r[1] < 0x80
    ensures HeaderSize(r) == |r| - |payload| && r[HeaderSize(r)..] == payload
  {
    [0x81] + LengthField(|payload|) + payload
  }

  /** sendWebSocketMessage's frame building, with the 64-bit length written
      out in full (the long tier as written is `LongFieldAsWritten`). */
  method EncodeFrame(payload: seq<byte>) returns (frame: seq<byte>)
    requires |payload| < 0x8000_0000
    ensures frame == Frame(payload)
  {
    frame := [0x81];
    var n := |payload|;
    if n < 126 {
      frame := frame + [n as byte];
    } else if n < 65536 {
      assert Shr(n, 8 * 0) == n;
      frame := frame + [126, (Shr(n, 8) % 256) as byte, (n % 256) as byte];
    } else {
      frame := frame + [127];
      ghost var field := LongField(n);
      var i := 7;
      while i >= 0
        invariant -1 <= i <= 7
        invariant frame == [0x81, 127] + field[..7 - i]
      {
        assert field[..7 - i + 1] == field[..7 - i] + [ByteAt(n, i)];
        frame := frame + [(Shr(n, 8 * i) % 256) as byte];
        i := i - 1;
      }
      assert field[..8] == field;
    }
    assert frame == [0x81] + LengthField(n);
    frame := frame + payload;
  }

  /** The long tier as the source writes it: Java masks an `int` shift count
      to its low five bits, so byte `k` is `n >> ((8 * (7 - k)) % 32)`. */
  function LongFieldAsWritten(n: nat): (r: seq<byte>)
    ensures |r| == 8
  {
    seq(8, k requires 0 <= k < 8 => IntShiftByte(n, 8 * (7 - k)))
  }

  /** `(n >> shift) & 0xFF` on a Java `int`: only the low five bits of the count are used. */
  function IntShiftByte(n: nat, shift: nat): byte {
    (Shr(n, shift % 32) % 256) as byte
  }

  /** The 64-bit length as written repeats the low four bytes. */
  lemma LongFieldAsWrittenRepeats(n: nat)
    ensures LongFieldAsWritten(n)[..4] == LongFieldAsWritten(n)[4..]
    ensures LongFieldAsWritten(n)[4..] == LongField(n)[4..]
  {
    var w := LongFieldAsWritten(n);
    forall k | 0 <= k < 4 ensures w[..4][k] == w[4..][k] == LongField(n)[4..][k] {
      AsWrittenByte(n, k);
    }
  }

  /** Byte `k` and byte `k + 4` of the long tier as written are both byte
      `3 - k` of the length. */
  lemma AsWrittenByte(n: nat, k: nat)
    requires k < 4
    ensures LongFieldAsWritten(n)[k] == LongFieldAsWritten(n)[k + 4] == ByteAt(n, 3 - k)
    ensures LongField(n)[k + 4] == ByteAt(n, 3 - k)
  {
    assert 8 * (7 - k) % 32 == 8 * (3 - k);
    assert 8 * (7 - (k + 4)) % 32 == 8 * (3 - k);
  }

  lemma {:induction false} ShrAdd(n: nat, a: nat, b: nat)
    ensures Shr(n, a + b) == Shr(Shr(n, a), b)
  {
    if a > 0 {
      ShrAdd(n / 2, a - 1, b);
    }
  }

  lemma ShrByte(n: nat)
    ensures Shr(n, 8) == n / 256
  {
    var x := n;
    assert Shr(n, 8) == Shr(x / 2, 7);
    x := x / 2;
    assert Shr(x, 7) == Shr(x / 2, 6);
    x := x / 2;
    assert Shr(x, 6) == Shr(x / 2, 5);
    x := x / 2;
    assert Shr(x, 5) == Shr(x / 2, 4);
    x := x / 2;
    assert Shr(x, 4) == Shr(x / 2, 3);
    x := x / 2;
    assert Shr(x, 3) == Shr(x / 2, 2);
    x := x / 2;
    assert Shr(x, 2) == Shr(x / 2, 1);
    x := x / 2;
    assert Shr(x, 1) == x / 2;
  }

  /** Shifts by whole bytes are divisions by powers of 256. */
  lemma ShrBytes(n: nat)
    ensures Shr(n, 8) == n / 0x100
    ensures Shr(n, 16) == n / 0x1_0000
    ensures Shr(n, 24) == n / 0x100_0000
    ensures Shr(n, 32) == n / 0x1_0000_0000
  {
    ShrByte(n);
    ShrAdd(n, 8, 8);
    ShrByte(n / 0x100);
    ShrAdd(n, 16, 8);
    ShrByte(n / 0x1_0000);
    ShrAdd(n, 24, 8);
    ShrByte(n / 0x100_0000);
  }

  lemma {:induction false} ShrZero(s: nat)
    ensures Shr(0, s) == 0
  {
    if s > 0 {
      ShrZero(s - 1);
    }
  }

  /** A shift of a value below 2^32 by 32 bits or more leaves zero. */
  lemma HighByteZero(n: nat, j: nat)
    requires n < 0x1_0000_0000 && j >= 4
    ensures ByteAt(n, j) == 0
  {
    ShrBytes(n);
    ShrAdd(n, 32, 8 * j - 32);
    ShrZero(8 * j - 32);
  }

  /** Every length the source can send (an `int` array length) has its high
      four bytes zero in the corrected field. */
  lemma LongFieldHighBytes(n: nat)
    requires n < 0x1_0000_0000
    ensures LongField(n)[..4] == [0, 0, 0, 0]
  {
    HighByteZero(n, 7);
    HighByteZero(n, 6);
    HighByteZero(n, 5);
    HighByteZero(n, 4);
  }

  /** Above the 2-byte tier the source's frame header differs from the one
      RFC 6455 section 5.2 defines: its first four length bytes are not zero. */
  lemma LongFieldAsWrittenDiffers(n: nat)
    requires 65536 <= n < 0x8000_0000
    ensures LongFieldAsWritten(n) != LongField(n)
  {
    LongFieldHighBytes(n);
    ShrBytes(n);
    var w := LongFieldAsWritten(n);
    assert w[1] == ((n / 0x1_0000) % 256) as byte;
    assert w[0] == ((n / 0x100_0000) % 256) as byte;
  }

  /** Both long fields spelled out byte by byte. */
  lemma LongFieldLayout(n: nat)
    requires n < 0x1_0000_0000
    ensures LongFieldAsWritten(n) == [ByteAt(n, 3), ByteAt(n, 2), ByteAt(n, 1), ByteAt(n, 0),
                                      ByteAt(n, 3), ByteAt(n, 2), ByteAt(n, 1), ByteAt(n, 0)]
    ensures LongField(n) == [0, 0, 0, 0, ByteAt(n, 3), ByteAt(n, 2), ByteAt(n, 1), ByteAt(n, 0)]
  {
    LongFieldAsWrittenRepeats(n);
    LongFieldHighBytes(n);
  }

  /** The input that shows it: a 70000-byte payload (0x11170 bytes). */
  lemma LongFieldCounterexample()
    ensures LongFieldAsWritten(70000) == [0, 1, 0x11, 0x70, 0, 1, 0x11, 0x70]
    ensures LongField(70000) == [0, 0, 0, 0, 0, 1, 0x11, 0x70]
  {
    LongFieldLayout(70000);
    LowBytesOf70000();
  }

  lemma LowBytesOf70000()
    ensures ByteAt(70000, 3) == 0 && ByteAt(70000, 2) == 1
    ensures ByteAt(70000, 1) == 0x11 && ByteAt(70000, 0) == 0x70
  {
    ShrBytes(70000);
    assert Shr(70000, 8) == 273;
  }

  // ---------------------------------------------------------------------
  // Decoding (readWebSocketMessage)

  function Min(a: int, b: int): int {
    if a <= b then a else b
  }

  /** The socket's InputStream: the bytes it will deliver, a cursor, and the
      most bytes one bulk `read(buf, off, len)` call hands back. */
  class ByteStream {
    const data: seq<byte>
    var pos: nat
    const maxRead: nat

    predicate Valid()
      reads this
    {
      pos <= |data| && maxRead >= 1
    }

    /** The bytes not yet read. */
    function Rest(): seq<byte>
      reads this
      requires Valid()
    {
      data[pos..]
    }

    constructor (data: seq<byte>, maxRead: nat)
      requires maxRead >= 1
      ensures Valid() && this.data == data && pos == 0 && this.maxRead == maxRead
    {
      this.data := data;
      this.maxRead := maxRead;
      pos := 0;
    }

    /** `in.read()`: the next byte, or -1 at the end of the stream. */
    method Read() returns (b: int)
      requires Valid()
      modifies this
      ensures Valid()
      ensures old(pos) < |data| ==> b == data[old(pos)] as int && pos == old(pos) + 1
      ensures old(pos) == |data| ==> b == -1 && pos == old(pos)
    {
      if pos == |data| {
        b := -1;
      } else {
        b := data[pos] as int;
        pos := pos + 1;
      }
    }

    /** `in.read(buf, off, len)`: 0 when `len` is 0, -1 at the end of the
        stream, and otherwise between 1 and `maxRead` bytes copied into `buf`. */
    method ReadInto(buf: array<byte>, off: nat, len: nat) returns (n: int)
      requires Valid() && off + len <= buf.Length
      modifies this, buf
      ensures Valid()
      ensures len == 0 ==> n == 0
      ensures len > 0 && old(pos) == |data| ==> n == -1
      ensures len > 0 && old(pos) < |data| ==> n == Min(len, Min(maxRead, |data| - old(pos)))
      ensures n >= 0 ==> pos == old(pos) + n && off + n <= buf.Length
      ensures n >= 0 ==> buf[..] == old(buf[..off]) + data[old(pos)..pos] + old(buf[off + n..])
      ensures n < 0 ==> pos == old(pos) && buf[..] == old(buf[..])
    {
      if len == 0 {
        return 0;
      }
      if pos == |data| {
        return -1;
      }
      n := Min(len, Min(maxRead, |data| - pos));
      forall k | 0 <= k < n {
        buf[off + k] := data[pos + k];
      }
      assert buf[..] == old(buf[..off]) + data[pos..pos + n] + old(buf[off + n..]);
      pos := pos + n;
    }
  }

  /** What one call of readWebSocketMessage yields: a payload together with
      the number of bytes the frame took from the stream; `Closed` when it
      returns null (the connection is then dropped); `Fault` when it throws. */
  datatype ReadResult = Message(payload: seq<byte>, consumed: nat) | Closed | Fault

  /** The frame header as read: the mask flag, the payload length (negative
      when the 16-bit length was cut off), the mask key (zero-filled past a
      short read) and the number of header bytes taken from the stream. */
  datatype Header = Header(masked: bool, len: int, key: seq<byte>, size: nat)

  /** Client-to-server masking (RFC 6455 section 5.3): byte `i` is XORed
      with byte `i % 4` of the key. */
  function Mask(p: seq<byte>, key: seq<byte>): (r: seq<byte>)
    requires |key| == 4
    ensures |r| == |p|
  {
    seq(|p|, i requires 0 <= i < |p| => Xor(p[i], key[i % 4]))
  }

  function Zeros(n: nat): (r: seq<byte>)
    ensures |r| == n && forall i :: 0 <= i < n ==> r[i] == 0
  {
    seq(n, i => 0)
  }

  /** `(hi << 8) | lo` on the two `in.read()` results of the 16-bit length:
      negative as soon as either read met the end of the stream. */
  function ShortLength(hi: int, lo: int): int
    requires -1 <= hi < 256 && -1 <= lo < 256
  {
    if lo == -1 then -1 else if hi == -1 then lo - 256 else hi * 256 + lo
  }

  /** The header readWebSocketMessage reads from a stream whose bulk reads
      return at most `maxRead` bytes; None when it returns null first. */
  function ReadHeaderOf(s: seq<byte>, maxRead: nat): (r: Option<Header>)
    requires maxRead >= 1
    ensures r.Some? ==> |r.value.key| == 4 && r.value.size <= |s|
  {
    if |s| < 2 then None
    else
      var masked := s[1] >= 0x80;
      var indicator := s[1] as int % 0x80;
      if indicator == 127 then None
      else
        var len := if indicator != 126 then indicator
          else ShortLength(if |s| > 2 then s[2] as int else -1, if |s| > 3 then s[3] as int else -1);
        var pos := if indicator != 126 then 2 else Min(4, |s|);
        var got := if masked then Min(Min(4, maxRead), |s| - pos) else 0;
        Some(Header(masked, len, s[pos..pos + got] + Zeros(4 - got), pos + got))
  }

  /** The frame readWebSocketMessage decodes. The opcode and FIN bit are not looked at. */
  function Decode(s: seq<byte>, maxRead: nat): ReadResult
    requires maxRead >= 1
  {
    match ReadHeaderOf(s, maxRead)
    case None => Closed
    case Some(h) =>
      if h.len < 0 then Fault
      else if |s| - h.size < h.len then Closed
      else
        var body := s[h.size..h.size + h.len];
        Message(if h.masked then Mask(body, h.key) else body, h.size + h.len)
  }

  /** The header part of readWebSocketMessage; the key is left in `maskKey`. */
  method ReadHeader(input: ByteStream, maskKey: array<byte>) returns (r: Option<Header>)
    requires input.Valid() && maskKey.Length == 4 && maskKey[..] == Zeros(4)
    modifies input, maskKey
    ensures input.Valid()
    ensures r == ReadHeaderOf(old(input.Rest()), input.maxRead)
    ensures r.Some? ==> input.pos == old(input.pos) + r.value.size && maskKey[..] == r.value.key
  {
    ghost var s := input.Rest();
    var p0 := input.pos;
    var firstByte := input.Read();
    if firstByte == -1 {
      return None;
    }
    var secondByte := input.Read();
    if secondByte == -1 {
      return None;
    }
    var masked := secondByte >= 0x80;
    var payloadLength := secondByte % 0x80;
    if payloadLength == 126 {
      var hi := input.Read();
      var lo := input.Read();
      payloadLength := ShortLength(hi, lo);
    } else if payloadLength == 127 {
      return None;
    }
    ghost var pos := input.pos - p0;
    assert input.Rest() == s[pos..];
    ReadMaskKey(input, maskKey, masked);
    ghost var got := input.pos - p0 - pos;
    assert got == if masked then Min(Min(4, input.maxRead), |s| - pos) else 0;
    assert s[pos..][..got] == s[pos..pos + got];
    r := Some(Header(masked, payloadLength, maskKey[..], input.pos - p0));
  }

  /** `in.read(maskKey)` when the mask bit is set: at most one bulk read. */
  method ReadMaskKey(input: ByteStream, maskKey: array<byte>, masked: bool)
    requires input.Valid() && maskKey.Length == 4 && maskKey[..] == Zeros(4)
    modifies input, maskKey
    ensures input.Valid()
    ensures var got := if masked then Min(Min(4, input.maxRead), |old(input.Rest())|) else 0;
      && input.pos == old(input.pos) + got
      && maskKey[..] == old(input.Rest())[..got] + Zeros(4 - got)
  {
    if masked {
      var _ := input.ReadInto(maskKey, 0, 4);
    }
  }

  /** The read loop: fills `payload` from the stream; false when the stream
      ends first. */
  method ReadPayload(input: ByteStream, payload: array<byte>) returns (ok: bool)
    requires input.Valid()
    modifies input, payload
    ensures input.Valid()
    ensures ok <==> payload.Length <= |old(input.Rest())|
    ensures ok ==> input.pos == old(input.pos) + payload.Length
    ensures ok ==> payload[..] == old(input.Rest())[..payload.Length]
  {
    ghost var s := input.Rest();
    var p0 := input.pos;
    var read := 0;
    while read < payload.Length
      invariant input.Valid() && input.pos == p0 + read
      invariant 0 <= read <= payload.Length && read <= |s|
      invariant payload[..read] == s[..read]
      decreases payload.Length - read
    {
      var n := input.ReadInto(payload, read, payload.Length - read);
      if n == -1 {
        return false;
      }
      read := read + n;
    }
    return true;
  }

  /** The unmasking loop, in place. */
  method Unmask(payload: array<byte>, maskKey: array<byte>)
    requires maskKey.Length == 4 && payload != maskKey
    modifies payload
    ensures payload[..] == Mask(old(payload[..]), maskKey[..])
  {
    for i := 0 to payload.Length
      invariant payload[..i] == Mask(old(payload[..]), maskKey[..])[..i]
      invariant payload[i..] == old(payload[..])[i..]
    {
      payload[i] := Xor(payload[i], maskKey[i % 4]);
    }
  }

  method ReadWebSocketMessage(input: ByteStream) returns (r: ReadResult)
    requires input.Valid()
    modifies input
    ensures input.Valid()
    ensures r == Decode(old(input.Rest()), input.maxRead)
    ensures r.Message? ==> input.pos == old(input.pos) + r.consumed
  {
    ghost var s := input.Rest();
    var maskKey := new byte[4](_ => 0);
    var header := ReadHeader(input, maskKey);
    if header.None? {
      return Closed;
    }
    var h := header.value;
    if h.len < 0 {
      return Fault;
    }
    var payload := new byte[h.len](_ => 0);
    ghost var rest := input.Rest();
    assert rest == s[h.size..];
    var ok := ReadPayload(input, payload);
    if !ok {
      DecodeShort(s, input.maxRead, h, rest);
      return Closed;
    }
    DecodeFull(s, input.maxRead, h, rest);
    if h.masked {
      Unmask(payload, maskKey);
    }
    r := Message(payload[..], h.size + h.len);
  }

  /** Decode when the stream ends inside the payload. */
  lemma DecodeShort(s: seq<byte>, maxRead: nat, h: Header, rest: seq<byte>)
    requires maxRead >= 1 && ReadHeaderOf(s, maxRead) == Some(h)
    requires h.size <= |s| && rest == s[h.size..] && 0 <= h.len && |rest| < h.len
    ensures Decode(s, maxRead) == Closed
  {
  }

  /** Decode when the whole payload follows the header. */
  lemma DecodeFull(s: seq<byte>, maxRead: nat, h: Header, rest: seq<byte>)
    requires maxRead >= 1 && ReadHeaderOf(s, maxRead) == Some(h)
    requires h.size <= |s| && rest == s[h.size..] && 0 <= h.len <= |rest|
    ensures Decode(s, maxRead) == Message(if h.masked then Mask(rest[..h.len], h.key) else rest[..h.len], h.size + h.len)
  {
    var body := s[h.size..h.size + h.len];
    assert rest[..h.len] == body;
    if h.masked {
      assert Decode(s, maxRead) == Message(Mask(body, h.key), h.size + h.len);
    } else {
      assert Decode(s, maxRead) == Message(body, h.size + h.len);
    }
  }

  // ---------------------------------------------------------------------
  // Properties of the codec

  lemma {:induction false} XorBitsInvolution(a: nat, b: nat, width: nat)
    requires a < Pow2(width)
    ensures XorBits(XorBits(a, b, width), b, width) == a
  {
    if width > 0 {
      var y, bit := XorBits(a / 2, b / 2, width - 1), (a % 2 + b % 2) % 2;
      var x := XorBits(a, b, width);
      Halves(y, bit);
      ParityCancels(a, b);
      XorBitsInvolution(a / 2, b / 2, width - 1);
      assert XorBits(x, b, width) == 2 * XorBits(y, b / 2, width - 1) + (bit + b % 2) % 2;
    }
  }

  lemma Halves(y: nat, bit: nat)
    requires bit < 2
    ensures (2 * y + bit) / 2 == y && (2 * y + bit) % 2 == bit
  {
  }

  lemma ParityCancels(a: nat, b: nat)
    ensures ((a % 2 + b % 2) % 2 + b % 2) % 2 == a % 2 && 2 * (a / 2) + a % 2 == a
  {
  }

  lemma XorInvolution(a: byte, b: byte)
    ensures Xor(Xor(a, b), b) == a
  {
    assert Pow2(8) == 256;
    XorBitsInvolution(a as nat, b as nat, 8);
  }

  /** Unmasking with the key that masked a payload gives it back. */
  lemma MaskInvolution(p: seq<byte>, key: seq<byte>)
    requires |key| == 4
    ensures Mask(Mask(p, key), key) == p
  {
    forall i | 0 <= i < |p| ensures Mask(Mask(p, key), key)[i] == p[i] {
      XorInvolution(p[i], key[i % 4]);
    }
  }

  /** The number of header bytes before the payload or mask key of a frame. */
  function HeaderSize(frame: seq<byte>): nat
    requires |frame| >= 2
  {
    var indicator := frame[1] as int % 0x80;
    if indicator == 126 then 4 else if indicator == 127 then 10 else 2
  }

  /** What a client does to an unmasked frame before sending it: set the
      mask bit, put the key after the header and mask the payload with it. */
  function MaskedByClient(frame: seq<byte>, key: seq<byte>): seq<byte>
    requires |key| == 4 && |frame| >= 2 && frame[1] < 0x80 && HeaderSize(frame) <= |frame|
  {
    var h := HeaderSize(frame);
    [frame[0], frame[1] + 0x80] + frame[2..h] + key + Mask(frame[h..], key)
  }

  /** The 16-bit length of a frame of the middle tier reads back as the payload length. */
  lemma ShortLengthOfFrame(p: seq<byte>)
    requires 126 <= |p| < 65536
    ensures Frame(p)[1] == 126 && Frame(p)[2] as int * 256 + Frame(p)[3] as int == |p|
  {
    var n := |p|;
    ShrBytes(n);
    assert Frame(p)[2] == ByteAt(n, 1) && Frame(p)[3] == ByteAt(n, 0);
  }

  /** A frame of the 1- or 2-byte tiers as the server sends it decodes to its
      payload, whatever follows it on the stream. */
  lemma DecodeFrame(p: seq<byte>, rest: seq<byte>, maxRead: nat)
    requires |p| < 65536 && maxRead >= 1
    ensures Decode(Frame(p) + rest, maxRead) == Message(p, |Frame(p)|)
  {
    var f := Frame(p);
    var s := f + rest;
    var h := HeaderSize(f);
    assert s[..|f|] == f;
    assert s[1] == f[1];
    if |p| >= 126 {
      ShortLengthOfFrame(p);
      assert s[2] == f[2] && s[3] == f[3];
    }
    assert s[h..h + |p|] == p;
  }

  /** The header of a masked frame of the 1- or 2-byte tiers is read whole. */
  lemma ReadMaskedHeader(p: seq<byte>, key: seq<byte>, s: seq<byte>, maxRead: nat)
    requires |p| < 65536 && |key| == 4 && maxRead >= 4
    requires |s| >= |Frame(p)| + 4 && s[..|Frame(p)| + 4] == MaskedByClient(Frame(p), key)
    ensures ReadHeaderOf(s, maxRead) == Some(Header(true, |p|, key, HeaderSize(Frame(p)) + 4))
  {
    var f := Frame(p);
    var m := MaskedByClient(f, key);
    var h := HeaderSize(f);
    assert s[1] == m[1] == f[1] + 0x80;
    if |p| >= 126 {
      ShortLengthOfFrame(p);
      assert s[2] == m[2] == f[2] && s[3] == m[3] == f[3];
    }
    var a := [f[0], f[1] + 0x80] + f[2..h];
    assert m == a + key + Mask(f[h..], key) && |a| == h;
    forall i | 0 <= i < 4 ensures s[h + i] == key[i] {
      assert s[h + i] == m[h + i] == (a + key + Mask(f[h..], key))[|a| + i];
    }
    assert s[h..h + 4] + Zeros(0) == key;
  }

  /** The round trip: a frame as the server would write it, masked by a
      client with any key, decodes to the original payload. */
  lemma DecodeMaskedFrame(p: seq<byte>, key: seq<byte>, rest: seq<byte>, maxRead: nat)
    requires |p| < 65536 && |key| == 4 && maxRead >= 4
    ensures Decode(MaskedByClient(Frame(p), key) + rest, maxRead) == Message(p, |Frame(p)| + 4)
  {
    var f := Frame(p);
    var m := MaskedByClient(f, key);
    var s := m + rest;
    var h := HeaderSize(f);
    assert s[..|m|] == m;
    ReadMaskedHeader(p, key, s, maxRead);
    assert s[h + 4..h + 4 + |p|] == m[h + 4..] == Mask(p, key);
    MaskInvolution(p, key);
  }

  /** Any frame with the 64-bit length indicator, masked or not, is refused
      as though the stream had ended. */
  lemma DecodeLongFrame(s: seq<byte>, maxRead: nat)
    requires |s| >= 2 && s[1] as int % 0x80 == 127 && maxRead >= 1
    ensures Decode(s, maxRead) == Closed
  {
  }

  /** In particular the decoder refuses the frames the server itself writes
      for payloads of 65536 bytes or more. */
  lemma DecodeOwnLongFrame(p: seq<byte>, rest: seq<byte>, maxRead: nat)
    requires |p| >= 65536 && maxRead >= 1
    ensures Decode(Frame(p) + rest, maxRead) == Closed
  {
    assert (Frame(p) + rest)[1] == 127;
    DecodeLongFrame(Frame(p) + rest, maxRead);
  }

  /** The header bytes of a frame of the 1- or 2-byte tiers once a client
      has masked it. */
  lemma MaskedHeader(p: seq<byte>, key: seq<byte>, m: seq<byte>)
    requires |p| < 65536 && |key| == 4 && m == MaskedByClient(Frame(p), key)
    ensures |m| == (if |p| < 126 then 2 else 4) + 4 + |p|
    ensures m[1] >= 0x80 && m[1] as int % 0x80 == (if |p| < 126 then |p| else 126)
    ensures |p| >= 126 ==> m[2] as int * 256 + m[3] as int == |p|
  {
    var f := Frame(p);
    var h := HeaderSize(f);
    assert f[1] == LengthField(|p|)[0];
    assert m[1] == f[1] + 0x80;
    if |p| >= 126 {
      ShortLengthOfFrame(p);
      assert m[2] == f[2] && m[3] == f[3];
    }
  }

  /** A masked frame cut short yields no message, except an empty one: the
      stream ending inside the 16-bit length throws, and anywhere else the
      read returns null, but an empty payload cut inside its mask key is read
      as the empty message, since the key read is not checked. */
  lemma DecodeTruncatedFrame(p: seq<byte>, key: seq<byte>, t: seq<byte>, maxRead: nat)
    requires |p| < 65536 && |key| == 4 && maxRead >= 4
    requires |t| < |MaskedByClient(Frame(p), key)| && t == MaskedByClient(Frame(p), key)[..|t|]
    ensures Decode(t, maxRead) ==
      if |p| == 0 && 2 <= |t| then Message([], |t|)
      else if |p| >= 126 && 2 <= |t| < 4 then Fault
      else Closed
  {
    var m := MaskedByClient(Frame(p), key);
    MaskedHeader(p, key, m);
    if |t| >= 2 {
      assert t[1] == m[1];
      var hs := if |p| < 126 then 2 else 4;
      if |t| >= hs {
        if |p| >= 126 {
          assert t[2] == m[2] && t[3] == m[3];
        }
        var h := ReadHeaderOf(t, maxRead).value;
        assert h.len == |p| && h.size == hs + Min(4, |t| - hs);
      }
    }
  }

  /** "A" (0x41) as a client sends it, masked with key 1, 2, 3, 4. */
  lemma MaskedLetterA()
    ensures MaskedByClient(Frame([0x41]), [1, 2, 3, 4]) == [0x81, 0x81, 1, 2, 3, 4, 0x40]
  {
    MaskedOneByte(0x41, [1, 2, 3, 4]);
    assert Xor(0x41, 1) == 0x40;
  }

  /** A one-byte frame as a client sends it. */
  lemma MaskedOneByte(b: byte, key: seq<byte>)
    requires |key| == 4
    ensures MaskedByClient(Frame([b]), key) == [0x81, 0x81] + key + [Xor(b, key[0])]
  {
    var f := Frame([b]);
    assert |f| == 3 && f[1] == 1 && HeaderSize(f) == 2;
    assert f[2..] == [b] && f[2..2] == [];
    assert Mask([b], key) == [Xor(b, key[0])];
  }

  /** The mask key is read with one unchecked `read`: on a stream that hands
      over one byte per call, the key takes a single byte, and the payload
      is read from the rest of the key. Sending "A" (0x41) masked with key
      1, 2, 3, 4 then yields the one byte 3 and leaves three bytes unread. */
  lemma ShortMaskRead()
    ensures Decode(MaskedByClient(Frame([0x41]), [1, 2, 3, 4]), 1) == Message([3], 4)
  {
    MaskedLetterA();
    var m: seq<byte> := [0x81, 0x81, 1, 2, 3, 4, 0x40];
    assert m[1] as int % 0x80 == 1;
    assert Min(Min(4, 1), |m| - 2) == 1;
    assert m[2..3] == [1] && Zeros(3) == [0, 0, 0];
    assert m[2..2 + 1] + Zeros(4 - 1) == [1, 0, 0, 0];
    assert ReadHeaderOf(m, 1) == Some(Header(true, 1, [1, 0, 0, 0], 3));
    assert m[3..4] == [2];
    assert Xor(2, 1) == 3;
    assert Mask([2], [1, 0, 0, 0]) == [3];
  }
}
