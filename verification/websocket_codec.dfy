/** The client side of the WebSocket wire format: the bytes one frame is written as, the frame a byte
    stream is read as, and the proof that reading is the inverse of writing.

    `Decode` is written with absolute offsets into the stream, as section 5.2 of RFC 6455 lays the frame
    out; the program reads the same bytes step by step (see WebSocketClient.RecvFrame). Header bits are
    written arithmetically; `HeaderBits` says which bit operation each expression is. */
module WebSocketCodec {

  type Byte = b: int | 0 <= b < 256

  type Bytes = seq<Byte>

  datatype Frame = Frame(opcode: Byte, payload: Bytes)

  datatype Decoded = Decoded(frame: Frame, rest: Bytes) | ConnectionClosed

  const MAX_LENGTH := 0x1_0000_0000_0000_0000

  function Power256(width: nat): (p: nat)
    ensures p >= 1
  {
    if width == 0 then 1 else 256 * Power256(width - 1)
  }

  // struct.pack("!H", n) and struct.pack("!Q", n).
  function BigEndian(n: nat, width: nat): (s: Bytes)
    requires n < Power256(width)
    ensures |s| == width
  {
    if width == 0 then [] else BigEndian(n / 256, width - 1) + [n % 256]
  }

  // struct.unpack of the same.
  function FromBigEndian(s: Bytes): (n: nat)
    ensures n < Power256(|s|)
  {
    if s == [] then 0 else 256 * FromBigEndian(s[..|s| - 1]) + s[|s| - 1]
  }

  lemma {:induction false} BigEndianInverse(n: nat, width: nat)
    requires n < Power256(width)
    ensures FromBigEndian(BigEndian(n, width)) == n
  {
    if width > 0 {
      BigEndianInverse(n / 256, width - 1);
      assert BigEndian(n, width)[..width - 1] == BigEndian(n / 256, width - 1);
    }
  }

  lemma {:induction false} FromBigEndianInverse(s: Bytes)
    ensures BigEndian(FromBigEndian(s), |s|) == s
  {
    if s != [] {
      var last := s[|s| - 1];
      FromBigEndianInverse(s[..|s| - 1]);
      assert FromBigEndian(s) / 256 == FromBigEndian(s[..|s| - 1]);
      assert FromBigEndian(s) % 256 == last;
    }
  }

  lemma Widths()
    ensures Power256(2) == 0x1_0000
    ensures Power256(8) == MAX_LENGTH
  {
    assert Power256(1) == 256;
    assert Power256(3) == 0x100_0000;
    assert Power256(4) == 0x1_0000_0000;
    assert Power256(5) == 0x100_0000_0000;
    assert Power256(6) == 0x1_0000_0000_0000;
    assert Power256(7) == 0x100_0000_0000_0000;
  }

  lemma HeaderBits(b: bv8)
    ensures (0x80 | b) as int == SetTopBit(b as int)
    ensures (b & 0x0F) as int == b as int % 16
    ensures (b & 0x7F) as int == b as int % 128
    ensures b & 0x80 != 0 <==> b as int >= 128
  {
  }

  // 0x80 | b
  function SetTopBit(b: Byte): (r: Byte)
  {
    if b < 128 then 128 + b else b
  }

  predicate Odd(n: nat)
  {
    n % 2 == 1
  }

  function Halved(n: nat): (h: nat)
  {
    n / 2
  }

  function WithBit(high: nat, bit: bool): (n: nat)
  {
    2 * high + if bit then 1 else 0
  }

  lemma BitOfNumber(n: nat)
    ensures n == WithBit(Halved(n), Odd(n))
  {
  }

  lemma NumberOfBit(high: nat, bit: bool)
    ensures Halved(WithBit(high, bit)) == high && Odd(WithBit(high, bit)) == bit
  {
  }

  // Exclusive or of the low bits, one bit at a time.
  function XorLow(a: nat, b: nat, bits: nat): (r: nat)
    ensures r < Power2(bits)
  {
    if bits == 0 then 0 else WithBit(XorLow(Halved(a), Halved(b), bits - 1), Odd(a) != Odd(b))
  }

  function Power2(n: nat): (p: nat)
    ensures p >= 1
  {
    if n == 0 then 1 else 2 * Power2(n - 1)
  }

  lemma EightBits()
    ensures Power2(8) == 256
  {
    assert Power2(4) == 16;
  }

  function Xor(a: Byte, b: Byte): (r: Byte)
  {
    EightBits();
    XorLow(a, b, 8)
  }

  // The operations on the bytes themselves, by name, so that proofs need not look inside.
  function Number(a: bv8): (n: Byte) { a as int }
  function Half(a: bv8): (h: bv8) { a >> 1 }
  predicate LowBit(a: bv8) { a & 1 == 1 }
  function BitXor(a: bv8, b: bv8): (x: bv8) { a ^ b }

  lemma HalfOfByte(a: bv8)
    ensures Number(Half(a)) == Halved(Number(a)) && LowBit(a) == Odd(Number(a))
  {
  }

  lemma HalfOfXor(a: bv8, b: bv8)
    ensures Half(BitXor(a, b)) == BitXor(Half(a), Half(b))
    ensures LowBit(BitXor(a, b)) == (LowBit(a) != LowBit(b))
  {
  }

  lemma XorOfZeros(a: bv8, b: bv8)
    requires Number(a) == 0 && Number(b) == 0
    ensures Number(BitXor(a, b)) == 0
  {
  }

  lemma {:induction false} XorLowBits(a: bv8, b: bv8, bits: nat)
    requires Number(a) < Power2(bits) && Number(b) < Power2(bits)
    ensures Number(BitXor(a, b)) == XorLow(Number(a), Number(b), bits)
    decreases bits
  {
    hide Number, Half, LowBit, BitXor, Power2, Odd, Halved, WithBit;
    HalfFits(Number(a), bits);
    HalfFits(Number(b), bits);
    if bits == 0 {
      XorOfZeros(a, b);
    } else {
      HalfOfXor(a, b);
      HalfOfByte(a);
      HalfOfByte(b);
      HalfOfByte(BitXor(a, b));
      XorLowBits(Half(a), Half(b), bits - 1);
      BitOfNumber(Number(BitXor(a, b)));
    }
  }

  lemma HalfFits(n: nat, bits: nat)
    requires n < Power2(bits)
    ensures if bits == 0 then n == 0 else Halved(n) < Power2(bits - 1)
  {
  }

  /** The payload's exclusive or is that of the bytes' bits. */
  lemma XorBits(a: bv8, b: bv8)
    ensures Xor(a as int, b as int) == (a ^ b) as int
  {
    hide XorLow, Power2;
    EightBits();
    XorLowBits(a, b, 8);
  }

  lemma {:induction false} XorLowTwice(a: nat, m: nat, bits: nat)
    requires a < Power2(bits)
    ensures XorLow(XorLow(a, m, bits), m, bits) == a
    decreases bits
  {
    hide Power2, Odd, Halved, WithBit;
    HalfFits(a, bits);
    if bits > 0 {
      XorLowTwice(Halved(a), Halved(m), bits - 1);
      NumberOfBit(XorLow(Halved(a), Halved(m), bits - 1), Odd(a) != Odd(m));
      BitOfNumber(a);
    }
  }

  lemma XorTwice(a: Byte, m: Byte)
    ensures Xor(Xor(a, m), m) == a
  {
    EightBits();
    XorLowTwice(a, m, 8);
  }

  // Section 5.3 of RFC 6455; unmasking is the same operation.
  function ApplyMask(payload: Bytes, mask: Bytes): (r: Bytes)
    requires |mask| == 4
    ensures |r| == |payload|
    ensures forall i :: 0 <= i < |payload| ==> r[i] == Xor(payload[i], mask[i % 4])
  {
    seq(|payload|, i requires 0 <= i < |payload| => Xor(payload[i], mask[i % 4]))
  }

  lemma MaskTwice(payload: Bytes, mask: Bytes)
    requires |mask| == 4
    ensures ApplyMask(ApplyMask(payload, mask), mask) == payload
  {
    var once := ApplyMask(payload, mask);
    forall i | 0 <= i < |payload|
      ensures ApplyMask(once, mask)[i] == payload[i]
    {
      XorTwice(payload[i], mask[i % 4]);
    }
  }

  // The bytes after the first, up to the mask: the mask bit and the payload length in its shortest form.
  function LengthField(length: nat): (s: Bytes)
    requires length < MAX_LENGTH
  {
    Widths();
    if length < 126 then [128 + length]
    else if length <= 0xFFFF then [128 + 126] + BigEndian(length, 2)
    else [128 + 127] + BigEndian(length, 8)
  }

  function Encode(frame: Frame, mask: Bytes): (s: Bytes)
    requires |frame.payload| < MAX_LENGTH
    requires |mask| == 4
  {
    [SetTopBit(frame.opcode)] + LengthField(|frame.payload|) + mask + ApplyMask(frame.payload, mask)
  }

  // How many extra length bytes the second header byte announces.
  function ExtraLength(second: Byte): (n: nat)
  {
    if second % 128 == 126 then 2 else if second % 128 == 127 then 8 else 0
  }

  function MaskLength(second: Byte): (n: nat)
  {
    if second >= 128 then 4 else 0
  }

  function PayloadLength(s: Bytes): (n: nat)
    requires |s| >= 2 && |s| >= 2 + ExtraLength(s[1])
    ensures n < MAX_LENGTH
  {
    Widths();
    var extra := ExtraLength(s[1]);
    if extra == 0 then s[1] % 128 else FromBigEndian(s[2..2 + extra])
  }

  function Decode(s: Bytes): (r: Decoded)
    ensures r.Decoded? ==> |r.rest| + 2 <= |s| && r.rest == s[|s| - |r.rest|..]
    ensures r.Decoded? ==> |r.frame.payload| < MAX_LENGTH
  {
    if |s| < 2 || |s| < 2 + ExtraLength(s[1]) then ConnectionClosed
    else
      var body := 2 + ExtraLength(s[1]) + MaskLength(s[1]);
      var length := PayloadLength(s);
      if |s| < body + length then ConnectionClosed
      else Decoded(Frame(s[0] % 16, Payload(s, body, length)), s[body + length..])
  }

  function Payload(s: Bytes, body: nat, length: nat): (payload: Bytes)
    requires 2 <= |s| && 2 + MaskLength(s[1]) <= body && body + length <= |s|
    ensures |payload| == length
  {
    var raw := s[body..body + length];
    if MaskLength(s[1]) == 4 then ApplyMask(raw, s[body - 4..body]) else raw
  }

  // Decode, given where the payload begins and how long it is.
  lemma DecodeIs(s: Bytes, body: nat, length: nat)
    requires |s| >= 2 && |s| >= 2 + ExtraLength(s[1])
    requires body == 2 + ExtraLength(s[1]) + MaskLength(s[1]) && length == PayloadLength(s) && body + length <= |s|
    ensures Decode(s) == Decoded(Frame(s[0] % 16, Payload(s, body, length)), s[body + length..])
  {
    hide ExtraLength, PayloadLength, Payload;
  }

  // What the header of an encoded frame says about the bytes behind it.
  lemma HeaderOf(frame: Frame, mask: Bytes, tail: Bytes)
    requires |frame.payload| < MAX_LENGTH
    requires |mask| == 4
    ensures var s := Encode(frame, mask) + tail;
            && |s| >= 2 + ExtraLength(s[1])
            && 1 + |LengthField(|frame.payload|)| == 2 + ExtraLength(s[1])
            && MaskLength(s[1]) == 4
            && PayloadLength(s) == |frame.payload|
  {
    hide ApplyMask;
    var length := |frame.payload|;
    var s := Encode(frame, mask) + tail;
    LengthFieldRead(length);
    assert s[1..1 + |LengthField(length)|] == LengthField(length);
    LengthInPlace(s, LengthField(length));
  }

  // The length field by itself: its first byte says how many follow, and those hold the length.
  lemma LengthFieldRead(length: nat)
    requires length < MAX_LENGTH
    ensures var field := LengthField(length);
            && |field| == 1 + ExtraLength(field[0]) && MaskLength(field[0]) == 4
            && length == if ExtraLength(field[0]) == 0 then field[0] % 128 else FromBigEndian(field[1..])
  {
    Widths();
    if length >= 126 {
      var width := if length <= 0xFFFF then 2 else 8;
      BigEndianInverse(length, width);
      assert LengthField(length)[1..] == BigEndian(length, width);
    }
  }

  lemma LengthInPlace(s: Bytes, field: Bytes)
    requires field != [] && |s| >= 1 + |field| && s[1..1 + |field|] == field && |field| == 1 + ExtraLength(field[0])
    ensures s[1] == field[0]
    ensures PayloadLength(s) == if ExtraLength(field[0]) == 0 then field[0] % 128 else FromBigEndian(field[1..])
  {
    hide FromBigEndian;
    assert s[1] == s[1..1 + |field|][0];
    assert s[2..1 + |field|] == field[1..];
  }

  /** Writing then reading: whatever follows the frame on the wire is left untouched. The opcode comes
      back modulo 16, so the frame itself comes back exactly when its opcode fits the four bits. */
  lemma DecodeEncode(frame: Frame, mask: Bytes, tail: Bytes)
    requires |frame.payload| < MAX_LENGTH
    requires |mask| == 4
    ensures Decode(Encode(frame, mask) + tail) == Decoded(Frame(frame.opcode % 16, frame.payload), tail)
    ensures Decode(Encode(frame, mask) + tail) == Decoded(frame, tail) <==> frame.opcode < 16
  {
    hide Decode, ApplyMask, LengthField, ExtraLength, PayloadLength, Payload, SetTopBit;
    HeaderOf(frame, mask, tail);
    FirstByte(frame, mask, tail);
    MaskTwice(frame.payload, mask);
    var header := [SetTopBit(frame.opcode)] + LengthField(|frame.payload|);
    var s := Encode(frame, mask) + tail;
    PayloadBehind(s, header, mask, ApplyMask(frame.payload, mask), tail);
    DecodeIs(s, |header| + 4, |frame.payload|);
  }

  lemma FirstByte(frame: Frame, mask: Bytes, tail: Bytes)
    requires |frame.payload| < MAX_LENGTH && |mask| == 4
    ensures (Encode(frame, mask) + tail)[0] % 16 == frame.opcode % 16
  {
    hide LengthField, ApplyMask;
  }

  lemma PayloadBehind(s: Bytes, header: Bytes, mask: Bytes, body: Bytes, tail: Bytes)
    requires s == header + mask + body + tail && |header| >= 2 && |mask| == MaskLength(s[1])
    ensures Payload(s, |header| + |mask|, |body|) == if |mask| == 4 then ApplyMask(body, mask) else body
    ensures s[|header| + |mask| + |body|..] == tail
  {
    hide ApplyMask;
    Middle(header + mask, body, tail);
    Middle(header, mask, body + tail);
    Regroup(header + mask, body, tail);
  }

  lemma Middle(a: Bytes, b: Bytes, c: Bytes)
    ensures (a + b + c)[|a|..|a| + |b|] == b && (a + b + c)[|a| + |b|..] == c
  {
  }

  lemma Regroup(a: Bytes, b: Bytes, c: Bytes)
    ensures (a + b) + c == a + (b + c)
  {
  }

  // A reader that takes the header, the extra length bytes, the mask and the payload one after another.
  lemma DecodePieces(head: Bytes, extra: Bytes, mask: Bytes, data: Bytes, rest: Bytes, length: nat)
    requires |head| == 2 && |extra| == ExtraLength(head[1]) && |mask| == MaskLength(head[1])
    requires length == (if extra == [] then head[1] % 128 else FromBigEndian(extra))
    requires |data| == length
    ensures Decode(head + extra + mask + data + rest)
         == Decoded(Frame(head[0] % 16, if |mask| == 4 then ApplyMask(data, mask) else data), rest)
  {
    hide Decode, ApplyMask, FromBigEndian, ExtraLength, PayloadLength, Payload;
    var s := head + extra + mask + data + rest;
    LengthOfPieces(s, head, extra, mask + data + rest);
    Regroup(head + extra, mask, data);
    Regroup(head + extra, mask + data, rest);
    PayloadBehind(s, head + extra, mask, data, rest);
    DecodeIs(s, 2 + |extra| + |mask|, length);
  }

  // The header read as two bytes and then the extra ones they announce.
  lemma LengthOfPieces(s: Bytes, head: Bytes, extra: Bytes, rest: Bytes)
    requires s == head + extra + rest
    requires |head| == 2 && |extra| == ExtraLength(head[1])
    ensures s[0] == head[0] && s[1] == head[1]
    ensures PayloadLength(s) == if extra == [] then head[1] % 128 else FromBigEndian(extra)
  {
    assert s[2..2 + |extra|] == extra;
  }

  /** Reading is settled by the bytes of the frame: what arrives later cannot change it. */
  lemma DecodeExtends(s: Bytes, tail: Bytes)
    requires Decode(s).Decoded?
    ensures Decode(s + tail) == Decoded(Decode(s).frame, Decode(s).rest + tail)
  {
    hide PayloadLength, ApplyMask, ExtraLength, Decode;
    DecodeLongEnough(s);
    PayloadLengthExtends(s, tail);
    var body, length := 2 + ExtraLength(s[1]) + MaskLength(s[1]), PayloadLength(s);
    var t := s + tail;
    assert t[0] == s[0] && t[1] == s[1];
    SlicesKept(s, tail, body, body + length);
    SlicesKept(s, tail, body - MaskLength(s[1]), body);
    DecodeIs(s, body, length);
    DecodeIs(t, body, length);
  }

  lemma SlicesKept(s: Bytes, tail: Bytes, i: nat, j: nat)
    requires i <= j <= |s|
    ensures (s + tail)[i..j] == s[i..j] && (s + tail)[j..] == s[j..] + tail
  {
  }

  lemma DecodeLongEnough(s: Bytes)
    requires Decode(s).Decoded?
    ensures |s| >= 2 && |s| >= 2 + ExtraLength(s[1])
    ensures |s| >= 2 + ExtraLength(s[1]) + MaskLength(s[1]) + PayloadLength(s)
  {
    hide ExtraLength, PayloadLength, ApplyMask;
  }

  lemma PayloadLengthExtends(s: Bytes, tail: Bytes)
    requires |s| >= 2 && |s| >= 2 + ExtraLength(s[1])
    ensures PayloadLength(s + tail) == PayloadLength(s)
  {
    var extra := ExtraLength(s[1]);
    assert (s + tail)[2..2 + extra] == s[2..2 + extra];
  }

  /** A frame cut short is never read as some other frame: the reader reports a closed connection. */
  lemma TruncatedFrame(frame: Frame, mask: Bytes, cut: nat)
    requires |frame.payload| < MAX_LENGTH
    requires |mask| == 4
    requires cut < |Encode(frame, mask)|
    ensures Decode(Encode(frame, mask)[..cut]) == ConnectionClosed
  {
    hide Decode, Encode;
    var s := Encode(frame, mask);
    if Decode(s[..cut]).Decoded? {
      DecodeExtends(s[..cut], s[cut..]);
      assert s[..cut] + s[cut..] == s == s + [];
      DecodeEncode(frame, mask, []);
      assert false;
    }
  }

  // ---- exactly which byte strings a client writes ----

  // FIN set, reserved bits clear, masked, and the length in the shortest of its three forms.
  predicate ShortestMaskedHeader(s: Bytes)
    requires |s| >= 2 && |s| >= 2 + ExtraLength(s[1])
  {
    && s[0] / 16 == 8
    && MaskLength(s[1]) == 4
    && (ExtraLength(s[1]) == 2 ==> PayloadLength(s) >= 126)
    && (ExtraLength(s[1]) == 8 ==> PayloadLength(s) > 0xFFFF)
  }

  ghost predicate Canonical(s: Bytes)
  {
    && Decode(s).Decoded?
    && Decode(s).rest == []
    && ShortestMaskedHeader(s)
  }

  ghost predicate ClientWrites(s: Bytes)
  {
    exists frame: Frame, mask: Bytes ::
      frame.opcode < 16 && |frame.payload| < MAX_LENGTH && |mask| == 4 && Encode(frame, mask) == s
  }

  lemma LengthFieldOf(s: Bytes)
    requires |s| >= 2 && |s| >= 2 + ExtraLength(s[1])
    requires ShortestMaskedHeader(s)
    ensures s[1..2 + ExtraLength(s[1])] == LengthField(PayloadLength(s))
  {
    hide LengthField, BigEndian, FromBigEndian;
    var extra := ExtraLength(s[1]);
    var bytes := s[2..2 + extra];
    assert s[1..2 + extra] == [s[1]] + bytes;
    ShortestField(s[1], bytes);
  }

  // The shortest field for a length that was read is the one it was read from.
  lemma ShortestField(second: Byte, bytes: Bytes)
    requires |bytes| == ExtraLength(second) && MaskLength(second) == 4
    requires |bytes| == 2 ==> FromBigEndian(bytes) >= 126
    requires |bytes| == 8 ==> FromBigEndian(bytes) > 0xFFFF
    ensures var length := if bytes == [] then second % 128 else FromBigEndian(bytes);
            length < MAX_LENGTH && [second] + bytes == LengthField(length)
  {
    hide BigEndian, FromBigEndian;
    Widths();
    FromBigEndianInverse(bytes);
    if bytes == [] {
      assert [second] + bytes == [second];
    }
  }

  lemma Reencode(s: Bytes, extra: nat)
    requires |s| >= 6 + extra && extra == ExtraLength(s[1])
    requires ShortestMaskedHeader(s)
    requires |s| == 6 + extra + PayloadLength(s)
    ensures Encode(Frame(s[0] % 16, ApplyMask(s[6 + extra..], s[2 + extra..6 + extra])), s[2 + extra..6 + extra]) == s
  {
    hide LengthField, PayloadLength, ExtraLength, ApplyMask;
    LengthFieldOf(s);
    var mask := s[2 + extra..6 + extra];
    var raw := s[6 + extra..];
    MaskTwice(raw, mask);
    assert s == [s[0]] + s[1..2 + extra] + mask + raw;
    Assembled(s, s[0] % 16, ApplyMask(raw, mask), mask, s[1..2 + extra], raw);
  }

  lemma EncodeDecode(s: Bytes) returns (frame: Frame, mask: Bytes)
    requires Canonical(s)
    ensures Sendable(frame) && |mask| == 4 && Encode(frame, mask) == s
    ensures Decode(s) == Decoded(frame, [])
  {
    hide Encode, PayloadLength, ExtraLength, ApplyMask, Decode, LengthField;
    var extra := ExtraLength(s[1]);
    OneWholeFrame(s, extra);
    frame, mask := Decode(s).frame, s[2 + extra..6 + extra];
    Reencode(s, extra);
  }

  lemma OneWholeFrame(s: Bytes, extra: nat)
    requires Decode(s).Decoded? && Decode(s).rest == [] && |s| >= 2 && s[1] >= 128 && extra == ExtraLength(s[1])
    ensures |s| == 6 + extra + PayloadLength(s)
    ensures Decode(s).frame == Frame(s[0] % 16, ApplyMask(s[6 + extra..], s[2 + extra..6 + extra]))
  {
    hide PayloadLength, ExtraLength, ApplyMask, Decode;
    DecodeLongEnough(s);
    DecodeIs(s, 6 + extra, PayloadLength(s));
    assert s[6 + extra..|s|] == s[6 + extra..];
  }

  lemma Assembled(s: Bytes, opcode: Byte, payload: Bytes, mask: Bytes, field: Bytes, raw: Bytes)
    requires |payload| < MAX_LENGTH && |mask| == 4
    requires |s| > 0 && s == [s[0]] + field + mask + raw
    requires s[0] == SetTopBit(opcode) && field == LengthField(|payload|) && raw == ApplyMask(payload, mask)
    ensures Encode(Frame(opcode, payload), mask) == s
  {
  }

  /** The printer's range: a byte string is one client frame if and only if it reads as one frame with
      nothing left over and its header is the shortest masked one. */
  lemma ClientFramesAreCanonical(s: Bytes)
    ensures ClientWrites(s) <==> Canonical(s)
  {
    hide Encode, Decode;
    if Canonical(s) {
      var frame, mask := EncodeDecode(s);
      assert ClientWrites(s);
    }
    if ClientWrites(s) {
      var frame: Frame, mask: Bytes :|
        frame.opcode < 16 && |frame.payload| < MAX_LENGTH && |mask| == 4 && Encode(frame, mask) == s;
      ShortestHeaderOf(frame, mask);
      DecodeEncode(frame, mask, []);
      assert s + [] == s;
    }
  }

  lemma ShortestHeaderOf(frame: Frame, mask: Bytes)
    requires Sendable(frame) && |mask| == 4
    ensures var s := Encode(frame, mask);
            |s| >= 2 && |s| >= 2 + ExtraLength(s[1]) && ShortestMaskedHeader(s)
  {
    hide PayloadLength, ApplyMask;
    var s := Encode(frame, mask);
    HeaderOf(frame, mask, []);
    assert s + [] == s;
    assert s[1] == LengthField(|frame.payload|)[0];
  }

  // ---- whole streams ----

  datatype Stream = Stream(frames: seq<Frame>, residue: Bytes)

  // Reads frames until the remaining bytes hold none; the residue is what a closed peer leaves unread.
  function DecodeAll(s: Bytes): (r: Stream)
    ensures Decode(r.residue) == ConnectionClosed
    ensures forall f :: f in r.frames ==> |f.payload| < MAX_LENGTH
    decreases |s|
  {
    match Decode(s)
    case ConnectionClosed => Stream([], s)
    case Decoded(frame, rest) =>
      var more := DecodeAll(rest);
      Stream([frame] + more.frames, more.residue)
  }

  predicate Sendable(frame: Frame)
  {
    frame.opcode < 16 && |frame.payload| < MAX_LENGTH
  }

  lemma NothingToRead()
    ensures DecodeAll([]) == Stream([], [])
  {
  }

  predicate AllSendable(frames: seq<Frame>)
  {
    forall i :: 0 <= i < |frames| ==> Sendable(frames[i])
  }

  predicate AllMasks(masks: seq<Bytes>)
  {
    forall i :: 0 <= i < |masks| ==> |masks[i]| == 4
  }

  function EncodeAll(frames: seq<Frame>, masks: seq<Bytes>): (s: Bytes)
    requires |masks| == |frames|
    requires AllSendable(frames)
    requires AllMasks(masks)
  {
    if frames == [] then [] else Encode(frames[0], masks[0]) + EncodeAll(frames[1..], masks[1..])
  }

  /** The stream inverse, with an incomplete frame possibly trailing. */
  lemma {:induction false} StreamRoundTrip(frames: seq<Frame>, masks: seq<Bytes>, tail: Bytes)
    requires |masks| == |frames|
    requires AllSendable(frames)
    requires AllMasks(masks)
    requires Decode(tail) == ConnectionClosed
    ensures DecodeAll(EncodeAll(frames, masks) + tail) == Stream(frames, tail)
  {
    hide Encode, Decode;
    if frames == [] {
      assert EncodeAll(frames, masks) + tail == tail;
    } else {
      var rest := EncodeAll(frames[1..], masks[1..]) + tail;
      DecodeEncode(frames[0], masks[0], rest);
      StreamRoundTrip(frames[1..], masks[1..], tail);
      Regroup(Encode(frames[0], masks[0]), EncodeAll(frames[1..], masks[1..]), tail);
      assert [frames[0]] + frames[1..] == frames;
    }
  }

  // Of the encoded frames, the first `whole` arrived before the cut and the next one did not.
  ghost predicate ArrivedWhole(frames: seq<Frame>, masks: seq<Bytes>, cut: nat, whole: nat)
    requires |masks| == |frames|
    requires AllSendable(frames)
    requires AllMasks(masks)
  {
    && whole <= |frames|
    && |EncodeAll(frames[..whole], masks[..whole])| <= cut
    && (whole < |frames| ==> cut < |EncodeAll(frames[..whole + 1], masks[..whole + 1])|)
  }

  /** A stream cut anywhere yields exactly the frames that arrived whole, in order. */
  lemma {:induction false} TruncatedStream(frames: seq<Frame>, masks: seq<Bytes>, cut: nat) returns (whole: nat)
    requires |masks| == |frames|
    requires AllSendable(frames)
    requires AllMasks(masks)
    requires cut <= |EncodeAll(frames, masks)|
    ensures ArrivedWhole(frames, masks, cut, whole)
    ensures DecodeAll(EncodeAll(frames, masks)[..cut]).frames == frames[..whole]
  {
    hide Encode, Decode;
    if frames == [] {
      NothingToRead();
      whole := 0;
    } else if cut < |Encode(frames[0], masks[0])| {
      TruncatedFrame(frames[0], masks[0], cut);
      assert EncodeAll(frames, masks)[..cut] == Encode(frames[0], masks[0])[..cut];
      EncodeAllCons(frames, masks, 1);
      whole := 0;
    } else {
      var first := |Encode(frames[0], masks[0])|;
      var n := TruncatedStream(frames[1..], masks[1..], cut - first);
      OneMoreArrived(frames, masks, cut, n);
      FirstFrameRead(frames, masks, cut);
      whole := n + 1;
      assert frames[..whole] == [frames[0]] + frames[1..][..n];
    }
  }

  lemma OneMoreArrived(frames: seq<Frame>, masks: seq<Bytes>, cut: nat, n: nat)
    requires |masks| == |frames| > 0
    requires AllSendable(frames)
    requires AllMasks(masks)
    requires |Encode(frames[0], masks[0])| <= cut
    requires ArrivedWhole(frames[1..], masks[1..], cut - |Encode(frames[0], masks[0])|, n)
    ensures ArrivedWhole(frames, masks, cut, n + 1)
  {
    EncodeAllCons(frames, masks, n + 1);
    if n + 1 < |frames| {
      EncodeAllCons(frames, masks, n + 2);
    }
  }

  lemma FirstFrameRead(frames: seq<Frame>, masks: seq<Bytes>, cut: nat)
    requires |masks| == |frames| > 0
    requires AllSendable(frames)
    requires AllMasks(masks)
    requires |Encode(frames[0], masks[0])| <= cut <= |EncodeAll(frames, masks)|
    ensures DecodeAll(EncodeAll(frames, masks)[..cut]).frames
         == [frames[0]]
            + DecodeAll(EncodeAll(frames[1..], masks[1..])[..cut - |Encode(frames[0], masks[0])|]).frames
  {
    var first := Encode(frames[0], masks[0]);
    var rest := EncodeAll(frames[1..], masks[1..])[..cut - |first|];
    DecodeEncode(frames[0], masks[0], rest);
    assert EncodeAll(frames, masks)[..cut] == first + rest;
  }

  lemma EncodeAllCons(frames: seq<Frame>, masks: seq<Bytes>, n: nat)
    requires |masks| == |frames|
    requires AllSendable(frames)
    requires AllMasks(masks)
    requires 0 < n <= |frames|
    ensures EncodeAll(frames[..n], masks[..n])
         == Encode(frames[0], masks[0]) + EncodeAll(frames[1..][..n - 1], masks[1..][..n - 1])
  {
    assert frames[..n][1..] == frames[1..][..n - 1];
    assert masks[..n][1..] == masks[1..][..n - 1];
  }

  // One more frame written behind a stream that reads cleanly is one more frame read.
  lemma {:induction false} DecodeAllAppend(s: Bytes, frame: Frame, mask: Bytes)
    requires DecodeAll(s).residue == []
    requires Sendable(frame) && |mask| == 4
    ensures DecodeAll(s + Encode(frame, mask)) == Stream(DecodeAll(s).frames + [frame], [])
    decreases |s|
  {
    hide Encode, Decode;
    var e := Encode(frame, mask);
    NothingToRead();
    match Decode(s)
    case ConnectionClosed =>
      DecodeEncode(frame, mask, []);
      assert s + e == e + [];
    case Decoded(first, rest) =>
      DecodeExtends(s, e);
      DecodeAllAppend(rest, frame, mask);
      assert [first] + (DecodeAll(rest).frames + [frame]) == DecodeAll(s).frames + [frame];
  }

  // ---- frames that are not masked, as a server sends them ----

  function TwoPlaces(a: int, b: int): (n: int)
  {
    0x100 * a + b
  }

  function EightPlaces(a: int, b: int, c: int, d: int, e: int, f: int, g: int, h: int): (n: int)
  {
    0x100_0000_0000_0000 * a + 0x1_0000_0000_0000 * b + 0x100_0000_0000 * c + 0x1_0000_0000 * d
    + 0x100_0000 * e + 0x1_0000 * f + 0x100 * g + h
  }

  // The length bytes of section 5.2 of RFC 6455 that announce n bytes and no mask, most significant first.
  predicate Announces(field: Bytes, n: int)
  {
    || (|field| == 1 && field[0] < 126 && n == field[0])
    || (|field| == 3 && field[0] == 126 && n == TwoPlaces(field[1], field[2]))
    || (|field| == 9 && field[0] == 127
        && n == EightPlaces(field[1], field[2], field[3], field[4], field[5], field[6], field[7], field[8]))
  }

  // The field with the digits of n to base 256, most significant first.
  function Digits(n: int): (field: Bytes)
    requires 0 <= n < 0x1_0000_0000_0000_0000
  {
    if n < 126 then [n]
    else if n < 0x1_0000 then [126, n / 0x100, n % 0x100]
    else
      [127, n / 0x100_0000_0000_0000, n / 0x1_0000_0000_0000 % 0x100, n / 0x100_0000_0000 % 0x100, n / 0x1_0000_0000 % 0x100,
       n / 0x100_0000 % 0x100, n / 0x1_0000 % 0x100, n / 0x100 % 0x100, n % 0x100]
  }

  lemma DigitsAnnounce(n: int)
    requires 0 <= n < 0x1_0000_0000_0000_0000
    ensures Announces(Digits(n), n)
  {
    if n >= 0x1_0000 {
      DivideTwice(n, 0x100);
      DivideTwice(n, 0x1_0000);
      DivideTwice(n, 0x100_0000);
      DivideTwice(n, 0x1_0000_0000);
      DivideTwice(n, 0x100_0000_0000);
      DivideTwice(n, 0x1_0000_0000_0000);
      Horner(n, n / 0x100, n / 0x1_0000, n / 0x100_0000, n / 0x1_0000_0000, n / 0x100_0000_0000, n / 0x1_0000_0000_0000,
             n / 0x100_0000_0000_0000);
    }
  }

  lemma Horner(n: nat, g: nat, f: nat, e: nat, d: nat, c: nat, b: nat, a: nat)
    requires n / 0x100 == g && g / 0x100 == f && f / 0x100 == e && e / 0x100 == d
    requires d / 0x100 == c && c / 0x100 == b && b / 0x100 == a
    ensures n == EightPlaces(a, b % 0x100, c % 0x100, d % 0x100, e % 0x100, f % 0x100, g % 0x100, n % 0x100)
  {
  }

  lemma DivideTwice(n: nat, p: nat)
    requires p > 0
    ensures 0x100 * p > 0 && n / p / 0x100 == n / (0x100 * p)
  {
    var d := n / p;
    var e, t := d / 0x100, d % 0x100;
    DivMod(n, p);
    PlaceOfDigit(p, e, t);
    Quotient(n, 0x100 * p, e, p * t + n % p);
  }

  lemma DivMod(n: nat, p: nat)
    requires p > 0
    ensures n == p * (n / p) + n % p && n % p < p
  {
  }

  lemma PlaceOfDigit(p: nat, e: nat, t: nat)
    requires t < 0x100
    ensures p * (0x100 * e + t) == (0x100 * p) * e + p * t
    ensures p * t <= 0x100 * p - p
  {
  }

  lemma Quotient(n: nat, m: nat, e: nat, r: nat)
    requires m > 0 && n == m * e + r && r < m
    ensures n / m == e
  {
    var q := n / m;
    DivMod(n, m);
    if q > e {
      AtLeastOnce(m, q, e);
    } else if q < e {
      AtLeastOnce(m, e, q);
    }
  }

  lemma AtLeastOnce(m: nat, a: nat, b: nat)
    requires a > b
    ensures m * a >= m * b + m
  {
    TimesSum(m, b, a - b - 1);
  }

  lemma TimesSum(m: nat, b: nat, k: nat)
    ensures m * (b + 1 + k) == m * b + m + m * k && m * k >= 0
  {
  }

  lemma EightBytes(s: Bytes)
    requires |s| == 8
    ensures FromBigEndian(s) == EightPlaces(s[0], s[1], s[2], s[3], s[4], s[5], s[6], s[7])
  {
    hide FromBigEndian;
    NoBytes();
    assert s[..0] == [] && s[..8] == s;
    OneByteMore(s, 0);
    OneByteMore(s, 1);
    OneByteMore(s, 2);
    OneByteMore(s, 3);
    OneByteMore(s, 4);
    OneByteMore(s, 5);
    OneByteMore(s, 6);
    OneByteMore(s, 7);
  }

  lemma NoBytes()
    ensures FromBigEndian([]) == 0
  {
  }

  lemma OneByteMore(s: Bytes, k: nat)
    requires k < |s|
    ensures FromBigEndian(s[..k + 1]) == 256 * FromBigEndian(s[..k]) + s[k]
  {
    assert s[..k + 1][..k] == s[..k];
  }

  lemma TwoBytes(s: Bytes)
    requires |s| == 2
    ensures FromBigEndian(s) == TwoPlaces(s[0], s[1])
  {
    hide FromBigEndian;
    NoBytes();
    OneByteMore(s, 0);
    OneByteMore(s, 1);
    assert s[..0] == [] && s[..2] == s;
  }

  /** What the reader makes of an unmasked frame, header bytes written out: the opcode is in the low four bits of
      the first byte, the length in the announced bytes, most significant first, and the payload is as it
      stands. */
  lemma UnmaskedFrame(first: Byte, field: Bytes, payload: Bytes, tail: Bytes)
    requires Announces(field, |payload|)
    ensures Decode([first] + field + payload + tail) == Decoded(Frame(first % 16, payload), tail)
  {
    hide Decode, FromBigEndian, TwoPlaces, EightPlaces;
    var head, extra := [first, field[0]], field[1..];
    AnnouncedLength(field, |payload|);
    DecodePieces(head, extra, [], payload, tail, |payload|);
    assert head + extra + [] + payload + tail == [first] + field + payload + tail;
  }

  /** The same of a masked frame: the top bit of the second byte is set and four mask bytes follow the length. */
  lemma MaskedFrame(first: Byte, field: Bytes, mask: Bytes, data: Bytes, tail: Bytes)
    requires Announces(field, |data|) && |mask| == 4
    ensures Decode([first, 128 + field[0]] + field[1..] + mask + data + tail) == Decoded(Frame(first % 16, ApplyMask(data, mask)), tail)
  {
    hide Decode, FromBigEndian, ApplyMask, TwoPlaces, EightPlaces;
    var extra := field[1..];
    AnnouncedLength(field, |data|);
    DecodePieces([first, 128 + field[0]], extra, mask, data, tail, |data|);
  }

  /** What the client writes, byte by byte: the digits of the length in the shortest of three forms, most
      significant first, and payload byte i combined with mask byte i modulo 4. */
  lemma EncodeSpelled(frame: Frame, mask: Bytes)
    requires frame.opcode < 16 && |frame.payload| < 0x1_0000_0000_0000_0000 && |mask| == 4
    ensures var field := Digits(|frame.payload|);
            Encode(frame, mask) == [128 + frame.opcode, 128 + field[0]] + field[1..] + mask + ApplyMask(frame.payload, mask)
  {
    hide ApplyMask, LengthField;
    var n := |frame.payload|;
    var field := Digits(n);
    LengthFieldSpelled(n);
    assert [SetTopBit(frame.opcode)] + ([128 + field[0]] + field[1..]) == [128 + frame.opcode, 128 + field[0]] + field[1..];
  }

  lemma LengthFieldSpelled(n: nat)
    requires n < MAX_LENGTH
    ensures var field := Digits(n);
            |field| >= 1 && field[0] < 128 && LengthField(n) == [128 + field[0]] + field[1..]
  {
    hide Digits, BigEndian, FromBigEndian;
    Widths();
    var field := Digits(n);
    DigitsShape(n);
    AnnouncedLength(field, n);
    FromBigEndianInverse(field[1..]);
    if |field| == 1 {
      assert [128 + n] + [] == [128 + n];
    }
  }

  lemma DigitsShape(n: nat)
    requires n < 0x1_0000_0000_0000_0000
    ensures Announces(Digits(n), n)
    ensures |Digits(n)| == if n < 126 then 1 else if n < 0x1_0000 then 3 else 9
  {
    hide Announces;
    DigitsAnnounce(n);
  }

  // The announced length, as the reader unpacks it.
  lemma AnnouncedLength(field: Bytes, n: int)
    requires Announces(field, n)
    ensures |field| > 1 ==> FromBigEndian(field[1..]) == n
  {
    hide FromBigEndian;
    var extra := field[1..];
    if |field| == 3 {
      TwoBytes(extra);
    } else if |field| == 9 {
      EightBytes(extra);
    }
  }

  datatype Plain = Plain(first: Byte, field: Bytes, payload: Bytes)

  predicate AllAnnounced(frames: seq<Plain>)
  {
    forall i :: 0 <= i < |frames| ==> Announces(frames[i].field, |frames[i].payload|)
  }

  function Wire(frames: seq<Plain>): (s: Bytes)
  {
    if frames == [] then [] else [frames[0].first] + frames[0].field + frames[0].payload + Wire(frames[1..])
  }

  function Meant(frames: seq<Plain>): (r: seq<Frame>)
  {
    if frames == [] then [] else [Frame(frames[0].first % 16, frames[0].payload)] + Meant(frames[1..])
  }

  /** Any list of unmasked frames, followed by an incomplete one, is read as that list, in order. */
  lemma {:induction false} UnmaskedStream(frames: seq<Plain>, tail: Bytes)
    requires AllAnnounced(frames) && Decode(tail) == ConnectionClosed
    ensures DecodeAll(Wire(frames) + tail) == Stream(Meant(frames), tail)
  {
    hide Decode;
    if frames == [] {
      assert Wire(frames) + tail == tail;
    } else {
      var f, rest := frames[0], Wire(frames[1..]);
      UnmaskedFrame(f.first, f.field, f.payload, rest + tail);
      UnmaskedStream(frames[1..], tail);
      Regroup([f.first] + f.field + f.payload, rest, tail);
    }
  }

  /** An unmasked frame cut short is reported as a closed connection. */
  lemma UnmaskedTruncated(first: Byte, field: Bytes, payload: Bytes, cut: nat)
    requires Announces(field, |payload|) && cut < 1 + |field| + |payload|
    ensures Decode(([first] + field + payload)[..cut]) == ConnectionClosed
  {
    hide Decode, Announces;
    var s := [first] + field + payload;
    if Decode(s[..cut]).Decoded? {
      DecodeExtends(s[..cut], s[cut..]);
      assert s[..cut] + s[cut..] == s == s + [];
      UnmaskedFrame(first, field, payload, []);
      assert false;
    }
  }
}
