/** The hand-written WebSocket text-frame codec (sections 5.2 and 5.3 of RFC 6455).
    Bytes are integers below 256; `b & 0x7f`, `b & 0x80` and `b & 0x0f` are `b % 128`, `b >= 128` and `b % 16`. */
module FrameCodec {
  import opened Common

  type Byte = x: int | 0 <= x < 256

  datatype FrameError = Eof | ClosedByServer | UnsupportedOpcode(opcode: int)

  // ---------------------------------------------------------------- exclusive or

  function Pow2(n: nat): nat { if n == 0 then 1 else 2 * Pow2(n - 1) }

  /** Exclusive or of the lowest `n` bits, bit by bit. */
  function XorBits(a: nat, b: nat, n: nat): nat {
    if n == 0 then 0 else 2 * XorBits(a / 2, b / 2, n - 1) + if a % 2 == b % 2 then 0 else 1
  }

  /** Working on the lowest bit and the rest apart. */
  lemma XorDigits(h: nat, l: nat, bh: nat, bl: nat, n: nat)
    requires l < 2 && bl < 2 && n > 0
    ensures XorBits(2 * h + l, 2 * bh + bl, n) == 2 * XorBits(h, bh, n - 1) + if l == bl then 0 else 1
  {
    HalfOf(h, l);
    HalfOf(bh, bl);
  }

  lemma HalfOf(h: nat, l: nat)
    requires l < 2
    ensures (2 * h + l) / 2 == h && (2 * h + l) % 2 == l
  {
  }

  /** One bit more: what holds of the upper bits holds of the number. */
  lemma XorTwiceStep(h: nat, l: nat, bh: nat, bl: nat, n: nat)
    requires l < 2 && bl < 2 && n > 0
    requires XorBits(h, bh, n - 1) < Pow2(n - 1) && XorBits(XorBits(h, bh, n - 1), bh, n - 1) == h
    ensures var a, b := 2 * h + l, 2 * bh + bl; XorBits(a, b, n) < Pow2(n) && XorBits(XorBits(a, b, n), b, n) == a
  {
    var y := XorBits(h, bh, n - 1);
    XorDigits(h, l, bh, bl, n);
    XorDigits(y, if l == bl then 0 else 1, bh, bl, n);
  }

  lemma {:induction false} XorTwice(a: nat, b: nat, n: nat)
    requires a < Pow2(n)
    ensures XorBits(a, b, n) < Pow2(n) && XorBits(XorBits(a, b, n), b, n) == a
  {
    if n > 0 {
      var h, l, bh, bl := Halves(a, b);
      XorTwice(h, bh, n - 1);
      XorTwiceStep(h, l, bh, bl, n);
    }
  }

  lemma Halves(a: nat, b: nat) returns (h: nat, l: nat, bh: nat, bl: nat)
    ensures l < 2 && bl < 2 && a == 2 * h + l && b == 2 * bh + bl
  {
    h, l, bh, bl := a / 2, a % 2, b / 2, b % 2;
  }

  lemma Pow2Eight()
    ensures Pow2(8) == 256
  {
    assert Pow2(4) == 16;
  }

  function Xor(a: Byte, b: Byte): Byte {
    Pow2Eight();
    XorTwice(a, b, 8);
    XorBits(a, b, 8)
  }

  lemma XorInvolution(a: Byte, b: Byte)
    ensures Xor(Xor(a, b), b) == a
  {
    Pow2Eight();
    XorTwice(a, b, 8);
  }

  type MaskKey = k: seq<Byte> | |k| == 4 witness [0, 0, 0, 0]

  function Mask(p: seq<Byte>, key: MaskKey): (r: seq<Byte>)
    ensures |r| == |p|
  {
    seq(|p|, i requires 0 <= i < |p| => Xor(p[i], key[i % 4]))
  }

  lemma MaskTwice(p: seq<Byte>, key: MaskKey)
    ensures Mask(Mask(p, key), key) == p
  {
    forall i | 0 <= i < |p| ensures Mask(Mask(p, key), key)[i] == p[i] {
      XorInvolution(p[i], key[i % 4]);
    }
  }

  // ---------------------------------------------------------------- big-endian lengths

  function Pow256(n: nat): nat { if n == 0 then 1 else 256 * Pow256(n - 1) }

  function BigEndian(n: nat, width: nat): (r: seq<Byte>)
    ensures |r| == width
  {
    if width == 0 then [] else BigEndian(n / 256, width - 1) + [n % 256]
  }

  function FromBytes(s: seq<Byte>): nat {
    if s == [] then 0 else 256 * FromBytes(s[..|s| - 1]) + s[|s| - 1]
  }

  lemma {:induction false} BigEndianRoundTrip(n: nat, width: nat)
    requires n < Pow256(width)
    ensures FromBytes(BigEndian(n, width)) == n
  {
    if width > 0 {
      BigEndianRoundTrip(n / 256, width - 1);
      assert BigEndian(n, width)[..width - 1] == BigEndian(n / 256, width - 1);
    }
  }

  lemma {:induction false} FromBytesBound(s: seq<Byte>)
    ensures FromBytes(s) < Pow256(|s|)
  {
    if s != [] {
      FromBytesBound(s[..|s| - 1]);
    }
  }

  lemma WidthBounds()
    ensures Pow256(2) == 0x1_0000 && Pow256(8) == 0x1_0000_0000_0000_0000
  {
    assert Pow256(4) == 0x1_0000_0000;
    assert Pow256(6) == 0x1_0000_0000_0000;
  }

  // ---------------------------------------------------------------- frames

  const KEY: MaskKey := [0x12, 0x34, 0x56, 0x78]

  const LENGTH_LIMIT := 0x1_0000_0000_0000_0000

  /** The 7-bit length code and the extended length bytes the encoder chooses. */
  function LengthField(n: nat): (int, seq<Byte>) {
    if n < 126 then (n, []) else if n <= 0xFFFF then (126, BigEndian(n, 2)) else (127, BigEndian(n, 8))
  }

  /** What a length field says: every form of section 5.2 is accepted, minimal or not. */
  predicate SaysLength(code: int, ext: seq<Byte>, n: nat) {
    0 <= code < 128 && |ext| == ExtWidth(code) && n == Length(code, ext)
  }

  function ExtWidth(code: int): nat { if code == 126 then 2 else if code == 127 then 8 else 0 }

  function Length(code: nat, ext: seq<Byte>): nat { if code < 126 then code else FromBytes(ext) }

  /** A frame with the given first byte, optional mask key, length field and payload. */
  function Frame(first: Byte, key: Option<MaskKey>, code: int, ext: seq<Byte>, p: seq<Byte>): seq<Byte>
    requires 0 <= code < 128
  {
    [first, code + if key.Some? then 128 else 0] + ext + Body(key, p)
  }

  function Body(key: Option<MaskKey>, p: seq<Byte>): seq<Byte> {
    if key.Some? then key.value + Mask(p, key.value) else p
  }

  /** `encode_text_frame`: final text frame, masked with the fixed key. */
  function Encode(p: seq<Byte>): seq<Byte> {
    var (code, ext) := LengthField(|p|);
    [0x81, 0x80 + code] + ext + KEY + Mask(p, KEY)
  }

  function DecodeBody(s: seq<Byte>, masked: bool, n: nat): Result<(seq<Byte>, seq<Byte>), FrameError> {
    if masked then
      if |s| < 4 + n then Err(Eof) else Ok((Mask(s[4..4 + n], s[..4]), s[4 + n..]))
    else
      if |s| < n then Err(Eof) else Ok((s[..n], s[n..]))
  }

  /** `decode_text_frame`: the payload and what is left of the stream, or the first error met. */
  function Decode(s: seq<Byte>): (r: Result<(seq<Byte>, seq<Byte>), FrameError>)
    ensures r.Ok? ==> |r.value.1| < |s|
  {
    if |s| < 2 then Err(Eof)
    else if s[0] % 16 == 8 then Err(ClosedByServer)
    else if s[0] % 16 != 1 then Err(UnsupportedOpcode(s[0] % 16))
    else
      var code := s[1] % 128;
      var body := 2 + ExtWidth(code);
      if |s| < body then Err(Eof) else DecodeBody(s[body..], s[1] >= 128, Length(code, s[2..body]))
  }

  // ---------------------------------------------------------------- what the decoder accepts

  lemma DecodeBodyOf(key: Option<MaskKey>, p: seq<Byte>, rest: seq<Byte>)
    ensures DecodeBody(Body(key, p) + rest, key.Some?, |p|) == Ok((p, rest))
  {
    if key.Some? {
      var body := Body(key, p);
      assert (body + rest)[..4] == key.value;
      assert (body + rest)[4..4 + |p|] == Mask(p, key.value);
      assert (body + rest)[4 + |p|..] == rest;
      MaskTwice(p, key.value);
    } else {
      assert (p + rest)[..|p|] == p && (p + rest)[|p|..] == rest;
    }
  }

  lemma FrameParts(first: Byte, second: Byte, ext: seq<Byte>, body: seq<Byte>, rest: seq<Byte>)
    ensures var s := [first, second] + ext + body + rest;
            s[0] == first && s[1] == second && s[2..2 + |ext|] == ext && s[2 + |ext|..] == body + rest
  {
  }

  lemma DecodeHeader(s: seq<Byte>)
    requires |s| >= 2 && s[0] % 16 == 1 && |s| >= 2 + ExtWidth(s[1] % 128)
    ensures var body := 2 + ExtWidth(s[1] % 128);
            Decode(s) == DecodeBody(s[body..], s[1] >= 128, Length(s[1] % 128, s[2..body]))
  {
  }

  /** Any text frame, masked with any key or not at all, in any length form, decodes to its payload and leaves the rest. */
  lemma DecodesEveryFrame(first: Byte, key: Option<MaskKey>, code: int, ext: seq<Byte>, p: seq<Byte>, rest: seq<Byte>)
    requires first % 16 == 1 && SaysLength(code, ext, |p|)
    ensures Decode(Frame(first, key, code, ext, p) + rest) == Ok((p, rest))
  {
    var second := code + if key.Some? then 128 else 0;
    assert second % 128 == code && (second >= 128 <==> key.Some?);
    var s := [first, second] + ext + Body(key, p) + rest;
    assert s == Frame(first, key, code, ext, p) + rest;
    FrameParts(first, second, ext, Body(key, p), rest);
    DecodeHeader(s);
    DecodeBodyOf(key, p, rest);
  }

  /** The header's bytes, the extended length and the body make up the stream. */
  lemma SplitStream(s: seq<Byte>, width: nat)
    requires |s| >= 2 + width
    ensures s == [s[0], s[1]] + s[2..2 + width] + s[2 + width..]
  {
  }

  lemma FrameOf(first: Byte, second: Byte, key: Option<MaskKey>, ext: seq<Byte>, p: seq<Byte>, rest: seq<Byte>)
    requires key.Some? <==> second >= 128
    ensures [first, second] + ext + (Body(key, p) + rest) == Frame(first, key, second % 128, ext, p) + rest
  {
    assert second == second % 128 + if key.Some? then 128 else 0;
    var head, body := [first, second] + ext, Body(key, p);
    assert head + (body + rest) == (head + body) + rest;
  }

  /** Conversely, whatever decodes is such a frame followed by the rest. */
  lemma DecodesOnlyFrames(s: seq<Byte>)
    requires Decode(s).Ok?
    ensures var (p, rest) := Decode(s).value;
            var code := s[1] % 128;
            var body := 2 + ExtWidth(code);
            && s[0] % 16 == 1 && |s| >= body && SaysLength(code, s[2..body], |p|)
            && (s[1] >= 128 ==> |s| >= body + 4)
            && s == Frame(s[0], if s[1] >= 128 then Some(s[body..body + 4]) else None, code, s[2..body], p) + rest
  {
    var (p, rest) := Decode(s).value;
    var width := ExtWidth(s[1] % 128);
    DecodeHeader(s);
    var body := s[2 + width..];
    var key: Option<MaskKey> := if s[1] >= 128 then Some(body[..4]) else None;
    BodyIsFrame(body, key, Length(s[1] % 128, s[2..2 + width]));
    SplitStream(s, width);
    FrameOf(s[0], s[1], key, s[2..2 + width], p, rest);
    assert key.Some? ==> key.value == s[2 + width..2 + width + 4];
  }

  lemma BodyIsFrame(body: seq<Byte>, key: Option<MaskKey>, n: nat)
    requires DecodeBody(body, key.Some?, n).Ok? && (key.Some? ==> key.value == body[..4])
    ensures var (p, rest) := DecodeBody(body, key.Some?, n).value; |p| == n && body == Body(key, p) + rest
  {
    if key.Some? {
      MaskTwice(body[4..4 + n], body[..4]);
    }
  }

  // ---------------------------------------------------------------- main results

  lemma LengthFieldSays(n: nat)
    requires n < LENGTH_LIMIT
    ensures SaysLength(LengthField(n).0, LengthField(n).1, n)
  {
    WidthBounds();
    BigEndianRoundTrip(n, 8);
    if n <= 0xFFFF {
      BigEndianRoundTrip(n, 2);
    }
  }

  lemma EncodeIsFrame(p: seq<Byte>)
    ensures Encode(p) == Frame(0x81, Some(KEY), LengthField(|p|).0, LengthField(|p|).1, p)
  {
  }

  /** An encoded frame followed by any bytes decodes to exactly the payload and those bytes. */
  lemma RoundTrip(p: seq<Byte>, rest: seq<Byte>)
    requires |p| < LENGTH_LIMIT
    ensures Decode(Encode(p) + rest) == Ok((p, rest))
  {
    LengthFieldSays(|p|);
    EncodeIsFrame(p);
    DecodesEveryFrame(0x81, Some(KEY), LengthField(|p|).0, LengthField(|p|).1, p, rest);
  }

  /** The encoder picks the shortest length form: no masked frame for the payload is shorter. */
  lemma EncodeIsShortest(p: seq<Byte>, f: seq<Byte>)
    requires |p| < LENGTH_LIMIT && Decode(f) == Ok((p, [])) && f[1] >= 128
    ensures |Encode(p)| <= |f|
  {
    DecodesOnlyFrames(f);
    var ext := f[2..2 + ExtWidth(f[1] % 128)];
    FromBytesBound(ext);
    WidthBounds();
  }

  function EncodeAll(ps: seq<seq<Byte>>): seq<Byte> {
    if ps == [] then [] else Encode(ps[0]) + EncodeAll(ps[1..])
  }

  function DecodeAll(s: seq<Byte>): Result<seq<seq<Byte>>, FrameError>
    decreases |s|
  {
    if s == [] then Ok([])
    else match Decode(s)
      case Err(e) => Err(e)
      case Ok((p, rest)) =>
        match DecodeAll(rest)
        case Err(e) => Err(e)
        case Ok(ps) => Ok([p] + ps)
  }

  lemma DecodeAllStep(s: seq<Byte>, p: seq<Byte>, rest: seq<Byte>, ps: seq<seq<Byte>>)
    requires Decode(s) == Ok((p, rest)) && DecodeAll(rest) == Ok(ps)
    ensures DecodeAll(s) == Ok([p] + ps)
  {
    assert s != [];
  }

  /** Any concatenation of frames decodes to the original list of payloads. */
  lemma {:induction false} StreamRoundTrip(ps: seq<seq<Byte>>)
    requires forall i :: 0 <= i < |ps| ==> |ps[i]| < LENGTH_LIMIT
    ensures DecodeAll(EncodeAll(ps)) == Ok(ps)
    decreases |ps|
  {
    if ps != [] {
      var rest := EncodeAll(ps[1..]);
      RoundTrip(ps[0], rest);
      StreamRoundTrip(ps[1..]);
      DecodeAllStep(Encode(ps[0]) + rest, ps[0], rest, ps[1..]);
      assert [ps[0]] + ps[1..] == ps;
    }
  }

  /** An answer other than end-of-stream does not depend on what follows. */
  lemma MoreBytesKeepAnswer(s: seq<Byte>, t: seq<Byte>)
    requires Decode(s) != Err(Eof)
    ensures Decode(s + t) == match Decode(s) case Ok((p, rest)) => Ok((p, rest + t)) case Err(e) => Err(e)
  {
    assert (s + t)[0] == s[0] && (s + t)[1] == s[1];
    if s[0] % 16 == 1 {
      var body := 2 + ExtWidth(s[1] % 128);
      assert (s + t)[2..body] == s[2..body] && (s + t)[body..] == s[body..] + t;
      DecodeHeader(s);
      DecodeHeader(s + t);
      MoreBytesKeepBody(s[body..], t, s[1] >= 128, Length(s[1] % 128, s[2..body]));
    }
  }

  lemma MoreBytesKeepBody(s: seq<Byte>, t: seq<Byte>, masked: bool, n: nat)
    requires DecodeBody(s, masked, n) != Err(Eof)
    ensures DecodeBody(s, masked, n).Ok?
    ensures var (p, rest) := DecodeBody(s, masked, n).value; DecodeBody(s + t, masked, n) == Ok((p, rest + t))
  {
    if masked {
      assert (s + t)[..4] == s[..4] && (s + t)[4..4 + n] == s[4..4 + n] && (s + t)[4 + n..] == s[4 + n..] + t;
    } else {
      assert (s + t)[..n] == s[..n] && (s + t)[n..] == s[n..] + t;
    }
  }

  /** A truncated frame is never taken for a shorter message: every proper prefix reads as end of stream. */
  lemma TruncationDetected(p: seq<Byte>, cut: nat)
    requires |p| < LENGTH_LIMIT && cut < |Encode(p)|
    ensures Decode(Encode(p)[..cut]) == Err(Eof)
  {
    var f := Encode(p);
    RoundTrip(p, []);
    assert f + [] == f && f[..cut] + f[cut..] == f;
    if Decode(f[..cut]) != Err(Eof) {
      MoreBytesKeepAnswer(f[..cut], f[cut..]);
    }
  }

  // ---------------------------------------------------------------- the loops

  method EncodeTextFrame(payload: seq<Byte>) returns (frame: seq<Byte>)
    requires |payload| < LENGTH_LIMIT
    ensures frame == Encode(payload)
  {
    frame := [0x81];
    if |payload| < 126 {
      frame := frame + [0x80 + |payload|];
    } else if |payload| <= 0xFFFF {
      frame := frame + [0x80 + 126] + BigEndian(|payload|, 2);
    } else {
      frame := frame + [0x80 + 127] + BigEndian(|payload|, 8);
    }
    frame := frame + KEY;
    ghost var head := frame;
    for i := 0 to |payload|
      invariant frame == head + Mask(payload, KEY)[..i]
    {
      frame := frame + [Xor(payload[i], KEY[i % 4])];
    }
  }

  /** Reads header, extended length, mask and payload in turn, then unmasks the payload in place. */
  method DecodeTextFrame(stream: seq<Byte>) returns (r: Result<(seq<Byte>, seq<Byte>), FrameError>)
    ensures r == Decode(stream)
  {
    if |stream| < 2 { return Err(Eof); }
    var opcode := stream[0] % 16;
    if opcode == 8 { return Err(ClosedByServer); }
    if opcode != 1 { return Err(UnsupportedOpcode(opcode)); }
    var masked := stream[1] >= 128;
    var length: nat := stream[1] % 128;
    var rest := stream[2..];
    var width := ExtWidth(length);
    if width > 0 {
      if |rest| < width { return Err(Eof); }
      assert stream[2..2 + width] == rest[..width] && stream[2 + width..] == rest[width..];
      length, rest := FromBytes(rest[..width]), rest[width..];
    }
    r := ReadPayload(rest, masked, length);
  }

  method Unmask(wire: seq<Byte>, mask: MaskKey) returns (payload: seq<Byte>)
    ensures payload == Mask(wire, mask)
  {
    payload := wire;
    for i := 0 to |wire|
      invariant |payload| == |wire|
      invariant forall k :: 0 <= k < i ==> payload[k] == Xor(wire[k], mask[k % 4])
      invariant forall k :: i <= k < |wire| ==> payload[k] == wire[k]
    {
      payload := payload[i := Xor(payload[i], mask[i % 4])];
    }
  }

  method ReadPayload(stream: seq<Byte>, masked: bool, length: nat) returns (r: Result<(seq<Byte>, seq<Byte>), FrameError>)
    ensures r == DecodeBody(stream, masked, length)
  {
    var rest := stream;
    var mask: MaskKey := [0, 0, 0, 0];
    if masked {
      if |rest| < 4 { return Err(Eof); }
      mask, rest := rest[..4], rest[4..];
    }
    if |rest| < length { return Err(Eof); }
    var payload := rest[..length];
    rest := rest[length..];
    if masked {
      assert stream[4..4 + length] == payload && stream[4 + length..] == rest;
      payload := Unmask(payload, mask);
    }
    r := Ok((payload, rest));
  }
}
