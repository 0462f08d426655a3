/** What the encoder puts on the wire, byte by byte and bit by bit, as sections 5.2 and 5.3 of RFC 6455 lay it out, and
    when the decoder refuses a stream. */
module FrameLayout {
  import opened Common
  import opened FrameCodec

  // ---------------------------------------------------------------- quotients

  lemma DivUnique(n: nat, d: nat, q: nat, r: nat)
    requires r < d && n == d * q + r
    ensures n / d == q
  {
    var p := n / d;
    assert n == d * p + n % d;
    if p < q {
      MulStep(d, p, q);
    } else if q < p {
      MulStep(d, q, p);
    }
  }

  lemma MulStep(d: nat, p: nat, q: nat)
    requires p < q
    ensures d * p + d <= d * q
  {
    assert d * q == d * p + d * (q - p);
    MulAtLeast(d, q - p);
  }

  lemma MulAtLeast(d: nat, k: nat)
    requires k >= 1
    ensures d <= d * k
  {
  }

  lemma DivDiv(n: nat, a: nat, b: nat)
    requires a > 0 && b > 0
    ensures a * b > 0 && (n / a) / b == n / (a * b)
  {
    var q, r := Split(n, a);
    var s, u := Split(q, b);
    DivUnique(n, a, q, r);
    DivUnique(q, b, s, u);
    Spread(a, b, s, u, r);
    Fits(a, b, u, r);
    DivUnique(n, a * b, s, a * u + r);
  }

  lemma Split(n: nat, d: nat) returns (q: nat, r: nat)
    requires d > 0
    ensures r < d && n == d * q + r
  {
    q, r := n / d, n % d;
  }

  lemma Spread(a: nat, b: nat, s: nat, u: nat, r: nat)
    ensures a * (b * s + u) + r == (a * b) * s + (a * u + r)
  {
  }

  lemma Fits(a: nat, b: nat, u: nat, r: nat)
    requires u < b && r < a
    ensures a * u + r < a * b
  {
    MulStep(a, u, b);
  }

  // ---------------------------------------------------------------- bits

  /** Bit `j` of a number, counted from the lowest. */
  function Bit(x: nat, j: nat): nat {
    Pow2Positive(j);
    (x / Pow2(j)) % 2
  }

  lemma {:induction false} Pow2Positive(j: nat)
    ensures Pow2(j) > 0
  {
    if j > 0 {
      Pow2Positive(j - 1);
    }
  }

  lemma BitOfHalf(x: nat, j: nat)
    requires j > 0
    ensures Bit(x, j) == Bit(x / 2, j - 1)
  {
    Pow2Positive(j - 1);
    DivDiv(x, 2, Pow2(j - 1));
  }

  lemma {:induction false} XorBit(a: nat, b: nat, n: nat, j: nat)
    requires j < n
    ensures Bit(XorBits(a, b, n), j) == 1 <==> Bit(a, j) != Bit(b, j)
  {
    var x := XorBits(a, b, n);
    HalvesOf(a, b, n);
    if j > 0 {
      XorBit(a / 2, b / 2, n - 1, j - 1);
      BitOfHalf(x, j);
      BitOfHalf(a, j);
      BitOfHalf(b, j);
    } else {
      assert Pow2(0) == 1;
    }
  }

  lemma HalvesOf(a: nat, b: nat, n: nat)
    requires n > 0
    ensures XorBits(a, b, n) / 2 == XorBits(a / 2, b / 2, n - 1) && (XorBits(a, b, n) % 2 == 1 <==> a % 2 != b % 2)
  {
    HalfOf(XorBits(a / 2, b / 2, n - 1), if a % 2 == b % 2 then 0 else 1);
  }

  /** Masking is section 5.3: bit `j` of byte `i` is set exactly when that bit differs between the payload byte and the
      key byte at `i` modulo four. */
  lemma MaskBits(p: seq<Byte>, key: MaskKey, i: nat, j: nat)
    requires i < |p| && j < 8
    ensures Bit(Mask(p, key)[i], j) == 1 <==> Bit(p[i], j) != Bit(key[i % 4], j)
  {
    XorBit(p[i], key[i % 4], 8, j);
  }

  // ---------------------------------------------------------------- the encoder's bytes

  lemma {:induction false} Pow256Positive(k: nat)
    ensures Pow256(k) > 0
  {
    if k > 0 {
      Pow256Positive(k - 1);
    }
  }

  /** Network byte order: the first byte is the most significant. */
  lemma {:induction false} BigEndianDigits(n: nat, width: nat, i: nat)
    requires i < width
    ensures Pow256(width - 1 - i) > 0 && BigEndian(n, width)[i] == (n / Pow256(width - 1 - i)) % 256
  {
    Pow256Positive(width - 1 - i);
    if i < width - 1 {
      BigEndianDigits(n / 256, width - 1, i);
      Pow256Positive(width - 2 - i);
      DivDiv(n, 256, Pow256(width - 2 - i));
    } else {
      assert Pow256(0) == 1;
    }
  }

  /** How many extended length bytes a payload of this length needs. */
  function Extended(n: nat): nat { if n < 126 then 0 else if n < 0x1_0000 then 2 else 8 }

  /** The frame of a payload: a final text frame, the mask bit with the shortest length form, the length, the key
      12 34 56 78 and as many bytes as the payload has. */
  lemma EncodedHeader(p: seq<Byte>)
    requires |p| < LENGTH_LIMIT
    ensures var f, w, n := Encode(p), Extended(|p|), |p|;
            && |f| == 6 + w + n && f[0] == 0x81 && f[1] == 0x80 + (if w == 0 then n else if w == 2 then 126 else 127)
            && f[2 + w..6 + w] == [0x12, 0x34, 0x56, 0x78]
  {
    EncodedParts(p);
  }

  /** The length stands in network byte order. */
  lemma EncodedLength(p: seq<Byte>, i: nat)
    requires |p| < LENGTH_LIMIT && i < Extended(|p|)
    ensures var k := Extended(|p|) - 1 - i;
            Pow256(k) > 0 && 2 + i < |Encode(p)| && Encode(p)[2 + i] == (|p| / Pow256(k)) % 256
  {
    var w := Extended(|p|);
    EncodedParts(p);
    BigEndianDigits(|p|, w, i);
    assert Encode(p)[2 + i] == Encode(p)[2..2 + w][i];
  }

  /** And each bit of the payload is on the wire exactly as masking with 12 34 56 78 makes it. */
  lemma EncodedPayload(p: seq<Byte>, i: nat, j: nat)
    requires |p| < LENGTH_LIMIT && i < |p| && j < 8
    ensures var at := 6 + Extended(|p|) + i;
            at < |Encode(p)| && (Bit(Encode(p)[at], j) == 1 <==> Bit(p[i], j) != Bit([0x12, 0x34, 0x56, 0x78][i % 4], j))
  {
    var w := Extended(|p|);
    EncodedParts(p);
    MaskBits(p, KEY, i, j);
    assert Encode(p)[6 + w + i] == Encode(p)[6 + w..][i];
  }

  lemma EncodedParts(p: seq<Byte>)
    requires |p| < LENGTH_LIMIT
    ensures var f, w, n := Encode(p), Extended(|p|), |p|;
            && |f| == 6 + w + n && f[0] == 0x81 && f[1] == 0x80 + (if w == 0 then n else if w == 2 then 126 else 127)
            && (w > 0 ==> f[2..2 + w] == BigEndian(n, w)) && f[2 + w..6 + w] == KEY && f[6 + w..] == Mask(p, KEY)
  {
  }

  // ---------------------------------------------------------------- the decoder's refusals

  /** How many bytes the frame at the front of the stream takes, by its own header; none of a header that is cut off. */
  function NeedsBytes(s: seq<Byte>): nat {
    if |s| < 2 then 2
    else
      var code := s[1] % 128;
      if |s| < 2 + ExtWidth(code) then 2 + ExtWidth(code)
      else 2 + ExtWidth(code) + (if s[1] >= 128 then 4 else 0) + Length(code, s[2..2 + ExtWidth(code)])
  }

  /** The decoder refuses a stream in three ways and no other: a close frame, a frame that is no text frame, named by its
      opcode, and a stream that ends before the frame does. */
  lemma DecodeRefusals(s: seq<Byte>)
    ensures Decode(s) == Err(ClosedByServer) <==> |s| >= 2 && s[0] % 16 == 8
    ensures forall op :: Decode(s) == Err(UnsupportedOpcode(op)) <==> |s| >= 2 && s[0] % 16 == op && op != 8 && op != 1
    ensures Decode(s) == Err(Eof) <==> |s| < 2 || (s[0] % 16 == 1 && |s| < NeedsBytes(s))
    ensures Decode(s).Ok? <==> |s| >= 2 && s[0] % 16 == 1 && |s| >= NeedsBytes(s)
    ensures Decode(s).Ok? ==> |Decode(s).value.1| == |s| - NeedsBytes(s)
  {
  }
}
