/** FIPS 180-2: the functions of section 4.1.2, the constants of section 4.2.2, the padding of section
    5.1.1 and the hash computation of section 6.2, for messages of whole bytes. */
module Fips180 {

  type byte = x: int | 0 <= x < 256

  /** A word, apart from the solver's bit-vectors: only the functions here and the macros of the code
      look at its bits. */
  datatype Word32 = W(bits: bv32)

  function Add(x: Word32, y: Word32): Word32 {
    W(x.bits + y.bits)
  }

  function Xor3(x: Word32, y: Word32, z: Word32): Word32 {
    W(x.bits ^ y.bits ^ z.bits)
  }

  function RotR(x: Word32, n: nat): Word32
    requires n < 32
  {
    W(x.bits.RotateRight(n))
  }

  function ShR(x: Word32, n: bv6): Word32
    requires n < 32
  {
    W(x.bits >> n)
  }

  function ChBits(x: bv32, y: bv32, z: bv32): bv32 {
    (x & y) ^ (!x & z)
  }

  function MajBits(x: bv32, y: bv32, z: bv32): bv32 {
    (x & y) ^ (x & z) ^ (y & z)
  }

  function Ch(x: Word32, y: Word32, z: Word32): Word32 {
    W(ChBits(x.bits, y.bits, z.bits))
  }

  function Maj(x: Word32, y: Word32, z: Word32): Word32 {
    W(MajBits(x.bits, y.bits, z.bits))
  }

  function BigSigma0(x: Word32): Word32 {
    Xor3(RotR(x, 2), RotR(x, 13), RotR(x, 22))
  }

  function BigSigma1(x: Word32): Word32 {
    Xor3(RotR(x, 6), RotR(x, 11), RotR(x, 25))
  }

  function SmallSigma0(x: Word32): Word32 {
    Xor3(RotR(x, 7), RotR(x, 18), ShR(x, 3))
  }

  function SmallSigma1(x: Word32): Word32 {
    Xor3(RotR(x, 17), RotR(x, 19), ShR(x, 10))
  }

  /** Section 4.2.2, by rows. */
  function KRow(r: nat): (k: seq<bv32>)
    requires r < 8
    ensures |k| == 8
  {
    match r
    case 0 => [0x428A2F98, 0x71374491, 0xB5C0FBCF, 0xE9B5DBA5, 0x3956C25B, 0x59F111F1, 0x923F82A4, 0xAB1C5ED5]
    case 1 => [0xD807AA98, 0x12835B01, 0x243185BE, 0x550C7DC3, 0x72BE5D74, 0x80DEB1FE, 0x9BDC06A7, 0xC19BF174]
    case 2 => [0xE49B69C1, 0xEFBE4786, 0x0FC19DC6, 0x240CA1CC, 0x2DE92C6F, 0x4A7484AA, 0x5CB0A9DC, 0x76F988DA]
    case 3 => [0x983E5152, 0xA831C66D, 0xB00327C8, 0xBF597FC7, 0xC6E00BF3, 0xD5A79147, 0x06CA6351, 0x14292967]
    case 4 => [0x27B70A85, 0x2E1B2138, 0x4D2C6DFC, 0x53380D13, 0x650A7354, 0x766A0ABB, 0x81C2C92E, 0x92722C85]
    case 5 => [0xA2BFE8A1, 0xA81A664B, 0xC24B8B70, 0xC76C51A3, 0xD192E819, 0xD6990624, 0xF40E3585, 0x106AA070]
    case 6 => [0x19A4C116, 0x1E376C08, 0x2748774C, 0x34B0BCB5, 0x391C0CB3, 0x4ED8AA4A, 0x5B9CCA4F, 0x682E6FF3]
    case _ => [0x748F82EE, 0x78A5636F, 0x84C87814, 0x8CC70208, 0x90BEFFFA, 0xA4506CEB, 0xBEF9A3F7, 0xC67178F2]
  }

  const K: seq<bv32> := KRow(0) + KRow(1) + KRow(2) + KRow(3) + KRow(4) + KRow(5) + KRow(6) + KRow(7)

  /** The eight working variables. */
  datatype Regs = Regs(a: Word32, b: Word32, c: Word32, d: Word32, e: Word32, f: Word32, g: Word32, h: Word32)

  /** Step 1 of section 6.2.2: the message schedule of a block of sixteen words. */
  function Schedule(block: seq<Word32>, t: nat): Word32
    requires |block| == 16
  {
    if t < 16 then block[t] else
      Add(Add(Add(SmallSigma1(Schedule(block, t - 2)), Schedule(block, t - 7)), SmallSigma0(Schedule(block, t - 15))),
          Schedule(block, t - 16))
  }

  /** One turn of step 3. */
  function Round(r: Regs, k: Word32, w: Word32): Regs {
    var t1 := Add(Add(Add(Add(r.h, BigSigma1(r.e)), Ch(r.e, r.f, r.g)), k), w);
    var t2 := Add(BigSigma0(r.a), Maj(r.a, r.b, r.c));
    Regs(Add(t1, t2), r.a, r.b, r.c, Add(r.d, t1), r.e, r.f, r.g)
  }

  function Rounds(block: seq<Word32>, r: Regs, t: nat): Regs
    requires |block| == 16 && t <= 64
  {
    if t == 0 then r else Round(Rounds(block, r, t - 1), W(K[t - 1]), Schedule(block, t - 1))
  }

  function FromHash(h: seq<Word32>): Regs
    requires |h| == 8
  {
    Regs(h[0], h[1], h[2], h[3], h[4], h[5], h[6], h[7])
  }

  /** Section 6.2.2: the intermediate hash after one more block. */
  function Compress(h: seq<Word32>, block: seq<Word32>): (h': seq<Word32>)
    requires |h| == 8 && |block| == 16
    ensures |h'| == 8
  {
    var r := Rounds(block, FromHash(h), 64);
    [Add(h[0], r.a), Add(h[1], r.b), Add(h[2], r.c), Add(h[3], r.d),
     Add(h[4], r.e), Add(h[5], r.f), Add(h[6], r.g), Add(h[7], r.h)]
  }

  /** A word from four bytes, high byte first. */
  function WordOf(b0: byte, b1: byte, b2: byte, b3: byte): Word32 {
    W((b0 as bv32 << 24) | (b1 as bv32 << 16) | (b2 as bv32 << 8) | (b3 as bv32))
  }

  function BlockOf(bytes: seq<byte>): (w: seq<Word32>)
    requires |bytes| == 64
    ensures |w| == 16
  {
    seq(16, t requires 0 <= t < 16 => WordOf(bytes[4 * t], bytes[4 * t + 1], bytes[4 * t + 2], bytes[4 * t + 3]))
  }

  /** The hash after all whole blocks. */
  function Fold(h: seq<Word32>, bytes: seq<byte>): (h': seq<Word32>)
    requires |h| == 8
    ensures |h'| == 8
    decreases |bytes|
  {
    if |bytes| < 64 then h else Fold(Compress(h, BlockOf(bytes[..64])), bytes[64..])
  }

  /** The number of zero bytes of the padding: the least that makes the length, with the byte 0x80 and
      the zeros, 56 modulo 64. */
  predicate IsZeroCount(n: nat, k: nat) {
    Fills(n, k) && forall j: nat :: j < k ==> !Fills(n, j)
  }

  predicate Fills(n: nat, zeros: nat) {
    (n + 1 + zeros) % 64 == 56
  }

  /** Section 5.1.1's k, for a message of n bytes. */
  function ZeroCount(n: nat): nat {
    if n % 64 < 56 then 55 - n % 64 else 119 - n % 64
  }

  lemma ZeroCountIs(n: nat)
    ensures IsZeroCount(n, ZeroCount(n))
  {
    var q := n / 64;
    assert n == 64 * q + n % 64;
    forall j: nat | j < ZeroCount(n)
      ensures !Fills(n, j)
    {
    }
  }

  /** A 64-bit number as eight bytes, high byte first. */
  function Bytes64(x: nat): (s: seq<byte>)
    ensures |s| == 8
  {
    [x / 0x100_0000_0000_0000 % 256, x / 0x1_0000_0000_0000 % 256, x / 0x100_0000_0000 % 256, x / 0x1_0000_0000 % 256,
     x / 0x100_0000 % 256, x / 0x1_0000 % 256, x / 0x100 % 256, x % 256]
  }

  function Zeros(n: nat): seq<byte> {
    seq(n, i => 0)
  }

  /** Section 5.1.1: the padded message. The standard has messages below 2^64 bits; here the length field
      is the length in bits modulo 2^64 of any message. */
  function Pad(m: seq<byte>): seq<byte> {
    m + [0x80] + Zeros(ZeroCount(|m|)) + Bytes64(8 * |m| % 0x1_0000_0000_0000_0000)
  }

  /** (unsigned char) x */
  function ByteOf(x: bv32): byte {
    (x & 0xFF) as int
  }

  /** The bytes of a word, high byte first. */
  function BytesOf(w: Word32): (s: seq<byte>)
    ensures |s| == 4
  {
    [ByteOf(w.bits >> 24), ByteOf(w.bits >> 16), ByteOf(w.bits >> 8), ByteOf(w.bits)]
  }

  /** Sections 5.3.2 and, for SHA-224, its change notice. */
  function InitialHash(is224: bool): (h: seq<Word32>)
    ensures |h| == 8
  {
    if is224 then
      [W(0xC1059ED8), W(0x367CD507), W(0x3070DD17), W(0xF70E5939), W(0xFFC00B31), W(0x68581511), W(0x64F98FA7),
       W(0xBEFA4FA4)]
    else
      [W(0x6A09E667), W(0xBB67AE85), W(0x3C6EF372), W(0xA54FF53A), W(0x510E527F), W(0x9B05688C), W(0x1F83D9AB),
       W(0x5BE0CD19)]
  }

  function DigestOf(h: seq<Word32>, n: nat): seq<byte>
    requires n <= |h|
  {
    if n == 0 then [] else DigestOf(h, n - 1) + BytesOf(h[n - 1])
  }

  /** The message digest: all eight words, or the first seven for SHA-224. */
  function Digest(m: seq<byte>, is224: bool): seq<byte> {
    DigestOf(Fold(InitialHash(is224), Pad(m)), if is224 then 7 else 8)
  }

  // ----- facts

  /** The padded message is whole blocks, and only the length field is what the standard gives it when
      the message is below 2^61 bytes. */
  lemma PadLength(m: seq<byte>)
    ensures |Pad(m)| % 64 == 0
    ensures |m| < 0x2000_0000_0000_0000 ==> 8 * |m| % 0x1_0000_0000_0000_0000 == 8 * |m|
  {
    hide Bytes64;
    ZeroCountIs(|m|);
    WholeBlocks(|m|, ZeroCount(|m|));
  }

  lemma WholeBlocks(n: nat, k: nat)
    requires Fills(n, k)
    ensures (n + 1 + k + 8) % 64 == 0
  {
  }

  lemma {:induction false} FoldAppend(h: seq<Word32>, x: seq<byte>, y: seq<byte>)
    requires |h| == 8 && |x| % 64 == 0
    ensures Fold(h, x + y) == Fold(Fold(h, x), y)
    decreases |x|
  {
    hide Compress, BlockOf;
    if x == [] {
      assert x + y == y;
    } else {
      assert (x + y)[..64] == x[..64] && (x + y)[64..] == x[64..] + y;
      FoldAppend(Compress(h, BlockOf(x[..64])), x[64..], y);
    }
  }
}
