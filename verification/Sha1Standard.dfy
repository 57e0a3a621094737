/** SHA-1 as FIPS 180-4 states it: the round functions of section 4.1.1, the constants of section 4.2.1,
    the padding of section 5.1.1 and the computation of section 6.1.2. */
module Sha1Standard {
  import opened Words
  import opened Blocks

  datatype Regs = Regs(a: bv32, b: bv32, c: bv32, d: bv32, e: bv32)

  const IV := Regs(0x67452301, 0xefcdab89, 0x98badcfe, 0x10325476, 0xc3d2e1f0)

  function Rotl1(x: bv32): bv32 { (x << 1) | (x >> 31) }
  function Rotl5(x: bv32): bv32 { (x << 5) | (x >> 27) }
  function Rotl30(x: bv32): bv32 { (x << 30) | (x >> 2) }

  function Ch(x: bv32, y: bv32, z: bv32): bv32 { (x & y) ^ (!x & z) }
  function Parity(x: bv32, y: bv32, z: bv32): bv32 { x ^ y ^ z }
  function Maj(x: bv32, y: bv32, z: bv32): bv32 { (x & y) ^ (x & z) ^ (y & z) }

  function F(t: nat, x: bv32, y: bv32, z: bv32): bv32 {
    if t < 20 then Ch(x, y, z) else if t < 40 then Parity(x, y, z) else if t < 60 then Maj(x, y, z) else Parity(x, y, z)
  }

  function K(t: nat): bv32 {
    if t < 20 then 0x5a827999 else if t < 40 then 0x6ed9eba1 else if t < 60 then 0x8f1bbcdc else 0xca62c1d6
  }

  /** Four bytes read as a word, most significant first (section 3.1). */
  function WordOf(b0: byte, b1: byte, b2: byte, b3: byte): bv32 {
    (b0 as bv32 << 24) | (b1 as bv32 << 16) | (b2 as bv32 << 8) | (b3 as bv32)
  }

  /** The message schedule of eighty words (section 6.1.2, step 1). */
  function W(m: Block, t: nat): bv32 {
    if t < 16 then WordOf(m[4 * t], m[4 * t + 1], m[4 * t + 2], m[4 * t + 3])
    else Rotl1(W(m, t - 3) ^ W(m, t - 8) ^ W(m, t - 14) ^ W(m, t - 16))
  }

  function Sum5(p: bv32, f: bv32, e: bv32, k: bv32, w: bv32): bv32 { p + f + e + k + w }

  /** The value T of one turn, for given values of f and K (section 6.1.2, step 3). */
  function T(a: bv32, e: bv32, f: bv32, k: bv32, w: bv32): bv32 {
    Sum5(Rotl5(a), f, e, k, w)
  }

  /** One turn of the shifting loop (section 6.1.2, step 3). */
  function Shift(r: Regs, f: bv32, k: bv32, w: bv32): Regs {
    Regs(T(r.a, r.e, f, k, w), r.a, Rotl30(r.b), r.c, r.d)
  }

  function Round(r: Regs, t: nat, w: bv32): Regs {
    Shift(r, F(t, r.b, r.c, r.d), K(t), w)
  }

  function Rounds(r: Regs, m: Block, n: nat): Regs {
    if n == 0 then r else Round(Rounds(r, m, n - 1), n - 1, W(m, n - 1))
  }

  /** Addition of words, modulo 2^32 (section 3.2). */
  function Plus(x: bv32, y: bv32): bv32 { x + y }

  function Sum(r: Regs, s: Regs): Regs {
    Regs(Plus(r.a, s.a), Plus(r.b, s.b), Plus(r.c, s.c), Plus(r.d, s.d), Plus(r.e, s.e))
  }

  function Compress(h: Regs, m: Block): Regs {
    Sum(h, Rounds(h, m, 80))
  }

  function WordBytes(x: bv32): seq<byte> {
    [((x >> 24) & 0xff) as byte, ((x >> 16) & 0xff) as byte, ((x >> 8) & 0xff) as byte, (x & 0xff) as byte]
  }

  function Digest(r: Regs): (d: seq<byte>)
    ensures |d| == 20
  {
    WordBytes(r.a) + WordBytes(r.b) + WordBytes(r.c) + WordBytes(r.d) + WordBytes(r.e)
  }

  /** The padded message: the length field is the bit length, modulo 2^64. */
  function PaddedMessage(msg: seq<byte>): (r: seq<byte>)
    ensures |r| % 64 == 0
  {
    Padded(msg, BigEndian64((8 * |msg|) % TWO64))
  }

  function Hash(msg: seq<byte>): (d: seq<byte>)
    ensures |d| == 20
  {
    Digest(Fold(Compress, IV, PaddedMessage(msg)))
  }
}
