/** The order of bytes in words, length fields and digests, as plain arithmetic on the bytes. */
module ByteOrder {
  import opened Words
  import opened Blocks
  import Sha1Standard
  import Md5

  lemma NextByte(b: byte)
    requires b < 0xff
    ensures (b + 1) as int == b as int + 1
  {
  }

  lemma ByteBack(b: byte)
    ensures (b as int) as byte == b
  {
  }

  lemma Found(i: int, b: byte)
    requires 0 <= i < 0x100 && b as int == i
    ensures i as byte == b
  {
    ByteBack(b);
  }

  lemma SmallValue(b: byte)
    ensures b as int < 0xff ==> b < 0xff
  {
  }

  lemma {:induction false} ByteValue(i: int)
    requires 0 <= i < 0x100
    ensures (i as byte) as int == i
  {
    if i == 0 {
      Found(0, 0);
    } else {
      ByteValue(i - 1);
      var b := (i - 1) as byte;
      SmallValue(b);
      NextByte(b);
      Found(i, b + 1);
    }
  }

  lemma LittleEndianPlaces(w: uint32)
    ensures |LittleEndian32(w)| == 4
    ensures LittleEndian32(w)[0] as int == w % 0x100 && LittleEndian32(w)[1] as int == w / 0x100 % 0x100
    ensures LittleEndian32(w)[2] as int == w / 0x1_0000 % 0x100 && LittleEndian32(w)[3] as int == w / 0x100_0000 % 0x100
  {
    ByteValue(w % 0x100);
    ByteValue(w / 0x100 % 0x100);
    ByteValue(w / 0x1_0000 % 0x100);
    ByteValue(w / 0x100_0000);
  }

  lemma BigEndianPlaces(w: uint32)
    ensures |BigEndian32(w)| == 4
    ensures BigEndian32(w)[3] as int == w % 0x100 && BigEndian32(w)[2] as int == w / 0x100 % 0x100
    ensures BigEndian32(w)[1] as int == w / 0x1_0000 % 0x100 && BigEndian32(w)[0] as int == w / 0x100_0000 % 0x100
  {
    ByteValue(w % 0x100);
    ByteValue(w / 0x100 % 0x100);
    ByteValue(w / 0x1_0000 % 0x100);
    ByteValue(w / 0x100_0000);
  }

  lemma FourPlaces(w: int)
    requires 0 <= w < TWO32
    ensures w == w % 0x100 + w / 0x100 % 0x100 * 0x100 + w / 0x1_0000 % 0x100 * 0x1_0000 + w / 0x100_0000 * 0x100_0000
  {
  }

  /** The value of four digits to the base 256, lowest first. */
  function Value(b0: int, b1: int, b2: int, b3: int): int {
    b0 + b1 * 0x100 + b2 * 0x1_0000 + b3 * 0x100_0000
  }

  lemma Digits(w: uint32)
    ensures Value(w % 0x100, w / 0x100 % 0x100, w / 0x1_0000 % 0x100, w / 0x100_0000 % 0x100) == w
  {
    FourPlaces(w);
  }

  lemma LittleEndianValue(w: uint32)
    ensures var b := LittleEndian32(w); Value(b[0] as int, b[1] as int, b[2] as int, b[3] as int) == w
  {
    LittleEndianPlaces(w);
    Digits(w);
  }

  lemma BigEndianValue(w: uint32)
    ensures var b := BigEndian32(w); Value(b[3] as int, b[2] as int, b[1] as int, b[0] as int) == w
  {
    BigEndianPlaces(w);
    Digits(w);
  }

  /** What padding is, and that there is no more of it than needed. */
  ghost predicate IsPadded(p: seq<byte>, msg: seq<byte>) {
    && |p| % 64 == 0 && |msg| + 9 <= |p| < |msg| + 9 + 64
    && p[..|msg|] == msg && p[|msg|] == 0x80 && forall i :: |msg| < i < |p| - 8 ==> p[i] == 0
  }

  lemma PaddedIsPadded(msg: seq<byte>, length: seq<byte>)
    requires |length| == 8
    ensures var p := Padded(msg, length); IsPadded(p, msg) && p[|p| - 8..] == length
  {
  }

  /** The number in eight bytes, lowest first. */
  function LowestFirst(f: seq<byte>): int
    requires |f| == 8
  {
    Value(f[0] as int, f[1] as int, f[2] as int, f[3] as int)
    + Value(f[4] as int, f[5] as int, f[6] as int, f[7] as int) * TWO32
  }

  /** The number in eight bytes, highest first. */
  function HighestFirst(f: seq<byte>): int
    requires |f| == 8
  {
    Value(f[7] as int, f[6] as int, f[5] as int, f[4] as int)
    + Value(f[3] as int, f[2] as int, f[1] as int, f[0] as int) * TWO32
  }

  lemma LowestOfTwo(l: seq<byte>, h: seq<byte>)
    requires |l| == |h| == 4
    ensures LowestFirst(l + h) == Value(l[0] as int, l[1] as int, l[2] as int, l[3] as int)
                                  + Value(h[0] as int, h[1] as int, h[2] as int, h[3] as int) * TWO32
  {
  }

  lemma HighestOfTwo(h: seq<byte>, l: seq<byte>)
    requires |l| == |h| == 4
    ensures HighestFirst(h + l) == Value(l[3] as int, l[2] as int, l[1] as int, l[0] as int)
                                   + Value(h[3] as int, h[2] as int, h[1] as int, h[0] as int) * TWO32
  {
  }

  lemma LittleEndianField(v: int)
    requires 0 <= v < TWO64
    ensures |LittleEndian64(v)| == 8 && LowestFirst(LittleEndian64(v)) == v
  {
    LittleEndianValue(v % TWO32);
    LittleEndianValue(v / TWO32);
    LowestOfTwo(LittleEndian32(v % TWO32), LittleEndian32(v / TWO32));
  }

  lemma BigEndianField(v: int)
    requires 0 <= v < TWO64
    ensures |BigEndian64(v)| == 8 && HighestFirst(BigEndian64(v)) == v
  {
    BigEndianValue(v % TWO32);
    BigEndianValue(v / TWO32);
    HighestOfTwo(BigEndian32(v / TWO32), BigEndian32(v % TWO32));
  }

  /** MD5 processes the message, its padding, and the number of its bits in eight bytes, lowest first. */
  lemma Md5Message(msg: seq<byte>)
    ensures var p := Md5.PaddedMessage(msg);
            IsPadded(p, msg) && LowestFirst(p[|p| - 8..]) == (8 * |msg|) % 0x1_0000_0000_0000_0000
  {
    var v := (8 * |msg|) % TWO64;
    LittleEndianField(v);
    PaddedIsPadded(msg, LittleEndian64(v));
  }

  /** SHA-1 does the same with the number of bits highest first. */
  lemma Sha1Message(msg: seq<byte>)
    ensures var p := Sha1Standard.PaddedMessage(msg);
            IsPadded(p, msg) && HighestFirst(p[|p| - 8..]) == (8 * |msg|) % 0x1_0000_0000_0000_0000
  {
    var v := (8 * |msg|) % TWO64;
    BigEndianField(v);
    PaddedIsPadded(msg, BigEndian64(v));
  }

  /** The four bytes of a register, lowest first: byte i is what a shift by 8i leaves in the lowest eight bits, and
      together they are the register. */
  lemma LeastFirstPlaces(x: bv32)
    ensures var b := LeastFirst(x);
            && |b| == 4
            && b[0] as bv32 == x & 0xff && b[1] as bv32 == (x >> 8) & 0xff
            && b[2] as bv32 == (x >> 16) & 0xff && b[3] as bv32 == x >> 24
            && (b[3] as bv32 << 24) | (b[2] as bv32 << 16) | (b[1] as bv32 << 8) | (b[0] as bv32) == x
  {
  }

  /** The MD5 digest: sixteen bytes, four for each register in turn, the lowest byte of each first. */
  lemma Md5DigestPlaces(r: Md5.Regs)
    ensures var d := Md5.Digest(r);
            && |d| == 16
            && d[0] as bv32 == r.a & 0xff && d[1] as bv32 == (r.a >> 8) & 0xff
            && d[2] as bv32 == (r.a >> 16) & 0xff && d[3] as bv32 == r.a >> 24
            && d[4] as bv32 == r.b & 0xff && d[5] as bv32 == (r.b >> 8) & 0xff
            && d[6] as bv32 == (r.b >> 16) & 0xff && d[7] as bv32 == r.b >> 24
            && d[8] as bv32 == r.c & 0xff && d[9] as bv32 == (r.c >> 8) & 0xff
            && d[10] as bv32 == (r.c >> 16) & 0xff && d[11] as bv32 == r.c >> 24
            && d[12] as bv32 == r.d & 0xff && d[13] as bv32 == (r.d >> 8) & 0xff
            && d[14] as bv32 == (r.d >> 16) & 0xff && d[15] as bv32 == r.d >> 24
  {
    LeastFirstPlaces(r.a);
    LeastFirstPlaces(r.b);
    LeastFirstPlaces(r.c);
    LeastFirstPlaces(r.d);
    var a, b, c, d := LeastFirst(r.a), LeastFirst(r.b), LeastFirst(r.c), LeastFirst(r.d);
    var all := Md5.Digest(r);
    assert all[..4] == a && all[4..8] == b && all[8..12] == c && all[12..] == d;
  }

  /** The initial registers of MD5, as section 3.3 of RFC 1321 lists their bytes. */
  lemma Md5Start()
    ensures Md5.Digest(Md5.IV) == [0x01, 0x23, 0x45, 0x67, 0x89, 0xab, 0xcd, 0xef,
                                   0xfe, 0xdc, 0xba, 0x98, 0x76, 0x54, 0x32, 0x10]
  {
  }
}
