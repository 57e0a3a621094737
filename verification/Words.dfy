/** Machine words as the C sources use them: bytes, and the 32- and 64-bit unsigned counters whose
    arithmetic wraps around. */
module Words {
  type byte = bv8

  const TWO32: int := 0x1_0000_0000
  const TWO64: int := 0x1_0000_0000_0000_0000

  type uint32 = n: int | 0 <= n < 0x1_0000_0000

  /** Seconds since 1970 in a signed 64-bit number, none of them negative. */
  type Time = n: int | 0 <= n < 0x8000_0000_0000_0000

  /** Unsigned 32-bit addition, modulo 2^32. */
  function Add32(x: int, y: int): uint32 {
    (x + y) % TWO32
  }

  /** The four bytes of a word, most significant first. */
  function BigEndian32(w: uint32): seq<byte> {
    [(w / 0x100_0000) as byte, (w / 0x1_0000 % 0x100) as byte, (w / 0x100 % 0x100) as byte, (w % 0x100) as byte]
  }

  /** The four bytes of a word, least significant first: what a little-endian machine stores. */
  function LittleEndian32(w: uint32): seq<byte> {
    [(w % 0x100) as byte, (w / 0x100 % 0x100) as byte, (w / 0x1_0000 % 0x100) as byte, (w / 0x100_0000) as byte]
  }

  /** The bytes of a register, least significant first. */
  function LeastFirst(x: bv32): seq<byte> {
    [(x & 0xff) as byte, ((x >> 8) & 0xff) as byte, ((x >> 16) & 0xff) as byte, ((x >> 24) & 0xff) as byte]
  }

  /** The eight bytes of a 64-bit number, most significant first. */
  function BigEndian64(v: int): seq<byte>
    requires 0 <= v < TWO64
  {
    BigEndian32(v / TWO32) + BigEndian32(v % TWO32)
  }

  /** The eight bytes of a 64-bit number, least significant first. */
  function LittleEndian64(v: int): seq<byte>
    requires 0 <= v < TWO64
  {
    LittleEndian32(v % TWO32) + LittleEndian32(v / TWO32)
  }

  /** Two 32-bit counter words carry like one 64-bit counter. This is the carry rule of both digests:
      the low word wrapped exactly when the sum is smaller than what was added. */
  lemma CarryAdd(lo: uint32, hi: uint32, addLo: uint32, addHi: uint32)
    ensures var lo' := Add32(lo, addLo);
            var hi' := Add32(hi, addHi + (if lo' < addLo then 1 else 0));
            hi' * TWO32 + lo' == (hi * TWO32 + lo + addHi * TWO32 + addLo) % TWO64
  {
    var lo' := Add32(lo, addLo);
    var carry := if lo' < addLo then 1 else 0;
    assert lo + addLo == carry * TWO32 + lo';
    var sum := hi + addHi + carry;
    var wrapped := if sum < TWO32 then 0 else 1;
    assert sum % TWO32 == sum - wrapped * TWO32;
    var total := hi * TWO32 + lo + addHi * TWO32 + addLo;
    assert total == wrapped * TWO64 + (sum - wrapped * TWO32) * TWO32 + lo';
  }

  /** (hi << 3) | (lo >> 29). The two parts have no bit in common, so the sum is their union. */
  function ShiftHigh(lo: uint32, hi: uint32): uint32 {
    (hi * 8) % TWO32 + lo / 0x2000_0000
  }

  /** lo << 3. */
  function ShiftLow(lo: uint32): uint32 {
    (lo * 8) % TWO32
  }

  /** A byte count held in two words, shifted left by three across the word boundary, is the bit count
      modulo 2^64. */
  lemma BitLength(lo: uint32, hi: uint32, n: nat)
    requires hi * TWO32 + lo == n % TWO64
    ensures ShiftHigh(lo, hi) * TWO32 + ShiftLow(lo) == (8 * n) % TWO64
  {
    var q, r := lo / 0x2000_0000, lo % 0x2000_0000;
    assert lo * 8 == q * TWO32 + 8 * r;
    assert (lo * 8) % TWO32 == 8 * r;
    var p, s := (hi * 8) / TWO32, (hi * 8) % TWO32;
    assert hi * 8 == p * TWO32 + s && s % 8 == 0;
    var k := n / TWO64;
    assert 8 * n == 8 * k * TWO64 + p * TWO64 + (s + q) * TWO32 + 8 * r;
    assert (s + q) * TWO32 + 8 * r < TWO64;
    ModUnique(8 * n, 8 * k + p, (s + q) * TWO32 + 8 * r);
  }

  /** The length field both digests write, from their two counter words: the waiting bytes are added with
      carry, and the count is shifted from bytes to bits. */
  lemma LengthWords(lo: uint32, hi: uint32, waiting: uint32, n: nat)
    requires hi * TWO32 + lo == (n - waiting) % TWO64
    ensures var lo' := Add32(lo, waiting);
            var hi' := Add32(hi, if lo' < waiting then 1 else 0);
            BigEndian32(ShiftHigh(lo', hi')) + BigEndian32(ShiftLow(lo')) == BigEndian64((8 * n) % TWO64)
  {
    var lo' := Add32(lo, waiting);
    var hi' := Add32(hi, if lo' < waiting then 1 else 0);
    CarryAdd(lo, hi, waiting, 0);
    ModAdd(n - waiting, waiting);
    BitLength(lo', hi', n);
    var top, low := ShiftHigh(lo', hi'), ShiftLow(lo');
    assert (8 * n) % TWO64 == top * TWO32 + low;
    assert (top * TWO32 + low) / TWO32 == top && (top * TWO32 + low) % TWO32 == low;
  }

  lemma ModUnique(x: int, q: int, r: int)
    requires x == q * TWO64 + r && 0 <= r < TWO64
    ensures x % TWO64 == r
  {
  }

  /** Adding to a count that is only known modulo 2^64. */
  lemma ModAdd(x: int, y: int)
    ensures (x % TWO64 + y) % TWO64 == (x + y) % TWO64
  {
  }
}
