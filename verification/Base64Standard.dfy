/** Base 64 as section 3 of RFC 3548 defines it: groups of 24 bits, read as four digits of six bits. */
module Base64Standard {
  import opened Words

  /** The alphabet of table 1, by value. */
  function Symbol(v: byte): (c: char)
    requires v < 64
    ensures c != '='
  {
    var i := v as int;
    if i < 26 then ('A' as int + i) as char
    else if i < 52 then ('a' as int + (i - 26)) as char
    else if i < 62 then ('0' as int + (i - 52)) as char
    else if i == 62 then '+' else '/'
  }

  /** The value of a symbol, or -1 for a character outside the alphabet. */
  function Value(c: char): (v: int)
    ensures -1 <= v < 64
  {
    if 'A' <= c <= 'Z' then c as int - 'A' as int
    else if 'a' <= c <= 'z' then c as int - 'a' as int + 26
    else if '0' <= c <= '9' then c as int - '0' as int + 52
    else if c == '+' then 62
    else if c == '/' then 63
    else -1
  }

  predicate InAlphabet(c: char) {
    0 <= Value(c)
  }

  function Bits(c: char): (v: byte)
    requires InAlphabet(c)
    ensures v < 64
  {
    SmallByte(Value(c));
    Value(c) as byte
  }

  lemma SmallByte(i: int)
    requires 0 <= i < 64
    ensures i as byte < 64 && (i as byte) as int == i
  {
    assert i in {0, 1, 2, 3, 4, 5, 6, 7, 8, 9, 10, 11, 12, 13, 14, 15, 16, 17, 18, 19, 20, 21, 22, 23, 24, 25, 26,
              27, 28, 29, 30, 31, 32, 33, 34, 35, 36, 37, 38, 39, 40, 41, 42, 43, 44, 45, 46, 47, 48, 49, 50, 51,
              52, 53, 54, 55, 56, 57, 58, 59, 60, 61, 62, 63};
  }

  lemma SmallInt(v: byte)
    requires v < 64
    ensures v as int < 64 && (v as int) as byte == v
  {
  }

  lemma BitsOfSymbol(v: byte)
    requires v < 64
    ensures InAlphabet(Symbol(v)) && Bits(Symbol(v)) == v
  {
    SmallInt(v);
    assert Value(Symbol(v)) == v as int;
  }

  lemma SymbolOfBits(c: char)
    requires InAlphabet(c)
    ensures Symbol(Bits(c)) == c
  {
    SmallByte(Value(c));
  }

  /** Three bytes as one 24-bit group. */
  function Group(b0: byte, b1: byte, b2: byte): bv24 {
    (b0 as bv24 << 16) | (b1 as bv24 << 8) | (b2 as bv24)
  }

  function Digit0(g: bv24): (v: byte) ensures v < 64 { ((g >> 18) & 0x3f) as byte }
  function Digit1(g: bv24): (v: byte) ensures v < 64 { ((g >> 12) & 0x3f) as byte }
  function Digit2(g: bv24): (v: byte) ensures v < 64 { ((g >> 6) & 0x3f) as byte }
  function Digit3(g: bv24): (v: byte) ensures v < 64 { (g & 0x3f) as byte }

  /** The four characters for the first group; a short last group is filled up with zero bits, and its
      missing characters are pads. */
  function Quad(x: seq<byte>): (q: string)
    requires |x| > 0
    ensures |q| == 4
  {
    var g := Group(x[0], if |x| > 1 then x[1] else 0, if |x| > 2 then x[2] else 0);
    [Symbol(Digit0(g)), Symbol(Digit1(g)),
     if |x| > 1 then Symbol(Digit2(g)) else '=', if |x| > 2 then Symbol(Digit3(g)) else '=']
  }

  function Encoding(x: seq<byte>): (s: string)
    ensures |s| == (|x| + 2) / 3 * 4
    decreases |x|
  {
    if x == [] then "" else Quad(x) + Encoding(if |x| > 3 then x[3..] else [])
  }

  /** How many pads end a text: none, one or two. */
  function Pads(s: string): (p: nat)
    ensures p <= 2
  {
    if |s| >= 4 && s[|s| - 1] == '=' then if s[|s| - 2] == '=' then 2 else 1 else 0
  }

  /** A text in base 64: whole groups of four alphabet characters, with one or two pads at the very end at most. */
  predicate WellFormed(s: string) {
    |s| % 4 == 0 && forall i :: 0 <= i < |s| - Pads(s) ==> InAlphabet(s[i])
  }

  /** The bits of the last character that no byte uses are zero. */
  predicate UnusedBitsZero(s: string)
    requires WellFormed(s)
  {
    if Pads(s) == 2 then Bits(s[|s| - 3]) & 0x0f == 0
    else if Pads(s) == 1 then Bits(s[|s| - 2]) & 0x03 == 0
    else true
  }
}
