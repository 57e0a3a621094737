/** What rotating a word does to its value: the bits that leave at the top come back at the bottom. */
module Rotations {
  import opened Words
  import opened Sha1Standard

  lemma ShiftedPlain(x: bv32)
    requires x < 0x8000_0000
    ensures x as int < 0x8000_0000 && (x << 1) as int == 2 * x as int && x >> 31 == 0
  {
  }

  lemma WithoutTop(x: bv32)
    requires x >= 0x8000_0000
    ensures (x & 0x7fff_ffff) as int == x as int - 0x8000_0000 && x & 0x7fff_ffff < 0x8000_0000
  {
  }

  lemma ShiftedPlusOne(z: bv32)
    requires z < 0x8000_0000
    ensures ((z << 1) | 1) as int == 2 * z as int + 1
  {
  }

  lemma TopComesBack(x: bv32)
    requires x >= 0x8000_0000
    ensures Rotl1(x) == ((x & 0x7fff_ffff) << 1) | 1
  {
  }

  lemma TopIsZero(x: bv32)
    requires x < 0x8000_0000
    ensures Rotl1(x) == x << 1
  {
  }

  function Turned(v: int): int {
    v * 2 % TWO32 + v / 0x8000_0000
  }

  /** A number of thirty-two bits with its top bit taken apart. */
  lemma Top(v: int, t: int, w: int)
    requires 0 <= t <= 1 && 0 <= w < 0x8000_0000 && v == t * 0x8000_0000 + w
    ensures Turned(v) == 2 * w + t
  {
  }

  lemma Parts(x: bv32) returns (t: int, w: int)
    ensures 0 <= t <= 1 && 0 <= w < 0x8000_0000 && x as int == t * 0x8000_0000 + w
    ensures Rotl1(x) as int == 2 * w + t
  {
    if x < 0x8000_0000 {
      TopIsZero(x);
      ShiftedPlain(x);
      t, w := 0, x as int;
    } else {
      TopComesBack(x);
      WithoutTop(x);
      ShiftedPlusOne(x & 0x7fff_ffff);
      t, w := 1, x as int - 0x8000_0000;
    }
  }

  /** Rotation by one place, as arithmetic. */
  lemma ByOne(x: bv32)
    ensures Rotl1(x) as int == x as int * 2 % TWO32 + x as int / 0x8000_0000
  {
    var t, w := Parts(x);
    Top(x as int, t, w);
  }

  lemma FiveTimes(x: bv32)
    ensures Rotl5(x) == Rotl1(Rotl1(Rotl1(Rotl1(Rotl1(x)))))
  {
  }

  lemma ThirtyAndTwo(x: bv32)
    ensures Rotl1(Rotl1(Rotl30(x))) == x
  {
  }

  /** Rotation by five places. */
  lemma ByFive(x: bv32)
    ensures Rotl5(x) as int == x as int * 32 % TWO32 + x as int / 0x800_0000
  {
    var x1 := Rotl1(x);
    var x2 := Rotl1(x1);
    var x3 := Rotl1(x2);
    var x4 := Rotl1(x3);
    FiveTimes(x);
    ByOne(x);
    ByOne(x1);
    ByOne(x2);
    ByOne(x3);
    ByOne(x4);
    FiveSteps(x as int, x1 as int, x2 as int, x3 as int, x4 as int, Rotl5(x) as int);
  }

  lemma FiveSteps(v: int, v1: int, v2: int, v3: int, v4: int, v5: int)
    requires 0 <= v < TWO32
    requires v1 == Turned(v) && v2 == Turned(v1) && v3 == Turned(v2) && v4 == Turned(v3) && v5 == Turned(v4)
    ensures v5 == v * 32 % TWO32 + v / 0x800_0000
  {
    var a, b, c, d, e, r := TopFive(v);
    TwoTops(v, v1, v2, a, b, c * 0x2000_0000 + d * 0x1000_0000 + e * 0x800_0000 + r);
    TwoTops(v2, v3, v4, c, d, e * 0x2000_0000 + 4 * r + 2 * a + b);
    Top(v4, e, 16 * r + 8 * a + 4 * b + 2 * c + d);
    FiveBits(v, 16 * a + 8 * b + 4 * c + 2 * d + e, r);
  }

  lemma TopFive(v: int) returns (a: int, b: int, c: int, d: int, e: int, r: int)
    requires 0 <= v < TWO32
    ensures 0 <= a <= 1 && 0 <= b <= 1 && 0 <= c <= 1 && 0 <= d <= 1 && 0 <= e <= 1 && 0 <= r < 0x800_0000
    ensures v == a * 0x8000_0000 + b * 0x4000_0000 + c * 0x2000_0000 + d * 0x1000_0000 + e * 0x800_0000 + r
  {
    r := v;
    a, r := TopOne(r, 0x8000_0000);
    b, r := TopOne(r, 0x4000_0000);
    c, r := TopOne(r, 0x2000_0000);
    d, r := TopOne(r, 0x1000_0000);
    e, r := TopOne(r, 0x800_0000);
  }

  lemma TopOne(v: int, half: int) returns (bit: int, rest: int)
    requires 0 <= v < 2 * half
    ensures 0 <= bit <= 1 && 0 <= rest < half && v == (if bit == 1 then half else 0) + rest
  {
    bit, rest := if v >= half then 1 else 0, if v >= half then v - half else v;
  }

  /** Two turns, with the two top bits taken apart. */
  lemma TwoTops(v: int, v1: int, v2: int, a: int, b: int, w: int)
    requires 0 <= a <= 1 && 0 <= b <= 1 && 0 <= w < 0x4000_0000 && v == a * 0x8000_0000 + b * 0x4000_0000 + w
    requires v1 == Turned(v) && v2 == Turned(v1)
    ensures v2 == 4 * w + 2 * a + b
  {
    Top(v, a, b * 0x4000_0000 + w);
    Top(v1, b, 2 * w + a);
  }

  lemma FiveBits(v: int, q: int, r: int)
    requires v == q * 0x800_0000 + r && 0 <= r < 0x800_0000 && 0 <= q < 32
    ensures v * 32 % TWO32 + v / 0x800_0000 == 32 * r + q
  {
    assert v * 32 == q * TWO32 + 32 * r;
  }

  /** Rotation by thirty places. */
  lemma ByThirty(x: bv32)
    ensures Rotl30(x) as int == x as int * 0x4000_0000 % TWO32 + x as int / 4
  {
    var y := Rotl30(x);
    var z := Rotl1(y);
    ThirtyAndTwo(x);
    ByOne(y);
    ByOne(z);
    TwoBack(y as int, z as int, x as int);
  }

  lemma TwoBack(w: int, z: int, v: int)
    requires 0 <= w < TWO32 && z == Turned(w) && v == Turned(z)
    ensures w == v * 0x4000_0000 % TWO32 + v / 4
  {
    var q, r := w / 0x4000_0000, w % 0x4000_0000;
    var a, b := q / 2, q % 2;
    Top(w, a, b * 0x4000_0000 + r);
    Top(z, b, 2 * r + a);
    assert v == 4 * r + q;
    ThirtyBits(v, q, r);
  }

  lemma ThirtyBits(v: int, q: int, r: int)
    requires v == 4 * r + q && 0 <= q < 4 && 0 <= r < 0x4000_0000
    ensures v * 0x4000_0000 % TWO32 + v / 4 == q * 0x4000_0000 + r
  {
    assert v * 0x4000_0000 == r * TWO32 + q * 0x4000_0000;
  }
}
