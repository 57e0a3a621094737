/** The block function of src/sha1.c: a circular sixteen-word schedule, registers renamed instead of
    shifted, and round functions rewritten with fewer operations. */
module Sha1Block {
  import opened Words
  import opened Blocks
  import Bits
  import opened Sha1Standard

  function F1(b: bv32, c: bv32, d: bv32): bv32 { d ^ (b & (c ^ d)) }
  function F2(b: bv32, c: bv32, d: bv32): bv32 { b ^ c ^ d }
  function F3(b: bv32, c: bv32, d: bv32): bv32 { (b & c) | (d & (b | c)) }
  function F4(b: bv32, c: bv32, d: bv32): bv32 { b ^ c ^ d }

  const K1: bv32 := 0x5a827999
  const K2: bv32 := 0x6ed9eba1
  const K3: bv32 := 0x8f1bbcdc
  const K4: bv32 := 0xca62c1d6

  /** A word read from memory by a little-endian machine. */
  function Load(b0: byte, b1: byte, b2: byte, b3: byte): bv32 {
    (b3 as bv32 << 24) | (b2 as bv32 << 16) | (b1 as bv32 << 8) | (b0 as bv32)
  }

  function Swap(n: bv32): bv32 {
    (n << 24) | ((n & 0xff00) << 8) | ((n >> 8) & 0xff00) | (n >> 24)
  }

  lemma SwapLoad(b0: byte, b1: byte, b2: byte, b3: byte)
    ensures Swap(Load(b0, b1, b2, b3)) == WordOf(b0, b1, b2, b3)
  {
  }

  lemma StoreSwap(x: bv32)
    ensures LeastFirst(Swap(x)) == WordBytes(x)
  {
  }

  /** Which of F1 to F4 and K1 to K4 the macro line for round t names. */
  function LineF(t: nat, b: bv32, c: bv32, d: bv32): bv32 {
    if t < 20 then F1(b, c, d) else if t < 40 then F2(b, c, d) else if t < 60 then F3(b, c, d) else F4(b, c, d)
  }

  function LineK(t: nat): bv32 {
    if t < 20 then K1 else if t < 40 then K2 else if t < 60 then K3 else K4
  }

  lemma LineIsF(t: nat, b: bv32, c: bv32, d: bv32)
    ensures LineF(t, b, c, d) == F(t, b, c, d)
  {
    Bits.ChooseRewritten(b, c, d);
    Bits.MajorityRewritten(b, c, d);
  }

  /** The macro R: what becomes of its fifth register, for given values of F and K. */
  /** The macro rol. */
  function Rol(x: bv32, n: nat): bv32
    requires 0 < n < 32
  {
    (x << n) | (x >> (32 - n))
  }

  lemma RolIsRotl(x: bv32)
    ensures Rol(x, 1) == Rotl1(x) && Rol(x, 5) == Rotl5(x) && Rol(x, 30) == Rotl30(x)
  {
  }

  /** e += p + f + k + m. */
  function Added(e: bv32, p: bv32, f: bv32, k: bv32, m: bv32): bv32 {
    e + (p + f + k + m)
  }

  lemma AddedIsSum(e: bv32, p: bv32, f: bv32, k: bv32, m: bv32)
    ensures Added(e, p, f, k, m) == Sum5(p, f, e, k, m)
  {
  }

  function R(a: bv32, e: bv32, f: bv32, k: bv32, m: bv32): bv32 {
    Added(e, Rol(a, 5), f, k, m)
  }

  lemma RIsT(a: bv32, e: bv32, f: bv32, k: bv32, m: bv32)
    ensures R(a, e, f, k, m) == T(a, e, f, k, m)
  {
    RolIsRotl(a);
    AddedIsSum(e, Rotl5(a), f, k, m);
  }

  /** One macro line is one turn of the standard's shifting loop, with the registers renamed. */
  lemma LineIsRound(t: nat, a: bv32, b: bv32, c: bv32, d: bv32, e: bv32, m: bv32)
    ensures Regs(R(a, e, LineF(t, b, c, d), LineK(t), m), a, Rol(b, 30), c, d) == Round(Regs(a, b, c, d, e), t, m)
  {
    LineIsF(t, b, c, d);
    RIsT(a, e, LineF(t, b, c, d), LineK(t), m);
    RolIsRotl(b);
  }

  /** x[] holds the sixteen words of the schedule before t, each at its index modulo 16. */
  ghost predicate Window(x: seq<bv32>, words: Block, t: nat) {
    |x| == 16 && forall s: nat {:trigger W(words, s)} :: t - 16 <= s < t ==> x[s % 16] == W(words, s)
  }

  /** The macro M: the next word of the schedule, computed from and stored into the circular array. */
  method M(x: array<bv32>, i: nat, ghost words: Block) returns (m: bv32)
    requires 16 <= i && Window(x[..], words, i)
    modifies x
    ensures m == W(words, i) && Window(x[..], words, i + 1)
  {
    var tm := x[i % 16] ^ x[(i - 14) % 16] ^ x[(i - 8) % 16] ^ x[(i - 3) % 16];
    FourWords(x[..], words, i);
    Bits.XorReordered(W(words, i - 16), W(words, i - 14), W(words, i - 8), W(words, i - 3));
    RolIsRotl(tm);
    m := Rol(tm, 1);
    WindowMoves(x[..], words, i);
    x[i % 16] := m;
    assert x[..] == old(x[..])[i % 16 := m];
  }

  lemma WindowMoves(x: seq<bv32>, words: Block, i: nat)
    requires 16 <= i && Window(x, words, i)
    ensures Window(x[i % 16 := W(words, i)], words, i + 1)
  {
    forall s: nat | i - 15 <= s < i
      ensures s % 16 != i % 16
    {
      OtherPlace(s, i);
    }
  }

  lemma OtherPlace(s: nat, i: nat)
    requires 0 < i - s < 16
    ensures s % 16 != i % 16
  {
  }

  /** The four places that M reads. */
  lemma FourWords(x: seq<bv32>, words: Block, i: nat)
    requires 16 <= i && Window(x, words, i)
    ensures x[i % 16] == W(words, i - 16) && x[(i - 14) % 16] == W(words, i - 14)
    ensures x[(i - 8) % 16] == W(words, i - 8) && x[(i - 3) % 16] == W(words, i - 3)
  {
    SixteenBefore(i);
    assert x[(i - 16) % 16] == W(words, i - 16);
  }

  lemma SixteenBefore(i: nat)
    requires 16 <= i
    ensures (i - 16) % 16 == i % 16
  {
  }

  /** The schedule as line t finds it: the first sixteen lines read words that are all there already. */
  ghost predicate Ready(x: seq<bv32>, words: Block, t: nat) {
    Window(x, words, if t < 16 then 16 else t)
  }

  /** The word that line t adds: x[t] for the first sixteen lines, M(t) after them. */
  method LineWord(x: array<bv32>, t: nat, ghost words: Block) returns (m: bv32)
    requires Ready(x[..], words, t)
    modifies x
    ensures m == W(words, t) && Ready(x[..], words, t + 1)
  {
    if t < 16 {
      m := x[t];
      assert x[t] == x[..][t % 16] == W(words, t);
    } else {
      m := M(x, t, words);
    }
  }

  /** The loop that fills x[] from the block, reversing the bytes of each word. */
  method LoadWords(words: Block) returns (x: array<bv32>)
    ensures fresh(x) && Window(x[..], words, 16)
  {
    x := new bv32[16];
    var t := 0;
    while t < 16
      invariant 0 <= t <= 16
      invariant forall s: nat {:trigger W(words, s)} :: s < t ==> x[s] == W(words, s)
    {
      x[t] := Swap(Load(words[4 * t], words[4 * t + 1], words[4 * t + 2], words[4 * t + 3]));
      SwapLoad(words[4 * t], words[4 * t + 1], words[4 * t + 2], words[4 * t + 3]);
      t := t + 1;
    }
  }

  /** One macro line: register e is added to, register b is rotated, and the schedule moves on. */
  method Line(x: array<bv32>, t: nat, a: bv32, b: bv32, c: bv32, d: bv32, e: bv32, ghost h: Regs, ghost words: Block)
    returns (e': bv32, b': bv32)
    requires Ready(x[..], words, t)
    requires Regs(a, b, c, d, e) == Rounds(h, words, t)
    modifies x
    ensures Ready(x[..], words, t + 1)
    ensures Regs(e', a, b', c, d) == Rounds(h, words, t + 1)
  {
    var m := LineWord(x, t, words);
    LineIsRound(t, a, b, c, d, e, m);
    e', b' := R(a, e, LineF(t, b, c, d), LineK(t), m), Rol(b, 30);
  }

  /** The five lines that repeat, in which each register in turn plays each part, so that no value is
      ever moved. */
  method FiveLines(x: array<bv32>, t: nat, r: Regs, ghost h: Regs, ghost words: Block) returns (r': Regs)
    requires Ready(x[..], words, t) && r == Rounds(h, words, t)
    modifies x
    ensures Ready(x[..], words, t + 5) && r' == Rounds(h, words, t + 5)
  {
    var a, b, c, d, e := r.a, r.b, r.c, r.d, r.e;
    e, b := Line(x, t, a, b, c, d, e, h, words);
    d, a := Line(x, t + 1, e, a, b, c, d, h, words);
    c, e := Line(x, t + 2, d, e, a, b, c, h, words);
    b, d := Line(x, t + 3, c, d, e, a, b, h, words);
    a, c := Line(x, t + 4, b, c, d, e, a, h, words);
    r' := Regs(a, b, c, d, e);
  }

  /** The eighty macro lines for one block. */
  method RunLines(words: Block, h: Regs) returns (r: Regs)
    ensures r == Rounds(h, words, 80)
  {
    var x := LoadWords(words);
    r := h;
    var g := 0;
    while g < 16
      invariant 0 <= g <= 16
      invariant Ready(x[..], words, 5 * g) && r == Rounds(h, words, 5 * g)
    {
      r := FiveLines(x, 5 * g, r, h, words);
      g := g + 1;
    }
  }
}
