/** Identities of bitwise arithmetic on 32-bit words. They stand apart so that each is checked on its own. */
module Bits {
  lemma ChooseRewritten(b: bv32, c: bv32, d: bv32)
    ensures d ^ (b & (c ^ d)) == (b & c) ^ (!b & d)
  {
  }

  lemma MajorityRewritten(b: bv32, c: bv32, d: bv32)
    ensures (b & c) | (d & (b | c)) == (b & c) ^ (b & d) ^ (c & d)
  {
  }

  lemma XorReordered(p: bv32, q: bv32, r: bv32, s: bv32)
    ensures p ^ q ^ r ^ s == s ^ r ^ q ^ p
  {
  }
}
