/** Strings as C keeps them in memory. */
module Strings {
  /** A C string: what comes before the first zero. */
  function CString(memory: string): (s: string)
    ensures '\0' !in s && s <= memory && (|s| < |memory| ==> memory[|s|] == '\0')
  {
    if memory == "" || memory[0] == '\0' then "" else [memory[0]] + CString(memory[1..])
  }

  lemma {:induction false} CStringIs(memory: string, n: nat)
    requires n <= |memory| && '\0' !in memory[..n] && (n < |memory| ==> memory[n] == '\0')
    ensures CString(memory) == memory[..n]
    decreases n
  {
    if n > 0 {
      assert memory[0] == memory[..n][0] && memory[1..][..n - 1] == memory[..n][1..];
      CStringIs(memory[1..], n - 1);
    }
  }
}
