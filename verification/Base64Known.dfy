/** Base 64 in plain terms: the examples of section 7 of RFC 3548, and which texts are well formed. They tie the
    definitions of Base64Standard, with which the program is compared, to what nothing there computes. */
module Base64Known {
  import opened Base64
  import opened Base64Standard

  lemma Examples()
    ensures Encoding([0x14, 0xfb, 0x9c, 0x03, 0xd9, 0x7e]) == "FPucA9l+"
    ensures Encoding([0x14, 0xfb, 0x9c, 0x03, 0xd9]) == "FPucA9k="
    ensures Encoding([0x14, 0xfb, 0x9c, 0x03]) == "FPucAw=="
  {
    assert [0x14, 0xfb, 0x9c, 0x03, 0xd9, 0x7e][3..] == [0x03, 0xd9, 0x7e];
  }

  predicate IsSymbol(c: char) {
    'A' <= c <= 'Z' || 'a' <= c <= 'z' || '0' <= c <= '9' || c == '+' || c == '/'
  }

  /** At most two pads, at the very end, and nothing but symbols before them. */
  ghost predicate PaddedBy(s: string, pads: nat) {
    && pads <= 2 && pads <= |s|
    && (forall i :: 0 <= i < |s| - pads ==> IsSymbol(s[i])) && (forall i :: |s| - pads <= i < |s| ==> s[i] == '=')
  }

  lemma SymbolsAre(c: char)
    ensures IsSymbol(c) <==> InAlphabet(c)
  {
  }

  lemma PadsAre(s: string, pads: nat)
    requires PaddedBy(s, pads) && |s| % 4 == 0
    ensures pads == Pads(s)
  {
    if pads < |s| {
      assert IsSymbol(s[|s| - 1 - pads]);
    }
    if pads > 0 {
      assert s[|s| - 1] == '=' && s[|s| - pads] == '=';
    }
  }

  lemma WellFormedInFull(s: string)
    ensures WellFormed(s) <==> |s| % 4 == 0 && exists pads :: PaddedBy(s, pads)
  {
    forall i | 0 <= i < |s| ensures IsSymbol(s[i]) <==> InAlphabet(s[i]) {
      SymbolsAre(s[i]);
    }
    if WellFormed(s) {
      assert PaddedBy(s, Pads(s));
    }
    if |s| % 4 == 0 && exists pads :: PaddedBy(s, pads) {
      var pads :| PaddedBy(s, pads);
      PadsAre(s, pads);
    }
  }

  /** The decoder accepts a text exactly if its length is a multiple of four and it ends in at most two pads. */
  lemma AcceptsInFull(s: string)
    ensures Decode(s).ok <==> |s| % 4 == 0 && exists pads :: PaddedBy(s, pads)
  {
    AcceptsExactly(s);
    WellFormedInFull(s);
  }
}
