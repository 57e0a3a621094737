/** The in-place encoder and decoder of src/base64.c. */
module Base64 {
  import opened Words
  import opened Base64Standard

  /** b64str[], spelled out. */
  const B64STR: string := "ABCDEFGHIJKLMNOPQRSTUVWXYZ" + "abcdefghijklmnopqrstuvwxyz" + "0123456789+/"

  /** The table lists the alphabet in order. */
  lemma Spelled(i: nat)
    requires i < 64
    ensures |B64STR| == 64 && Value(B64STR[i]) == i
  {
    var upper, lower := "ABCDEFGHIJKLMNOPQRSTUVWXYZ", "abcdefghijklmnopqrstuvwxyz";
    if i < 26 {
      Ascending(upper, 'A');
    } else if i < 52 {
      Ascending(upper, 'A');
      Ascending(lower, 'a');
    } else {
      assert i - 52 in {0, 1, 2, 3, 4, 5, 6, 7, 8, 9, 10, 11};
    }
  }

  lemma Ascending(s: string, first: char)
    requires (s == "ABCDEFGHIJKLMNOPQRSTUVWXYZ" && first == 'A') || (s == "abcdefghijklmnopqrstuvwxyz" && first == 'a')
    ensures |s| == 26 && forall k :: 0 <= k < 26 ==> s[k] as int == first as int + k
  {
    forall k | 0 <= k < 26
      ensures s[k] as int == first as int + k
    {
      assert k in {0, 1, 2, 3, 4, 5, 6, 7, 8, 9, 10, 11, 12, 13, 14, 15, 16, 17, 18, 19, 20, 21, 22, 23, 24, 25};
    }
  }

  function Letter(v: byte): (c: char)
    requires v < 64
    ensures c == Symbol(v)
  {
    SmallInt(v);
    Spelled(v as int);
    SymbolOfBits(B64STR[v as int]);
    B64STR[v as int]
  }

  function Byte0(c0: char, c1: char): byte
    requires InAlphabet(c0) && InAlphabet(c1)
  {
    (Bits(c0) << 2) | (Bits(c1) >> 4)
  }

  function Byte1(c1: char, c2: char): byte
    requires InAlphabet(c1) && InAlphabet(c2)
  {
    ((Bits(c1) << 4) & 0xf0) | (Bits(c2) >> 2)
  }

  function Byte2(c2: char, c3: char): byte
    requires InAlphabet(c2) && InAlphabet(c3)
  {
    ((Bits(c2) << 6) & 0xc0) | Bits(c3)
  }

  /** What one turn of the decoding loop makes of an input of at least two characters: the bytes it produces,
      and whether it reaches the end of the loop body. */
  datatype Turn = Turn(bytes: seq<byte>, goOn: bool)

  function TurnOf(s: string): (t: Turn)
    requires |s| >= 2
    ensures |t.bytes| <= 3
    ensures t.goOn ==> |s| >= 4
  {
    if !InAlphabet(s[0]) || !InAlphabet(s[1]) then Turn([], false)
    else if |s| == 2 then Turn([Byte0(s[0], s[1])], false)
    else if s[2] == '=' then Turn([Byte0(s[0], s[1])], |s| == 4 && s[3] == '=')
    else if !InAlphabet(s[2]) then Turn([Byte0(s[0], s[1])], false)
    else if |s| == 3 then Turn([Byte0(s[0], s[1]), Byte1(s[1], s[2])], false)
    else if s[3] == '=' then Turn([Byte0(s[0], s[1]), Byte1(s[1], s[2])], |s| == 4)
    else if !InAlphabet(s[3]) then Turn([Byte0(s[0], s[1]), Byte1(s[1], s[2])], false)
    else Turn([Byte0(s[0], s[1]), Byte1(s[1], s[2]), Byte2(s[2], s[3])], true)
  }

  /** The verdict of the decoder and all the bytes it produces, when there is room for all of them. */
  datatype Decoded = Decoded(ok: bool, bytes: seq<byte>)

  function Decode(s: string): Decoded {
    if |s| < 2 then Decoded(s == "", [])
    else
      var turn := TurnOf(s);
      if turn.goOn then
        var rest := Decode(s[4..]);
        Decoded(rest.ok, turn.bytes + rest.bytes)
      else Decoded(false, turn.bytes)
  }

  /** Four alphabet characters are one turn of the loop. */
  predicate FullGroup(s: string) {
    |s| >= 4 && InAlphabet(s[0]) && InAlphabet(s[1]) && InAlphabet(s[2]) && InAlphabet(s[3])
  }

  lemma FullGroupStep(s: string)
    requires FullGroup(s)
    ensures Decode(s) == Decoded(Decode(s[4..]).ok,
                                 [Byte0(s[0], s[1]), Byte1(s[1], s[2]), Byte2(s[2], s[3])] + Decode(s[4..]).bytes)
  {
  }

  /** A padded group: two or three alphabet characters, and nothing after the pads. */
  predicate PaddedGroup(s: string) {
    |s| == 4 && InAlphabet(s[0]) && InAlphabet(s[1]) && s[3] == '=' && (s[2] == '=' || InAlphabet(s[2]))
  }

  lemma OtherGroup(s: string)
    requires !FullGroup(s)
    ensures Decode(s).ok <==> s == "" || PaddedGroup(s)
    ensures |Decode(s).bytes| <= 2
    ensures PaddedGroup(s) ==> |Decode(s).bytes| == if s[2] == '=' then 1 else 2
  {
    if |s| >= 2 && TurnOf(s).goOn {
      assert s[4..] == "";
    }
  }

  /** Decoding succeeds exactly on well-formed texts. */
  lemma {:induction false} AcceptsExactly(s: string)
    ensures Decode(s).ok <==> WellFormed(s)
    decreases |s|
  {
    if FullGroup(s) {
      AcceptsExactly(s[4..]);
      FullGroupStep(s);
      TailWellFormed(s);
    } else {
      OtherGroup(s);
      OtherWellFormed(s);
    }
  }

  lemma TailWellFormed(s: string)
    requires FullGroup(s)
    ensures |s| % 4 == 0 ==> Pads(s) == Pads(s[4..])
    ensures WellFormed(s) <==> WellFormed(s[4..])
  {
  }

  lemma OtherWellFormed(s: string)
    requires !FullGroup(s)
    ensures WellFormed(s) <==> s == "" || PaddedGroup(s)
  {
  }

  /** An accepted text yields three bytes for each group of four characters, less its pads. */
  lemma {:induction false} DecodedLength(s: string)
    requires Decode(s).ok
    ensures |s| % 4 == 0 && |Decode(s).bytes| == |s| / 4 * 3 - Pads(s)
    decreases |s|
  {
    if FullGroup(s) {
      FullGroupStep(s);
      DecodedLength(s[4..]);
      TailWellFormed(s);
      assert |s[4..]| / 4 == |s| / 4 - 1;
    } else {
      OtherGroup(s);
    }
  }

  /** Whatever the input, accepted or not, the buffer that the allocating decoder asks for is large enough. */
  lemma {:induction false} EnoughRoom(s: string)
    ensures |Decode(s).bytes| <= 3 * (|s| / 4) + 2
    decreases |s|
  {
    if FullGroup(s) {
      EnoughRoom(s[4..]);
      FullGroupStep(s);
      assert |s[4..]| / 4 == |s| / 4 - 1;
    } else {
      OtherGroup(s);
    }
  }

  lemma GroupBytes(b0: byte, b1: byte, b2: byte)
    ensures var g := Group(b0, b1, b2);
            && (Digit0(g) << 2) | (Digit1(g) >> 4) == b0
            && ((Digit1(g) << 4) & 0xf0) | (Digit2(g) >> 2) == b1
            && ((Digit2(g) << 6) & 0xc0) | Digit3(g) == b2
  {
  }

  lemma DigitsDecode(b0: byte, b1: byte, b2: byte)
    ensures var g := Group(b0, b1, b2);
            var c0, c1, c2, c3 := Symbol(Digit0(g)), Symbol(Digit1(g)), Symbol(Digit2(g)), Symbol(Digit3(g));
            && InAlphabet(c0) && InAlphabet(c1) && InAlphabet(c2) && InAlphabet(c3)
            && Byte0(c0, c1) == b0 && Byte1(c1, c2) == b1 && Byte2(c2, c3) == b2
  {
    var g := Group(b0, b1, b2);
    BitsOfSymbol(Digit0(g));
    BitsOfSymbol(Digit1(g));
    BitsOfSymbol(Digit2(g));
    BitsOfSymbol(Digit3(g));
    GroupBytes(b0, b1, b2);
  }

  /** Decoding undoes encoding, for every byte string. */
  lemma {:induction false} RoundTrip(x: seq<byte>)
    ensures Decode(Encoding(x)) == Decoded(true, x)
    decreases |x|
  {
    var s := Encoding(x);
    if |x| == 0 {
    } else if |x| < 3 {
      ShortRoundTrip(x);
    } else {
      var rest := if |x| > 3 then x[3..] else [];
      assert s == Quad(x) + Encoding(rest);
      assert s[4..] == Encoding(rest);
      LongQuad(x, s);
      FullGroupStep(s);
      RoundTrip(rest);
      assert x == x[..3] + rest;
    }
  }

  lemma ShortRoundTrip(x: seq<byte>)
    requires 1 <= |x| <= 2
    ensures Decode(Encoding(x)) == Decoded(true, x)
  {
    DigitsDecode(x[0], if |x| > 1 then x[1] else 0, 0);
    var s := Encoding(x);
    assert s == Quad(x);
    assert PaddedGroup(s) && s[4..] == "";
  }

  lemma LongQuad(x: seq<byte>, s: string)
    requires |x| >= 3 && |s| >= 4 && s[..4] == Quad(x)
    ensures FullGroup(s)
    ensures [Byte0(s[0], s[1]), Byte1(s[1], s[2]), Byte2(s[2], s[3])] == x[..3]
  {
    DigitsDecode(x[0], x[1], x[2]);
    assert s[..4][0] == s[0] && s[..4][1] == s[1] && s[..4][2] == s[2] && s[..4][3] == s[3];
  }

  lemma DigitsOfBytes(d0: byte, d1: byte, d2: byte, d3: byte)
    requires d0 < 64 && d1 < 64 && d2 < 64 && d3 < 64
    ensures var b0, b1, b2 := (d0 << 2) | (d1 >> 4), ((d1 << 4) & 0xf0) | (d2 >> 2), ((d2 << 6) & 0xc0) | d3;
            var g := Group(b0, b1, b2);
            Digit0(g) == d0 && Digit1(g) == d1 && Digit2(g) == d2 && Digit3(g) == d3
  {
  }

  lemma DigitsOfOneByte(d0: byte, d1: byte)
    requires d0 < 64 && d1 < 64
    ensures var g := Group((d0 << 2) | (d1 >> 4), 0, 0);
            Digit0(g) == d0 && (Digit1(g) == d1 <==> d1 & 0x0f == 0)
  {
  }

  lemma DigitsOfTwoBytes(d0: byte, d1: byte, d2: byte)
    requires d0 < 64 && d1 < 64 && d2 < 64
    ensures var g := Group((d0 << 2) | (d1 >> 4), ((d1 << 4) & 0xf0) | (d2 >> 2), 0);
            Digit0(g) == d0 && Digit1(g) == d1 && (Digit2(g) == d2 <==> d2 & 0x03 == 0)
  {
  }

  lemma SymbolIs(v: byte, c: char)
    requires v < 64 && InAlphabet(c)
    ensures Symbol(v) == c <==> v == Bits(c)
  {
    BitsOfSymbol(v);
    SymbolOfBits(c);
  }

  lemma ReencodeFull(s: string)
    requires FullGroup(s)
    ensures Quad([Byte0(s[0], s[1]), Byte1(s[1], s[2]), Byte2(s[2], s[3])]) == s[..4]
  {
    DigitsOfBytes(Bits(s[0]), Bits(s[1]), Bits(s[2]), Bits(s[3]));
    var g := Group(Byte0(s[0], s[1]), Byte1(s[1], s[2]), Byte2(s[2], s[3]));
    SymbolIs(Digit0(g), s[0]);
    SymbolIs(Digit1(g), s[1]);
    SymbolIs(Digit2(g), s[2]);
    SymbolIs(Digit3(g), s[3]);
  }

  lemma ReencodeTwoPads(c0: char, c1: char)
    requires InAlphabet(c0) && InAlphabet(c1)
    ensures Quad([Byte0(c0, c1)]) == [c0, c1, '=', '='] <==> Bits(c1) & 0x0f == 0
  {
    DigitsOfOneByte(Bits(c0), Bits(c1));
    var g := Group(Byte0(c0, c1), 0, 0);
    SymbolIs(Digit0(g), c0);
    SymbolIs(Digit1(g), c1);
  }

  lemma ReencodeOnePad(c0: char, c1: char, c2: char)
    requires InAlphabet(c0) && InAlphabet(c1) && InAlphabet(c2)
    ensures Quad([Byte0(c0, c1), Byte1(c1, c2)]) == [c0, c1, c2, '='] <==> Bits(c2) & 0x03 == 0
  {
    DigitsOfTwoBytes(Bits(c0), Bits(c1), Bits(c2));
    var g := Group(Byte0(c0, c1), Byte1(c1, c2), 0);
    SymbolIs(Digit0(g), c0);
    SymbolIs(Digit1(g), c1);
    SymbolIs(Digit2(g), c2);
  }

  lemma ReencodePadded(s: string)
    requires PaddedGroup(s)
    ensures WellFormed(s)
    ensures Encoding(Decode(s).bytes) == s <==> UnusedBitsZero(s)
  {
    assert s == [s[0], s[1], s[2], s[3]];
    if s[2] == '=' {
      ReencodeTwoPads(s[0], s[1]);
    } else {
      ReencodeOnePad(s[0], s[1], s[2]);
    }
    assert Encoding(Decode(s).bytes) == Quad(Decode(s).bytes);
  }

  /** Encoding gives an accepted text back exactly when the bits its last character does not use are zero. */
  lemma {:induction false} ReencodesExactly(s: string)
    requires Decode(s).ok
    ensures WellFormed(s)
    ensures Encoding(Decode(s).bytes) == s <==> UnusedBitsZero(s)
    decreases |s|
  {
    AcceptsExactly(s);
    if s == "" {
    } else if FullGroup(s) {
      FullGroupStep(s);
      TailWellFormed(s);
      ReencodesExactly(s[4..]);
      ReencodeFull(s);
      var b, rest := Decode(s).bytes, Decode(s[4..]).bytes;
      assert b[3..] == rest;
      assert Quad(b) == Quad([b[0], b[1], b[2]]);
      assert Encoding(b) == s[..4] + Encoding(rest);
      assert s == s[..4] + s[4..];
      assert Encoding(b)[4..] == Encoding(rest);
    } else {
      OtherGroup(s);
      ReencodePadded(s);
    }
  }

  lemma CodeDigits(b0: byte, b1: byte, b2: byte)
    ensures var g := Group(b0, b1, b2);
            && (b0 >> 2) & 0x3f == Digit0(g)
            && ((b0 << 4) + (b1 >> 4)) & 0x3f == Digit1(g)
            && ((b1 << 2) + (b2 >> 6)) & 0x3f == Digit2(g)
            && b2 & 0x3f == Digit3(g)
  {
  }

  function Char0(x: seq<byte>): (c: char)
    requires |x| > 0
    ensures c == Quad(x)[0]
  {
    CodeDigits(x[0], if |x| > 1 then x[1] else 0, if |x| > 2 then x[2] else 0);
    Letter((x[0] >> 2) & 0x3f)
  }

  function Char1(x: seq<byte>): (c: char)
    requires |x| > 0
    ensures c == Quad(x)[1]
  {
    CodeDigits(x[0], if |x| > 1 then x[1] else 0, if |x| > 2 then x[2] else 0);
    Letter(((x[0] << 4) + (if |x| > 1 then x[1] >> 4 else 0)) & 0x3f)
  }

  function Char2(x: seq<byte>): (c: char)
    requires |x| > 0
    ensures c == Quad(x)[2]
  {
    CodeDigits(x[0], if |x| > 1 then x[1] else 0, if |x| > 2 then x[2] else 0);
    if |x| > 1 then Letter(((x[1] << 2) + (if |x| > 2 then x[2] >> 6 else 0)) & 0x3f) else '='
  }

  function Char3(x: seq<byte>): (c: char)
    requires |x| > 0
    ensures c == Quad(x)[3]
  {
    CodeDigits(x[0], if |x| > 1 then x[1] else 0, if |x| > 2 then x[2] else 0);
    if |x| > 2 then Letter(x[2] & 0x3f) else '='
  }

  /** The first o elements of a buffer have been written from the front of what is to be written; the rest is
      as it was. */
  ghost predicate Filled<T>(now: seq<T>, was: seq<T>, all: seq<T>, o: nat) {
    |now| == |was| && o <= |was| && o <= |all| && now == all[..o] + was[o..]
  }

  lemma FilledStep<T>(now: seq<T>, now': seq<T>, was: seq<T>, all: seq<T>, o: nat, chunk: seq<T>)
    requires Filled(now, was, all, o) && chunk <= all[o..] && o + |chunk| <= |was|
    requires now' == now[..o] + chunk + now[o + |chunk|..]
    ensures Filled(now', was, all, o + |chunk|)
  {
  }

  function Min(a: nat, b: nat): nat {
    if a < b then a else b
  }

  /** One turn of the encoding loop: up to four characters, as long as there is room. */
  method EncodeTurn(rest: seq<byte>, out: array<char>, o: nat, left: nat) returns (n: nat)
    requires rest != [] && 0 < left && o + left <= out.Length
    modifies out
    ensures n == Min(4, left)
    ensures out[..] == old(out[..o]) + Quad(rest)[..n] + old(out[o + n..])
  {
    out[o] := Char0(rest);
    if left == 1 {
      return 1;
    }
    out[o + 1] := Char1(rest);
    if left == 2 {
      return 2;
    }
    out[o + 2] := Char2(rest);
    if left == 3 {
      return 3;
    }
    out[o + 3] := Char3(rest);
    return 4;
  }

  function AfterTurn(rest: seq<byte>): seq<byte> {
    if |rest| > 3 then rest[3..] else []
  }

  lemma EncodeStep(now: string, now': string, was: string, e: string, o: nat, rest: seq<byte>, n: nat)
    requires Filled(now, was, e, o) && e[o..] == Encoding(rest) && rest != [] && n <= 4 && o + n <= |was|
    requires now' == now[..o] + Quad(rest)[..n] + now[o + n..]
    ensures Filled(now', was, e, o + n)
    ensures n == 4 ==> e[o + n..] == Encoding(AfterTurn(rest))
  {
    var quad := Quad(rest);
    assert e[o..] == quad + Encoding(AfterTurn(rest));
    FilledStep(now, now', was, e, o, quad[..n]);
    if n == 4 {
      assert e[o + n..] == e[o..][n..];
    }
  }

  /** base64_encode: as many characters of the encoding as fit, and a terminating zero exactly if there is
      room left for it. Nothing behind that is written. */
  method Encode(input: seq<byte>, out: array<char>, outlen: nat)
    requires outlen <= out.Length
    modifies out
    ensures var e := Encoding(input);
            out[..] == if outlen > |e| then e + "\0" + old(out[|e| + 1..]) else e[..outlen] + old(out[outlen..])
  {
    ghost var e, was := Encoding(input), out[..];
    var o := EncodeAll(input, out, outlen);
    if o < outlen {
      ghost var now := out[..];
      out[o] := '\0';
      Terminated(now, out[..], was, e);
    }
  }

  /** The loop of base64_encode. */
  method EncodeAll(input: seq<byte>, out: array<char>, outlen: nat) returns (o: nat)
    requires outlen <= out.Length
    modifies out
    ensures Filled(out[..], old(out[..]), Encoding(input), o)
    ensures o == if outlen < |Encoding(input)| then outlen else |Encoding(input)|
  {
    var rest: seq<byte>, left: nat := input, outlen;
    ghost var e, was := Encoding(input), out[..];
    o := 0;
    while rest != [] && left > 0
      invariant o + left == outlen
      invariant Filled(out[..], was, e, o)
      invariant left > 0 ==> e[o..] == Encoding(rest)
      decreases left
    {
      ghost var now := out[..];
      var n := EncodeTurn(rest, out, o, left);
      EncodeStep(now, out[..], was, e, o, rest, n);
      o, left := o + n, left - n;
      rest := AfterTurn(rest);
    }
    assert left > 0 ==> e[o..] == [];
  }

  lemma Terminated(now: string, now': string, was: string, e: string)
    requires Filled(now, was, e, |e|) && |e| < |was|
    requires now' == now[|e| := '\0']
    ensures now' == e + "\0" + was[|e| + 1..]
  {
  }

  /** Storing one byte if there is room for it. */
  method Put(out: array<byte>, o: nat, outleft: nat, v: byte, ghost was: seq<byte>, ghost all: seq<byte>)
    returns (o': nat, outleft': nat)
    requires o + outleft <= out.Length && Filled(out[..], was, all, o)
    requires outleft > 0 ==> o < |all| && all[o] == v
    modifies out
    ensures o' + outleft' == o + outleft && o' == o + Min(1, outleft) && Filled(out[..], was, all, o')
  {
    o', outleft' := o, outleft;
    if outleft > 0 {
      out[o] := v;
      o', outleft' := o + 1, outleft - 1;
    }
  }

  /** One turn of the decoding loop. Bytes for which no room is left are not stored. */
  method DecodeTurn(s: string, out: array<byte>, at: nat, room: nat, ghost was: seq<byte>, ghost all: seq<byte>)
    returns (o: nat, outleft: nat, goOn: bool)
    requires |s| >= 2 && at + room <= out.Length && Filled(out[..], was, all, at)
    requires room > 0 ==> TurnOf(s).bytes <= all[at..]
    modifies out
    ensures goOn == TurnOf(s).goOn
    ensures o + outleft == at + room && o == at + Min(|TurnOf(s).bytes|, room) && Filled(out[..], was, all, o)
  {
    ghost var turn := TurnOf(s).bytes;
    assert room > 0 ==> forall k :: 0 <= k < |turn| ==> all[at..][k] == turn[k];
    o, outleft := at, room;
    if !InAlphabet(s[0]) || !InAlphabet(s[1]) {
      return o, outleft, false;
    }
    o, outleft := Put(out, o, outleft, Byte0(s[0], s[1]), was, all);
    if |s| == 2 {
      return o, outleft, false;
    }
    if s[2] == '=' {
      if |s| != 4 {
        return o, outleft, false;
      }
      if s[3] != '=' {
        return o, outleft, false;
      }
    } else {
      if !InAlphabet(s[2]) {
        return o, outleft, false;
      }
      o, outleft := Put(out, o, outleft, Byte1(s[1], s[2]), was, all);
      if |s| == 3 {
        return o, outleft, false;
      }
      if s[3] == '=' {
        if |s| != 4 {
          return o, outleft, false;
        }
      } else {
        if !InAlphabet(s[3]) {
          return o, outleft, false;
        }
        o, outleft := Put(out, o, outleft, Byte2(s[2], s[3]), was, all);
      }
    }
    goOn := true;
  }

  /** From place o on, all is what the rest of the input decodes to. */
  ghost predicate Pending(all: seq<byte>, o: nat, rest: string) {
    o <= |all| && all[o..] == Decode(rest).bytes
  }

  /** What is still to be written, if there is room for it, begins with the bytes of the next turn and goes on
      behind them; and the verdict is that on the rest, unless this turn is the last. */
  lemma NextTurn(b: seq<byte>, o: nat, rest: string, room: bool)
    requires |rest| >= 2 && (room ==> Pending(b, o, rest))
    ensures var turn := TurnOf(rest);
            && Decode(rest).ok == (turn.goOn && Decode(rest[4..]).ok)
            && (room ==> turn.bytes <= b[o..] && o + |turn.bytes| <= |b|)
            && (room && turn.goOn ==> Pending(b, o + |turn.bytes|, rest[4..]))
            && (room && !turn.goOn ==> o + |turn.bytes| == |b|)
  {
  }

  /** When nothing is left to write, or no room, as much has been written as could be. */
  lemma FilledUp<T>(now: seq<T>, was: seq<T>, all: seq<T>, o: nat, left: nat)
    requires Filled(now, was, all, o) && o + left <= |was|
    requires left > 0 ==> o == |all|
    ensures o == Min(o + left, |all|) && now == all[..o] + was[o..]
  {
  }

  /** base64_decode: the verdict does not depend on the room there is. As many bytes as fit are stored, also
      for an input that is rejected, and their number is returned. */
  method DecodeInto(s: string, out: array<byte>, outlen: nat) returns (ok: bool, written: nat)
    requires outlen <= out.Length
    modifies out
    ensures ok == Decode(s).ok
    ensures written == Min(outlen, |Decode(s).bytes|)
    ensures out[..] == Decode(s).bytes[..written] + old(out[written..])
  {
    var outleft: nat;
    ok, outleft := DecodeAll(s, out, outlen);
    written := outlen - outleft;
  }

  /** The loop of base64_decode. */
  method DecodeAll(s: string, out: array<byte>, outlen: nat) returns (ok: bool, outleft: nat)
    requires outlen <= out.Length
    modifies out
    ensures ok == Decode(s).ok
    ensures outlen - outleft == Min(outlen, |Decode(s).bytes|)
    ensures Filled(out[..], old(out[..]), Decode(s).bytes, outlen - outleft)
  {
    var rest: string, o: nat := s, 0;
    outleft := outlen;
    ghost var b, was := Decode(s).bytes, out[..];
    while |rest| >= 2
      invariant o + outleft == outlen
      invariant Filled(out[..], was, b, o)
      invariant Decode(rest).ok == Decode(s).ok
      invariant outleft > 0 ==> Pending(b, o, rest)
      decreases |rest|
    {
      NextTurn(b, o, rest, outleft > 0);
      var goOn: bool;
      o, outleft, goOn := DecodeTurn(rest, out, o, outleft, was, b);
      if !goOn {
        FilledUp(out[..], was, b, o, outleft);
        return false, outleft;
      }
      rest := rest[4..];
    }
    FilledUp(out[..], was, b, o, outleft);
    ok := |rest| == 0;
  }
}
