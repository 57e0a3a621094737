/** The message authentication code of src/hmac-sha1.c, proved to be the one section 2 of RFC 2104 defines. */
module Hmac {
  import opened Words
  import opened Blocks
  import opened Sha1Standard
  import opened Sha1

  const IPAD: byte := 0x36
  const OPAD: byte := 0x5c

  function XorByte(data: seq<byte>, pad: byte): (r: seq<byte>)
    ensures |r| == |data|
  {
    seq(|data|, i requires 0 <= i < |data| => data[i] ^ pad)
  }

  /** The key as RFC 2104 wants it: hashed if it is longer than a block, then filled up with zeros. */
  function BlockKey(key: seq<byte>): (k: Block) {
    var short := if |key| > 64 then Hash(key) else key;
    short + Zeros(64 - |short|)
  }

  function Mac(key: seq<byte>, text: seq<byte>): seq<byte> {
    var k := BlockKey(key);
    Hash(XorByte(k, OPAD) + Hash(XorByte(k, IPAD) + text))
  }

  /** The code in full: the key, or its hash if it is too long, under the two pads. */
  lemma PadsInFull(key: seq<byte>, text: seq<byte>, inner: seq<byte>, outer: seq<byte>)
    requires |inner| == 64 && forall i :: 0 <= i < 64 ==> inner[i] == (if i < |key| then key[i] else 0) ^ 0x36
    requires |outer| == 64 && forall i :: 0 <= i < 64 ==> outer[i] == (if i < |key| then key[i] else 0) ^ 0x5c
    ensures |key| <= 64 ==> Mac(key, text) == Hash(outer + Hash(inner + text))
    ensures |key| > 64 ==> Mac(key, text) == Mac(Hash(key), text)
  {
    if |key| <= 64 {
      var k := BlockKey(key);
      assert forall i :: 0 <= i < 64 ==> k[i] == if i < |key| then key[i] else 0;
      assert XorByte(k, IPAD) == inner && XorByte(k, OPAD) == outer;
    }
  }

  /** memxor: the source bytes are combined into the front of the destination; what lies behind stays. */
  method MemXor(dest: array<byte>, src: seq<byte>)
    requires |src| <= dest.Length
    modifies dest
    ensures forall i :: 0 <= i < |src| ==> dest[i] == old(dest[i]) ^ src[i]
    ensures forall i :: |src| <= i < dest.Length ==> dest[i] == old(dest[i])
  {
    var n := |src|;
    while n > 0
      invariant 0 <= n <= |src|
      invariant forall i :: 0 <= i < |src| - n ==> dest[i] == old(dest[i]) ^ src[i]
      invariant forall i :: |src| - n <= i < dest.Length ==> dest[i] == old(dest[i])
    {
      var i := |src| - n;
      dest[i] := dest[i] ^ src[i];
      n := n - 1;
    }
  }

  /** memset and memxor on the one block that both passes share. */
  method PadBlock(block: array<byte>, pad: byte, key: seq<byte>)
    requires block.Length == 64 && |key| <= 64
    modifies block
    ensures block[..] == XorByte(key + Zeros(64 - |key|), pad)
  {
    forall i | 0 <= i < 64 {
      block[i] := pad;
    }
    MemXor(block, key);
    var padded := key + Zeros(64 - |key|);
    forall i | 0 <= i < 64
      ensures block[i] == padded[i] ^ pad
    {
      XorZero(pad);
      if i < |key| {
        XorCommutes(pad, key[i]);
      }
    }
  }

  lemma XorZero(x: byte)
    ensures 0 ^ x == x
  {
  }

  lemma XorCommutes(x: byte, y: byte)
    ensures x ^ y == y ^ x
  {
  }

  /** One pass: the padded key enters by a direct call of the block function, the text by the streaming call. */
  method Pass(block: Block, text: seq<byte>, address: nat) returns (digest: seq<byte>)
    requires |text| < TWO64
    ensures digest == Hash(block + text)
  {
    var ctx := new Context();
    assert [] + block == block;
    ctx.Direct(block, []);
    ctx.ProcessBytes(text, address, block);
    digest := ctx.Finish(block + text);
  }

  /** A key longer than a block is replaced by its hash. */
  method ReduceKey(key: seq<byte>, address: nat) returns (short: seq<byte>)
    requires |key| < TWO64
    ensures |short| <= 64 && BlockKey(key) == short + Zeros(64 - |short|)
  {
    short := key;
    if |key| > 64 {
      var keyhash := new Context();
      assert [] + key == key;
      keyhash.ProcessBytes(key, address, []);
      short := keyhash.Finish(key);
    }
  }

  /** One pad and one pass over a text. */
  method PaddedPass(block: array<byte>, pad: byte, short: seq<byte>, text: seq<byte>, address: nat)
    returns (digest: seq<byte>)
    requires block.Length == 64 && |short| <= 64 && |text| < TWO64
    modifies block
    ensures digest == Hash(XorByte(short + Zeros(64 - |short|), pad) + text)
  {
    PadBlock(block, pad, short);
    digest := Pass(block[..], text, address);
  }

  method HmacSha1(key: seq<byte>, keyAddress: nat, text: seq<byte>, textAddress: nat) returns (digest: seq<byte>)
    requires |key| < TWO64 && |text| < TWO64
    ensures digest == Mac(key, text)
  {
    var short := ReduceKey(key, keyAddress);
    var block := new byte[64];
    var innerhash := PaddedPass(block, IPAD, short, text, textAddress);
    digest := PaddedPass(block, OPAD, short, innerhash, 0);
  }
}
