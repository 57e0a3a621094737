/** The streaming interface of src/sha1.c, proved to compute the hash of FIPS 180-4. */
module Sha1 {
  import opened Words
  import opened Blocks
  import opened Sha1Standard
  import Sha1Block

  /** n & ~63. */
  function ClearLow6(n: nat): (r: nat)
    ensures r <= n && r % 64 == 0 && n - r == n % 64
  {
    n - n % 64
  }

  class Context {
    var A: bv32
    var B: bv32
    var C: bv32
    var D: bv32
    var E: bv32
    var total0: uint32
    var total1: uint32
    var buflen: nat
    const buffer: array<byte>

    ghost function Registers(): Regs
      reads this
    {
      Regs(A, B, C, D, E)
    }

    ghost function Total(): int
      reads this
    {
      total1 * TWO32 + total0
    }

    /** The context stands for the bytes fed to it so far; the buffer has room for two blocks. */
    ghost predicate Joined(msg: seq<byte>)
      reads this, buffer
    {
      buffer.Length == 128 && buflen <= 128 && State(Compress, IV, Registers(), Total(), buffer[..buflen], msg)
    }

    /** Between calls at most one block is waiting. The buffer may rest full, at 64 bytes. */
    ghost predicate Represents(msg: seq<byte>)
      reads this, buffer
    {
      Joined(msg) && buflen <= 64
    }

    constructor ()
      ensures fresh(this.buffer) && Represents([])
      ensures buflen == 0
    {
      A, B, C, D, E := 0x67452301, 0xefcdab89, 0x98badcfe, 0x10325476, 0xc3d2e1f0;
      total0, total1 := 0, 0;
      buflen := 0;
      buffer := new byte[128];
    }

    /** One turn of the block loop: the eighty lines, whose results are added to the registers. */
    method AddBlock(words: Block)
      modifies this`A, this`B, this`C, this`D, this`E
      ensures Registers() == Compress(old(Registers()), words)
    {
      var r := Sha1Block.RunLines(words, Regs(A, B, C, D, E));
      A, B, C, D, E := Plus(A, r.a), Plus(B, r.b), Plus(C, r.c), Plus(D, r.d), Plus(E, r.e);
    }

    /** The double-word increment of the byte count. */
    method CountBytes(len: nat)
      requires len < TWO64
      modifies this`total0, this`total1
      ensures Total() == (old(Total()) + len) % TWO64
    {
      CarryAdd(total0, total1, len % TWO32, len / TWO32);
      var lolen := len % TWO32;
      assert len == len / TWO32 * TWO32 + lolen;
      total0 := Add32(total0, lolen);
      total1 := Add32(total1, len / TWO32 + (if total0 < lolen then 1 else 0));
    }

    /** Whole blocks go into the registers and the byte count; the buffer and its length are not touched. */
    method ProcessBlock(data: seq<byte>)
      requires |data| % 64 == 0 && |data| < TWO64
      modifies this`A, this`B, this`C, this`D, this`E, this`total0, this`total1
      ensures Registers() == Fold(Compress, old(Registers()), data)
      ensures Total() == (old(Total()) + |data|) % TWO64
    {
      CountBytes(|data|);
      var pos := 0;
      assert data[..0] == [];
      while pos < |data|
        invariant 0 <= pos <= |data| && pos % 64 == 0
        invariant Registers() == Fold(Compress, old(Registers()), data[..pos])
        invariant Total() == (old(Total()) + |data|) % TWO64
      {
        NextBlock(pos, |data|);
        FoldStep(data, pos, old(Registers()));
        AddBlock(data[pos..pos + 64]);
        pos := pos + 64;
      }
      assert data[..pos] == data;
    }

    /** New bytes are put behind those waiting in the buffer. */
    method Join(bytes: seq<byte>, ghost msg: seq<byte>)
      requires Joined(msg) && buflen + |bytes| <= 128
      modifies this`buflen, buffer
      ensures Joined(msg + bytes) && buflen == old(buflen) + |bytes|
    {
      StateExtend(Compress, IV, Registers(), Total(), buffer[..buflen], msg, bytes);
      CopyIn(buflen, bytes);
      buflen := buflen + |bytes|;
      assert buffer[..buflen] == old(buffer[..buflen]) + bytes;
    }

    /** Whole blocks that were waiting are processed, and the bytes after them become all that waits. */
    method Settle(blocks: seq<byte>, rest: seq<byte>, ghost msg: seq<byte>)
      requires buffer.Length == 128 && |blocks| % 64 == 0 && |blocks| + |rest| <= 128
      requires State(Compress, IV, Registers(), Total(), blocks + rest, msg)
      modifies this, buffer
      ensures Joined(msg) && buflen == |rest|
    {
      StateDrain(Compress, IV, Registers(), Total(), blocks + rest, msg, blocks, rest);
      ProcessBlock(blocks);
      CopyIn(0, rest);
      buflen := |rest|;
      assert buffer[..buflen] == rest;
    }

    /** Whole blocks waiting in the buffer are processed, and the bytes after them move to its front. */
    method Drain(ghost msg: seq<byte>)
      requires Joined(msg)
      modifies this, buffer
      ensures Joined(msg) && buflen == old(buflen) % 64
    {
      var whole := ClearLow6(buflen);
      assert buffer[..buflen] == buffer[..whole] + buffer[whole..buflen];
      Settle(buffer[..whole], buffer[whole..buflen], msg);
    }

    /** Whole blocks are processed straight from the caller's memory while nothing is waiting. */
    method Direct(blocks: seq<byte>, ghost msg: seq<byte>)
      requires Represents(msg) && buflen == 0 && |blocks| % 64 == 0 && |blocks| < TWO64
      modifies this
      ensures Represents(msg + blocks) && buflen == 0
    {
      assert buffer[..0] + blocks == blocks + [];
      StateStep(Compress, IV, Registers(), Total(), buffer[..0], msg, blocks, [], blocks);
      ProcessBlock(blocks);
      assert buffer[..0] == [];
    }

    /** sha1_process_bytes. The caller's bytes start at the given address, which decides whether whole
        blocks are processed in place or copied into the buffer one at a time. */
    method ProcessBytes(data: seq<byte>, address: nat, ghost msg: seq<byte>)
      requires Represents(msg) && |data| < TWO64
      modifies this, buffer
      ensures Represents(msg + data)
    {
      var n := 0;
      assert msg + data[..n] == msg;
      if buflen != 0 {
        n := JoinWaiting(data, msg);
      }
      if |data| - n >= 64 {
        n := WholeBlocks(data, n, address, msg);
      }
      if |data| - n > 0 {
        KeepRest(data, n, msg);
      }
      assert n == |data| ==> data[..n] == data;
    }

    /** The first part: bytes already waiting are joined by as many new ones as fit, and then processed
        if they are more than one block. */
    method JoinWaiting(data: seq<byte>, ghost msg: seq<byte>) returns (add: nat)
      requires Represents(msg) && buflen != 0
      modifies this, buffer
      ensures add <= |data| && Represents(msg + data[..add])
      ensures add < |data| ==> buflen == 0
    {
      add := if 128 - buflen > |data| then |data| else 128 - buflen;
      Join(data[..add], msg);
      if buflen > 64 {
        Drain(msg + data[..add]);
      }
    }

    /** The second part: blocks that are complete in the caller's memory. */
    method WholeBlocks(data: seq<byte>, start: nat, address: nat, ghost msg: seq<byte>) returns (n: nat)
      requires start <= |data| < TWO64 && Represents(msg + data[..start]) && buflen == 0
      modifies this, buffer
      ensures start <= n <= |data| <= n + 64 && Represents(msg + data[..n]) && buflen == 0
    {
      if (address + start) % 4 != 0 {
        n := CopyBlocks(data, start, msg);
      } else {
        n := start + ClearLow6(|data| - start);
        assert msg + data[..n] == msg + data[..start] + data[start..n];
        Direct(data[start..n], msg + data[..start]);
      }
    }

    /** The loop for unaligned memory. It stops while up to one whole block is left. */
    method CopyBlocks(data: seq<byte>, start: nat, ghost msg: seq<byte>) returns (n: nat)
      requires start <= |data| < TWO64 && Represents(msg + data[..start]) && buflen == 0
      modifies this, buffer
      ensures start <= n <= |data| <= n + 64 && Represents(msg + data[..n]) && buflen == 0
    {
      n := start;
      while |data| - n > 64
        invariant start <= n <= |data|
        invariant Represents(msg + data[..n]) && buflen == 0
      {
        assert msg + data[..n] + data[n..n + 64] == msg + data[..n + 64];
        CopyIn(0, data[n..n + 64]);
        assert buffer[..64] == data[n..n + 64] && buffer[..0] == [];
        Direct(buffer[..64], msg + data[..n]);
        n := n + 64;
      }
    }

    /** The last part: what is left waits in the buffer, unless it completes a block. */
    method KeepRest(data: seq<byte>, n: nat, ghost msg: seq<byte>)
      requires n < |data| <= n + 64 && Represents(msg + data[..n]) && buflen == 0
      modifies this, buffer
      ensures Represents(msg + data)
    {
      assert msg + data == msg + data[..n] + data[n..];
      Join(data[n..], msg + data[..n]);
      if buflen >= 64 {
        Drain(msg + data);
      }
    }

    /** The waiting bytes are counted, and the count becomes the length field in bits. */
    method LengthField(ghost msg: seq<byte>) returns (length: seq<byte>)
      requires Represents(msg)
      modifies this`total0, this`total1
      ensures length == BigEndian64((8 * |msg|) % TWO64)
    {
      var bytes := buflen;
      LengthWords(total0, total1, bytes, |msg|);
      total0 := Add32(total0, bytes);
      total1 := Add32(total1, if total0 < bytes then 1 else 0);
      length := BigEndian32(ShiftHigh(total0, total1)) + BigEndian32(ShiftLow(total0));
    }

    /** The length goes to the end of the last block, and the fill bytes between it and the message. */
    method PutTail(size: nat, length: seq<byte>)
      requires buffer.Length == 128 && size <= 32 && |length| == 8 && buflen + 9 <= size * 4
      modifies buffer
      ensures buffer[..size * 4] == old(buffer[..buflen]) + ([0x80] + Zeros(size * 4 - 9 - buflen) + length)
    {
      CopyIn((size - 2) * 4, length);
      CopyIn(buflen, [0x80] + Zeros((size - 2) * 4 - buflen - 1));
    }

    /** sha1_finish_ctx: the length and the padding are put behind the waiting bytes, which then make one
        block or two. */
    method Finish(ghost msg: seq<byte>) returns (digest: seq<byte>)
      requires Represents(msg)
      modifies this, buffer
      ensures digest == Hash(msg)
    {
      var size := if buflen < 56 then 16 else 32;
      ghost var pending := buffer[..buflen];
      var length := LengthField(msg);
      PutTail(size, length);
      ZerosNeeded(buflen, |msg|);
      FinishStep(Compress, IV, Registers(), pending, msg, [0x80] + Zeros(size * 4 - 9 - buflen) + length, length);
      ProcessBlock(buffer[..size * 4]);
      digest := Read();
    }

    /** sha1_read_ctx: each register is stored with its bytes reversed. */
    method Read() returns (digest: seq<byte>)
      ensures digest == Digest(Registers())
    {
      Sha1Block.StoreSwap(A);
      Sha1Block.StoreSwap(B);
      Sha1Block.StoreSwap(C);
      Sha1Block.StoreSwap(D);
      Sha1Block.StoreSwap(E);
      digest := LeastFirst(Sha1Block.Swap(A)) + LeastFirst(Sha1Block.Swap(B))
      + LeastFirst(Sha1Block.Swap(C)) + LeastFirst(Sha1Block.Swap(D)) + LeastFirst(Sha1Block.Swap(E));
    }

    /** memcpy into the buffer. */
    method CopyIn(at: nat, bytes: seq<byte>)
      requires at + |bytes| <= buffer.Length
      modifies buffer
      ensures buffer[..] == old(buffer[..at]) + bytes + old(buffer[at + |bytes|..])
    {
      forall i | 0 <= i < |bytes| {
        buffer[at + i] := bytes[i];
      }
    }
  }

  lemma NextBlock(pos: nat, len: nat)
    requires pos % 64 == 0 && len % 64 == 0 && pos < len
    ensures pos + 64 <= len && (pos + 64) % 64 == 0
  {
  }

  lemma FoldStep(data: seq<byte>, pos: nat, h: Regs)
    requires pos % 64 == 0 && pos + 64 <= |data|
    ensures (pos + 64) % 64 == 0
    ensures Fold(Compress, h, data[..pos + 64]) == Compress(Fold(Compress, h, data[..pos]), data[pos..pos + 64])
  {
    var b: Block := data[pos..pos + 64];
    assert data[..pos + 64] == data[..pos] + b;
    FoldConcat(Compress, h, data[..pos], b);
    FoldOne(Compress, Fold(Compress, h, data[..pos]), b);
  }
}
