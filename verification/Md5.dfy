/** The streaming interface of src/md5.c, proved to compute the hash of RFC 1321, sections 3.1 to 3.5, for
    whatever function processes one block (section 3.4). */
module Md5 {
  import opened Words
  import opened Blocks
  import opened Streams

  datatype Regs = Regs(a: bv32, b: bv32, c: bv32, d: bv32)

  const IV := Regs(0x67452301, 0xefcdab89, 0x98badcfe, 0x10325476)

  function Digest(r: Regs): seq<byte> {
    LeastFirst(r.a) + LeastFirst(r.b) + LeastFirst(r.c) + LeastFirst(r.d)
  }

  /** Padding and length (sections 3.1 and 3.2). */
  function PaddedMessage(msg: seq<byte>): (r: seq<byte>)
    ensures |r| % 64 == 0
  {
    Padded(msg, LittleEndian64((8 * |msg|) % TWO64))
  }

  /** Blocks (section 3.4) and output (section 3.5). */
  function Hash(process: (Regs, Block) -> Regs, msg: seq<byte>): seq<byte> {
    Digest(Fold(process, IV, PaddedMessage(msg)))
  }

  /** The low count word tells how many bytes are waiting, although it wraps around. */
  lemma OffsetFromCount(lo: uint32, hi: uint32, len: nat)
    requires hi * TWO32 + lo == (8 * len) % TWO64
    ensures lo / 8 % 64 == len % 64
    ensures (55 - lo / 8) % 64 == (55 - len) % 64
  {
    var q := (8 * len) / TWO64;
    assert 8 * len == q * TWO64 + hi * TWO32 + lo;
    ShiftBy64(len, lo / 8, q * 0x80_0000_0000_0000 + hi * 0x80_0000);
  }

  lemma ShiftBy64(a: int, b: int, m: int)
    requires b == a - 64 * m
    ensures b % 64 == a % 64 && (55 - b) % 64 == (55 - a) % 64
  {
  }

  /** The three counter statements of md5_append add the bit length with carry. */
  lemma CountBits(lo: uint32, hi: uint32, nbytes: nat, len: nat)
    requires nbytes < 0x8000_0000 && hi * TWO32 + lo == (8 * len) % TWO64
    ensures var nbits: uint32 := (nbytes * 8) % TWO32;
            var lo' := Add32(lo, nbits);
            var hi' := Add32(hi, nbytes / 0x2000_0000);
            (if lo' < nbits then Add32(hi', 1) else hi') * TWO32 + lo' == (8 * (len + nbytes)) % TWO64
  {
    var nbits: uint32 := (nbytes * 8) % TWO32;
    var top: uint32 := nbytes / 0x2000_0000;
    assert nbytes * 8 == top * TWO32 + nbits;
    CarryAdd(lo, hi, nbits, top);
    Add32Twice(hi, top, 1);
    ModAdd(8 * len, 8 * nbytes);
    assert 8 * (len + nbytes) == 8 * len + (top * TWO32 + nbits);
  }

  lemma Add32Twice(x: uint32, y: uint32, z: uint32)
    ensures Add32(Add32(x, y), z) == Add32(x, y + z)
  {
  }

  class Context {
    const process: (Regs, Block) -> Regs
    var count0: uint32
    var count1: uint32
    var abcd: Regs
    const buf: array<byte>

    ghost predicate Counted(msg: seq<byte>)
      reads this
    {
      count1 * TWO32 + count0 == (8 * |msg|) % TWO64
    }

    /** The context stands for the bytes appended so far: the count words hold their exact bit length modulo
        2^64, and the buffer begins with the bytes after the last whole block. */
    ghost predicate Represents(msg: seq<byte>)
      reads this, buf
    {
      && buf.Length == 64
      && Counted(msg)
      && Holds(process, IV, abcd, buf[..|msg| % 64], msg)
    }

    constructor (process: (Regs, Block) -> Regs)
      ensures this.process == process && fresh(buf) && Represents([])
    {
      this.process := process;
      count0, count1 := 0, 0;
      abcd := Regs(0x67452301, 0xffffffff ^ 0x10325476, 0xffffffff ^ 0x67452301, 0x10325476);
      buf := new byte[64];
    }

    /** memcpy into the buffer. */
    method CopyIn(at: nat, bytes: seq<byte>)
      requires at + |bytes| <= buf.Length
      modifies buf
      ensures buf[..] == old(buf[..at]) + bytes + old(buf[at + |bytes|..])
    {
      forall i | 0 <= i < |bytes| {
        buf[at + i] := bytes[i];
      }
    }

    /** The length update of md5_append. */
    method AddCount(nbytes: nat, ghost len: nat)
      requires nbytes < 0x8000_0000 && count1 * TWO32 + count0 == (8 * len) % TWO64
      modifies this`count0, this`count1
      ensures count1 * TWO32 + count0 == (8 * (len + nbytes)) % TWO64
    {
      CountBits(count0, count1, nbytes, len);
      var nbits: uint32 := (nbytes * 8) % TWO32;
      count1 := Add32(count1, nbytes / 0x2000_0000);
      count0 := Add32(count0, nbits);
      if count0 < nbits {
        count1 := Add32(count1, 1);
      }
    }

    /** New bytes are put behind those waiting in the buffer. */
    method Join(offset: nat, bytes: seq<byte>, ghost msg: seq<byte>)
      requires buf.Length == 64 && offset + |bytes| <= 64
      requires Holds(process, IV, abcd, buf[..offset], msg)
      modifies buf
      ensures Holds(process, IV, abcd, buf[..offset + |bytes|], msg + bytes)
    {
      Extend(process, IV, abcd, buf[..offset], msg, bytes);
      CopyIn(offset, bytes);
      assert buf[..offset + |bytes|] == old(buf[..offset]) + bytes;
    }

    /** The full buffer is processed. */
    method ProcessBuffer(ghost msg: seq<byte>)
      requires buf.Length == 64 && Holds(process, IV, abcd, buf[..64], msg)
      modifies this`abcd
      ensures Holds(process, IV, abcd, [], msg)
    {
      assert msg + [] == msg && buf[..64] + [] == buf[..64] && buf[..] == buf[..64];
      Absorb(process, IV, abcd, buf[..64], msg, buf[..64], [], []);
      FoldOne(process, abcd, buf[..64]);
      abcd := process(abcd, buf[..]);
    }

    /** One whole block is processed straight from the caller's memory. */
    method ProcessDirect(block: Block, ghost msg: seq<byte>)
      requires Holds(process, IV, abcd, [], msg)
      modifies this`abcd
      ensures Holds(process, IV, abcd, [], msg + block)
    {
      assert [] + block == block + [];
      Absorb(process, IV, abcd, [], msg, block, [], block);
      FoldOne(process, abcd, block);
      abcd := process(abcd, block);
    }

    /** The loop over whole blocks, and the partial block that is left. */
    method ProcessRest(data: seq<byte>, start: nat, ghost msg: seq<byte>)
      requires buf.Length == 64 && start <= |data|
      requires Holds(process, IV, abcd, [], msg + data[..start])
      modifies this`abcd, buf
      ensures Holds(process, IV, abcd, buf[..|msg + data| % 64], msg + data)
    {
      var p, left := start, |data| - start;
      while left >= 64
        invariant start <= p && 0 <= left && p + left == |data|
        invariant Holds(process, IV, abcd, [], msg + data[..p])
      {
        assert msg + data[..p] + data[p..p + 64] == msg + data[..p + 64];
        ProcessDirect(data[p..p + 64], msg + data[..p]);
        p, left := p + 64, left - 64;
      }
      ghost var fed := msg + data[..p];
      assert fed + data[p..] == msg + data;
      Remainder(|msg + data|, left);
      assert buf[..0] == [];
      if left > 0 {
        Join(0, data[p..], fed);
      } else {
        assert fed == msg + data;
      }
    }

    /** The initial partial block: bytes are added to those waiting, and the block is processed if it is full. */
    method TopUp(offset: nat, data: seq<byte>, ghost msg: seq<byte>) returns (p: nat)
      requires buf.Length == 64 && offset < 64 && Holds(process, IV, abcd, buf[..offset], msg)
      modifies this`abcd, buf
      ensures p <= |data| && offset + p <= 64 && (offset + p == 64 || p == |data|)
      ensures Holds(process, IV, abcd, if offset + p < 64 then buf[..offset + p] else [], msg + data[..p])
    {
      p := if offset + |data| > 64 then 64 - offset else |data|;
      Join(offset, data[..p], msg);
      if offset + p == 64 {
        ProcessBuffer(msg + data[..p]);
      }
    }

    /** md5_append. A count that is not positive changes nothing. */
    method Append(data: seq<byte>, nbytes: int, ghost msg: seq<byte>)
      requires Represents(msg) && nbytes <= |data|
      requires |msg| % 64 + nbytes < 0x8000_0000
      modifies this, buf
      ensures Represents(msg + data[..if nbytes <= 0 then 0 else nbytes])
    {
      var offset := count0 / 8 % 64;
      OffsetFromCount(count0, count1, |msg|);
      assert msg + data[..0] == msg;
      if nbytes <= 0 {
        return;
      }
      AddCount(nbytes, |msg|);
      var piece, p := data[..nbytes], 0;
      if offset != 0 {
        p := TopUp(offset, piece, msg);
        if offset + p < 64 {
          assert piece[..p] == piece;
          Remainder(|msg + piece|, offset + p);
          return;
        }
      } else {
        assert msg + piece[..0] == msg && buf[..0] == [];
      }
      ProcessRest(piece, p, msg);
    }

    /** md5_finish: the length as it was, then the padding, then the length go through md5_append. */
    method Finish(ghost msg: seq<byte>) returns (digest: seq<byte>)
      requires Represents(msg)
      modifies this, buf
      ensures digest == Hash(process, msg)
    {
      var data := LittleEndian32(count0) + LittleEndian32(count1);
      LengthBytes(count0, count1, |msg|);
      ghost var padding := AppendPadding(msg);
      Append(data, 8, msg + padding);
      PaddedParts(msg, |padding| - 1, data);
      assert data[..8] == data;
      Complete(process, abcd, buf[..], Padded(msg, data));
      digest := Digest(abcd);
    }

    /** The padding of md5_finish, whose length is computed from the count words. */
    method AppendPadding(ghost msg: seq<byte>) returns (ghost padding: seq<byte>)
      requires Represents(msg)
      modifies this, buf
      ensures padding == [0x80] + Zeros((55 - |msg|) % 64) && Represents(msg + padding)
    {
      OffsetFromCount(count0, count1, |msg|);
      var n := (55 - count0 / 8) % 64 + 1;
      var pad := [0x80] + Zeros(63);
      padding := pad[..n];
      assert padding == [0x80] + Zeros(n - 1);
      Append(pad, n, msg);
    }
  }

  lemma Remainder(n: nat, left: nat)
    requires left < 64 && left <= n && (n - left) % 64 == 0
    ensures n % 64 == left
  {
  }

  lemma LengthBytes(lo: uint32, hi: uint32, len: nat)
    requires hi * TWO32 + lo == (8 * len) % TWO64
    ensures LittleEndian32(lo) + LittleEndian32(hi) == LittleEndian64((8 * len) % TWO64)
  {
    assert ((8 * len) % TWO64) / TWO32 == hi && ((8 * len) % TWO64) % TWO32 == lo;
  }

  /** When the message is whole blocks, the registers alone stand for it. */
  lemma Complete(process: (Regs, Block) -> Regs, h: Regs, buf: seq<byte>, msg: seq<byte>)
    requires |buf| == 64 && |msg| % 64 == 0
    requires Holds(process, IV, h, buf[..|msg| % 64], msg)
    ensures h == Fold(process, IV, msg)
  {
    assert msg[..|msg|] == msg;
  }

  /** Any number of calls of md5_append: where the message is cut does not matter. The lengths are ints. */
  method InPieces(process: (Regs, Block) -> Regs, chunks: seq<seq<byte>>) returns (digest: seq<byte>)
    requires forall i :: 0 <= i < |chunks| ==> |Concat(chunks[..i])| % 64 + |chunks[i]| < 0x8000_0000
    ensures digest == Hash(process, Concat(chunks))
  {
    var ctx := new Context(process);
    var i := 0;
    while i < |chunks|
      invariant 0 <= i <= |chunks|
      invariant fresh(ctx) && fresh(ctx.buf) && ctx.process == process && ctx.Represents(Concat(chunks[..i]))
    {
      assert chunks[..i + 1][..i] == chunks[..i] && chunks[i][..|chunks[i]|] == chunks[i];
      ctx.Append(chunks[i], |chunks[i]|, Concat(chunks[..i]));
      i := i + 1;
    }
    assert chunks[..i] == chunks;
    digest := ctx.Finish(Concat(chunks));
  }

  /** The read loop of Uploader::calculateFileMd5: one mebibyte at a time, until a read delivers nothing. If the
      stream stayed free of errors, all of it was hashed. */
  method OfStream(process: (Regs, Block) -> Regs, stream: InputStream) returns (digest: seq<byte>)
    requires stream.Valid()
    modifies stream
    ensures exists read: seq<byte> :: old(stream.rest) == read + stream.rest && digest == Hash(process, read)
    ensures !stream.error ==> digest == Hash(process, old(stream.rest))
  {
    var state := new Context(process);
    ghost var fed: seq<byte> := [];
    var bytesRead := stream.Read(1024 * 1024);
    while bytesRead != []
      invariant fresh(state) && fresh(state.buf) && state.process == process && state.Represents(fed)
      invariant stream.Valid() && old(stream.rest) == fed + bytesRead + stream.rest
      invariant |bytesRead| <= 1024 * 1024
      invariant bytesRead == [] && !stream.error ==> stream.rest == []
      decreases |bytesRead| + |stream.rest|
    {
      state.Append(bytesRead, |bytesRead|, fed);
      assert bytesRead[..|bytesRead|] == bytesRead;
      fed := fed + bytesRead;
      bytesRead := stream.Read(1024 * 1024);
    }
    assert old(stream.rest) == fed + stream.rest;
    digest := state.Finish(fed);
    assert stream.rest == [] ==> fed == old(stream.rest);
  }
}
