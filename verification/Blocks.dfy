/** What SHA-1 and MD5 share: a message is padded to whole 64-byte blocks, and a compression function is
    folded over them. Every definition and lemma here holds for any compression function. */
module Blocks {
  import opened Words

  type Block = s: seq<byte> | |s| == 64 witness seq(64, i => 0 as byte)

  /** The compression function applied to each 64-byte block in turn. */
  function Fold<S>(f: (S, Block) -> S, h: S, data: seq<byte>): S
    requires |data| % 64 == 0
    decreases |data|
  {
    if data == [] then h else Fold(f, f(h, data[..64]), data[64..])
  }

  lemma {:induction false} FoldConcat<S>(f: (S, Block) -> S, h: S, a: seq<byte>, b: seq<byte>)
    requires |a| % 64 == 0 && |b| % 64 == 0
    ensures Fold(f, h, a + b) == Fold(f, Fold(f, h, a), b)
    decreases |a|
  {
    if a == [] {
      assert a + b == b;
    } else {
      assert (a + b)[..64] == a[..64];
      assert (a + b)[64..] == a[64..] + b;
      FoldConcat(f, f(h, a[..64]), a[64..], b);
    }
  }

  lemma FoldOne<S>(f: (S, Block) -> S, h: S, b: Block)
    ensures Fold(f, h, b) == f(h, b)
  {
    assert b[..64] == b && b[64..] == [];
  }

  /** The message that pieces make up. */
  function Concat(chunks: seq<seq<byte>>): seq<byte> {
    if chunks == [] then [] else Concat(chunks[..|chunks| - 1]) + chunks[|chunks| - 1]
  }

  function Zeros(n: nat): seq<byte> {
    seq(n, i => 0 as byte)
  }

  /** The padding both standards prescribe: a single one bit, then the fewest zero bits that leave eight
      bytes free in the last block, then the length field. */
  function Padded(msg: seq<byte>, length: seq<byte>): (r: seq<byte>)
    requires |length| == 8
    ensures |r| % 64 == 0
  {
    msg + [0x80] + Zeros((55 - |msg|) % 64) + length
  }

  lemma PaddedParts(msg: seq<byte>, zeros: nat, length: seq<byte>)
    requires zeros == (55 - |msg|) % 64 && |length| == 8
    ensures msg + ([0x80] + Zeros(zeros)) + length == Padded(msg, length)
  {
  }

  /** A message so far is held as the registers after its leading whole blocks, plus the bytes after those. */
  ghost predicate Holds<S>(f: (S, Block) -> S, iv: S, h: S, pending: seq<byte>, msg: seq<byte>) {
    && |pending| <= |msg|
    && (|msg| - |pending|) % 64 == 0
    && pending == msg[|msg| - |pending|..]
    && h == Fold(f, iv, msg[..|msg| - |pending|])
  }

  lemma Regroup(done: seq<byte>, pending: seq<byte>, more: seq<byte>, blocks: seq<byte>, rest: seq<byte>)
    requires pending + more == blocks + rest
    ensures var all := done + pending + more;
            var n := |all| - |rest|;
            n == |done| + |blocks| && all[..n] == done + blocks && all[n..] == rest
  {
    var all := done + pending + more;
    assert all == done + (pending + more) == done + blocks + rest;
  }

  /** Bytes that complete whole blocks move from the pending part into the registers. */
  lemma Absorb<S>(f: (S, Block) -> S, iv: S, h: S, pending: seq<byte>, msg: seq<byte>,
                  blocks: seq<byte>, rest: seq<byte>, more: seq<byte>)
    requires Holds(f, iv, h, pending, msg)
    requires |blocks| % 64 == 0 && pending + more == blocks + rest
    ensures Holds(f, iv, Fold(f, h, blocks), rest, msg + more)
  {
    var done := msg[..|msg| - |pending|];
    assert msg == done + pending;
    Regroup(done, pending, more, blocks, rest);
    assert (|done| + |blocks|) % 64 == 0;
    FoldConcat(f, iv, done, blocks);
  }

  /** Bytes that complete no block only join the pending part. */
  lemma Extend<S>(f: (S, Block) -> S, iv: S, h: S, pending: seq<byte>, msg: seq<byte>, more: seq<byte>)
    requires Holds(f, iv, h, pending, msg)
    ensures Holds(f, iv, h, pending + more, msg + more)
  {
    Absorb(f, iv, h, pending, msg, [], pending + more, more);
  }

  /** Registers, byte count and pending bytes stand for the message fed so far. The count wraps at 2^64 and
      leaves out what is pending. */
  ghost predicate State<S>(f: (S, Block) -> S, iv: S, h: S, total: int, pending: seq<byte>, msg: seq<byte>) {
    Holds(f, iv, h, pending, msg) && total == (|msg| - |pending|) % TWO64
  }

  /** More bytes arrive; those that complete whole blocks are processed and counted, the rest stay pending. */
  lemma StateStep<S>(f: (S, Block) -> S, iv: S, h: S, total: int, pending: seq<byte>, msg: seq<byte>,
                     blocks: seq<byte>, rest: seq<byte>, more: seq<byte>)
    requires State(f, iv, h, total, pending, msg)
    requires |blocks| % 64 == 0 && pending + more == blocks + rest
    ensures State(f, iv, Fold(f, h, blocks), (total + |blocks|) % TWO64, rest, msg + more)
  {
    Absorb(f, iv, h, pending, msg, blocks, rest, more);
    assert |pending + more| == |blocks + rest|;
    ModAdd(|msg| - |pending|, |blocks|);
    assert |msg + more| - |rest| == |msg| - |pending| + |blocks|;
  }

  /** Bytes that complete no block only join the pending part. */
  lemma StateExtend<S>(f: (S, Block) -> S, iv: S, h: S, total: int, pending: seq<byte>, msg: seq<byte>, more: seq<byte>)
    requires State(f, iv, h, total, pending, msg)
    ensures State(f, iv, h, total, pending + more, msg + more)
  {
    Extend(f, iv, h, pending, msg, more);
    assert |msg + more| - |pending + more| == |msg| - |pending|;
  }

  /** Whole blocks that were waiting are processed. */
  lemma StateDrain<S>(f: (S, Block) -> S, iv: S, h: S, total: int, pending: seq<byte>, msg: seq<byte>,
                      blocks: seq<byte>, rest: seq<byte>)
    requires State(f, iv, h, total, pending, msg)
    requires |blocks| % 64 == 0 && pending == blocks + rest
    ensures State(f, iv, Fold(f, h, blocks), (total + |blocks|) % TWO64, rest, msg)
  {
    assert pending + [] == pending && msg + [] == msg;
    StateStep(f, iv, h, total, pending, msg, blocks, rest, []);
  }

  /** How many zero bytes the padding needs can be read off the bytes that are waiting. */
  lemma ZerosNeeded(pending: nat, len: nat)
    requires pending <= 64 && pending <= len && (len - pending) % 64 == 0
    ensures (55 - len) % 64 == if pending < 56 then 55 - pending else 119 - pending
  {
  }

  /** Bytes that are whole blocks together with those waiting leave nothing waiting. */
  lemma AbsorbAll<S>(f: (S, Block) -> S, iv: S, h: S, pending: seq<byte>, msg: seq<byte>, tail: seq<byte>)
    requires Holds(f, iv, h, pending, msg)
    requires |pending + tail| % 64 == 0 && |msg + tail| % 64 == 0
    ensures Fold(f, h, pending + tail) == Fold(f, iv, msg + tail)
  {
    assert pending + tail == (pending + tail) + [];
    Absorb(f, iv, h, pending, msg, pending + tail, [], tail);
    assert (msg + tail)[..|msg + tail|] == msg + tail;
  }

  /** Processing the waiting bytes followed by the padding ends with the hash of the padded message. */
  lemma FinishStep<S>(f: (S, Block) -> S, iv: S, h: S, pending: seq<byte>, msg: seq<byte>, tail: seq<byte>,
                      length: seq<byte>)
    requires Holds(f, iv, h, pending, msg) && |length| == 8
    requires tail == [0x80] + Zeros((55 - |msg|) % 64) + length
    ensures |pending + tail| % 64 == 0
    ensures Fold(f, h, pending + tail) == Fold(f, iv, Padded(msg, length))
  {
    assert msg + tail == Padded(msg, length);
    SameRemainder(|pending + tail|, |msg + tail|, |msg| - |pending|);
    AbsorbAll(f, iv, h, pending, msg, tail);
  }

  lemma SameRemainder(a: int, b: int, d: int)
    requires b - a == d && d % 64 == 0 && b % 64 == 0
    ensures a % 64 == 0
  {
  }
}
