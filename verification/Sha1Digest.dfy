/** The one-call interfaces of src/sha1.c: a message in memory, and a message read from a stream. */
module Sha1Digest {
  import opened Words
  import opened Blocks
  import opened Sha1Standard
  import opened Sha1
  import opened Streams

  const BLOCKSIZE: nat := 32768

  /** sha1_buffer. */
  method Buffer(data: seq<byte>, address: nat) returns (digest: seq<byte>)
    requires |data| < TWO64
    ensures digest == Hash(data)
  {
    var ctx := new Context();
    assert [] + data == data;
    ctx.ProcessBytes(data, address, []);
    digest := ctx.Finish(data);
  }

  /** Any number of calls of sha1_process_bytes: neither where the message is cut nor how its pieces lie in
      memory matters. */
  method InPieces(chunks: seq<seq<byte>>, addresses: seq<nat>) returns (digest: seq<byte>)
    requires |chunks| == |addresses|
    requires forall i :: 0 <= i < |chunks| ==> |chunks[i]| < TWO64
    ensures digest == Hash(Concat(chunks))
  {
    var ctx := new Context();
    var i := 0;
    while i < |chunks|
      invariant 0 <= i <= |chunks|
      invariant fresh(ctx) && fresh(ctx.buffer) && ctx.Represents(Concat(chunks[..i]))
    {
      assert chunks[..i + 1][..i] == chunks[..i];
      ctx.ProcessBytes(chunks[i], addresses[i], Concat(chunks[..i]));
      i := i + 1;
    }
    assert chunks[..i] == chunks;
    digest := ctx.Finish(Concat(chunks));
  }

  datatype Fill = Full | Partial | Failed

  /** The inner loop of sha1_stream: reads are repeated until the buffer is full, the file ends or nothing
      more comes because of an error. */
  method FillBlock(stream: InputStream) returns (buffer: seq<byte>, outcome: Fill)
    requires stream.Valid()
    modifies stream
    ensures stream.Valid() && old(stream.rest) == buffer + stream.rest
    ensures |buffer| <= BLOCKSIZE && (outcome == Full ==> |buffer| == BLOCKSIZE)
    ensures outcome == Partial ==> stream.rest == []
    ensures outcome == Failed ==> stream.error
  {
    buffer := [];
    while true
      invariant stream.Valid() && old(stream.rest) == buffer + stream.rest && |buffer| < BLOCKSIZE
      decreases |stream.rest|
    {
      var chunk := stream.Read(BLOCKSIZE - |buffer|);
      buffer := buffer + chunk;
      if |buffer| == BLOCKSIZE {
        return buffer, Full;
      }
      if chunk == [] {
        if stream.error {
          return buffer, Failed;
        }
        return buffer, Partial;
      }
      if stream.eof {
        return buffer, Partial;
      }
    }
  }

  /** The end of sha1_stream: what is left is processed as bytes, if there is any. */
  method FinishWith(ctx: Context, buffer: seq<byte>, ghost fed: seq<byte>) returns (digest: seq<byte>)
    requires ctx.Represents(fed) && |buffer| <= BLOCKSIZE
    modifies ctx, ctx.buffer
    ensures digest == Hash(fed + buffer)
  {
    if |buffer| > 0 {
      ctx.ProcessBytes(buffer, 0, fed);
    } else {
      assert fed + buffer == fed;
    }
    digest := ctx.Finish(fed + buffer);
  }

  /** sha1_stream: whole buffers are processed as blocks, the last one as bytes. It returns 1 on a read error, and
      if there is no memory for the buffer. */
  method Stream(stream: InputStream, mallocSucceeds: bool) returns (status: int, digest: seq<byte>)
    requires stream.Valid()
    modifies stream
    ensures status == 0 || status == 1
    ensures status == 0 ==> mallocSucceeds && stream.rest == [] && digest == Hash(old(stream.rest))
    ensures status == 1 ==> !mallocSucceeds || stream.error
    ensures !mallocSucceeds ==> stream.rest == old(stream.rest) && stream.error == old(stream.error)
  {
    if !mallocSucceeds {
      return 1, [];
    }
    var ctx := new Context();
    ghost var fed := [];
    while true
      invariant fresh(ctx) && fresh(ctx.buffer) && ctx.Represents(fed) && ctx.buflen == 0
      invariant stream.Valid() && old(stream.rest) == fed + stream.rest
      decreases |stream.rest|
    {
      var buffer, outcome := FillBlock(stream);
      assert old(stream.rest) == (fed + buffer) + stream.rest;
      if outcome == Failed {
        return 1, [];
      }
      if outcome == Partial {
        assert old(stream.rest) == fed + buffer;
        digest := FinishWith(ctx, buffer, fed);
        return 0, digest;
      }
      ctx.Direct(buffer, fed);
      fed := fed + buffer;
    }
  }
}
