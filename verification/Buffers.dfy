/** Gathering buffers for one operation (NetLite/detail/buffer_sequence_adapter.hpp). */
module Buffers {
  import opened Bytes

  /** At most 64 buffers, or fewer where the platform allows fewer. */
  function MaxBuffers(maxIovLen: nat): nat {
    if 64 < maxIovLen then 64 else maxIovLen
  }

  /** That is, the lesser of 64 and the platform's limit. */
  lemma MaxBuffersIsTheLesser(maxIovLen: nat)
    ensures MaxBuffers(maxIovLen) <= 64 && MaxBuffers(maxIovLen) <= maxIovLen
    ensures MaxBuffers(maxIovLen) == 64 || MaxBuffers(maxIovLen) == maxIovLen
  {
  }

  /** The data a sequence of buffers holds, in order. */
  function Concat(buffers: seq<seq<byte>>): seq<byte> {
    if |buffers| == 0 then []
    else Concat(buffers[..|buffers| - 1]) + buffers[|buffers| - 1]
  }

  function SumOfSizes(buffers: seq<seq<byte>>): nat {
    if |buffers| == 0 then 0
    else SumOfSizes(buffers[..|buffers| - 1]) + |buffers[|buffers| - 1]|
  }

  class BufferSequenceAdapter {
    const buffers: array<seq<byte>>
    var count: nat
    var totalSize: nat

    /** The native buffers that are in use. */
    function Gathered(): seq<seq<byte>>
      requires count <= buffers.Length
      reads this, buffers
    {
      buffers[..count]
    }

    constructor (bufferSequence: seq<seq<byte>>, maxIovLen: nat)
      ensures count == if |bufferSequence| < MaxBuffers(maxIovLen) then |bufferSequence|
                       else MaxBuffers(maxIovLen)
      ensures count <= buffers.Length && Gathered() == bufferSequence[..count]
      ensures totalSize == SumOfSizes(bufferSequence[..count])
    {
      buffers := new seq<byte>[MaxBuffers(maxIovLen)];
      count, totalSize := 0, 0;
      new;
      Init(bufferSequence);
    }

    method Init(bufferSequence: seq<seq<byte>>)
      requires count == totalSize == 0
      modifies this, buffers
      ensures count == if |bufferSequence| < buffers.Length then |bufferSequence| else buffers.Length
      ensures Gathered() == bufferSequence[..count]
      ensures totalSize == SumOfSizes(bufferSequence[..count])
    {
      var i := 0;
      while i != |bufferSequence| && count < buffers.Length
        invariant i == count <= |bufferSequence| && count <= buffers.Length
        invariant buffers[..count] == bufferSequence[..count]
        invariant totalSize == SumOfSizes(bufferSequence[..count])
        decreases |bufferSequence| - i
      {
        var buffer := bufferSequence[i];
        buffers[count] := buffer;
        totalSize := totalSize + |buffer|;
        assert bufferSequence[..count + 1][..count] == bufferSequence[..count];
        i, count := i + 1, count + 1;
      }
    }
  }

  lemma {:induction false} ConcatSize(buffers: seq<seq<byte>>)
    ensures |Concat(buffers)| == SumOfSizes(buffers)
  {
    if |buffers| > 0 {
      ConcatSize(buffers[..|buffers| - 1]);
    }
  }

  lemma {:induction false} ConcatOfPrefix(buffers: seq<seq<byte>>, count: nat)
    requires count <= |buffers|
    ensures Concat(buffers[..count]) <= Concat(buffers)
  {
    if count == |buffers| {
      assert buffers[..count] == buffers;
    } else {
      var front := buffers[..|buffers| - 1];
      ConcatOfPrefix(front, count);
      assert front[..count] == buffers[..count];
    }
  }

  /** Whatever count up to the total size a send reports, the bytes sent are that long a prefix of
      the caller's data, even when buffers beyond the limit were left out of the operation. */
  lemma GatheredBytesArePrefix(bufferSequence: seq<seq<byte>>, count: nat, reported: nat)
    requires count <= |bufferSequence|
    requires reported <= SumOfSizes(bufferSequence[..count])
    ensures |Concat(bufferSequence[..count])| == SumOfSizes(bufferSequence[..count])
    ensures reported <= |Concat(bufferSequence)|
    ensures Concat(bufferSequence[..count])[..reported] == Concat(bufferSequence)[..reported]
  {
    ConcatSize(bufferSequence[..count]);
    ConcatOfPrefix(bufferSequence, count);
  }
}
