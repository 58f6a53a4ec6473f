/** The capped capture of a child process's output (transcribe/command/command.go). */
module CappedBuffers {
  import opened ByteStrings

  class CappedBuffer {
    const limit: nat
    var buf: Bytes
    var overflow: bool
    ghost var written: Bytes // everything ever written

    // The buffer is the longest prefix of the output that fits; overflow says it is not all.
    ghost predicate Valid()
      reads this
    {
      && |buf| <= limit && buf <= written
      && (|written| <= limit ==> buf == written)
      && (|written| > limit ==> |buf| == limit)
      && (overflow <==> |written| > limit)
    }

    constructor (limit: nat)
      ensures Valid() && this.limit == limit && written == []
    {
      this.limit := limit;
      buf, overflow, written := [], false, [];
    }

    // Every write is reported as fully consumed.
    method Write(p: Bytes) returns (n: nat)
      requires Valid()
      modifies this
      ensures Valid() && written == old(written) + p && n == |p|
    {
      written := written + p;
      var remaining := limit - |buf|;
      if remaining > 0 {
        if |p| <= remaining {
          buf := buf + p;
          return |p|;
        }
        buf := buf + p[..remaining];
      }
      if |p| > 0 {
        overflow := true;
      }
      return |p|;
    }
  }
}
