/** The circular buffer that keeps a process's most recent output. */
module RingBuffers {

  import opened Bytes

  class RingBuffer {
    const buf: array<Byte>
    var pos: nat
    var full: bool
    /** Everything ever written, in order. */
    ghost var history: seq<Byte>

    /** Below pos, and above it once the buffer has wrapped, lie the last bytes of the history. */
    ghost predicate Valid()
      reads this, buf
    {
      && pos < buf.Length
      && (!full ==> |history| == pos)
      && (full ==> |history| >= buf.Length)
      && (forall i :: 0 <= i < pos ==> buf[i] == history[|history| - pos + i])
      && (full ==> forall i :: pos <= i < buf.Length ==> buf[i] == history[|history| - pos - buf.Length + i])
    }

    constructor (size: nat)
      requires size > 0
      ensures Valid() && fresh(buf) && buf.Length == size && history == []
    {
      buf := new Byte[size];
      pos, full, history := 0, false, [];
    }

    method Write(p: seq<Byte>) returns (n: nat)
      requires Valid()
      modifies this, buf
      ensures Valid() && n == |p| && history == old(history) + p
    {
      n := |p|;
      var i := 0;
      while i < n
        invariant 0 <= i <= n
        invariant Valid() && history == old(history) + p[..i]
      {
        buf[pos] := p[i];
        history := history + [p[i]];
        pos := pos + 1;
        if pos >= buf.Length {
          pos := 0;
          full := true;
        }
        i := i + 1;
      }
    }

    /** The refinement: whatever was written, the buffer holds exactly its last bytes. */
    method Bytes() returns (result: seq<Byte>)
      requires Valid()
      ensures result == Last(buf.Length, history)
    {
      if !full {
        return buf[..pos];
      }
      var r := new Byte[buf.Length];
      forall i | 0 <= i < buf.Length - pos {
        r[i] := buf[pos + i];
      }
      forall i | 0 <= i < pos {
        r[buf.Length - pos + i] := buf[i];
      }
      result := r[..];
    }
  }

  /** Any series of writes to a fresh buffer, then a read. */
  method WriteAllThenRead(size: nat, chunks: seq<seq<Byte>>) returns (result: seq<Byte>)
    requires size > 0
    ensures result == Last(size, Concat(chunks))
  {
    var rb := new RingBuffer(size);
    var i := 0;
    while i < |chunks|
      invariant 0 <= i <= |chunks| && rb.Valid() && fresh(rb) && fresh(rb.buf) && rb.buf.Length == size
      invariant rb.history == Concat(chunks[..i])
    {
      var _ := rb.Write(chunks[i]);
      assert chunks[..i + 1][..i] == chunks[..i];
      i := i + 1;
    }
    assert chunks[..i] == chunks;
    result := rb.Bytes();
  }
}
