/** The bounded log buffer of remote/store/ringbuffer.go. */
module RingBuffers {
  import opened Common

  /** A circular buffer read from position `w` on. */
  function Rotated<T>(b: seq<T>, w: nat): seq<T>
    requires w <= |b|
  {
    b[w..] + b[..w]
  }

  /** Overwriting at the read position drops the oldest elements and appends the new ones. */
  lemma OverwriteShifts<T>(before: seq<T>, after: seq<T>, w: nat, chunk: seq<T>)
    requires w + |chunk| <= |before|
    requires after == before[..w] + chunk + before[w + |chunk|..]
    ensures Rotated(after, w + |chunk|) == Rotated(before, w)[|chunk|..] + chunk
  {
  }

  lemma ShiftIsSuffix<T>(s: seq<T>, kept: seq<T>, chunk: seq<T>, n: nat)
    requires |s| >= n && kept == Suffix(s, n) && |chunk| <= n
    ensures kept[|chunk|..] + chunk == Suffix(s + chunk, n)
  {
  }

  lemma PrefixGrows<T>(p: seq<T>, k: nat, chunk: nat)
    requires k + chunk <= |p|
    ensures p[..k] + p[k..][..chunk] == p[..k + chunk]
    ensures p[k..][chunk..] == p[k + chunk..]
  {
  }

  lemma TailIsSuffix<T>(s: seq<T>, p: seq<T>, n: nat)
    requires |p| > n
    ensures Rotated(p[|p| - n..], 0) == Suffix(s + p, n)
  {
  }

  class RingBuffer {
    const maxSize: nat
    const buf: array<byte>  // backing store of the slice; its capacity is maxSize
    var len: nat            // length of the slice
    var writePos: nat
    var wrapped: bool
    ghost var written: seq<byte>  // every byte ever passed to Write

    ghost predicate Valid()
      reads this, buf
    {
      && buf.Length == maxSize
      && len <= maxSize
      && (!wrapped ==> writePos == 0 && buf[..len] == written)
      && (wrapped ==>
            && len == maxSize < |written|
            && (writePos < maxSize || writePos == maxSize == 0)
            && Rotated(buf[..], writePos) == Suffix(written, maxSize))
    }

    constructor (maxSize: nat)
      ensures Valid() && fresh(buf)
      ensures this.maxSize == maxSize && written == []
    {
      this.maxSize := maxSize;
      buf := new byte[maxSize];
      len, writePos, wrapped := 0, 0, false;
      written := [];
    }

    method Write(p: seq<byte>) returns (n: nat)
      requires Valid()
      modifies this, buf
      ensures Valid()
      ensures n == |p| && written == old(written) + p
    {
      hide Suffix, Rotated;
      n := |p|;

      if |p| > maxSize {
        ReplaceAll(p);
        return;
      }

      var rest := p;
      while |rest| > 0
        invariant Valid()
        invariant |rest| <= |p| <= maxSize
        invariant rest == p[|p| - |rest|..]
        invariant written == old(written) + p[..|p| - |rest|]
      {
        var chunk := Min(|rest|, if len < maxSize then maxSize - len else maxSize - writePos);
        if len < maxSize {
          Fill(rest[..chunk]);
        } else {
          Overwrite(rest[..chunk]);
        }
        PrefixGrows(p, |p| - |rest|, chunk);
        rest := rest[chunk..];
      }
    }

    /** A write larger than the whole buffer leaves only its tail. */
    method ReplaceAll(p: seq<byte>)
      requires Valid() && |p| > maxSize
      modifies this, buf
      ensures Valid()
      ensures written == old(written) + p
    {
      hide Suffix, Rotated;
      var tail := p[|p| - maxSize..];
      forall i | 0 <= i < maxSize { buf[i] := tail[i]; }
      assert buf[..] == tail;
      TailIsSuffix(written, p, maxSize);
      len, writePos, wrapped := maxSize, 0, true;
      written := written + p;
    }

    /** Appends to a slice that has not reached its capacity. */
    method Fill(chunk: seq<byte>)
      requires Valid()
      requires len < maxSize && len + |chunk| <= maxSize
      modifies this, buf
      ensures Valid()
      ensures len == old(len) + |chunk|
      ensures written == old(written) + chunk
    {
      forall i | 0 <= i < |chunk| { buf[len + i] := chunk[i]; }
      assert buf[..len + |chunk|] == old(buf[..len]) + chunk;
      len := len + |chunk|;
      written := written + chunk;
    }

    /** Overwrites the oldest bytes of a full buffer. */
    method Overwrite(chunk: seq<byte>)
      requires Valid()
      requires len == maxSize && 0 < |chunk| <= maxSize - writePos
      modifies this, buf
      ensures Valid()
      ensures len == old(len)
      ensures written == old(written) + chunk
    {
      ghost var before, w, s := buf[..], writePos, written;
      forall i | 0 <= i < |chunk| { buf[writePos + i] := chunk[i]; }
      writePos := writePos + |chunk|;
      assert buf[..] == before[..w] + chunk + before[w + |chunk|..];
      OverwriteShifts(before, buf[..], w, chunk);
      if !wrapped {
        assert Rotated(before, 0) == before == s;
      }
      ShiftIsSuffix(s, Rotated(before, w), chunk, maxSize);
      if writePos >= maxSize {
        writePos := 0;
        assert Rotated(buf[..], maxSize) == buf[..] == Rotated(buf[..], 0);
      }
      wrapped := true;
      written := written + chunk;
    }

    /** The content in chronological order: the last maxSize bytes written. */
    method String() returns (s: seq<byte>)
      requires Valid()
      ensures s == Suffix(written, maxSize)
      ensures |s| == Min(|written|, maxSize)
    {
      if !wrapped {
        return buf[..len];
      }
      s := buf[writePos..len];
      s := s + buf[..writePos];
    }

    method Wrapped() returns (w: bool)
      requires Valid()
      ensures w <==> |written| > maxSize
    {
      w := wrapped;
    }
  }
}
