/** The Go host's bounded buffer of recent output. */
module RingBuffer {
  import opened Basics

  /** Appending to a full window slides it. */
  lemma LastNSlides(all: Bytes, chunk: Bytes, n: nat)
    requires n <= |all| && |chunk| <= n
    ensures LastN(all + chunk, n) == LastN(all, n)[|chunk|..] + chunk
  {
  }

  lemma TakeMore(before: Bytes, p: Bytes, k: nat, n: nat)
    requires k + n <= |p|
    ensures before + p[..k] + p[k..k + n] == before + p[..k + n]
  {
    assert p[..k] + p[k..k + n] == p[..k + n];
  }

  /** The slice read from its oldest byte. */
  function Turned(s: Bytes, pos: nat): Bytes
    requires pos <= |s|
  {
    s[pos..] + s[..pos]
  }

  /** Overwriting from the oldest byte on drops as many old bytes as it adds new ones. */
  lemma OverwriteSlides(s: Bytes, pos: nat, chunk: Bytes, s': Bytes, next: nat)
    requires pos < |s| && 0 < |chunk| <= |s| - pos
    requires s' == s[..pos] + chunk + s[pos + |chunk|..]
    requires next == if pos + |chunk| == |s| then 0 else pos + |chunk|
    ensures Turned(s', next) == Turned(s, pos)[|chunk|..] + chunk
  {
    var c := |chunk|;
    assert Turned(s, pos)[c..] == s[pos + c..] + s[..pos];
    assert s'[pos + c..] == s[pos + c..] && s'[..pos + c] == s[..pos] + chunk;
  }

  lemma Wraps(a: nat, n: nat)
    requires 0 < n && a <= n
    ensures a % n == if a == n then 0 else a
  {
  }

  class BoundedBuffer {
    const cap: nat
    const buf: array<byte>
    var len: nat
    var pos: nat
    var full: bool
    ghost var written: Bytes

    /** What `String` returns. */
    ghost function Contents(): Bytes
      requires pos <= buf.Length && len <= buf.Length
      reads this, buf
    {
      if full then Turned(buf[..], pos) else buf[..len]
    }

    /** The contents are the last `cap` bytes of everything ever written. */
    ghost predicate Valid()
      reads this, buf
    {
      && 0 < cap == buf.Length && len <= cap && pos < cap
      && (full ==> len == cap)
      && (!full ==> pos == 0 && |written| == len)
      && (len == cap ==> |written| >= cap)
      && Contents() == LastN(written, cap)
    }

    constructor (cap: nat)
      requires cap > 0
      ensures Valid() && this.cap == cap && written == [] && fresh(buf)
    {
      this.cap := cap;
      buf := new byte[cap](_ => 0);
      len, pos, full, written := 0, 0, false, [];
    }

    /** Use free space at the end of the slice. */
    method Append(chunk: Bytes)
      requires Valid() && !full && len + |chunk| <= cap
      modifies this, buf
      ensures Valid() && written == old(written) + chunk && !full && len == old(len) + |chunk|
    {
      forall i | 0 <= i < |chunk| {
        buf[len + i] := chunk[i];
      }
      assert buf[..len] == old(buf[..len]);
      len := len + |chunk|;
      written := written + chunk;
      assert buf[..len] == old(buf[..len]) + chunk;
    }

    /** Go's `copy` into the slice at `at`. */
    method CopyInto(at: nat, chunk: Bytes)
      requires at + |chunk| <= buf.Length
      modifies buf
      ensures buf[..] == old(buf[..])[..at] + chunk + old(buf[..])[at + |chunk|..]
    {
      forall i | 0 <= i < |chunk| {
        buf[at + i] := chunk[i];
      }
    }

    /** Overwrite the oldest bytes from `pos` on, as far as the end of the slice. */
    method Overwrite(chunk: Bytes)
      requires Valid() && len == cap && 0 < |chunk| <= cap - pos
      modifies this, buf
      ensures Valid() && written == old(written) + chunk && full
    {
      ghost var before := buf[..];
      assert Contents() == Turned(before, pos) by {
        assert !full ==> buf[..len] == before && Turned(before, 0) == before;
      }
      LastNSlides(written, chunk, cap);
      CopyInto(pos, chunk);
      Wraps(pos + |chunk|, cap);
      OverwriteSlides(before, pos, chunk, buf[..], (pos + |chunk|) % cap);
      pos := (pos + |chunk|) % cap;
      full := true;
      written := written + chunk;
    }

    /** Room left before old bytes must go. */
    function Free(): nat
      requires len <= cap
      reads this
    {
      if full then 0 else cap - len
    }

    /** One round of the loop: fill free space, then overwrite from the oldest byte. */
    method WriteSome(p: Bytes) returns (taken: nat)
      requires Valid() && p != []
      modifies this, buf
      ensures 0 < taken <= |p| && Valid() && written == old(written) + p[..taken]
    {
      taken := Min(Free(), |p|);
      if taken > 0 {
        Append(p[..taken]);
      }
      if taken == |p| {
        return;
      }
      var copied := Min(cap - pos, |p| - taken);
      TakeMore(old(written), p, taken, copied);
      Overwrite(p[taken..taken + copied]);
      taken := taken + copied;
    }

    /** Always reports the whole input, however much of it is kept. */
    method Write(p: Bytes) returns (n: nat)
      requires Valid()
      modifies this, buf
      ensures Valid() && n == |p| && written == old(written) + p
    {
      n := |p|;
      var k := 0;
      while k < |p|
        invariant 0 <= k <= |p|
        invariant Valid() && written == old(written) + p[..k]
        decreases |p| - k
      {
        var taken := WriteSome(p[k..]);
        assert p[..k] + p[k..][..taken] == p[..k + taken];
        k := k + taken;
      }
      assert p[..|p|] == p;
    }

    /** The last `min(cap, total)` bytes of all writes, in order. */
    method String() returns (s: Bytes)
      requires Valid()
      ensures s == LastN(written, cap) && |s| == Min(cap, |written|)
    {
      if !full {
        return buf[..len];
      }
      s := buf[pos..] + buf[..pos];
      assert s == Turned(buf[..], pos);
    }
  }
}
