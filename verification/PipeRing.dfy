/**
  The circular buffer of the scull pipe: a byte array with a read and a write
  position, one slot always left free so that equal positions mean empty.
 */
module PipeRing {
  import opened Arith
  import opened Bytes

  /** The buffer as a value; positions are offsets from its start. */
  datatype Ring = Ring(buf: seq<Byte>, rp: nat, wp: nat)
  {
    ghost predicate Valid() {
      rp < |buf| && wp < |buf|
    }

    /** What is in the pipe, oldest byte first. */
    ghost function Contents(): (c: seq<Byte>)
      requires Valid()
      ensures |c| == if rp <= wp then wp - rp else wp + |buf| - rp
    {
      if rp <= wp then buf[rp..wp] else buf[rp..] + buf[..wp]
    }

    /** How many bytes one read of count bytes returns. */
    function ReadCount(count: nat): int {
      if wp > rp then Min(count, wp - rp) else Min(count, |buf| - rp)
    }

    /** How many bytes one write of count bytes accepts. */
    function WriteCount(count: nat): int
      requires 0 < |buf|
    {
      var n := Min(count, SpaceFree(|buf|, rp, wp));
      if wp >= rp then Min(n, |buf| - wp) else Min(n, rp - wp - 1)
    }

    function AfterRead(n: nat): Ring
      requires Valid() && rp + n <= |buf|
    {
      this.(rp := if rp + n == |buf| then 0 else rp + n)
    }

    function AfterWrite(data: seq<Byte>): Ring
      requires Valid() && wp + |data| <= |buf|
    {
      this.(buf := buf[..wp] + data + buf[wp + |data|..],
            wp := if wp + |data| == |buf| then 0 else wp + |data|)
    }
  }

  /** The source's spacefree, on the two positions. */
  function SpaceFree(size: nat, rp: nat, wp: nat): int
    requires 0 < size
  {
    if rp == wp then size - 1 else (rp + size - wp) % size - 1
  }

  /** Used and free space always add up to one byte less than the buffer. */
  lemma SpaceConserved(r: Ring)
    requires r.Valid()
    ensures |r.Contents()| + SpaceFree(|r.buf|, r.rp, r.wp) == |r.buf| - 1
    ensures SpaceFree(|r.buf|, r.rp, r.wp) >= 0
    ensures |r.Contents()| == 0 <==> r.rp == r.wp
  {
    ModWraps(r.rp + |r.buf| - r.wp, |r.buf|);
  }

  lemma ModWraps(x: int, n: nat)
    requires 0 < x < 2 * n
    ensures x % n == if x < n then x else x - n
  {
    if x >= n {
      assert x == n + (x - n) && (x - n) % n == x - n;
    }
  }

  /** How much a read takes: at least one byte if there is one and one is asked for. */
  lemma ReadFits(r: Ring, count: nat)
    requires r.Valid() && r.rp != r.wp
    ensures var n := r.ReadCount(count);
            && 0 <= n <= count && n <= |r.Contents()| && (0 < count ==> 0 < n) && r.rp + n <= |r.buf|
            && (r.rp < r.wp ==> r.rp + n <= r.wp)
  {
  }

  /** Taking n bytes from the read position removes exactly the n oldest. */
  lemma ReadTakesPrefix(r: Ring, n: nat)
    requires r.Valid() && r.rp != r.wp && r.rp + n <= |r.buf| && (r.rp < r.wp ==> r.rp + n <= r.wp)
    ensures n <= |r.Contents()| && r.buf[r.rp..r.rp + n] == r.Contents()[..n]
    ensures r.AfterRead(n).Valid() && r.AfterRead(n).Contents() == r.Contents()[n..]
  {
    var c, q := r.Contents(), r.AfterRead(n);
    if r.rp > r.wp {
      SliceTake(r.buf, r.rp, |r.buf|, n);
      assert c == r.buf[r.rp..|r.buf|] + r.buf[..r.wp];
      TakeFromFirst(r.buf[r.rp..|r.buf|], r.buf[..r.wp], n);
      assert q.Contents() == r.buf[r.rp + n..|r.buf|] + r.buf[..r.wp];
    } else {
      SliceTake(r.buf, r.rp, r.wp, n);
    }
  }

  lemma SliceTake(b: seq<Byte>, lo: nat, hi: nat, n: nat)
    requires lo + n <= hi <= |b|
    ensures b[lo..lo + n] == b[lo..hi][..n] && b[lo + n..hi] == b[lo..hi][n..]
  {
  }

  lemma TakeFromFirst(a: seq<Byte>, b: seq<Byte>, n: nat)
    requires n <= |a|
    ensures (a + b)[..n] == a[..n] && (a + b)[n..] == a[n..] + b
  {
  }

  /** A read stops short only at the end of the contents or of the buffer. */
  lemma ReadsAllItCan(r: Ring, count: nat)
    requires r.Valid() && r.rp != r.wp
    ensures var n := r.ReadCount(count);
            && 0 <= n <= count && n <= |r.Contents()| && r.rp + n <= |r.buf|
            && (n == count || n == |r.Contents()| || r.rp + n == |r.buf|)
  {
  }

  /** A write takes all its data, or the whole free stretch in front of it: up to the end of the buffer, or up to
      the byte that stays free behind the contents. */
  lemma WritesAllItCan(r: Ring, data: seq<Byte>)
    requires r.Valid() && SpaceFree(|r.buf|, r.rp, r.wp) > 0
    ensures var n := r.WriteCount(|data|);
            && 0 <= n <= |data| && n <= SpaceFree(|r.buf|, r.rp, r.wp) && r.wp + n <= |r.buf|
            && (n == |data| || n == SpaceFree(|r.buf|, r.rp, r.wp) || r.wp + n == |r.buf|)
            && SpaceFree(|r.buf|, r.rp, r.wp) == |r.buf| - 1 - |r.Contents()|
  {
    SpaceConserved(r);
    WriteAppends(r, data);
  }

  /** Two reads are enough to empty the pipe, wherever its contents lie. */
  lemma TwoReadsEmpty(r: Ring)
    requires r.Valid() && r.rp != r.wp
    ensures var q := r.AfterRead(r.ReadCount(|r.buf|));
            && q.Valid()
            && (q.rp != q.wp ==> var p := q.AfterRead(q.ReadCount(|r.buf|)); p.Valid() && p.Contents() == [])
  {
    ReadTakesPrefix(r, r.ReadCount(|r.buf|));
  }

  /** A write accepts as much of its data as fits before the end of the buffer, at least one byte
      if there is room, appends exactly that, and never makes a full buffer look empty. */
  lemma WriteAppends(r: Ring, data: seq<Byte>)
    requires r.Valid() && SpaceFree(|r.buf|, r.rp, r.wp) > 0
    ensures var n := r.WriteCount(|data|);
            && 0 <= n <= |data| && (data != [] ==> 0 < n) && r.wp + n <= |r.buf|
            && n <= SpaceFree(|r.buf|, r.rp, r.wp)
            && r.AfterWrite(data[..n]).Valid()
            && r.AfterWrite(data[..n]).Contents() == r.Contents() + data[..n]
            && (n > 0 ==> r.AfterWrite(data[..n]).rp != r.AfterWrite(data[..n]).wp)
  {
    ModWraps(r.rp + |r.buf| - r.wp, |r.buf|);
    var n := r.WriteCount(|data|);
    var q := r.AfterWrite(data[..n]);
    WriteMoves(r, data[..n]);
  }

  lemma WriteMoves(r: Ring, d: seq<Byte>)
    requires r.Valid() && r.wp + |d| <= |r.buf|
    requires r.wp < r.rp ==> r.wp + |d| < r.rp
    requires r.wp >= r.rp && r.wp + |d| == |r.buf| ==> 0 < r.rp
    ensures r.AfterWrite(d).Valid()
    ensures r.AfterWrite(d).Contents() == r.Contents() + d
  {
    var q := r.AfterWrite(d);
    if r.wp < r.rp {
      Overwritten(r.buf, r.wp, d, 0, r.rp);
      assert q.Contents() == r.buf[r.rp..] + (r.buf[..r.wp] + d);
      WriteKeepsOrder(r.buf[r.rp..], r.buf[..r.wp], d);
    } else {
      Overwritten(r.buf, r.wp, d, r.rp, |r.buf|);
      assert q.Contents() == r.buf[r.rp..r.wp] + d;
    }
  }

  /** What overwriting a stretch does to the stretch before it, to itself, and to what follows. */
  lemma Overwritten(b: seq<Byte>, at: nat, d: seq<Byte>, lo: nat, hi: nat)
    requires lo <= at && at + |d| <= hi <= |b|
    ensures var after := b[..at] + d + b[at + |d|..];
            after[lo..at + |d|] == b[lo..at] + d && after[hi..] == b[hi..] && |after| == |b|
  {
  }

  // ----- first in, first out -----

  lemma ReadKeepsOrder(done: seq<Byte>, c: seq<Byte>, n: nat)
    requires n <= |c|
    ensures (done + c[..n]) + c[n..] == done + c
  {
  }

  lemma WriteKeepsOrder(done: seq<Byte>, c: seq<Byte>, d: seq<Byte>)
    ensures (done + c) + d == done + (c + d)
  {
  }
}
