/**
  The scull pipe device: what each file operation does to it while it holds the
  semaphore. Waiting for the semaphore, for data and for room is in PipeProtocol.
 */
module ScullPipe {
  import opened Arith
  import opened Bytes
  import opened PipeRing

  datatype Result = Ok(n: nat) | Again | Fault | NoMem

  class Device {
    var buffer: array?<Byte>    // null while nobody has the device open
    var buffersize: nat
    var rp: nat                 // offsets into the buffer
    var wp: nat
    var nreaders: int
    var nwriters: int

    // since the last open: bytes accepted by writes, bytes returned by reads
    ghost var accepted: seq<Byte>
    ghost var delivered: seq<Byte>

    ghost predicate Attached()
      reads this, buffer
    {
      buffer != null && buffer.Length == buffersize && rp < buffersize && wp < buffersize
    }

    ghost function Abs(): (r: Ring)
      requires Attached()
      reads this, buffer
      ensures r.Valid()
    {
      Ring(buffer[..], rp, wp)
    }

    /** First in, first out: what was delivered and what is still held is what was accepted. */
    ghost predicate Valid()
      reads this, buffer
    {
      buffer != null ==> Attached() && accepted == delivered + Abs().Contents()
    }

    constructor ()
      ensures Valid() && buffer == null && nreaders == 0 && nwriters == 0
    {
      buffer, buffersize, rp, wp, nreaders, nwriters := null, 0, 0, 0, 0, 0;
      accepted, delivered := [], [];
    }

    /** Every open, also a second one, empties the pipe: a new epoch. */
    method Open(size: nat, read: bool, write: bool, haveMemory: bool) returns (res: Result)
      requires Valid() && 0 < size
      requires buffer != null ==> buffersize == size
      modifies this
      ensures Valid()
      ensures res == if old(buffer) == null && !haveMemory then NoMem else Ok(0)
      ensures res.NoMem? ==> buffer == null && nreaders == old(nreaders) && nwriters == old(nwriters)
      ensures res.Ok? ==>
                && buffer != null && buffersize == size && rp == wp == 0
                && (old(buffer) != null ==> buffer == old(buffer)) && (old(buffer) == null ==> fresh(buffer))
                && accepted == delivered == []
                && nreaders == old(nreaders) + (if read then 1 else 0)
                && nwriters == old(nwriters) + (if write then 1 else 0)
    {
      if buffer == null {
        if !haveMemory {
          return NoMem;
        }
        buffer := new Byte[size](_ => 0);
      }
      buffersize := size;
      rp, wp := 0, 0;
      accepted, delivered := [], [];
      if read {
        nreaders := nreaders + 1;
      }
      if write {
        nwriters := nwriters + 1;
      }
      return Ok(0);
    }

    /** The buffer goes with the last opener. */
    method Release(read: bool, write: bool)
      requires Valid()
      modifies this
      ensures Valid()
      ensures nreaders == old(nreaders) - (if read then 1 else 0)
      ensures nwriters == old(nwriters) - (if write then 1 else 0)
      ensures buffer == if nreaders + nwriters == 0 then null else old(buffer)
      ensures rp == old(rp) && wp == old(wp) && buffersize == old(buffersize)
      ensures accepted == old(accepted) && delivered == old(delivered)
    {
      if read {
        nreaders := nreaders - 1;
      }
      if write {
        nwriters := nwriters - 1;
      }
      if nreaders + nwriters == 0 {
        buffer := null;
      }
    }

    /** read with O_NONBLOCK, or any read once data is there. */
    method Read(count: nat, copyFails: bool) returns (res: Result, data: seq<Byte>)
      requires Valid() && buffer != null
      modifies this
      ensures Valid() && buffer == old(buffer) && accepted == old(accepted)
      ensures res.Again? <==> old(rp) == old(wp)
      ensures res.Fault? <==> old(rp) != old(wp) && copyFails
      ensures !res.NoMem?
      ensures !res.Ok? ==> Abs() == old(Abs()) && delivered == old(delivered)
      ensures res.Ok? ==>
                && res.n == |data| == old(Abs()).ReadCount(count) && Abs() == old(Abs()).AfterRead(res.n)
                && data == old(Abs().Contents())[..res.n] && Abs().Contents() == old(Abs().Contents())[res.n..]
                && delivered == old(delivered) + data
                && (0 < count ==> 0 < res.n)
    {
      data := [];
      if rp == wp {
        return Again, [];
      }
      var n := Available(count);
      if copyFails {
        return Fault, [];
      }
      data := DeliverBytes(n);
      return Ok(n), data;
    }

    /** The count is cut to what lies before the write position or the end of the buffer. */
    method Available(count: nat) returns (n: nat)
      requires Valid() && buffer != null && rp != wp
      ensures n == Abs().ReadCount(count) && n <= |Abs().Contents()| && (0 < count ==> 0 < n)
      ensures rp + n <= buffersize && (rp < wp ==> rp + n <= wp)
    {
      ReadFits(Abs(), count);
      if wp > rp {
        n := Min(count, wp - rp);
      } else {
        n := Min(count, buffersize - rp);
      }
    }

    /** The bytes at the read position go out, and it wraps at the end of the buffer. */
    method DeliverBytes(n: nat) returns (data: seq<Byte>)
      requires Valid() && buffer != null && rp != wp
      requires rp + n <= buffersize && (rp < wp ==> rp + n <= wp)
      modifies `rp, `delivered
      ensures Valid() && Abs() == old(Abs()).AfterRead(n) && n <= |old(Abs().Contents())|
      ensures data == old(Abs().Contents())[..n] && Abs().Contents() == old(Abs().Contents())[n..]
      ensures delivered == old(delivered) + data
    {
      ghost var r := Abs();
      ReadTakesPrefix(r, n);
      ReadKeepsOrder(delivered, r.Contents(), n);
      data := buffer[rp..rp + n];
      delivered := delivered + data;
      rp := rp + n;
      if rp == buffersize {
        rp := 0;
      }
      assert Abs() == r.AfterRead(n);
    }

    /** copy_from_user: k bytes arrive; all of them unless it fails. */
    method CopyIn(data: seq<Byte>)
      requires buffer != null && wp + |data| <= buffer.Length
      modifies buffer
      ensures buffer[..] == old(buffer[..wp]) + data + old(buffer[wp + |data|..])
    {
      var i := 0;
      while i < |data|
        invariant 0 <= i <= |data|
        invariant buffer[..] == old(buffer[..wp]) + data[..i] + old(buffer[wp + i..])
      {
        buffer[wp + i] := data[i];
        i := i + 1;
      }
      assert data[..|data|] == data;
    }

    /** write with O_NONBLOCK, or any write once there is room; a failing copy may still have
        scribbled over free space. */
    method Write(data: seq<Byte>, copyFails: bool, copied: nat) returns (res: Result)
      requires Valid() && buffer != null
      modifies this, buffer
      ensures Valid() && buffer == old(buffer) && delivered == old(delivered)
      ensures res.Again? <==> SpaceFree(old(buffersize), old(rp), old(wp)) == 0
      ensures res.Fault? <==> !res.Again? && copyFails
      ensures !res.NoMem?
      ensures !res.Ok? ==> rp == old(rp) && wp == old(wp) && Abs().Contents() == old(Abs().Contents())
                           && accepted == old(accepted)
      ensures res.Ok? ==>
                && res.n == old(Abs()).WriteCount(|data|) && Abs() == old(Abs()).AfterWrite(data[..res.n])
                && Abs().Contents() == old(Abs().Contents()) + data[..res.n]
                && accepted == old(accepted) + data[..res.n]
                && (data != [] ==> 0 < res.n) && (0 < res.n ==> rp != wp)
    {
      ghost var r := Abs();
      SpaceConserved(r);
      if SpaceFree(buffersize, rp, wp) == 0 {
        return Again;
      }
      WriteAppends(r, data);
      var n := Min(|data|, SpaceFree(buffersize, rp, wp));
      if wp >= rp {
        n := Min(n, buffersize - wp);
      } else {
        n := Min(n, rp - wp - 1);
      }
      if copyFails {
        Scribble(data[..Min(n, copied)]);
        return Fault;
      }
      AcceptBytes(data[..n]);
      return Ok(n);
    }

    /** A copy that fails half-way leaves bytes in free space, where nobody sees them. */
    method Scribble(d: seq<Byte>)
      requires Valid() && buffer != null && wp + |d| <= buffersize
      requires |d| <= SpaceFree(buffersize, rp, wp) && (wp < rp ==> wp + |d| < rp)
      modifies buffer
      ensures Valid() && Abs().Contents() == old(Abs().Contents())
    {
      ghost var r := Abs();
      ScribbleUnseen(r, d);
      CopyIn(d);
      assert Abs() == r.(buf := r.AfterWrite(d).buf);
    }

    /** The bytes go in behind the write position, which wraps at the end of the buffer. */
    method AcceptBytes(d: seq<Byte>)
      requires Valid() && buffer != null && wp + |d| <= buffersize
      requires Abs().AfterWrite(d).Valid() && Abs().AfterWrite(d).Contents() == Abs().Contents() + d
      modifies `wp, `accepted, buffer
      ensures Valid() && Abs() == old(Abs()).AfterWrite(d) && accepted == old(accepted) + d
    {
      ghost var r := Abs();
      WriteKeepsOrder(delivered, r.Contents(), d);
      CopyIn(d);
      accepted := accepted + d;
      wp := wp + |d|;
      if wp == buffersize {
        wp := 0;
      }
      assert Abs() == r.AfterWrite(d);
    }

    /** poll: readable and writable, exactly as read and write would find it. */
    method Poll() returns (readable: bool, writable: bool)
      requires Valid() && buffer != null
      ensures readable <==> Abs().Contents() != []
      ensures writable <==> |Abs().Contents()| < buffersize - 1
    {
      SpaceConserved(Abs());
      readable := rp != wp;
      writable := SpaceFree(buffersize, rp, wp) != 0;
    }
  }

  /** Bytes written into free space behind the write position are not seen. */
  lemma ScribbleUnseen(r: Ring, d: seq<Byte>)
    requires r.Valid() && |d| <= SpaceFree(|r.buf|, r.rp, r.wp) && r.wp + |d| <= |r.buf|
    requires r.wp < r.rp ==> r.wp + |d| < r.rp
    ensures var q := r.(buf := r.AfterWrite(d).buf); q.Valid() && q.Contents() == r.Contents()
  {
    var q := r.(buf := r.AfterWrite(d).buf);
    assert q.buf[..r.wp] == r.buf[..r.wp];
    if r.wp < r.rp {
      assert q.buf[r.rp..] == r.buf[r.rp..];
    } else {
      assert q.buf[r.rp..r.wp] == r.buf[r.rp..r.wp];
    }
  }
}
