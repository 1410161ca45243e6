/**
  The device does what the protocol's steps inside the semaphore say: for every such step
  of an open, a read or a write, the file operation makes the same change.
 */
module PipeDevice {
  import opened Bytes
  import opened PipeRing
  import opened PipeProtocol
  import opened ScullPipe

  /** The device is in protocol state s. Bytes in free space may differ: nobody sees them. */
  ghost predicate Matches(d: Device, s: State)
    reads d, d.buffer
  {
    && d.Valid() && d.buffer != null && WellFormed(s)
    && SameSeen(d.Abs(), s.ring) && d.accepted == s.accepted && d.delivered == s.delivered
  }

  ghost predicate SameSeen(a: Ring, b: Ring)
    requires a.Valid() && b.Valid()
  {
    |a.buf| == |b.buf| && a.rp == b.rp && a.wp == b.wp && a.Contents() == b.Contents()
  }

  lemma SameAfterRead(a: Ring, b: Ring, count: nat)
    requires a.Valid() && b.Valid() && SameSeen(a, b) && a.rp != a.wp
    ensures var n := a.ReadCount(count);
            && n == b.ReadCount(count) && 0 <= n <= |a.Contents()| && b.rp + n <= |b.buf|
            && a.AfterRead(n).Valid() && b.AfterRead(n).Valid() && SameSeen(a.AfterRead(n), b.AfterRead(n))
            && b.buf[b.rp..b.rp + n] == a.Contents()[..n]
  {
    ReadFits(a, count);
    ReadTakesPrefix(a, a.ReadCount(count));
    ReadTakesPrefix(b, a.ReadCount(count));
  }

  lemma SameAfterWrite(a: Ring, b: Ring, data: seq<Byte>)
    requires a.Valid() && b.Valid() && SameSeen(a, b) && SpaceFree(|a.buf|, a.rp, a.wp) > 0
    ensures var n := a.WriteCount(|data|);
            && n == b.WriteCount(|data|) && 0 <= n <= |data| && b.wp + n <= |b.buf|
            && a.AfterWrite(data[..n]).Valid() && b.AfterWrite(data[..n]).Valid()
            && SameSeen(a.AfterWrite(data[..n]), b.AfterWrite(data[..n]))
  {
    WriteAppends(a, data);
    WriteAppends(b, data);
  }

  /** What a read in the semaphore comes to. */
  ghost function AfterTake(s: State, t: nat, count: nat, nb: bool, copyFails: bool): State
    requires WellFormed(s) && t < |s.pcs|
  {
    if s.ring.rp == s.ring.wp then s.At(t, RUp(count, nb))
    else if copyFails then s.At(t, FailUp)
    else
      ReadFits(s.ring, count);
      var n := s.ring.ReadCount(count);
      s.At(t, RUnlock).(ring := s.ring.AfterRead(n), delivered := s.delivered + s.ring.buf[s.ring.rp..s.ring.rp + n])
  }

  /** It is a step, and the only one but for whether the copy fails. */
  lemma TakeIsOnly(s: State, t: nat, count: nat, nb: bool, copyFails: bool, q: State)
    requires WellFormed(s) && t < |s.pcs| && s.pcs[t] == RTop(count, nb)
    ensures OwnStep(s, t, q) && (s.ring.rp != s.ring.wp ==> (q.pcs[t].FailUp? <==> copyFails))
            <==> q == AfterTake(s, t, count, nb, copyFails)
  {
    if s.ring.rp != s.ring.wp {
      ReadFits(s.ring, count);
    }
  }

  ghost function AfterPut(s: State, t: nat, data: seq<Byte>, nb: bool, copyFails: bool): State
    requires WellFormed(s) && t < |s.pcs|
  {
    SpaceConserved(s.ring);
    if s.Free() == 0 then s.At(t, WUp(data, nb))
    else if copyFails then s.At(t, FailUp)
    else
      WriteAppends(s.ring, data);
      var n := s.ring.WriteCount(|data|);
      s.At(t, WUnlock).(ring := s.ring.AfterWrite(data[..n]), accepted := s.accepted + data[..n])
  }

  lemma PutIsOnly(s: State, t: nat, data: seq<Byte>, nb: bool, copyFails: bool, q: State)
    requires WellFormed(s) && t < |s.pcs| && s.pcs[t] == WTop(data, nb)
    ensures OwnStep(s, t, q) && (s.Free() != 0 ==> (q.pcs[t].FailUp? <==> copyFails))
            <==> q == AfterPut(s, t, data, nb, copyFails)
  {
    SpaceConserved(s.ring);
    assert OwnStep(s, t, q) <==> WriteStep(s, t, q);
    if s.Free() != 0 {
      WriteAppends(s.ring, data);
      PutSteps(s, t, data, nb, q);
    }
  }

  lemma PutSteps(s: State, t: nat, data: seq<Byte>, nb: bool, q: State)
    requires WellFormed(s) && t < |s.pcs| && s.pcs[t] == WTop(data, nb) && s.Free() > 0
    ensures var n := s.ring.WriteCount(|data|);
            && 0 <= n <= |data| && s.ring.wp + n <= |s.ring.buf|
            && (WriteStep(s, t, q) <==>
                  || q == s.At(t, FailUp)
                  || q == s.At(t, WUnlock).(ring := s.ring.AfterWrite(data[..n]), accepted := s.accepted + data[..n]))
  {
    WriteAppends(s.ring, data);
  }

  lemma TakeStillOk(s: State, t: nat, n: nat)
    requires WellFormed(s) && t < |s.pcs| && s.ring.rp != s.ring.wp
    requires s.ring.rp + n <= |s.ring.buf| && (s.ring.rp < s.ring.wp ==> s.ring.rp + n <= s.ring.wp)
    ensures WellFormed(s.At(t, RUnlock).(ring := s.ring.AfterRead(n),
                                         delivered := s.delivered + s.ring.buf[s.ring.rp..s.ring.rp + n]))
  {
    ReadTakesPrefix(s.ring, n);
    ReadKeepsOrder(s.delivered, s.ring.Contents(), n);
  }

  lemma TakeMatches(a: Ring, s: State, t: nat, count: nat, nb: bool, copyFails: bool)
    requires a.Valid() && WellFormed(s) && t < |s.pcs| && SameSeen(a, s.ring)
    ensures WellFormed(AfterTake(s, t, count, nb, copyFails))
    ensures var s' := AfterTake(s, t, count, nb, copyFails);
            if s.ring.rp == s.ring.wp || copyFails then s'.ring == s.ring && s'.delivered == s.delivered
            else
              var n := a.ReadCount(count);
              && 0 <= n <= |a.Contents()| && a.rp + n <= |a.buf| && a.AfterRead(n).Valid()
              && SameSeen(a.AfterRead(n), s'.ring) && s'.delivered == s.delivered + a.Contents()[..n]
  {
    if s.ring.rp != s.ring.wp {
      SameAfterRead(a, s.ring, count);
      ReadFits(s.ring, count);
      TakeStillOk(s, t, s.ring.ReadCount(count));
    }
  }

  /** The read of a process that holds the semaphore makes exactly that step. */
  method ReadIsStep(d: Device, ghost s: State, ghost t: nat, count: nat, ghost nb: bool, copyFails: bool)
    returns (res: Result, data: seq<Byte>, ghost s': State)
    requires Matches(d, s) && t < |s.pcs| && s.pcs[t] == RTop(count, nb)
    modifies d
    ensures Matches(d, s') && s' == AfterTake(s, t, count, nb, copyFails)
    ensures forall q: State :: OwnStep(s, t, q) && (s.ring.rp != s.ring.wp ==> (q.pcs[t].FailUp? <==> copyFails))
                               <==> q == s'
    ensures res.Again? <==> s'.pcs[t].RUp?
    ensures res.Ok? ==> s'.delivered == s.delivered + data
  {
    s' := AfterTake(s, t, count, nb, copyFails);
    TakeMatches(d.Abs(), s, t, count, nb, copyFails);
    forall q: State
      ensures OwnStep(s, t, q) && (s.ring.rp != s.ring.wp ==> (q.pcs[t].FailUp? <==> copyFails)) <==> q == s'
    {
      TakeIsOnly(s, t, count, nb, copyFails, q);
    }
    res, data := d.Read(count, copyFails);
  }

  lemma PutMatches(a: Ring, s: State, t: nat, data: seq<Byte>, nb: bool, copyFails: bool)
    requires a.Valid() && WellFormed(s) && t < |s.pcs| && SameSeen(a, s.ring)
    ensures WellFormed(AfterPut(s, t, data, nb, copyFails))
    ensures var s' := AfterPut(s, t, data, nb, copyFails);
            if s.Free() == 0 || copyFails then s'.ring == s.ring && s'.accepted == s.accepted
            else
              var n := a.WriteCount(|data|);
              && 0 <= n <= |data| && a.wp + n <= |a.buf| && a.AfterWrite(data[..n]).Valid()
              && SameSeen(a.AfterWrite(data[..n]), s'.ring) && s'.accepted == s.accepted + data[..n]
  {
    SpaceConserved(s.ring);
    if s.Free() != 0 {
      SameAfterWrite(a, s.ring, data);
      WriteAppends(s.ring, data);
      WriteKeepsOrder(s.delivered, s.ring.Contents(), data[..s.ring.WriteCount(|data|)]);
    }
  }

  /** So does its write. */
  method WriteIsStep(d: Device, ghost s: State, ghost t: nat, data: seq<Byte>, ghost nb: bool, copyFails: bool,
                     copied: nat)
    returns (res: Result, ghost s': State)
    requires Matches(d, s) && t < |s.pcs| && s.pcs[t] == WTop(data, nb)
    modifies d, d.buffer
    ensures Matches(d, s') && s' == AfterPut(s, t, data, nb, copyFails)
    ensures forall q: State :: OwnStep(s, t, q) && (s.Free() != 0 ==> (q.pcs[t].FailUp? <==> copyFails)) <==> q == s'
    ensures res.Again? <==> s'.pcs[t].WUp?
    ensures res.Ok? ==> res.n <= |data| && s'.accepted == s.accepted + data[..res.n]
  {
    s' := AfterPut(s, t, data, nb, copyFails);
    PutMatches(d.Abs(), s, t, data, nb, copyFails);
    forall q: State
      ensures OwnStep(s, t, q) && (s.Free() != 0 ==> (q.pcs[t].FailUp? <==> copyFails)) <==> q == s'
    {
      PutIsOnly(s, t, data, nb, copyFails, q);
    }
    res := d.Write(data, copyFails, copied);
  }

  /** So does its open, of a device that has its buffer. */
  method OpenIsStep(d: Device, ghost s: State, ghost t: nat, read: bool, write: bool)
    returns (res: Result, ghost s': State)
    requires Matches(d, s) && t < |s.pcs| && s.pcs[t].OTop?
    modifies d
    ensures Matches(d, s') && res.Ok?
    ensures forall q: State :: OwnStep(s, t, q) <==> q == s'
  {
    res := d.Open(d.buffersize, read, write, true);
    s' := s.At(t, OUp).(ring := s.ring.(rp := 0, wp := 0), accepted := [], delivered := []);
    assert s'.ring.Contents() == [] && d.Abs().Contents() == [];
  }
}
