/**
  The calls of read and write step by step: what each place reached says about the call so far.
 */
module PipeCalls {
  import opened Bytes
  import opened PipeRing
  import opened PipeProtocol
  import opened PipeRuns

  // ----- the places of one call -----

  /** Process pc is in a read of count bytes; only a read that may block gets to the queue. */
  ghost predicate InRead(pc: Pc, count: nat, nb: bool) {
    || pc == RDown(count, nb) || pc == RTop(count, nb) || pc == RUp(count, nb)
    || pc.RUnlock? || pc.RWake? || pc.FailUp?
    || (!nb && InReadQueue(pc) && pc.count == count)
  }

  /** Checking, queueing, sleeping. */
  ghost predicate InReadQueue(pc: Pc) {
    pc.RTest? || pc.RPrep? || pc.RRecheck? || pc.RHaveRp? || pc.RHaveWp? || pc.RSleep? || pc.RFinish?
  }

  ghost predicate InWrite(pc: Pc, data: seq<Byte>, nb: bool) {
    || pc == WDown(data, nb) || pc == WTop(data, nb) || pc == WUp(data, nb)
    || pc.WUnlock? || pc.WWake? || pc.FailUp?
    || (!nb && InWriteQueue(pc) && pc.data == data)
  }

  ghost predicate InWriteQueue(pc: Pc) {
    pc.WPrep? || pc.WRecheck? || pc.WHaveRp? || pc.WHaveWp? || pc.WSleep? || pc.WFinish?
  }

  // ----- what one step of a call can be -----

  /** The oldest bytes are handed over: at least one if one was asked for. */
  ghost predicate Takes(s: State, t: nat, s': State, count: nat) {
    var n := |s'.delivered| - |s.delivered|;
    && WellFormed(s) && t < |s.pcs| && s.pcs[t].RTop? && s.ring.rp != s.ring.wp
    && 0 <= n <= count && (0 < count ==> 0 < n) && s.ring.rp + n <= |s.ring.buf|
    && s'.delivered == s.delivered + s.ring.buf[s.ring.rp..s.ring.rp + n]
  }

  /** Bytes are accepted: at least one if there was one to write. */
  ghost predicate Puts(s: State, t: nat, s': State, data: seq<Byte>) {
    var n := |s'.accepted| - |s.accepted|;
    && WellFormed(s) && t < |s.pcs| && s.pcs[t].WTop? && s.Free() > 0
    && 0 <= n <= |data| && (data != [] ==> 0 < n) && s'.accepted == s.accepted + data[..n]
  }

  ghost predicate FindsEmpty(s: State, t: nat) {
    t < |s.pcs| && s.pcs[t].RTop? && s.ring.rp == s.ring.wp
  }

  ghost predicate FindsFull(s: State, t: nat) {
    s.ring.Valid() && t < |s.pcs| && s.pcs[t].WTop? && s.Free() == 0
  }

  /** The copy to or from the caller fails, with data, or room, at hand. */
  ghost predicate CopyFails(s: State, t: nat, s': State) {
    && s.ring.Valid() && t < |s.pcs| == |s'.pcs| && s'.pcs[t].FailUp?
    && ((s.pcs[t].RTop? && s.ring.rp != s.ring.wp) || (s.pcs[t].WTop? && s.Free() != 0))
  }

  /** A signal ends the call: waiting for the semaphore, or in the queue. */
  ghost predicate Interrupted(pc: Pc) {
    pc.RDown? || (pc.RFinish? && pc.interrupted) || pc.WDown? || pc.WFinish?
  }

  /** What a step within a read can be. */
  ghost predicate ReadGoesOn(s: State, t: nat, s': State, count: nat, nb: bool)
    requires t < |s.pcs|
  {
    && |s'.pcs| == |s.pcs|
    && var pc, pc' := s.pcs[t], s'.pcs[t];
       && (pc'.Idle? || InRead(pc', count, nb))
       && (pc'.Idle? ==> Interrupted(pc) || (pc.RUp? && nb) || pc.RWake? || pc.FailUp?)
       && (pc'.RUnlock? ==> pc.RUnlock? || Takes(s, t, s', count))
       && (pc'.RWake? ==> pc.RWake? || pc.RUnlock?)
       && (pc'.FailUp? ==> pc.FailUp? || CopyFails(s, t, s'))
       && (pc'.RUp? ==> pc.RUp? || FindsEmpty(s, t))
  }

  ghost predicate WriteGoesOn(s: State, t: nat, s': State, data: seq<Byte>, nb: bool)
    requires t < |s.pcs|
  {
    && |s'.pcs| == |s.pcs|
    && var pc, pc' := s.pcs[t], s'.pcs[t];
       && (pc'.Idle? || InWrite(pc', data, nb))
       && (pc'.Idle? ==> Interrupted(pc) || (pc.WUp? && nb) || pc.WWake? || pc.FailUp?)
       && (pc'.WUnlock? ==> pc.WUnlock? || Puts(s, t, s', data))
       && (pc'.WWake? ==> pc.WWake? || pc.WUnlock?)
       && (pc'.FailUp? ==> pc.FailUp? || CopyFails(s, t, s'))
       && (pc'.WUp? ==> pc.WUp? || FindsFull(s, t))
  }

  lemma ReadTopStep(s: State, t: nat, s': State, count: nat, nb: bool)
    requires WellFormed(s) && t < |s.pcs| && s.pcs[t] == RTop(count, nb) && ReadStep(s, t, s')
    ensures ReadGoesOn(s, t, s', count, nb)
  {
    if s.ring.rp != s.ring.wp {
      ReadFits(s.ring, count);
    }
  }

  lemma ReadOtherStep(s: State, t: nat, s': State, count: nat, nb: bool)
    requires WellFormed(s) && t < |s.pcs| && InRead(s.pcs[t], count, nb) && !s.pcs[t].RTop? && ReadStep(s, t, s')
    ensures ReadGoesOn(s, t, s', count, nb)
  {
  }

  lemma ReadCallStep(s: State, t: nat, s': State, count: nat, nb: bool)
    requires WellFormed(s) && t < |s.pcs| && InRead(s.pcs[t], count, nb) && Step(s, t, s')
    ensures ReadGoesOn(s, t, s', count, nb)
  {
    if ReadStep(s, t, s') {
      if s.pcs[t].RTop? {
        ReadTopStep(s, t, s', count, nb);
      } else {
        ReadOtherStep(s, t, s', count, nb);
      }
    } else {
      assert OtherStep(s, t, s');
      if s' == s.(running := s.running[t := true]) {
        ReadStays(s, t, s', count, nb);
      }
    }
  }

  lemma ReadStays(s: State, t: nat, s': State, count: nat, nb: bool)
    requires t < |s.pcs| && InRead(s.pcs[t], count, nb) && s'.pcs == s.pcs
    ensures ReadGoesOn(s, t, s', count, nb)
  {
  }

  lemma WriteTopStep(s: State, t: nat, s': State, data: seq<Byte>, nb: bool)
    requires WellFormed(s) && t < |s.pcs| && s.pcs[t] == WTop(data, nb) && WriteStep(s, t, s')
    ensures WriteGoesOn(s, t, s', data, nb)
  {
    SpaceConserved(s.ring);
    if s.Free() != 0 {
      WriteAppends(s.ring, data);
    }
  }

  lemma WriteOtherStep(s: State, t: nat, s': State, data: seq<Byte>, nb: bool)
    requires WellFormed(s) && t < |s.pcs| && InWrite(s.pcs[t], data, nb) && !s.pcs[t].WTop? && WriteStep(s, t, s')
    ensures WriteGoesOn(s, t, s', data, nb)
  {
  }

  lemma WriteCallStep(s: State, t: nat, s': State, data: seq<Byte>, nb: bool)
    requires WellFormed(s) && t < |s.pcs| && InWrite(s.pcs[t], data, nb) && Step(s, t, s')
    ensures WriteGoesOn(s, t, s', data, nb)
  {
    if WriteStep(s, t, s') {
      if s.pcs[t].WTop? {
        WriteTopStep(s, t, s', data, nb);
      } else {
        WriteOtherStep(s, t, s', data, nb);
      }
    } else {
      assert OtherStep(s, t, s');
      if s' == s.(running := s.running[t := true]) {
        WriteStays(s, t, s', data, nb);
      }
    }
  }

  lemma WriteStays(s: State, t: nat, s': State, data: seq<Byte>, nb: bool)
    requires t < |s.pcs| && InWrite(s.pcs[t], data, nb) && s'.pcs == s.pcs
    ensures WriteGoesOn(s, t, s', data, nb)
  {
  }

  // ----- who moves, and who queues -----

  /** Only who is in the middle of a wait is in a queue. */
  ghost predicate QueueOk(s: State, t: nat)
    requires t < |s.pcs|
  {
    (t in s.inq ==> InReadQueue(s.pcs[t]) && !s.pcs[t].RTest?) && (t in s.outq ==> InWriteQueue(s.pcs[t]))
  }

  /** A step moves nobody but who makes it, and puts nobody else in a queue. */
  ghost predicate MovesOne(s: State, w: nat, s': State) {
    && w < |s.pcs| == |s'.pcs| && s'.pcs == s.pcs[w := s'.pcs[w]]
    && s'.inq <= s.inq + {w} && s'.outq <= s.outq + {w}
    && (QueueOk(s, w) ==> QueueOk(s', w))
  }

  lemma ReadMovesOne(s: State, w: nat, s': State)
    requires WellFormed(s) && w < |s.pcs| && ReadStep(s, w, s')
    ensures MovesOne(s, w, s')
  {
  }

  lemma WriteMovesOne(s: State, w: nat, s': State)
    requires WellFormed(s) && w < |s.pcs| && WriteStep(s, w, s')
    ensures MovesOne(s, w, s')
  {
  }

  lemma OtherMovesOne(s: State, w: nat, s': State)
    requires WellFormed(s) && w < |s.pcs| && (OpenStep(s, w, s') || OtherStep(s, w, s'))
    ensures MovesOne(s, w, s')
  {
  }

  lemma StepMovesOne(s: State, w: nat, s': State)
    requires WellFormed(s) && Step(s, w, s')
    ensures MovesOne(s, w, s')
  {
    if ReadStep(s, w, s') {
      ReadMovesOne(s, w, s');
    } else if WriteStep(s, w, s') {
      WriteMovesOne(s, w, s');
    } else {
      OtherMovesOne(s, w, s');
    }
  }

  /** Over every run: nobody is in a queue but in the middle of a wait. */
  lemma {:induction false} RunQueues(run: seq<State>, i: nat, t: nat)
    requires Run(run, false) && i < |run| && t < |run[i].pcs|
    ensures QueueOk(run[i], t)
  {
    if i > 0 {
      var w := StepOf(run, i - 1, false);
      StepMovesOne(run[i - 1], w, run[i]);
      RunQueues(run, i - 1, t);
    }
  }

  // ----- whole calls -----

  /** From i to j, process t is in one call. */
  ghost predicate InCall(run: seq<State>, t: nat, i: nat, j: nat) {
    i <= j < |run| && forall m :: i <= m <= j ==> Busy(run[m], t)
  }

  ghost predicate Busy(s: State, t: nat) {
    t < |s.pcs| && !s.pcs[t].Idle?
  }

  lemma CallSoFar(run: seq<State>, t: nat, i: nat, j: nat)
    requires InCall(run, t, i, j)
    ensures Busy(run[i], t) && Busy(run[j], t) && (i < j ==> InCall(run, t, i, j - 1))
  {
  }

  /** Step m of the run is the one in which process t takes bytes, puts bytes, or fails to copy. */
  ghost predicate TakesAt(run: seq<State>, t: nat, m: nat, count: nat) {
    m + 1 < |run| && Takes(run[m], t, run[m + 1], count)
  }

  ghost predicate PutsAt(run: seq<State>, t: nat, m: nat, data: seq<Byte>) {
    m + 1 < |run| && Puts(run[m], t, run[m + 1], data)
  }

  ghost predicate FailsAt(run: seq<State>, t: nat, m: nat) {
    m + 1 < |run| && CopyFails(run[m], t, run[m + 1])
  }

  /** At m process t finds the pipe empty, or full. */
  ghost predicate EmptyAt(run: seq<State>, t: nat, m: nat) {
    m < |run| && FindsEmpty(run[m], t)
  }

  ghost predicate FullAt(run: seq<State>, t: nat, m: nat) {
    m < |run| && FindsFull(run[m], t)
  }

  ghost predicate Took(run: seq<State>, t: nat, i: nat, j: nat, count: nat) {
    exists m :: i <= m < j && TakesAt(run, t, m, count)
  }

  ghost predicate WasPut(run: seq<State>, t: nat, i: nat, j: nat, data: seq<Byte>) {
    exists m :: i <= m < j && PutsAt(run, t, m, data)
  }

  ghost predicate CopyFailed(run: seq<State>, t: nat, i: nat, j: nat) {
    exists m :: i <= m < j && FailsAt(run, t, m)
  }

  ghost predicate SawEmpty(run: seq<State>, t: nat, i: nat, j: nat) {
    exists m :: i <= m < j && EmptyAt(run, t, m)
  }

  ghost predicate SawFull(run: seq<State>, t: nat, i: nat, j: nat) {
    exists m :: i <= m < j && FullAt(run, t, m)
  }

  /** What the place reached at j says about the call so far. */
  ghost predicate ReadSoFar(run: seq<State>, t: nat, i: nat, j: nat, count: nat, nb: bool) {
    && j < |run| && t < |run[j].pcs| && InRead(run[j].pcs[t], count, nb)
    && var pc := run[j].pcs[t];
       && (pc.RUnlock? || pc.RWake? ==> Took(run, t, i, j, count))
       && (pc.FailUp? ==> CopyFailed(run, t, i, j))
       && (pc.RUp? ==> SawEmpty(run, t, i, j))
  }

  ghost predicate WriteSoFar(run: seq<State>, t: nat, i: nat, j: nat, data: seq<Byte>, nb: bool) {
    && j < |run| && t < |run[j].pcs| && InWrite(run[j].pcs[t], data, nb)
    && var pc := run[j].pcs[t];
       && (pc.WUnlock? || pc.WWake? ==> WasPut(run, t, i, j, data))
       && (pc.FailUp? ==> CopyFailed(run, t, i, j))
       && (pc.WUp? ==> SawFull(run, t, i, j))
  }

  lemma ReadOneMore(run: seq<State>, t: nat, i: nat, j: nat, count: nat, nb: bool)
    requires Run(run, false) && i <= j && j + 1 < |run| && ReadSoFar(run, t, i, j, count, nb)
    ensures t < |run[j + 1].pcs|
    ensures if run[j + 1].pcs[t].Idle? then ReadGoesOn(run[j], t, run[j + 1], count, nb)
            else ReadSoFar(run, t, i, j + 1, count, nb)
  {
    var s, s' := run[j], run[j + 1];
    var w := StepOf(run, j, false);
    StepMovesOne(s, w, s');
    if w == t {
      ReadCallStep(s, t, s', count, nb);
    }
    ReadTold(run, t, i, j, count, nb);
  }

  lemma ReadTold(run: seq<State>, t: nat, i: nat, j: nat, count: nat, nb: bool)
    requires i <= j && j + 1 < |run| && ReadSoFar(run, t, i, j, count, nb) && t < |run[j + 1].pcs|
    requires ReadGoesOn(run[j], t, run[j + 1], count, nb) || run[j + 1].pcs[t] == run[j].pcs[t]
    ensures run[j + 1].pcs[t].Idle? || ReadSoFar(run, t, i, j + 1, count, nb)
  {
    assert Takes(run[j], t, run[j + 1], count) ==> TakesAt(run, t, j, count);
    assert CopyFails(run[j], t, run[j + 1]) ==> FailsAt(run, t, j);
    assert FindsEmpty(run[j], t) ==> EmptyAt(run, t, j);
  }

  lemma WriteOneMore(run: seq<State>, t: nat, i: nat, j: nat, data: seq<Byte>, nb: bool)
    requires Run(run, false) && i <= j && j + 1 < |run| && WriteSoFar(run, t, i, j, data, nb)
    ensures t < |run[j + 1].pcs|
    ensures if run[j + 1].pcs[t].Idle? then WriteGoesOn(run[j], t, run[j + 1], data, nb)
            else WriteSoFar(run, t, i, j + 1, data, nb)
  {
    var s, s' := run[j], run[j + 1];
    var w := StepOf(run, j, false);
    StepMovesOne(s, w, s');
    if w == t {
      WriteCallStep(s, t, s', data, nb);
    }
    WriteTold(run, t, i, j, data, nb);
  }

  lemma WriteTold(run: seq<State>, t: nat, i: nat, j: nat, data: seq<Byte>, nb: bool)
    requires i <= j && j + 1 < |run| && WriteSoFar(run, t, i, j, data, nb) && t < |run[j + 1].pcs|
    requires WriteGoesOn(run[j], t, run[j + 1], data, nb) || run[j + 1].pcs[t] == run[j].pcs[t]
    ensures run[j + 1].pcs[t].Idle? || WriteSoFar(run, t, i, j + 1, data, nb)
  {
    assert Puts(run[j], t, run[j + 1], data) ==> PutsAt(run, t, j, data);
    assert CopyFails(run[j], t, run[j + 1]) ==> FailsAt(run, t, j);
    assert FindsFull(run[j], t) ==> FullAt(run, t, j);
  }

  /** The same, told from the later point. */
  lemma ReadUpTo(run: seq<State>, t: nat, i: nat, j: nat, count: nat, nb: bool)
    requires Run(run, false) && i < j < |run| && ReadSoFar(run, t, i, j - 1, count, nb) && Busy(run[j], t)
    ensures ReadSoFar(run, t, i, j, count, nb)
  {
    ReadOneMore(run, t, i, j - 1, count, nb);
  }

  lemma WriteUpTo(run: seq<State>, t: nat, i: nat, j: nat, data: seq<Byte>, nb: bool)
    requires Run(run, false) && i < j < |run| && WriteSoFar(run, t, i, j - 1, data, nb) && Busy(run[j], t)
    ensures WriteSoFar(run, t, i, j, data, nb)
  {
    WriteOneMore(run, t, i, j - 1, data, nb);
  }

  lemma ReadBegun(run: seq<State>, t: nat, i: nat, count: nat, nb: bool)
    requires i < |run| && Busy(run[i], t) && run[i].pcs[t] == RDown(count, nb)
    ensures ReadSoFar(run, t, i, i, count, nb)
  {
  }

  lemma WriteBegun(run: seq<State>, t: nat, i: nat, data: seq<Byte>, nb: bool)
    requires i < |run| && Busy(run[i], t) && run[i].pcs[t] == WDown(data, nb)
    ensures WriteSoFar(run, t, i, i, data, nb)
  {
  }
}
