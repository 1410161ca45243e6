/**
  Readers, writers and openers of one scull pipe, any number of them, step by
  step: taking the semaphore, checking, letting go of it, queueing, checking
  again without it, sleeping, being woken.

  The unlocked second check reads the two positions one at a time, in either
  order, while other processes may move them.
 */
module PipeProtocol {
  import opened Bytes
  import opened PipeRing

  datatype Pc =
    | Idle
    // read
    | RDown(count: nat, nb: bool)           // about to take the semaphore
    | RTop(count: nat, nb: bool)            // holds it; about to look for data
    | RUp(count: nat, nb: bool)             // holds it; found none
    | RTest(count: nat)                     // first unlocked check, outcome not used
    | RPrep(count: nat)                     // about to queue
    | RRecheck(count: nat)                  // queued; about to check again
    | RHaveRp(count: nat, v: nat)           // has read rp, about to read wp
    | RHaveWp(count: nat, v: nat)           // has read wp, about to read rp
    | RSleep(count: nat)                    // in schedule()
    | RFinish(count: nat, interrupted: bool)
    | RUnlock                               // holds it; has taken data
    | RWake                                 // about to wake writers
    // write
    | WDown(data: seq<Byte>, nb: bool)
    | WTop(data: seq<Byte>, nb: bool)
    | WUp(data: seq<Byte>, nb: bool)
    | WPrep(data: seq<Byte>)
    | WRecheck(data: seq<Byte>)
    | WHaveRp(data: seq<Byte>, v: nat)
    | WHaveWp(data: seq<Byte>, v: nat)
    | WSleep(data: seq<Byte>)
    | WFinish(data: seq<Byte>)
    | WUnlock
    | WWake                                 // about to wake readers
    // open
    | ODown | OTop | OUp
    // an error return still holding the semaphore
    | FailUp

  datatype State = State(
    ring: Ring,
    holder: int,                // who holds the semaphore; -1 nobody
    pcs: seq<Pc>,
    running: seq<bool>,         // task state: running, or interruptible
    inq: set<nat>, outq: set<nat>,
    accepted: seq<Byte>, delivered: seq<Byte>)  // in this epoch
  {
    function At(t: nat, pc: Pc): State
      requires t < |pcs|
    {
      this.(pcs := pcs[t := pc])
    }

    function Free(): int
      requires ring.Valid()
    {
      SpaceFree(|ring.buf|, ring.rp, ring.wp)
    }
  }

  ghost predicate WellFormed(s: State) {
    && |s.running| == |s.pcs|
    && s.ring.Valid()
    && s.accepted == s.delivered + s.ring.Contents()
  }

  // ----- steps -----

  /** wake_up_interruptible: every waiter of the queue runs, and leaves the queue. */
  ghost predicate Woken(s: State, queue: set<nat>, running: seq<bool>) {
    && |running| == |s.running|
    && forall u :: 0 <= u < |running| ==> running[u] == (s.running[u] || u in queue)
  }

  /** Process t makes one step of a read. */
  ghost predicate ReadStep(s: State, t: nat, s': State)
    requires WellFormed(s) && t < |s.pcs|
  {
    match s.pcs[t]
    case RDown(count, nb) =>
      || s' == s.At(t, Idle)                                                    // interrupted
      || (s.holder == -1 && s' == s.At(t, RTop(count, nb)).(holder := t))
    case RTop(count, nb) =>
      if s.ring.rp == s.ring.wp then s' == s.At(t, RUp(count, nb))
      else
        || s' == s.At(t, FailUp)                                                // copy_to_user failed
        || TakeStep(s, t, s', s.ring.ReadCount(count))
    case RUp(count, nb) =>
      s' == s.At(t, if nb then Idle else RTest(count)).(holder := -1)
    case RTest(count) =>
      s' == s.At(t, RDown(count, false)) || s' == s.At(t, RPrep(count))
    case RPrep(count) =>
      s' == s.At(t, RRecheck(count)).(inq := s.inq + {t}, running := s.running[t := false])
    case RRecheck(count) =>
      s' == s.At(t, RHaveRp(count, s.ring.rp)) || s' == s.At(t, RHaveWp(count, s.ring.wp))
    case RHaveRp(count, v) => RecheckedRead(s, t, s', count, v == s.ring.wp)
    case RHaveWp(count, v) => RecheckedRead(s, t, s', count, v == s.ring.rp)
    case RSleep(count) => s.running[t] && s' == s.At(t, RPrep(count))
    case RFinish(count, interrupted) =>
      s' == s.At(t, if interrupted then Idle else RDown(count, false))
             .(inq := s.inq - {t}, running := s.running[t := true])
    case RUnlock => s' == s.At(t, RWake).(holder := -1)
    case RWake => Woken(s, s.outq, s'.running) && s' == s.At(t, Idle).(outq := {}, running := s'.running)
    case _ => false
  }

  ghost predicate TakeStep(s: State, t: nat, s': State, n: int)
    requires WellFormed(s) && t < |s.pcs|
  {
    && 0 <= n && s.ring.rp + n <= |s.ring.buf|
    && s' == s.At(t, RUnlock).(ring := s.ring.AfterRead(n),
                               delivered := s.delivered + s.ring.buf[s.ring.rp..s.ring.rp + n])
  }

  /** The second check found the pipe empty or not; if empty, a signal may end the wait. */
  ghost predicate RecheckedRead(s: State, t: nat, s': State, count: nat, empty: bool)
    requires t < |s.pcs|
  {
    if !empty then s' == s.At(t, RFinish(count, false))
    else s' == s.At(t, RSleep(count)) || s' == s.At(t, RFinish(count, true))
  }

  /** Process t makes one step of a write. */
  ghost predicate WriteStep(s: State, t: nat, s': State)
    requires WellFormed(s) && t < |s.pcs|
  {
    match s.pcs[t]
    case WDown(data, nb) =>
      || s' == s.At(t, Idle)
      || (s.holder == -1 && s' == s.At(t, WTop(data, nb)).(holder := t))
    case WTop(data, nb) =>
      if s.Free() == 0 then s' == s.At(t, WUp(data, nb))
      else
        || s' == s.At(t, FailUp)
        || PutStep(s, t, s', data, s.ring.WriteCount(|data|))
    case WUp(data, nb) =>
      s' == s.At(t, if nb then Idle else WPrep(data)).(holder := -1)
    case WPrep(data) =>
      s' == s.At(t, WRecheck(data)).(outq := s.outq + {t}, running := s.running[t := false])
    case WRecheck(data) =>
      s' == s.At(t, WHaveRp(data, s.ring.rp)) || s' == s.At(t, WHaveWp(data, s.ring.wp))
    case WHaveRp(data, v) =>
      s' == s.At(t, if SpaceFree(|s.ring.buf|, v, s.ring.wp) == 0 then WSleep(data) else WFinish(data))
    case WHaveWp(data, v) =>
      s' == s.At(t, if SpaceFree(|s.ring.buf|, s.ring.rp, v) == 0 then WSleep(data) else WFinish(data))
    case WSleep(data) => s.running[t] && s' == s.At(t, WFinish(data))
    case WFinish(data) =>
      exists pc :: (pc == Idle || pc == WDown(data, false))                     // interrupted, or not
        && s' == s.At(t, pc).(outq := s.outq - {t}, running := s.running[t := true])
    case WUnlock => s' == s.At(t, WWake).(holder := -1)
    case WWake => Woken(s, s.inq, s'.running) && s' == s.At(t, Idle).(inq := {}, running := s'.running)
    case _ => false
  }

  ghost predicate PutStep(s: State, t: nat, s': State, data: seq<Byte>, n: int)
    requires WellFormed(s) && t < |s.pcs|
  {
    && 0 <= n <= |data| && s.ring.wp + n <= |s.ring.buf|
    && s' == s.At(t, WUnlock).(ring := s.ring.AfterWrite(data[..n]), accepted := s.accepted + data[..n])
  }

  /** Process t makes one step of an open, which empties the pipe and wakes nobody. */
  ghost predicate OpenStep(s: State, t: nat, s': State)
    requires WellFormed(s) && t < |s.pcs|
  {
    match s.pcs[t]
    case ODown =>
      || s' == s.At(t, Idle)
      || (s.holder == -1 && s' == s.At(t, OTop).(holder := t))
    case OTop =>
      s' == s.At(t, OUp).(ring := s.ring.(rp := 0, wp := 0), accepted := [], delivered := [])
    case OUp => s' == s.At(t, Idle).(holder := -1)
    case _ => false
  }

  /** A step of the code of a read, a write or an open. */
  ghost predicate OwnStep(s: State, t: nat, s': State)
    requires WellFormed(s) && t < |s.pcs|
  {
    ReadStep(s, t, s') || WriteStep(s, t, s') || OpenStep(s, t, s')
  }

  /** A call begins, a failed one ends, or a signal arrives. */
  ghost predicate OtherStep(s: State, t: nat, s': State)
    requires WellFormed(s) && t < |s.pcs|
  {
    || (s.pcs[t].Idle? && |s'.pcs| == |s.pcs| && Begins(s'.pcs[t]) && s' == s.At(t, s'.pcs[t]))
    || (s.pcs[t].FailUp? && s' == s.At(t, Idle).(holder := -1))
    || s' == s.(running := s.running[t := true])
  }

  ghost predicate Begins(pc: Pc) {
    pc.RDown? || pc.WDown? || pc.ODown?
  }

  ghost predicate Step(s: State, t: nat, s': State)
    requires WellFormed(s)
  {
    t < |s.pcs| && (ReadStep(s, t, s') || WriteStep(s, t, s') || OpenStep(s, t, s') || OtherStep(s, t, s'))
  }

  // ----- what every step keeps -----

  ghost predicate Holds(pc: Pc) {
    pc.RTop? || pc.RUp? || pc.RUnlock? || pc.WTop? || pc.WUp? || pc.WUnlock? || pc.OTop? || pc.OUp? || pc.FailUp?
  }

  /** Some reader has moved the read position and not yet woken the writers. */
  ghost predicate OwesWriters(s: State) {
    exists w :: 0 <= w < |s.pcs| && (s.pcs[w].RUnlock? || s.pcs[w].RWake?)
  }

  /** Some writer has moved the write position and not yet woken the readers. */
  ghost predicate OwesReaders(s: State) {
    exists w :: 0 <= w < |s.pcs| && (s.pcs[w].WUnlock? || s.pcs[w].WWake?)
  }

  /** A queued reader that will sleep, or does: either the pipe is empty, or a wake-up is owed, or
      what it has read so far will make it notice. */
  ghost predicate ReaderOk(s: State, t: nat)
    requires WellFormed(s) && t < |s.pcs|
  {
    match s.pcs[t]
    case RRecheck(_) => !s.running[t] ==> t in s.inq
    case RHaveRp(_, v) => !s.running[t] ==> t in s.inq && (OwesReaders(s) || s.ring.rp == s.ring.wp || v != s.ring.wp)
    case RHaveWp(_, v) => !s.running[t] ==> t in s.inq && (OwesReaders(s) || s.ring.rp == s.ring.wp || v == s.ring.wp)
    case RSleep(_) => !s.running[t] ==> t in s.inq && (OwesReaders(s) || s.ring.rp == s.ring.wp)
    case _ => true
  }

  ghost predicate WriterOk(s: State, t: nat)
    requires WellFormed(s) && t < |s.pcs|
  {
    match s.pcs[t]
    case WRecheck(_) => !s.running[t] ==> t in s.outq
    case WHaveRp(_, v) =>
      v < |s.ring.buf| && (!s.running[t] ==> t in s.outq && (OwesWriters(s) || s.Free() == 0 || v == s.ring.rp))
    case WHaveWp(_, v) => !s.running[t] ==> t in s.outq && (OwesWriters(s) || s.Free() == 0
                                                           || SpaceFree(|s.ring.buf|, s.ring.rp, v) != 0)
    case WSleep(_) => !s.running[t] ==> t in s.outq && (OwesWriters(s) || s.Free() == 0)
    case _ => true
  }

  ghost predicate Inv(s: State) {
    && WellFormed(s)
    && (forall t :: 0 <= t < |s.pcs| ==> (Holds(s.pcs[t]) <==> s.holder == t))
    && (forall t :: 0 <= t < |s.pcs| ==> ReaderOk(s, t) && WriterOk(s, t))
  }

  ghost predicate Owing(pc: Pc, readers: bool) {
    if readers then pc.WUnlock? || pc.WWake? else pc.RUnlock? || pc.RWake?
  }

  ghost predicate Holders(s: State) {
    forall t :: 0 <= t < |s.pcs| ==> (Holds(s.pcs[t]) <==> s.holder == t)
  }

  /** From s to s' process t moves, the positions stay, no debt is dropped, and nothing about the
      others changes. */
  ghost predicate Quiet(s: State, t: nat, s': State)
    requires WellFormed(s) && t < |s.pcs|
  {
    && |s'.pcs| == |s.pcs| && s'.pcs == s.pcs[t := s'.pcs[t]]
    && s'.ring == s.ring && s'.accepted == s.accepted && s'.delivered == s.delivered
    && |s'.running| == |s.running| && s'.running == s.running[t := s'.running[t]]
    && s'.inq - {t} == s.inq - {t} && s'.outq - {t} == s.outq - {t}
    && (Owing(s.pcs[t], true) ==> Owing(s'.pcs[t], true))
    && (Owing(s.pcs[t], false) ==> Owing(s'.pcs[t], false))
  }

  lemma DebtsKept(s: State, t: nat, s': State)
    requires WellFormed(s) && t < |s.pcs| && Quiet(s, t, s')
    ensures OwesReaders(s) ==> OwesReaders(s')
    ensures OwesWriters(s) ==> OwesWriters(s')
  {
    if OwesReaders(s) {
      var w :| 0 <= w < |s.pcs| && (s.pcs[w].WUnlock? || s.pcs[w].WWake?);
      assert s'.pcs[w].WUnlock? || s'.pcs[w].WWake?;
    }
    if OwesWriters(s) {
      var w :| 0 <= w < |s.pcs| && (s.pcs[w].RUnlock? || s.pcs[w].RWake?);
      assert s'.pcs[w].RUnlock? || s'.pcs[w].RWake?;
    }
  }

  lemma OthersKept(s: State, t: nat, s': State, u: nat)
    requires WellFormed(s) && t < |s.pcs| && Quiet(s, t, s') && u < |s.pcs| && u != t
    requires ReaderOk(s, u) && WriterOk(s, u)
    ensures WellFormed(s') && ReaderOk(s', u) && WriterOk(s', u)
  {
    DebtsKept(s, t, s');
    assert s'.pcs[u] == s.pcs[u] && s'.running[u] == s.running[u];
    assert u in s.inq ==> u in s'.inq - {t};
    assert u in s.outq ==> u in s'.outq - {t};
  }

  /** A quiet step keeps the invariant if the mover ends up well. */
  lemma QuietKept(s: State, t: nat, s': State)
    requires Inv(s) && t < |s.pcs| && Quiet(s, t, s')
    requires WellFormed(s') && ReaderOk(s', t) && WriterOk(s', t) && Holders(s')
    ensures Inv(s')
  {
    forall u | 0 <= u < |s'.pcs| ensures ReaderOk(s', u) && WriterOk(s', u) {
      if u != t {
        OthersKept(s, t, s', u);
      }
    }
  }

  lemma ReadMoverOk(s: State, t: nat, s': State)
    requires WellFormed(s) && t < |s.pcs| && ReaderOk(s, t) && WriterOk(s, t) && Quiet(s, t, s') && ReadStep(s, t, s')
    ensures WellFormed(s') && ReaderOk(s', t) && WriterOk(s', t)
  {
    DebtsKept(s, t, s');
  }

  lemma WriteMoverOk(s: State, t: nat, s': State)
    requires WellFormed(s) && t < |s.pcs| && ReaderOk(s, t) && WriterOk(s, t) && Quiet(s, t, s') && WriteStep(s, t, s')
    ensures WellFormed(s') && ReaderOk(s', t) && WriterOk(s', t)
  {
    DebtsKept(s, t, s');
  }

  lemma OtherMoverOk(s: State, t: nat, s': State)
    requires WellFormed(s) && t < |s.pcs| && ReaderOk(s, t) && WriterOk(s, t) && Quiet(s, t, s')
    requires OpenStep(s, t, s') || OtherStep(s, t, s')
    ensures WellFormed(s') && ReaderOk(s', t) && WriterOk(s', t)
  {
    DebtsKept(s, t, s');
  }

  /** What t itself has to satisfy after a quiet step. */
  lemma MoverOk(s: State, t: nat, s': State)
    requires Inv(s) && Step(s, t, s') && Quiet(s, t, s')
    ensures WellFormed(s') && ReaderOk(s', t) && WriterOk(s', t)
  {
    assert ReaderOk(s, t) && WriterOk(s, t);
    if ReadStep(s, t, s') {
      ReadMoverOk(s, t, s');
    } else if WriteStep(s, t, s') {
      WriteMoverOk(s, t, s');
    } else {
      OtherMoverOk(s, t, s');
    }
  }

  /** The steps that are not quiet: taking data, putting data, emptying the pipe, waking. */
  ghost predicate Loud(pc: Pc) {
    pc.RTop? || pc.WTop? || pc.OTop? || pc.RWake? || pc.WWake?
  }

  /** The semaphore changes hands only through the mover, from or to nobody. */
  ghost predicate HandsOver(s: State, t: nat, s': State) {
    && t < |s.pcs| == |s'.pcs| && s'.pcs == s.pcs[t := s'.pcs[t]]
    && (Holds(s'.pcs[t]) <==> s'.holder == t)
    && (s'.holder == s.holder || ((s.holder == t || s.holder == -1) && (s'.holder == t || s'.holder == -1)))
  }

  lemma ReadHandsOver(s: State, t: nat, s': State)
    requires Inv(s) && t < |s.pcs| && ReadStep(s, t, s')
    ensures HandsOver(s, t, s')
  {
    assert Holds(s.pcs[t]) <==> s.holder == t;
  }

  lemma WriteHandsOver(s: State, t: nat, s': State)
    requires Inv(s) && t < |s.pcs| && (WriteStep(s, t, s') || OpenStep(s, t, s') || OtherStep(s, t, s'))
    ensures HandsOver(s, t, s')
  {
    assert Holds(s.pcs[t]) <==> s.holder == t;
  }

  lemma StepHolders(s: State, t: nat, s': State)
    requires Inv(s) && Step(s, t, s')
    ensures Holders(s') && |s'.pcs| == |s.pcs|
  {
    if ReadStep(s, t, s') {
      ReadHandsOver(s, t, s');
    } else {
      WriteHandsOver(s, t, s');
    }
    forall u | 0 <= u < |s'.pcs| ensures Holds(s'.pcs[u]) <==> s'.holder == u {
      assert Holds(s.pcs[u]) <==> s.holder == u;
    }
  }

  lemma ReadQuiet(s: State, t: nat, s': State)
    requires WellFormed(s) && t < |s.pcs| && ReadStep(s, t, s') && !Loud(s.pcs[t])
    ensures Quiet(s, t, s')
  {
  }

  lemma WriteQuiet(s: State, t: nat, s': State)
    requires WellFormed(s) && t < |s.pcs| && WriteStep(s, t, s') && !Loud(s.pcs[t])
    ensures Quiet(s, t, s')
  {
  }

  lemma OtherQuiet(s: State, t: nat, s': State)
    requires WellFormed(s) && t < |s.pcs| && (OpenStep(s, t, s') || OtherStep(s, t, s')) && !Loud(s.pcs[t])
    ensures Quiet(s, t, s')
  {
  }

  lemma StepQuiet(s: State, t: nat, s': State)
    requires WellFormed(s) && Step(s, t, s') && !Loud(s.pcs[t])
    ensures Quiet(s, t, s')
  {
    if ReadStep(s, t, s') {
      ReadQuiet(s, t, s');
    } else if WriteStep(s, t, s') {
      WriteQuiet(s, t, s');
    } else {
      OtherQuiet(s, t, s');
    }
  }

  lemma ReaderStillOk(s: State, t: nat, s': State, u: nat)
    requires WellFormed(s) && WellFormed(s') && t < |s.pcs| && u < |s.pcs| && u != t
    requires |s'.pcs| == |s.pcs| && s'.pcs == s.pcs[t := s'.pcs[t]] && s'.running == s.running && s'.inq == s.inq
    requires || OwesReaders(s') || s'.ring.rp == s'.ring.wp
             || ((OwesReaders(s) ==> OwesReaders(s')) && s'.ring.wp == s.ring.wp && s.ring.rp != s.ring.wp)
    requires ReaderOk(s, u)
    ensures ReaderOk(s', u)
  {
  }

  lemma WriterStillOk(s: State, t: nat, s': State, u: nat)
    requires WellFormed(s) && WellFormed(s') && t < |s.pcs| && u < |s.pcs| && u != t && |s'.ring.buf| == |s.ring.buf|
    requires |s'.pcs| == |s.pcs| && s'.pcs == s.pcs[t := s'.pcs[t]] && s'.running == s.running && s'.outq == s.outq
    requires || OwesWriters(s') || s.outq == {}
             || ((OwesWriters(s) ==> OwesWriters(s')) && s'.ring.rp == s.ring.rp && s.Free() != 0)
    requires WriterOk(s, u)
    ensures WriterOk(s', u)
  {
  }

  /** A debt of another process outlives a step of t. */
  lemma OthersDebts(s: State, t: nat, s': State)
    requires t < |s.pcs| == |s'.pcs| && s'.pcs == s.pcs[t := s'.pcs[t]]
    ensures OwesReaders(s) && !Owing(s.pcs[t], true) ==> OwesReaders(s')
    ensures OwesWriters(s) && !Owing(s.pcs[t], false) ==> OwesWriters(s')
  {
    if OwesReaders(s) && !Owing(s.pcs[t], true) {
      var w :| 0 <= w < |s.pcs| && (s.pcs[w].WUnlock? || s.pcs[w].WWake?);
      assert s'.pcs[w].WUnlock? || s'.pcs[w].WWake?;
    }
    if OwesWriters(s) && !Owing(s.pcs[t], false) {
      var w :| 0 <= w < |s.pcs| && (s.pcs[w].RUnlock? || s.pcs[w].RWake?);
      assert s'.pcs[w].RUnlock? || s'.pcs[w].RWake?;
    }
  }

  lemma TakeWellFormed(s: State, t: nat, s': State, n: int)
    requires WellFormed(s) && t < |s.pcs| && s.ring.rp != s.ring.wp
    requires TakeStep(s, t, s', n) && (s.ring.rp < s.ring.wp ==> s.ring.rp + n <= s.ring.wp)
    ensures WellFormed(s')
  {
    ReadTakesPrefix(s.ring, n);
    ReadKeepsOrder(s.delivered, s.ring.Contents(), n);
  }

  /** A reader takes the oldest bytes; it now owes the writers a wake-up. */
  lemma TakeKept(s: State, t: nat, s': State)
    requires Inv(s) && t < |s.pcs| && s.pcs[t].RTop? && s.ring.rp != s.ring.wp
    requires TakeStep(s, t, s', s.ring.ReadCount(s.pcs[t].count)) && Holders(s')
    ensures Inv(s')
  {
    ReadFits(s.ring, s.pcs[t].count);
    TakeWellFormed(s, t, s', s.ring.ReadCount(s.pcs[t].count));
    OthersDebts(s, t, s');
    assert s'.pcs[t].RUnlock?;
    forall u | 0 <= u < |s'.pcs| ensures ReaderOk(s', u) && WriterOk(s', u) {
      if u != t {
        ReaderStillOk(s, t, s', u);
        WriterStillOk(s, t, s', u);
      }
    }
  }

  lemma PutWellFormed(s: State, t: nat, s': State, data: seq<Byte>)
    requires WellFormed(s) && t < |s.pcs| && s.Free() > 0
    requires PutStep(s, t, s', data, s.ring.WriteCount(|data|))
    ensures WellFormed(s')
  {
    WriteAppends(s.ring, data);
    WriteKeepsOrder(s.delivered, s.ring.Contents(), data[..s.ring.WriteCount(|data|)]);
  }

  /** A writer appends; it now owes the readers a wake-up. */
  lemma PutKept(s: State, t: nat, s': State)
    requires Inv(s) && t < |s.pcs| && s.pcs[t].WTop? && s.Free() != 0
    requires PutStep(s, t, s', s.pcs[t].data, s.ring.WriteCount(|s.pcs[t].data|)) && Holders(s')
    ensures Inv(s')
  {
    SpaceConserved(s.ring);
    PutWellFormed(s, t, s', s.pcs[t].data);
    OthersDebts(s, t, s');
    assert s'.pcs[t].WUnlock?;
    forall u | 0 <= u < |s'.pcs| ensures ReaderOk(s', u) && WriterOk(s', u) {
      if u != t {
        ReaderStillOk(s, t, s', u);
        WriterStillOk(s, t, s', u);
      }
    }
  }

  /** Writer u, not running, has gone too far to notice that an open has emptied the pipe: it sleeps, or
      holds a position read before the open that will, now or after more writes, look like a full pipe. */
  ghost predicate Strands(s: State, u: nat)
    requires |s.running| == |s.pcs| && u < |s.pcs| && 0 < |s.ring.buf|
  {
    !s.running[u] &&
    match s.pcs[u]
    case WSleep(_) => true
    case WHaveRp(_, v) => v != 0
    case WHaveWp(_, v) => SpaceFree(|s.ring.buf|, 0, v) == 0
    case _ => false
  }

  /** Emptying the pipe strands nobody: a reader owes the writers a wake-up, or no writer has gone too
      far, or the buffer has no room anyway. */
  ghost predicate Harmless(s: State)
    requires |s.running| == |s.pcs| && 0 < |s.ring.buf|
  {
    OwesWriters(s) || |s.ring.buf| == 1 || forall u :: 0 <= u < |s.pcs| ==> !Strands(s, u)
  }

  /** An open leaves the pipe empty and all debts as they were. */
  lemma AfterReset(s: State, t: nat, s': State)
    requires WellFormed(s) && t < |s.pcs| && s.pcs[t].OTop? && OpenStep(s, t, s')
    ensures WellFormed(s') && |s'.pcs| == |s.pcs| && s'.Free() == |s.ring.buf| - 1
    ensures (OwesReaders(s') <==> OwesReaders(s)) && (OwesWriters(s') <==> OwesWriters(s))
  {
    assert s'.ring.Contents() == [];
    OthersDebts(s, t, s');
    OthersDebts(s', t, s);
  }

  lemma ResetWriterOk(s: State, t: nat, s': State, u: nat)
    requires WellFormed(s) && t < |s.pcs| && s.pcs[t].OTop? && OpenStep(s, t, s') && u < |s.pcs| && WriterOk(s, u)
    ensures WellFormed(s') && |s'.pcs| == |s.pcs|
    ensures WriterOk(s', u) <==> OwesWriters(s) || |s.ring.buf| == 1 || !Strands(s, u)
  {
    AfterReset(s, t, s');
  }

  lemma ResetReaderOk(s: State, t: nat, s': State, u: nat)
    requires WellFormed(s) && WellFormed(s') && t < |s.pcs| && s.pcs[t].OTop? && OpenStep(s, t, s')
    requires u < |s.pcs| && ReaderOk(s, u)
    ensures ReaderOk(s', u)
  {
    AfterReset(s, t, s');
  }

  /** Exactly when an open keeps the invariant. */
  lemma OpenKeepsIff(s: State, t: nat, s': State)
    requires Inv(s) && t < |s.pcs| && s.pcs[t].OTop? && OpenStep(s, t, s') && Holders(s')
    ensures Inv(s') <==> Harmless(s)
  {
    assert ReaderOk(s, t) && WriterOk(s, t);
    ResetWriterOk(s, t, s', t);
    forall u | 0 <= u < |s.pcs|
      ensures ReaderOk(s', u)
      ensures WriterOk(s', u) <==> OwesWriters(s) || |s.ring.buf| == 1 || !Strands(s, u)
    {
      assert ReaderOk(s, u) && WriterOk(s, u);
      ResetReaderOk(s, t, s', u);
      ResetWriterOk(s, t, s', u);
    }
  }

  /** Waking the readers settles the writers' debt: no reader is left waiting. */
  lemma WakeReadersKept(s: State, t: nat, s': State)
    requires Inv(s) && t < |s.pcs| && s.pcs[t].WWake? && WriteStep(s, t, s') && Holders(s')
    ensures Inv(s')
  {
    OthersDebts(s, t, s');
    forall u | 0 <= u < |s'.pcs| ensures ReaderOk(s', u) && WriterOk(s', u) {
      assert ReaderOk(s, u) && WriterOk(s, u);
      assert s'.running[u] == (s.running[u] || u in s.inq);
    }
  }

  lemma WakeWritersKept(s: State, t: nat, s': State)
    requires Inv(s) && t < |s.pcs| && s.pcs[t].RWake? && ReadStep(s, t, s') && Holders(s')
    ensures Inv(s')
  {
    OthersDebts(s, t, s');
    forall u | 0 <= u < |s'.pcs| ensures ReaderOk(s', u) && WriterOk(s', u) {
      assert ReaderOk(s, u) && WriterOk(s, u);
      assert s'.running[u] == (s.running[u] || u in s.outq);
    }
  }

  /** A step that does not empty the pipe under a writer who has gone too far to notice. */
  ghost predicate SafeStep(s: State, t: nat, s': State)
    requires WellFormed(s)
  {
    Step(s, t, s') && (s.pcs[t].OTop? && s' != s.(running := s.running[t := true]) ==> Harmless(s))
  }

  lemma QuietStepKept(s: State, t: nat, s': State)
    requires Inv(s) && Step(s, t, s') && Quiet(s, t, s') && Holders(s')
    ensures Inv(s')
  {
    MoverOk(s, t, s');
    QuietKept(s, t, s');
  }

  /** Taking data, putting data, emptying the pipe, waking. */
  lemma LoudStepKept(s: State, t: nat, s': State)
    requires Inv(s) && SafeStep(s, t, s') && Loud(s.pcs[t]) && s' != s.(running := s.running[t := true]) && Holders(s')
    ensures Inv(s')
  {
    if s.pcs[t].RTop? && TakeStep(s, t, s', s.ring.ReadCount(s.pcs[t].count)) && s.ring.rp != s.ring.wp {
      TakeKept(s, t, s');
    } else if s.pcs[t].WTop? && PutStep(s, t, s', s.pcs[t].data, s.ring.WriteCount(|s.pcs[t].data|)) && s.Free() != 0 {
      PutKept(s, t, s');
    } else if s.pcs[t].OTop? {
      OpenKeepsIff(s, t, s');
    } else if s.pcs[t].WWake? {
      WakeReadersKept(s, t, s');
    } else if s.pcs[t].RWake? {
      WakeWritersKept(s, t, s');
    } else {
      QuietStepKept(s, t, s');
    }
  }

  lemma StepKept(s: State, t: nat, s': State)
    requires Inv(s) && SafeStep(s, t, s')
    ensures Inv(s') && |s'.pcs| == |s.pcs|
  {
    StepHolders(s, t, s');
    if !Loud(s.pcs[t]) {
      StepQuiet(s, t, s');
      QuietStepKept(s, t, s');
    } else if s' == s.(running := s.running[t := true]) {
      QuietStepKept(s, t, s');
    } else {
      LoudStepKept(s, t, s');
    }
  }
}
