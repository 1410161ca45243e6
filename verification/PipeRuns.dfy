/**
  Runs of the pipe's protocol from an idle system: no wake-up is lost, bytes come out in the
  order they went in, and readers and writers do not sleep against each other.
 */
module PipeRuns {
  import opened Bytes
  import opened PipeRing
  import opened PipeProtocol

  // ----- runs -----

  /** Everybody idle, the semaphore free, the pipe empty. */
  ghost predicate Init(s: State) {
    && s.ring.Valid() && s.ring.rp == s.ring.wp == 0 && s.holder == -1
    && |s.running| == |s.pcs|
    && (forall t :: 0 <= t < |s.pcs| ==> s.pcs[t].Idle? && s.running[t])
    && s.inq == s.outq == {} && s.accepted == s.delivered == []
  }

  ghost predicate Moves(s: State, s': State, safely: bool) {
    WellFormed(s) && exists t :: Step(s, t, s') && (safely ==> SafeStep(s, t, s'))
  }

  ghost predicate MovesAt(run: seq<State>, i: nat, safely: bool) {
    i + 1 < |run| && Moves(run[i], run[i + 1], safely)
  }

  /** A run; if safe, no open empties the pipe under a writer who has gone too far to notice. */
  ghost predicate Run(run: seq<State>, safe: bool) {
    && run != [] && Init(run[0])
    && forall i :: 0 <= i < |run| - 1 ==> MovesAt(run, i, safe)
  }

  ghost predicate SafeRun(run: seq<State>) {
    Run(run, true)
  }

  ghost predicate ReaderAsleep(s: State, t: nat)
    requires |s.running| == |s.pcs| && t < |s.pcs|
  {
    s.pcs[t].RSleep? && !s.running[t]
  }

  ghost predicate WriterAsleep(s: State, t: nat)
    requires |s.running| == |s.pcs| && t < |s.pcs|
  {
    s.pcs[t].WSleep? && !s.running[t]
  }

  /** No lost wake-up: a reader asleep over data, or a writer asleep over free space, is still owed
      its wake-up by somebody. */
  ghost predicate NoLostWakeup(s: State)
    requires WellFormed(s)
  {
    forall t :: 0 <= t < |s.pcs| ==>
      && (ReaderAsleep(s, t) && s.ring.Contents() != [] ==> OwesReaders(s))
      && (WriterAsleep(s, t) && s.Free() > 0 ==> OwesWriters(s))
  }

  lemma InitInv(s: State)
    requires Init(s)
    ensures Inv(s)
  {
  }

  /** Who makes step i of a run. */
  lemma StepOf(run: seq<State>, i: nat, safe: bool) returns (t: nat)
    requires Run(run, safe) && i + 1 < |run|
    ensures WellFormed(run[i]) && Step(run[i], t, run[i + 1]) && (safe ==> SafeStep(run[i], t, run[i + 1]))
  {
    assert MovesAt(run, i, safe);
    t :| Step(run[i], t, run[i + 1]) && (safe ==> SafeStep(run[i], t, run[i + 1]));
  }

  lemma {:induction false} RunInv(run: seq<State>, i: nat)
    requires SafeRun(run) && i < |run|
    ensures Inv(run[i])
  {
    if i == 0 {
      InitInv(run[0]);
    } else {
      RunInv(run, i - 1);
      var t := StepOf(run, i - 1, true);
      StepKept(run[i - 1], t, run[i]);
    }
  }

  lemma InvNoLostWakeup(s: State)
    requires Inv(s)
    ensures NoLostWakeup(s)
  {
    SpaceConserved(s.ring);
    forall t | 0 <= t < |s.pcs|
      ensures ReaderAsleep(s, t) && s.ring.Contents() != [] ==> OwesReaders(s)
      ensures WriterAsleep(s, t) && s.Free() > 0 ==> OwesWriters(s)
    {
      assert ReaderOk(s, t) && WriterOk(s, t);
    }
  }

  /** In every state of every such run: no wake-up is lost, what has been read is a prefix of what
      has been written, and used and free space add up. */
  lemma RunSafe(run: seq<State>, i: nat)
    requires SafeRun(run) && i < |run|
    ensures WellFormed(run[i]) && NoLostWakeup(run[i])
    ensures run[i].delivered <= run[i].accepted
    ensures |run[i].accepted| - |run[i].delivered| + run[i].Free() == |run[i].ring.buf| - 1
  {
    RunInv(run, i);
    InvNoLostWakeup(run[i]);
    SpaceConserved(run[i].ring);
  }

  /** Nobody is about to do anything: every process is idle or asleep. */
  ghost predicate Stuck(s: State)
    requires WellFormed(s)
  {
    forall t :: 0 <= t < |s.pcs| ==> s.pcs[t].Idle? || ReaderAsleep(s, t) || WriterAsleep(s, t)
  }

  /** Readers and writers never sleep against each other, given room for at least one byte. */
  lemma NeverDeadlocked(run: seq<State>, i: nat, r: nat, w: nat)
    requires SafeRun(run) && i < |run| && 2 <= |run[i].ring.buf| && WellFormed(run[i])
    requires r < |run[i].pcs| && w < |run[i].pcs| && ReaderAsleep(run[i], r) && WriterAsleep(run[i], w)
    ensures !Stuck(run[i])
  {
    var s := run[i];
    RunInv(run, i);
    InvNoLostWakeup(s);
    SpaceConserved(s.ring);
    assert ReaderOk(s, r) && WriterOk(s, w);
  }
}
