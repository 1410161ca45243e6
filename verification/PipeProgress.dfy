/**
  Progress: when the scheduler is fair, a wake-up that is owed arrives.
 */
module PipeProgress {
  import opened PipeRing
  import opened PipeProtocol
  import opened PipeRuns

  /** A run without end: the states, and who makes each step. */
  datatype Behaviour = Behaviour(state: nat -> State, mover: nat -> nat)

  ghost predicate StepAt(b: Behaviour, i: nat) {
    WellFormed(b.state(i)) && SafeStep(b.state(i), b.mover(i), b.state(i + 1))
  }

  ghost predicate Behaves(b: Behaviour) {
    Init(b.state(0)) && forall i: nat :: StepAt(b, i)
  }

  /** Step i is one that process t's own code makes. */
  ghost predicate ActsAt(b: Behaviour, t: nat, i: nat) {
    && WellFormed(b.state(i)) && t < |b.state(i).pcs| && b.mover(i) == t
    && OwnStep(b.state(i), t, b.state(i + 1))
  }

  /** At i there is a step that t's code could make. */
  ghost predicate CanActAt(b: Behaviour, t: nat, i: nat) {
    && WellFormed(b.state(i)) && t < |b.state(i).pcs|
    && exists s': State :: OwnStep(b.state(i), t, s')
  }

  /** If t can act from i on, all the time, it does so at some time. */
  ghost predicate Served(b: Behaviour, t: nat, i: nat) {
    (forall j: nat :: i <= j ==> CanActAt(b, t, j)) ==> exists j: nat :: i <= j && ActsAt(b, t, j)
  }

  /** Weak fairness. */
  ghost predicate Fair(b: Behaviour) {
    forall t: nat, i: nat :: Served(b, t, i)
  }

  lemma {:induction false} InvAt(b: Behaviour, i: nat)
    requires Behaves(b)
    ensures Inv(b.state(i)) && |b.state(i).pcs| == |b.state(0).pcs|
  {
    if i == 0 {
      InitInv(b.state(0));
    } else {
      InvAt(b, i - 1);
      assert StepAt(b, i - 1);
      StepKept(b.state(i - 1), b.mover(i - 1), b.state(i));
    }
  }

  /** Nothing but its own scheduling keeps t from acting: it is about to let go of the semaphore or to wake the
      others, or it has been woken. */
  ghost predicate Eager(s: State, t: nat) {
    && t < |s.pcs| == |s.running|
    && (s.pcs[t].RUnlock? || s.pcs[t].RWake? || s.pcs[t].WUnlock? || s.pcs[t].WWake?
        || ((s.pcs[t].RSleep? || s.pcs[t].WSleep?) && s.running[t]))
  }

  function AllWoken(s: State, queue: set<nat>): seq<bool> {
    seq(|s.running|, u requires 0 <= u < |s.running| => s.running[u] || u in queue)
  }

  lemma EagerCanAct(s: State, t: nat) returns (s': State)
    requires WellFormed(s) && Eager(s, t)
    ensures OwnStep(s, t, s')
  {
    match s.pcs[t]
    case RUnlock => s' := s.At(t, RWake).(holder := -1);
    case WUnlock => s' := s.At(t, WWake).(holder := -1);
    case RWake => s' := s.At(t, Idle).(outq := {}, running := AllWoken(s, s.outq));
    case WWake => s' := s.At(t, Idle).(inq := {}, running := AllWoken(s, s.inq));
    case RSleep(count) => s' := s.At(t, RPrep(count));
    case WSleep(data) => s' := s.At(t, WFinish(data));
  }

  /** In the middle of a call, as long as t does not act its place stays, and it is not put to sleep. */
  lemma StaysPut(s: State, w: nat, s': State, t: nat)
    requires Inv(s) && Step(s, w, s') && t < |s.pcs| && !s.pcs[t].Idle? && !s.pcs[t].FailUp?
    requires w != t || !OwnStep(s, t, s')
    ensures |s'.pcs| == |s'.running| == |s.pcs| && s'.pcs[t] == s.pcs[t] && (s.running[t] ==> s'.running[t])
  {
    if ReadStep(s, w, s') {
      ReadHandsOver(s, w, s');
    } else {
      WriteHandsOver(s, w, s');
    }
    OthersRun(s, w, s', t);
  }

  lemma OthersRun(s: State, w: nat, s': State, t: nat)
    requires Inv(s) && Step(s, w, s') && t < |s.pcs|
    requires w != t || !OwnStep(s, t, s')
    ensures |s'.running| == |s.running| && (s.running[t] ==> s'.running[t])
  {
    if ReadStep(s, w, s') {
      OthersRunRead(s, w, s', t);
    } else if WriteStep(s, w, s') {
      OthersRunWrite(s, w, s', t);
    }
  }

  lemma OthersRunRead(s: State, w: nat, s': State, t: nat)
    requires WellFormed(s) && w < |s.pcs| && ReadStep(s, w, s') && t < |s.pcs| && w != t
    ensures |s'.running| == |s.running| && (s.running[t] ==> s'.running[t])
  {
  }

  lemma OthersRunWrite(s: State, w: nat, s': State, t: nat)
    requires WellFormed(s) && w < |s.pcs| && WriteStep(s, w, s') && t < |s.pcs| && w != t
    ensures |s'.running| == |s.running| && (s.running[t] ==> s'.running[t])
  {
  }

  /** From i on, up to j, process t does not act. */
  ghost predicate Still(b: Behaviour, t: nat, i: nat, j: nat) {
    forall m: nat :: i <= m < j ==> !ActsAt(b, t, m)
  }

  lemma StaysOne(b: Behaviour, t: nat, i: nat)
    requires Behaves(b) && t < |b.state(i).pcs| && !b.state(i).pcs[t].Idle? && !b.state(i).pcs[t].FailUp?
    requires !ActsAt(b, t, i)
    ensures t < |b.state(i).running| && t < |b.state(i + 1).pcs| == |b.state(i + 1).running|
    ensures b.state(i + 1).pcs[t] == b.state(i).pcs[t]
    ensures b.state(i).running[t] ==> b.state(i + 1).running[t]
  {
    InvAt(b, i);
    assert StepAt(b, i);
    StaysPut(b.state(i), b.mover(i), b.state(i + 1), t);
  }

  /** The place of t at j is that at i, if it has not acted in between. */
  lemma {:induction false} StaysUntil(b: Behaviour, t: nat, i: nat, j: nat)
    requires Behaves(b) && i <= j && t < |b.state(i).pcs| == |b.state(i).running| && Still(b, t, i, j)
    requires !b.state(i).pcs[t].Idle? && !b.state(i).pcs[t].FailUp?
    ensures t < |b.state(j).pcs| == |b.state(j).running| && b.state(j).pcs[t] == b.state(i).pcs[t]
    ensures b.state(i).running[t] ==> b.state(j).running[t]
    decreases j - i
  {
    if i < j {
      StaysUntil(b, t, i, j - 1);
      StaysOne(b, t, j - 1);
    }
  }

  lemma StillBefore(b: Behaviour, t: nat, i: nat, m: nat)
    requires !ActsAt(b, t, i) && Still(b, t, i + 1, m)
    ensures Still(b, t, i, m)
  {
    forall n: nat | i <= n < m ensures !ActsAt(b, t, n) {
      assert n != i ==> i + 1 <= n;
    }
  }

  /** The first time t acts. */
  lemma {:induction false} FirstAct(b: Behaviour, t: nat, i: nat, j: nat) returns (m: nat)
    requires i <= j && ActsAt(b, t, j)
    ensures i <= m <= j && ActsAt(b, t, m) && Still(b, t, i, m)
    decreases j - i
  {
    if ActsAt(b, t, i) {
      m := i;
    } else {
      m := FirstAct(b, t, i + 1, j);
      StillBefore(b, t, i, m);
    }
  }

  lemma StaysEager(b: Behaviour, t: nat, i: nat, j: nat)
    requires Behaves(b) && i <= j && Eager(b.state(i), t) && Still(b, t, i, j)
    ensures CanActAt(b, t, j)
  {
    StaysUntil(b, t, i, j);
    InvAt(b, j);
    var s' := EagerCanAct(b.state(j), t);
  }

  /** An eager process acts at some time, from the place where it is. */
  lemma EagerActs(b: Behaviour, t: nat, i: nat) returns (j: nat)
    requires Behaves(b) && Fair(b) && Eager(b.state(i), t)
    ensures i <= j && ActsAt(b, t, j) && b.state(j).pcs[t] == b.state(i).pcs[t]
    ensures |b.state(j).running| == |b.state(j).pcs| && (b.state(i).running[t] ==> b.state(j).running[t])
  {
    assert Served(b, t, i);
    if !exists j: nat :: i <= j && ActsAt(b, t, j) {
      forall j: nat | i <= j ensures CanActAt(b, t, j) {
        StaysEager(b, t, i, j);
      }
    }
    j :| i <= j && ActsAt(b, t, j);
    j := FirstAct(b, t, i, j);
    StaysUntil(b, t, i, j);
  }

  /** Having let go of the semaphore, a process is about to wake the others. */
  lemma UnlockedThenWakes(b: Behaviour, w: nat, j: nat)
    requires Behaves(b) && ActsAt(b, w, j) && (b.state(j).pcs[w].WUnlock? || b.state(j).pcs[w].RUnlock?)
    ensures Eager(b.state(j + 1), w)
    ensures if b.state(j).pcs[w].WUnlock? then b.state(j + 1).pcs[w].WWake? else b.state(j + 1).pcs[w].RWake?
  {
    InvAt(b, j + 1);
  }

  /** A process that owes a wake-up gets to make it. */
  lemma DebtPaid(b: Behaviour, w: nat, i: nat, readers: bool) returns (j: nat)
    requires Behaves(b) && Fair(b) && w < |b.state(i).pcs| && Owing(b.state(i).pcs[w], readers)
    ensures i <= j && ActsAt(b, w, j) && (if readers then b.state(j).pcs[w].WWake? else b.state(j).pcs[w].RWake?)
  {
    InvAt(b, i);
    j := EagerActs(b, w, i);
    if b.state(j).pcs[w].WUnlock? || b.state(j).pcs[w].RUnlock? {
      UnlockedThenWakes(b, w, j);
      j := EagerActs(b, w, j + 1);
    }
  }

  /** Asleep in a read, or in a write. */
  ghost predicate Asleep(s: State, u: nat, reader: bool) {
    u < |s.pcs| == |s.running| && !s.running[u] && (if reader then s.pcs[u].RSleep? else s.pcs[u].WSleep?)
  }

  /** There is something for it to do. */
  ghost predicate Wanted(s: State, reader: bool)
    requires WellFormed(s)
  {
    if reader then s.ring.Contents() != [] else s.Free() > 0
  }

  /** Paying the debt wakes a process that is still asleep. */
  lemma WakesReader(s: State, w: nat, s': State, u: nat)
    requires Inv(s) && w < |s.pcs| && s.pcs[w].WWake? && WriteStep(s, w, s') && Asleep(s, u, true)
    ensures u < |s'.running| && s'.running[u]
  {
    assert ReaderOk(s, u);
  }

  lemma WakesWriter(s: State, w: nat, s': State, u: nat)
    requires Inv(s) && w < |s.pcs| && s.pcs[w].RWake? && ReadStep(s, w, s') && Asleep(s, u, false)
    ensures u < |s'.running| && s'.running[u]
  {
    assert WriterOk(s, u);
  }

  lemma PaidWakes(b: Behaviour, w: nat, j: nat, u: nat, reader: bool)
    requires Behaves(b) && ActsAt(b, w, j) && Asleep(b.state(j), u, reader)
    requires if reader then b.state(j).pcs[w].WWake? else b.state(j).pcs[w].RWake?
    ensures u < |b.state(j + 1).pcs| == |b.state(j + 1).running| && b.state(j + 1).running[u]
    ensures b.state(j + 1).pcs[u] == b.state(j).pcs[u]
  {
    var s, s' := b.state(j), b.state(j + 1);
    InvAt(b, j);
    assert StepAt(b, j);
    SleeperStays(s, w, s', u);
    if reader {
      WakesReader(s, w, s', u);
    } else {
      WakesWriter(s, w, s', u);
    }
  }

  /** Between i and j a sleeper is woken, or it sleeps on. */
  lemma {:induction false} WokenOrAsleep(b: Behaviour, u: nat, reader: bool, i: nat, j: nat) returns (m: nat)
    requires Behaves(b) && i <= j && Asleep(b.state(i), u, reader)
    ensures i <= m <= j && u < |b.state(m).pcs| == |b.state(m).running| && b.state(m).pcs[u] == b.state(i).pcs[u]
    ensures b.state(m).running[u] || m == j
    decreases j - i
  {
    m := i;
    if i < j {
      m := WokenOrAsleep(b, u, reader, i, j - 1);
      if !b.state(m).running[u] {
        InvAt(b, m);
        assert StepAt(b, m);
        SleeperStays(b.state(m), b.mover(m), b.state(m + 1), u);
        m := m + 1;
      }
    }
  }

  lemma SleeperStays(s: State, w: nat, s': State, u: nat)
    requires Inv(s) && Step(s, w, s') && u < |s.pcs| && !s.running[u] && (s.pcs[u].RSleep? || s.pcs[u].WSleep?)
    ensures |s'.pcs| == |s'.running| == |s.pcs| && s'.pcs[u] == s.pcs[u]
  {
    StaysPut(s, w, s', u);
  }

  /** Somebody owes the sleeper its wake-up. */
  lemma Debtor(b: Behaviour, u: nat, i: nat, reader: bool) returns (w: nat)
    requires Behaves(b) && WellFormed(b.state(i))
    requires Asleep(b.state(i), u, reader) && Wanted(b.state(i), reader)
    ensures w < |b.state(i).pcs| && Owing(b.state(i).pcs[w], reader)
  {
    var s := b.state(i);
    InvAt(b, i);
    InvNoLostWakeup(s);
    assert if reader then ReaderAsleep(s, u) && OwesReaders(s) else WriterAsleep(s, u) && OwesWriters(s);
    w :| w < |s.pcs| && Owing(s.pcs[w], reader);
  }

  lemma IsWoken(b: Behaviour, w: nat, paid: nat, u: nat, i: nat, reader: bool) returns (m: nat)
    requires Behaves(b) && i <= paid && Asleep(b.state(i), u, reader) && ActsAt(b, w, paid)
    requires if reader then b.state(paid).pcs[w].WWake? else b.state(paid).pcs[w].RWake?
    ensures i < m && u < |b.state(m).pcs| == |b.state(m).running| && b.state(m).running[u]
    ensures b.state(m).pcs[u] == b.state(i).pcs[u]
  {
    m := WokenOrAsleep(b, u, reader, i, paid);
    if !b.state(m).running[u] {
      PaidWakes(b, w, paid, u, reader);
      m := paid + 1;
    }
  }

  /** Under a fair scheduler a reader asleep over data, or a writer asleep over free space, is woken, and returns
      from its sleep. */
  lemma SleepersReturn(b: Behaviour, u: nat, i: nat, reader: bool) returns (j: nat)
    requires Behaves(b) && Fair(b) && WellFormed(b.state(i))
    requires Asleep(b.state(i), u, reader) && Wanted(b.state(i), reader)
    ensures i < j && ActsAt(b, u, j) && b.state(j).pcs[u] == b.state(i).pcs[u]
    ensures u < |b.state(j).running| && b.state(j).running[u]
  {
    var w := Debtor(b, u, i, reader);
    var paid := DebtPaid(b, w, i, reader);
    var m := IsWoken(b, w, paid, u, i, reader);
    j := EagerActs(b, u, m);
  }

  ghost predicate SleepsFrom(b: Behaviour, u: nat, i: nat, reader: bool) {
    forall n: nat :: i <= n ==> Asleep(b.state(n), u, reader)
  }

  lemma StillAsleep(b: Behaviour, u: nat, i: nat, reader: bool, n: nat)
    requires SleepsFrom(b, u, i, reader) && i <= n
    ensures Asleep(b.state(n), u, reader)
  {
  }

  /** So who sleeps for ever has nothing to do for ever. */
  lemma SleepsForeverIdle(b: Behaviour, u: nat, i: nat, reader: bool, j: nat)
    requires Behaves(b) && Fair(b) && SleepsFrom(b, u, i, reader) && i <= j
    ensures WellFormed(b.state(j)) && !Wanted(b.state(j), reader)
  {
    InvAt(b, j);
    StillAsleep(b, u, i, reader, j);
    if Wanted(b.state(j), reader) {
      var n := SleepersReturn(b, u, j, reader);
      StillAsleep(b, u, i, reader, n);
    }
  }
}
