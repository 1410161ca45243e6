/**
  Runs of the pipe's protocol, step by step: where its promise ends, and that the condition
  put on opens is the exact one.
 */
module PipeWitnesses {
  import opened Bytes
  import opened PipeRing
  import opened PipeProtocol
  import opened PipeRuns

  function Last(run: seq<State>): State
    requires run != []
  {
    run[|run| - 1]
  }

  lemma Extend(run: seq<State>, safe: bool, s': State) returns (more: seq<State>)
    requires Run(run, safe) && Moves(Last(run), s', safe)
    ensures Run(more, safe) && more == run + [s'] && Last(more) == s'
  {
    more := run + [s'];
    forall i | 0 <= i < |more| - 1 ensures MovesAt(more, i, safe) {
      if i < |run| - 1 {
        assert more[i] == run[i] && more[i + 1] == run[i + 1];
        assert MovesAt(run, i, safe);
      } else {
        assert more[i] == Last(run);
      }
    }
  }

  lemma ByRead(run: seq<State>, safe: bool, t: nat, s': State) returns (more: seq<State>)
    requires Run(run, safe) && WellFormed(Last(run)) && t < |Last(run).pcs| && ReadStep(Last(run), t, s')
    ensures Run(more, safe) && more == run + [s'] && Last(more) == s'
  {
    assert SafeStep(Last(run), t, s');
    more := Extend(run, safe, s');
  }

  lemma ByWrite(run: seq<State>, safe: bool, t: nat, s': State) returns (more: seq<State>)
    requires Run(run, safe) && WellFormed(Last(run)) && t < |Last(run).pcs| && WriteStep(Last(run), t, s')
    ensures Run(more, safe) && more == run + [s'] && Last(more) == s'
  {
    assert SafeStep(Last(run), t, s');
    more := Extend(run, safe, s');
  }

  lemma ByOpen(run: seq<State>, t: nat, s': State) returns (more: seq<State>)
    requires Run(run, false) && WellFormed(Last(run)) && t < |Last(run).pcs| && OpenStep(Last(run), t, s')
    ensures Run(more, false) && more == run + [s'] && Last(more) == s'
  {
    assert Step(Last(run), t, s');
    more := Extend(run, false, s');
  }

  lemma Begin(run: seq<State>, safe: bool, t: nat, pc: Pc) returns (more: seq<State>)
    requires Run(run, safe) && WellFormed(Last(run)) && t < |Last(run).pcs|
    requires Last(run).pcs[t].Idle? && Begins(pc)
    ensures Run(more, safe) && more == run + [Last(run).At(t, pc)] && Last(more) == Last(run).At(t, pc)
  {
    var s' := Last(run).At(t, pc);
    assert OtherStep(Last(run), t, s') && SafeStep(Last(run), t, s');
    more := Extend(run, safe, s');
  }

  /** The semaphore is free and t is between calls. */
  ghost predicate CanCall(s: State, t: nat) {
    WellFormed(s) && s.holder == -1 && t < |s.pcs| && s.pcs[t].Idle? && s.running[t]
  }

  lemma ReadFindsEmpty(run: seq<State>, safe: bool, t: nat) returns (more: seq<State>)
    requires Run(run, safe) && CanCall(Last(run), t) && Last(run).ring.rp == Last(run).ring.wp
    ensures Run(more, safe) && Last(more) == Last(run).At(t, RPrep(1))
  {
    var s := Last(run);
    more := Begin(run, safe, t, RDown(1, false));
    more := ByRead(more, safe, t, s.At(t, RTop(1, false)).(holder := t));
    more := ByRead(more, safe, t, s.At(t, RUp(1, false)).(holder := t));
    more := ByRead(more, safe, t, s.At(t, RTest(1)));
    more := ByRead(more, safe, t, s.At(t, RPrep(1)));
  }

  /** A read of an empty pipe ends up asleep. */
  lemma ReadSleeps(run: seq<State>, safe: bool, t: nat) returns (more: seq<State>)
    requires Run(run, safe) && CanCall(Last(run), t) && Last(run).ring.rp == Last(run).ring.wp
    ensures Run(more, safe)
    ensures var s := Last(run);
            Last(more) == s.At(t, RSleep(1)).(inq := s.inq + {t}, running := s.running[t := false])
  {
    var s := Last(run);
    var q := s.(inq := s.inq + {t}, running := s.running[t := false]);
    more := ReadFindsEmpty(run, safe, t);
    more := ByRead(more, safe, t, q.At(t, RRecheck(1)));
    more := ByRead(more, safe, t, q.At(t, RHaveRp(1, s.ring.rp)));
    more := ByRead(more, safe, t, q.At(t, RSleep(1)));
  }

  lemma WriteFindsFull(run: seq<State>, safe: bool, t: nat) returns (more: seq<State>)
    requires Run(run, safe) && CanCall(Last(run), t) && Last(run).Free() == 0
    ensures Run(more, safe) && Last(more) == Last(run).At(t, WPrep([0]))
  {
    var s := Last(run);
    more := Begin(run, safe, t, WDown([0], false));
    more := ByWrite(more, safe, t, s.At(t, WTop([0], false)).(holder := t));
    more := ByWrite(more, safe, t, s.At(t, WUp([0], false)).(holder := t));
    more := ByWrite(more, safe, t, s.At(t, WPrep([0])));
  }

  /** A write to a full pipe ends up asleep. */
  lemma WriteSleeps(run: seq<State>, safe: bool, t: nat) returns (more: seq<State>)
    requires Run(run, safe) && CanCall(Last(run), t) && Last(run).Free() == 0
    ensures Run(more, safe)
    ensures var s := Last(run);
            Last(more) == s.At(t, WSleep([0])).(outq := s.outq + {t}, running := s.running[t := false])
  {
    var s := Last(run);
    var q := s.(outq := s.outq + {t}, running := s.running[t := false]);
    more := WriteFindsFull(run, safe, t);
    more := ByWrite(more, safe, t, q.At(t, WRecheck([0])));
    more := ByWrite(more, safe, t, q.At(t, WHaveRp([0], s.ring.rp)));
    more := ByWrite(more, safe, t, q.At(t, WSleep([0])));
  }

  lemma WriteEnds(run: seq<State>, t: nat) returns (more: seq<State>)
    requires Run(run, false) && WellFormed(Last(run)) && t < |Last(run).pcs|
    requires Last(run).pcs[t].WUnlock? && Last(run).holder == t && Last(run).inq == {}
    ensures Run(more, false) && Last(more) == Last(run).At(t, Idle).(holder := -1)
  {
    var s := Last(run).(holder := -1);
    more := ByWrite(run, false, t, s.At(t, WWake));
    more := ByWrite(more, false, t, s.At(t, Idle));
  }

  /** The pipe of two bytes, with one written. */
  function Filled(): State {
    Fresh(2).(ring := Ring([7, 0], 0, 1), accepted := [7])
  }

  lemma PutFills(top: State, put: State)
    requires top == Fresh(2).At(0, WTop([7], false)).(holder := 0)
    requires put == Filled().At(0, WUnlock).(holder := 0)
    ensures WellFormed(top) && WriteStep(top, 0, put)
  {
    assert Fresh(2).ring.AfterWrite([7]).buf == [7, 0] && [7][..1] == [7];
    assert PutStep(top, 0, put, [7], 1);
  }

  /** A one-byte write fills a two-byte buffer. */
  lemma WriteFills(run: seq<State>) returns (more: seq<State>)
    requires Run(run, false) && Last(run) == Fresh(2)
    ensures Run(more, false) && Last(more) == Filled()
  {
    var s := Fresh(2);
    var top, put := s.At(0, WTop([7], false)).(holder := 0), Filled().At(0, WUnlock).(holder := 0);
    more := Begin(run, false, 0, WDown([7], false));
    more := ByWrite(more, false, 0, top);
    PutFills(top, put);
    more := ByWrite(more, false, 0, put);
    more := WriteEnds(more, 0);
    assert put.At(0, Idle).(holder := -1) == Filled();
  }

  /** An open empties the pipe, whoever is asleep. */
  lemma OpenEmpties(run: seq<State>, t: nat) returns (more: seq<State>)
    requires Run(run, false) && CanCall(Last(run), t)
    ensures var s := Last(run);
            Run(more, false) && Last(more) == s.(ring := s.ring.(rp := 0, wp := 0), accepted := [], delivered := [])
  {
    var s := Last(run);
    var e := s.(ring := s.ring.(rp := 0, wp := 0), accepted := [], delivered := []);
    more := Begin(run, false, t, ODown);
    more := ByOpen(more, t, s.At(t, OTop).(holder := t));
    more := ByOpen(more, t, e.At(t, OUp).(holder := t));
    more := ByOpen(more, t, e);
  }

  function Fresh(size: nat): State {
    State(Ring(seq(size, _ => 0), 0, 0), -1, [Idle, Idle, Idle], [true, true, true], {}, {}, [], [])
  }

  /** A buffer of one byte has room for nothing: a reader and a writer sleep against each other. */
  lemma OneByteBufferDeadlocks() returns (run: seq<State>)
    ensures SafeRun(run) && |Last(run).ring.buf| == 1
    ensures WellFormed(Last(run)) && |Last(run).pcs| == 3
    ensures ReaderAsleep(Last(run), 0) && WriterAsleep(Last(run), 1) && Stuck(Last(run))
  {
    run := [Fresh(1)];
    run := ReadSleeps(run, true, 0);
    run := WriteSleeps(run, true, 1);
  }

  /** An open while a writer sleeps frees the whole pipe and tells nobody. */
  lemma OpenLosesWakeup() returns (run: seq<State>)
    ensures Run(run, false) && |Last(run).ring.buf| == 2
    ensures WellFormed(Last(run)) && |Last(run).pcs| == 3
    ensures WriterAsleep(Last(run), 1) && Last(run).Free() > 0 && Stuck(Last(run)) && !NoLostWakeup(Last(run))
  {
    run := WriteFills([Fresh(2)]);
    run := WriteSleeps(run, false, 1);
    run := OpenEmpties(run, 2);
  }

  // ----- the condition on opens is exact -----

  /** The pipe just emptied. */
  function Emptied(s: State): State {
    s.(ring := s.ring.(rp := 0, wp := 0), accepted := [], delivered := [])
  }

  /** A writer asleep over free space, with no debt among the readers. */
  lemma LostAt(s: State, u: nat)
    requires WellFormed(s) && u < |s.pcs| && WriterAsleep(s, u) && s.Free() > 0 && !OwesWriters(s)
    ensures !NoLostWakeup(s)
  {
  }

  /** A process that ends up owing the writers nothing has added no debt. */
  lemma NoNewDebt(s: State, s': State, t: nat)
    requires t < |s.pcs| == |s'.pcs| && s'.pcs == s.pcs[t := s'.pcs[t]]
    requires !OwesWriters(s) && !Owing(s'.pcs[t], false)
    ensures !OwesWriters(s')
  {
    OthersDebts(s', t, s);
  }

  /** A writer that is not running finds the pipe full, though it is not, and sleeps. */
  lemma FallsAsleep(run: seq<State>, u: nat, d: seq<Byte>) returns (more: seq<State>)
    requires Run(run, false) && WellFormed(Last(run)) && u < |Last(run).pcs| && !Last(run).running[u]
    requires WriteStep(Last(run), u, Last(run).At(u, WSleep(d)))
    requires Last(run).Free() > 0 && !OwesWriters(Last(run))
    ensures Run(more, false) && run <= more && WellFormed(Last(more)) && !NoLostWakeup(Last(more))
  {
    var s' := Last(run).At(u, WSleep(d));
    more := ByWrite(run, false, u, s');
    NoNewDebt(Last(run), s', u);
    LostAt(s', u);
  }

  /** The opener empties the pipe and lets the semaphore go. */
  lemma OpenEnds(run: seq<State>, t: nat) returns (more: seq<State>)
    requires Run(run, false) && WellFormed(Last(run)) && t < |Last(run).pcs|
    requires Last(run).pcs[t].OTop? && Last(run).holder == t
    ensures Run(more, false) && run <= more
    ensures Last(more) == Emptied(Last(run)).At(t, Idle).(holder := -1) && WellFormed(Last(more))
  {
    var e := Emptied(Last(run));
    more := ByOpen(run, t, e.At(t, OUp));
    more := ByOpen(more, t, e.At(t, Idle).(holder := -1));
  }

  lemma PutAll(top: State, t: nat, put: State, data: seq<Byte>)
    requires WellFormed(top) && t < |top.pcs| && top.pcs[t] == WTop(data, false)
    requires top.ring.rp == top.ring.wp == 0 && 0 < |data| < |top.ring.buf|
    requires put == top.At(t, WUnlock).(ring := top.ring.AfterWrite(data), accepted := top.accepted + data)
    ensures WriteStep(top, t, put) && WellFormed(put)
    ensures |put.ring.buf| == |top.ring.buf| && put.ring.rp == 0 && put.ring.wp == |data|
  {
    SpaceConserved(top.ring);
    assert data[..|data|] == data && top.ring.WriteCount(|data|) == |data|;
    assert PutStep(top, t, put, data, |data|);
    PutWellFormed(top, t, put, data);
  }

  /** The same process then writes n bytes into the emptied pipe, up to the moment it lets the semaphore go. */
  lemma Refill(run: seq<State>, t: nat, n: nat) returns (more: seq<State>)
    requires Run(run, false) && WellFormed(Last(run)) && t < |Last(run).pcs|
    requires Last(run).pcs[t].Idle? && Last(run).holder == -1 && Last(run).ring.rp == Last(run).ring.wp == 0
    requires 0 < n < |Last(run).ring.buf|
    ensures Run(more, false) && run <= more
    ensures var s, e := Last(run), Last(more);
            && WellFormed(e) && |e.ring.buf| == |s.ring.buf| && e.ring.rp == 0 && e.ring.wp == n
            && e.pcs == s.pcs[t := WUnlock] && e.running == s.running
  {
    var s := Last(run);
    var data := seq(n, _ => 0);
    var top := s.At(t, WTop(data, false)).(holder := t);
    var put := top.At(t, WUnlock).(ring := top.ring.AfterWrite(data), accepted := top.accepted + data);
    more := Begin(run, false, t, WDown(data, false));
    more := ByWrite(more, false, t, top);
    PutAll(top, t, put, data);
    more := ByWrite(more, false, t, put);
  }

  /** After the open: a writer that holds an old read position is led to sleep. */
  lemma MisledWriter(run: seq<State>, t: nat, u: nat, d: seq<Byte>, v: nat) returns (more: seq<State>)
    requires Run(run, false) && WellFormed(Last(run)) && t < |Last(run).pcs| && u < |Last(run).pcs| && t != u
    requires Last(run).pcs[t].Idle? && Last(run).holder == -1 && Last(run).ring.rp == Last(run).ring.wp == 0
    requires Last(run).pcs[u] == WHaveRp(d, v) && !Last(run).running[u] && !OwesWriters(Last(run))
    requires 0 < v < |Last(run).ring.buf|
    ensures Run(more, false) && run <= more && WellFormed(Last(more)) && !NoLostWakeup(Last(more))
  {
    var full := run;
    if v > 1 {
      full := Refill(run, t, v - 1);
      NoNewDebt(Last(run), Last(full), t);
    }
    SpaceConserved(Last(full).ring);
    LooksFull(|Last(run).ring.buf|, v);
    more := FallsAsleep(full, u, d);
    assert run <= full <= more;
  }

  /** Whenever the condition fails, the open can be followed to a lost wake-up: at once, or when the
      stranded writer has compared its old position, or after one more write has made the comparison fail. */
  lemma StrandedRun(run: seq<State>, t: nat) returns (more: seq<State>)
    requires SafeRun(run) && t < |Last(run).pcs| && Last(run).pcs[t].OTop?
    requires WellFormed(Last(run)) && !Harmless(Last(run))
    ensures Run(more, false) && run <= more && WellFormed(Last(more)) && !NoLostWakeup(Last(more))
  {
    var s := Last(run);
    var u := Stranded(run, t);
    Unsafely(run);
    var open := OpenEnds(run, t);
    NoNewDebt(s, Last(open), t);
    more := AfterOpen(s, open, t, u);
    assert run <= open <= more;
  }

  /** A writer the open would strand. */
  lemma Stranded(run: seq<State>, t: nat) returns (u: nat)
    requires SafeRun(run) && t < |Last(run).pcs| && Last(run).pcs[t].OTop?
    requires WellFormed(Last(run)) && !Harmless(Last(run))
    ensures u < |Last(run).pcs| && u != t && Strands(Last(run), u) && WriterOk(Last(run), u)
    ensures 1 < |Last(run).ring.buf| && !OwesWriters(Last(run)) && Last(run).holder == t
  {
    var s := Last(run);
    RunInv(run, |run| - 1);
    u :| u < |s.pcs| && Strands(s, u);
    OpenerHolds(s, t, u);
  }

  lemma OpenerHolds(s: State, t: nat, u: nat)
    requires Inv(s) && t < |s.pcs| && s.pcs[t].OTop? && u < |s.pcs|
    ensures s.holder == t && WriterOk(s, u)
  {
    assert Holds(s.pcs[t]);
  }

  /** What follows an open that has stranded writer u. */
  lemma AfterOpen(s: State, open: seq<State>, t: nat, u: nat) returns (more: seq<State>)
    requires Run(open, false) && WellFormed(s) && t < |s.pcs| && u < |s.pcs| && t != u && 1 < |s.ring.buf|
    requires Strands(s, u) && WriterOk(s, u)
    requires Last(open) == Emptied(s).At(t, Idle).(holder := -1) && WellFormed(Last(open)) && !OwesWriters(Last(open))
    ensures Run(more, false) && open <= more && WellFormed(Last(more)) && !NoLostWakeup(Last(more))
  {
    var e := Last(open);
    SpaceConserved(e.ring);
    match s.pcs[u]
    case WSleep(_) =>
      LostAt(e, u);
      more := open;
    case WHaveWp(d, v) => more := FallsAsleep(open, u, d);
    case WHaveRp(d, v) => more := MisledWriter(open, t, u, d, v);
  }

  /** From a read position v, a write position just before it looks like a full pipe. */
  lemma LooksFull(size: nat, v: nat)
    requires 0 < v < size
    ensures SpaceFree(size, v, v - 1) == 0
  {
  }

  /** A safe run is a run. */
  lemma Unsafely(run: seq<State>)
    requires SafeRun(run)
    ensures Run(run, false)
  {
    forall i | 0 <= i < |run| - 1 ensures MovesAt(run, i, false) {
      assert MovesAt(run, i, true);
    }
  }
}
