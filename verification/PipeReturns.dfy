/**
  Whole calls of read and write, from their beginning to their return: how they may end, and
  what O_NONBLOCK changes.
 */
module PipeReturns {
  import opened Bytes
  import opened PipeProtocol
  import opened PipeRuns
  import opened PipeCalls

  lemma {:induction false} ReadHistory(run: seq<State>, t: nat, i: nat, j: nat, count: nat, nb: bool)
    requires Run(run, false) && InCall(run, t, i, j) && Busy(run[i], t) && run[i].pcs[t] == RDown(count, nb)
    ensures ReadSoFar(run, t, i, j, count, nb)
    decreases j - i
  {
    CallSoFar(run, t, i, j);
    if i == j {
      ReadBegun(run, t, i, count, nb);
    } else {
      ReadHistory(run, t, i, j - 1, count, nb);
      ReadUpTo(run, t, i, j, count, nb);
    }
  }

  lemma {:induction false} WriteHistory(run: seq<State>, t: nat, i: nat, j: nat, data: seq<Byte>, nb: bool)
    requires Run(run, false) && InCall(run, t, i, j) && Busy(run[i], t) && run[i].pcs[t] == WDown(data, nb)
    ensures WriteSoFar(run, t, i, j, data, nb)
    decreases j - i
  {
    CallSoFar(run, t, i, j);
    if i == j {
      WriteBegun(run, t, i, data, nb);
    } else {
      WriteHistory(run, t, i, j - 1, data, nb);
      WriteUpTo(run, t, i, j, data, nb);
    }
  }

  /** A process in a call begun with O_NONBLOCK is in no queue and does not sleep, as long as the call lasts. */
  lemma NonblockNeverWaits(run: seq<State>, t: nat, i: nat, j: nat)
    requires Run(run, false) && InCall(run, t, i, j) && Busy(run[i], t)
    requires var pc := run[i].pcs[t]; (pc.RDown? || pc.WDown?) && pc.nb
    ensures Busy(run[j], t) && t !in run[j].inq && t !in run[j].outq && !run[j].pcs[t].RSleep? && !run[j].pcs[t].WSleep?
  {
    var pc := run[i].pcs[t];
    RunQueues(run, j, t);
    if pc.RDown? {
      ReadHistory(run, t, i, j, pc.count, true);
    } else {
      WriteHistory(run, t, i, j, pc.data, true);
    }
  }

  /** How a read ends: it was interrupted, it took bytes, its copy failed, or, with O_NONBLOCK and only then, it
      found the pipe empty. */
  lemma ReadEnds(run: seq<State>, t: nat, i: nat, j: nat, count: nat, nb: bool)
    requires Run(run, false) && InCall(run, t, i, j) && Busy(run[i], t) && run[i].pcs[t] == RDown(count, nb)
    requires j + 1 < |run| && t < |run[j + 1].pcs| && run[j + 1].pcs[t].Idle?
    ensures || Interrupted(run[j].pcs[t]) || Took(run, t, i, j, count) || CopyFailed(run, t, i, j)
            || (nb && SawEmpty(run, t, i, j))
  {
    ReadHistory(run, t, i, j, count, nb);
    ReadOneMore(run, t, i, j, count, nb);
  }

  /** How a write ends. */
  lemma WriteEnds(run: seq<State>, t: nat, i: nat, j: nat, data: seq<Byte>, nb: bool)
    requires Run(run, false) && InCall(run, t, i, j) && Busy(run[i], t) && run[i].pcs[t] == WDown(data, nb)
    requires j + 1 < |run| && t < |run[j + 1].pcs| && run[j + 1].pcs[t].Idle?
    ensures || Interrupted(run[j].pcs[t]) || WasPut(run, t, i, j, data) || CopyFailed(run, t, i, j)
            || (nb && SawFull(run, t, i, j))
  {
    WriteHistory(run, t, i, j, data, nb);
    WriteOneMore(run, t, i, j, data, nb);
  }
}
