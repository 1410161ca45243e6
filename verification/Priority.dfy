/**
  setpriority and getpriority: a fold over the selected tasks that remembers one
  error, and the query that reads the result back.
 */
module Priority {

  const EPERM: int := -1
  const ESRCH: int := -3
  const EACCES: int := -13
  const EINVAL: int := -22

  const PRIO_PROCESS: int := 0
  const PRIO_PGRP: int := 1
  const PRIO_USER: int := 2

  datatype Info = Info(pid: int, pgrp: int, uid: int, euid: int)

  /** Answers of the rest of the kernel during one call: the capability, whether a task's limits let
      it be raised, and the security module's verdict for each task. */
  datatype Hooks = Hooks(cap: bool, canNice: seq<bool>, lsm: seq<int>)

  function Clamp(n: int): int {
    if n < -20 then -20 else if n > 19 then 19 else n
  }

  // ----- the error fold -----

  /** One task's outcome (0 or an error) folded into the error so far. */
  function Fold1(error: int, outcome: int): int {
    if outcome != 0 then outcome else if error == ESRCH then 0 else error
  }

  function Fold(outcomes: seq<int>): int {
    if outcomes == [] then ESRCH else Fold1(Fold(outcomes[..|outcomes| - 1]), outcomes[|outcomes| - 1])
  }

  /** k is the last failure among the outcomes. */
  ghost predicate LastFailure(outcomes: seq<int>, k: int) {
    0 <= k < |outcomes| && outcomes[k] != 0 && forall j :: k < j < |outcomes| ==> outcomes[j] == 0
  }

  ghost predicate AllSucceed(outcomes: seq<int>) {
    forall j :: 0 <= j < |outcomes| ==> outcomes[j] == 0
  }

  /** What the fold returns, for every list of outcomes: no task, or all well, or the last failure;
      but a failure that is itself -ESRCH is forgotten if another task follows. */
  lemma {:induction false} FoldMeans(outcomes: seq<int>)
    ensures AllSucceed(outcomes) ==> Fold(outcomes) == if outcomes == [] then ESRCH else 0
    ensures forall k :: LastFailure(outcomes, k) ==>
              Fold(outcomes) == if outcomes[k] == ESRCH && k < |outcomes| - 1 then 0 else outcomes[k]
  {
    if outcomes != [] {
      var n := |outcomes| - 1;
      var front := outcomes[..n];
      FoldMeans(front);
      forall k | LastFailure(outcomes, k)
        ensures Fold(outcomes) == if outcomes[k] == ESRCH && k < n then 0 else outcomes[k]
      {
        if k < n {
          assert LastFailure(front, k);
        }
      }
    }
  }

  lemma {:induction false} FailureHasLast(outcomes: seq<int>) returns (k: int)
    requires !AllSucceed(outcomes)
    ensures LastFailure(outcomes, k)
  {
    var n := |outcomes| - 1;
    if outcomes[n] != 0 {
      k := n;
    } else {
      k := FailureHasLast(outcomes[..n]);
    }
  }

  /** As long as no task's failure is -ESRCH: -ESRCH means nobody was there, 0 means somebody was
      and everything succeeded. */
  lemma FoldTells(outcomes: seq<int>)
    requires ESRCH !in outcomes
    ensures Fold(outcomes) == ESRCH <==> outcomes == []
    ensures Fold(outcomes) == 0 <==> outcomes != [] && AllSucceed(outcomes)
  {
    FoldMeans(outcomes);
    if !AllSucceed(outcomes) {
      var k := FailureHasLast(outcomes);
    }
  }

  /** Without that proviso the promise fails: here the first task was refused, and 0 comes back. */
  lemma ForgottenFailure()
    ensures Fold([ESRCH, 0]) == 0 && !AllSucceed([ESRCH, 0])
  {
    assert [ESRCH, 0][..1] == [ESRCH];
    assert Fold([ESRCH]) == ESRCH by { assert [ESRCH][..0] == []; }
    assert [ESRCH, 0][0] != 0;
  }

  // ----- the calls -----

  class Tasks {
    const info: seq<Info>
    const current: nat
    var nice: seq<int>

    ghost predicate Valid()
      reads this
    {
      && |nice| == |info| && current < |info|
      && (forall i :: 0 <= i < |nice| ==> -20 <= nice[i] <= 19)
    }

    constructor (info: seq<Info>, current: nat, nice: seq<int>)
      requires |nice| == |info| && current < |info| && forall i :: 0 <= i < |nice| ==> -20 <= nice[i] <= 19
      ensures Valid() && this.info == info && this.current == current && this.nice == nice
    {
      this.info, this.current, this.nice := info, current, nice;
    }

    /** The tasks a call is about; who == 0 stands for the caller's own number. */
    predicate Selected(which: int, who: int, i: nat)
      requires current < |info| && i < |info|
    {
      var me := info[current];
      if which == PRIO_PROCESS then info[i].pid == (if who == 0 then me.pid else who)
      else if which == PRIO_PGRP then info[i].pgrp == (if who == 0 then me.pgrp else who)
      else which == PRIO_USER && info[i].uid == (if who == 0 then me.uid else who)
    }

    /** What setting one task to niceval comes to, its nice value being was. */
    function Outcome(i: nat, was: int, niceval: int, h: Hooks): int
      requires current < |info| && i < |info| == |h.canNice| == |h.lsm|
    {
      if info[i].uid != info[current].euid && info[i].euid != info[current].euid && !h.cap then EPERM
      else if niceval < was && !h.canNice[i] then EACCES
      else h.lsm[i]
    }

    /** The outcomes of the selected ones among the first n tasks, in order. */
    function Outcomes(which: int, who: int, nices: seq<int>, niceval: int, h: Hooks, n: nat): seq<int>
      requires current < |info| == |nices| == |h.canNice| == |h.lsm| && n <= |info|
    {
      if n == 0 then []
      else
        Outcomes(which, who, nices, niceval, h, n - 1)
        + if Selected(which, who, n - 1) then [Outcome(n - 1, nices[n - 1], niceval, h)] else []
    }

    method SetOnePrio(i: nat, niceval: int, error0: int, h: Hooks) returns (error: int)
      requires Valid() && i < |info| == |h.canNice| == |h.lsm| && -20 <= niceval <= 19
      modifies this
      ensures Valid() && error == Fold1(error0, Outcome(i, old(nice[i]), niceval, h))
      ensures nice == if Outcome(i, old(nice[i]), niceval, h) == 0 then old(nice)[i := niceval] else old(nice)
    {
      if info[i].uid != info[current].euid && info[i].euid != info[current].euid && !h.cap {
        return EPERM;
      }
      if niceval < nice[i] && !h.canNice[i] {
        return EACCES;
      }
      var noNice := h.lsm[i];
      if noNice != 0 {
        return noNice;
      }
      error := error0;
      if error == ESRCH {
        error := 0;
      }
      nice := nice[i := niceval];
    }

    method Setpriority(which: int, who: int, niceval0: int, h: Hooks) returns (error: int)
      requires Valid() && |h.canNice| == |h.lsm| == |info|
      modifies this
      ensures Valid()
      ensures !(PRIO_PROCESS <= which <= PRIO_USER) ==> error == EINVAL && nice == old(nice)
      ensures PRIO_PROCESS <= which <= PRIO_USER ==>
                error == Fold(Outcomes(which, who, old(nice), Clamp(niceval0), h, |info|))
      ensures PRIO_PROCESS <= which <= PRIO_USER ==>
                forall i :: 0 <= i < |info| ==>
                  nice[i] == if Selected(which, who, i) && Outcome(i, old(nice[i]), Clamp(niceval0), h) == 0
                             then Clamp(niceval0) else old(nice[i])
    {
      if which > PRIO_USER || which < PRIO_PROCESS {
        return EINVAL;
      }
      error := ESRCH;
      var niceval := Clamp(niceval0);
      ghost var was, os := nice, [];
      var i := 0;
      while i < |info|
        invariant 0 <= i <= |info| && Valid()
        invariant os == Outcomes(which, who, was, niceval, h, i) && error == Fold(os)
        invariant forall j :: 0 <= j < i ==>
                    nice[j] == if Selected(which, who, j) && Outcome(j, old(nice[j]), niceval, h) == 0
                               then niceval else old(nice[j])
        invariant forall j :: i <= j < |info| ==> nice[j] == old(nice[j])
      {
        if Selected(which, who, i) {
          FoldOneMore(os, Outcome(i, nice[i], niceval, h));
          os := os + [Outcome(i, nice[i], niceval, h)];
          error := SetOnePrio(i, niceval, error, h);
        }
        i := i + 1;
      }
    }

    method Getpriority(which: int, who: int) returns (retval: int)
      requires Valid()
      ensures !(PRIO_PROCESS <= which <= PRIO_USER) ==> retval == EINVAL
      ensures PRIO_PROCESS <= which <= PRIO_USER ==>
                if exists i :: 0 <= i < |info| && Selected(which, who, i) then
                  && (exists i :: 0 <= i < |info| && Selected(which, who, i) && retval == 20 - nice[i])
                  && (forall i :: 0 <= i < |info| && Selected(which, who, i) ==> 20 - nice[i] <= retval)
                  && 1 <= retval <= 40
                else retval == ESRCH
    {
      if which > PRIO_USER || which < PRIO_PROCESS {
        return EINVAL;
      }
      retval := ESRCH;
      var i := 0;
      while i < |info|
        invariant 0 <= i <= |info|
        invariant if exists j :: 0 <= j < i && Selected(which, who, j) then
                    && (exists j :: 0 <= j < i && Selected(which, who, j) && retval == 20 - nice[j])
                    && (forall j :: 0 <= j < i && Selected(which, who, j) ==> 20 - nice[j] <= retval)
                  else retval == ESRCH
      {
        if Selected(which, who, i) {
          var niceval := 20 - nice[i];
          if niceval > retval {
            retval := niceval;
          }
        }
        i := i + 1;
      }
    }
  }

  lemma FoldOneMore(outcomes: seq<int>, outcome: int)
    ensures Fold(outcomes + [outcome]) == Fold1(Fold(outcomes), outcome)
  {
    assert (outcomes + [outcome])[..|outcomes|] == outcomes;
  }

  lemma {:induction false} OutcomeListed(t: Tasks, which: int, who: int, nices: seq<int>, niceval: int, h: Hooks,
                                       n: nat, i: nat)
    requires t.current < |t.info| == |nices| == |h.canNice| == |h.lsm| && i < n <= |t.info| && t.Selected(which, who, i)
    ensures t.Outcome(i, nices[i], niceval, h) in t.Outcomes(which, who, nices, niceval, h, n)
  {
    if i < n - 1 {
      OutcomeListed(t, which, who, nices, niceval, h, n - 1, i);
    }
  }

  lemma {:induction false} NoneListed(t: Tasks, which: int, who: int, nices: seq<int>, niceval: int, h: Hooks, n: nat)
    requires t.current < |t.info| == |nices| == |h.canNice| == |h.lsm| && n <= |t.info|
    requires forall i :: 0 <= i < |t.info| ==> h.lsm[i] != ESRCH
    ensures ESRCH !in t.Outcomes(which, who, nices, niceval, h, n)
    ensures t.Outcomes(which, who, nices, niceval, h, n) != [] ==> exists i :: 0 <= i < n && t.Selected(which, who, i)
  {
    if n > 0 {
      NoneListed(t, which, who, nices, niceval, h, n - 1);
    }
  }

  /** Setting and asking: after setpriority returned 0, getpriority on the same selection returns 20
      minus the clamped value. */
  method SetThenGet(t: Tasks, which: int, who: int, niceval: int, h: Hooks) returns (error: int, retval: int)
    requires t.Valid() && |h.canNice| == |h.lsm| == |t.info|
    requires forall i :: 0 <= i < |t.info| ==> h.lsm[i] != ESRCH
    modifies t
    ensures error == 0 ==> retval == 20 - Clamp(niceval)
    ensures error == ESRCH ==> retval == ESRCH
  {
    ghost var nices, clamped := t.nice, Clamp(niceval);
    error := t.Setpriority(which, who, niceval, h);
    retval := t.Getpriority(which, who);
    if PRIO_PROCESS <= which <= PRIO_USER {
      ghost var os := t.Outcomes(which, who, nices, clamped, h, |t.info|);
      NoneListed(t, which, who, nices, clamped, h, |t.info|);
      FoldTells(os);
      forall i | 0 <= i < |t.info| && t.Selected(which, who, i)
        ensures t.Outcome(i, nices[i], clamped, h) in os
      {
        OutcomeListed(t, which, who, nices, clamped, h, |t.info|, i);
      }
    }
  }

  // ----- who is selected, and who is refused -----

  /** Which tasks a call is about: 0 a process, 1 a group, 2 a user, by number, where 0 is the caller's own. */
  lemma SelectedIff(t: Tasks, which: int, who: int, i: nat)
    requires t.current < |t.info| && i < |t.info|
    ensures who != 0 ==> (t.Selected(0, who, i) <==> t.info[i].pid == who)
    ensures t.Selected(0, 0, i) <==> t.info[i].pid == t.info[t.current].pid
    ensures who != 0 ==> (t.Selected(1, who, i) <==> t.info[i].pgrp == who)
    ensures who != 0 ==> (t.Selected(2, who, i) <==> t.info[i].uid == who)
    ensures t.Selected(1, 0, i) <==> t.info[i].pgrp == t.info[t.current].pgrp
    ensures t.Selected(2, 0, i) <==> t.info[i].uid == t.info[t.current].uid
    ensures !(0 <= which <= 2) ==> !t.Selected(which, who, i)
  {
  }

  /** The value set is the one asked for, brought into -20 to 19. */
  lemma ClampMeans(n: int)
    ensures -20 <= Clamp(n) <= 19
    ensures -20 <= n <= 19 ==> Clamp(n) == n
    ensures n < -20 ==> Clamp(n) == -20
    ensures 19 < n ==> Clamp(n) == 19
  {
  }

  /** When a task is refused. It is not the caller's, neither by its real nor by its effective id, and the caller
      lacks the capability: -EPERM. It would be raised, and its limits forbid it: -EACCES. Otherwise the security
      module decides. */
  lemma RefusedIff(t: Tasks, i: nat, was: int, niceval: int, h: Hooks)
    requires t.current < |t.info| && i < |t.info| == |h.canNice| == |h.lsm|
    ensures var mine := h.cap || t.info[i].uid == t.info[t.current].euid || t.info[i].euid == t.info[t.current].euid;
            var mayRaise := was <= niceval || h.canNice[i];
            && (t.Outcome(i, was, niceval, h) == 0 <==> mine && mayRaise && h.lsm[i] == 0)
            && (t.Outcome(i, was, niceval, h) == -1 <==> !mine || (mayRaise && h.lsm[i] == -1))
            && (t.Outcome(i, was, niceval, h) == -13 <==> mine && (!mayRaise || h.lsm[i] == -13))
            && (mine && mayRaise ==> t.Outcome(i, was, niceval, h) == h.lsm[i])
  {
  }
}
