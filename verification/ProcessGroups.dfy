/**
  Process groups and sessions: setpgid and setsid, and the steps of the
  environment that create, reparent and remove processes.
 */
module ProcessGroups {

  const EPERM: int := -1
  const ESRCH: int := -3
  const EACCES: int := -13
  const EINVAL: int := -22

  /** A thread group, named by the pid of its leader. */
  datatype Proc = Proc(pgid: int, sid: int, leader: bool, didExec: bool, parent: int)

  /** procs: the thread groups; threads: the other threads, each with its group. */
  datatype Table = Table(procs: map<int, Proc>, threads: map<int, int>)

  /** A number is fresh if nothing alive, no group and no session bears it. */
  predicate FreshId(t: Table, id: int) {
    && 0 < id && id !in t.procs && id !in t.threads
    && forall q :: q in t.procs ==> t.procs[q].pgid != id && t.procs[q].sid != id
  }

  // ----- the two calls as functions of the table -----

  function Move(t: Table, p: int, pgid: int): Table
    requires p in t.procs
  {
    t.(procs := t.procs[p := t.procs[p].(pgid := pgid)])
  }

  /** setpgid by a thread of group me; lsm is the security module's answer, 0 or an error. */
  function SetpgidResult(t: Table, me: int, pid0: int, pgid0: int, lsm: int): int
    requires me in t.procs
  {
    var pid := if pid0 == 0 then me else pid0;
    var pgid := if pgid0 == 0 then pid else pgid0;
    if pgid < 0 then EINVAL
    else if pid in t.threads then EINVAL
    else if pid !in t.procs then ESRCH
    else if t.procs[pid].parent == me && t.procs[pid].sid != t.procs[me].sid then EPERM
    else if t.procs[pid].parent == me && t.procs[pid].didExec then EACCES
    else if t.procs[pid].parent != me && pid != me then ESRCH
    else if t.procs[pid].leader then EPERM
    else if pgid != pid && !exists g :: g in t.procs && t.procs[g].pgid == pgid && t.procs[g].sid == t.procs[me].sid
    then EPERM
    else lsm
  }

  function SetpgidTable(t: Table, me: int, pid0: int, pgid0: int, lsm: int): Table
    requires me in t.procs
  {
    var pid := if pid0 == 0 then me else pid0;
    if SetpgidResult(t, me, pid0, pgid0, lsm) == 0 && pid in t.procs
    then Move(t, pid, if pgid0 == 0 then pid else pgid0)
    else t
  }

  /** setsid fails for a session leader, and while the caller's own number names a group. */
  function SetsidResult(t: Table, me: int): int
    requires me in t.procs
  {
    if t.procs[me].leader || exists g :: g in t.procs && t.procs[g].pgid == me then EPERM else me
  }

  function SetsidTable(t: Table, me: int): Table
    requires me in t.procs
  {
    if SetsidResult(t, me) < 0 then t
    else t.(procs := t.procs[me := t.procs[me].(pgid := me, sid := me, leader := true)])
  }

  // ----- what every step keeps -----

  /** All members of a group are in one session. */
  ghost predicate GroupsInSessions(t: Table) {
    forall p, q :: p in t.procs && q in t.procs && t.procs[p].pgid == t.procs[q].pgid ==>
                      t.procs[p].sid == t.procs[q].sid
  }

  /** A session leader's pid, group and session are one number. */
  ghost predicate LeadersLead(t: Table) {
    forall p :: p in t.procs && t.procs[p].leader ==> t.procs[p].pgid == p && t.procs[p].sid == p
  }

  /** A live process is in the session of the group that bears its number, if there is one. */
  ghost predicate OwnGroupNear(t: Table) {
    forall p, q :: p in t.procs && q in t.procs && t.procs[q].pgid == p ==> t.procs[q].sid == t.procs[p].sid
  }

  /** A session bearing a live process's number is led by it. */
  ghost predicate SessionsLed(t: Table) {
    forall p, q :: p in t.procs && q in t.procs && t.procs[q].sid == p ==> t.procs[p].leader
  }

  ghost predicate Inv(t: Table) {
    && GroupsInSessions(t) && LeadersLead(t) && OwnGroupNear(t) && SessionsLed(t)
    && (forall p :: p in t.procs ==> 0 < p && p !in t.threads)
  }

  /** The table with the locks held, updated in place by the calls. */
  class ProcessTable {
    var t: Table

    constructor (t: Table)
      ensures this.t == t
    {
      this.t := t;
    }

    method Setpgid(me: int, pid0: int, pgid0: int, lsm: int) returns (err: int)
      requires Inv(t) && me in t.procs
      modifies this
      ensures err == SetpgidResult(old(t), me, pid0, pgid0, lsm)
      ensures t == SetpgidTable(old(t), me, pid0, pgid0, lsm)
    {
      var pid, pgid := pid0, pgid0;
      if pid == 0 {
        pid := me;
      }
      if pgid == 0 {
        pgid := pid;
      }
      if pgid < 0 {
        return EINVAL;
      }
      if pid !in t.procs {
        return if pid in t.threads then EINVAL else ESRCH;
      }
      var p := t.procs[pid];
      if p.parent == me {
        if p.sid != t.procs[me].sid {
          return EPERM;
        }
        if p.didExec {
          return EACCES;
        }
      } else if pid != me {
        return ESRCH;
      }
      if p.leader {
        return EPERM;
      }
      if pgid != pid {
        // whichever member heads the group's list, its session is the group's
        if !exists g :: g in t.procs && t.procs[g].pgid == pgid {
          return EPERM;
        }
        var g :| g in t.procs && t.procs[g].pgid == pgid;
        if t.procs[g].sid != t.procs[me].sid {
          return EPERM;
        }
      }
      if lsm != 0 {
        return lsm;
      }
      if p.pgid != pgid {
        t := Move(t, pid, pgid);
      }
      assert t.procs == SetpgidTable(old(t), me, pid0, pgid0, lsm).procs;
      return 0;
    }

    method Setsid(me: int) returns (res: int)
      requires Inv(t) && me in t.procs
      modifies this
      ensures res == SetsidResult(old(t), me) && t == SetsidTable(old(t), me)
    {
      if t.procs[me].leader {
        return EPERM;
      }
      if exists g :: g in t.procs && t.procs[g].pgid == me {
        return EPERM;
      }
      t := t.(procs := t.procs[me := t.procs[me].(leader := true)]);
      t := t.(procs := t.procs[me := t.procs[me].(pgid := me, sid := me)]);
      assert t.procs == SetsidTable(old(t), me).procs;
      return me;
    }
  }

  // ----- runs -----

  datatype Op =
    | Setpgid(me: int, pid: int, pgid: int, lsm: int)
    | Setsid(me: int)
    | Fork(me: int, child: int, sibling: bool)  // sibling: the caller's parent becomes the parent
    | Clone(me: int, tid: int)                  // a new thread of me
    | Exec(p: int)
    | Reparent(p: int, parent: int)             // p's parent has exited
    | Release(p: int)                           // p has exited and been waited for
    | ThreadExit(tid: int)

  /** One step; a step whose actor is not alive changes nothing. */
  function Apply(t: Table, op: Op): Table {
    match op
    case Setpgid(me, pid, pgid, lsm) => if me in t.procs then SetpgidTable(t, me, pid, pgid, lsm) else t
    case Setsid(me) => if me in t.procs then SetsidTable(t, me) else t
    case Fork(me, child, sibling) =>
      if me in t.procs && FreshId(t, child) then
        var p := t.procs[me];
        t.(procs := t.procs[child := Proc(p.pgid, p.sid, false, false, if sibling then p.parent else me)])
      else t
    case Clone(me, tid) => if me in t.procs && FreshId(t, tid) then t.(threads := t.threads[tid := me]) else t
    case Exec(p) => if p in t.procs then t.(procs := t.procs[p := t.procs[p].(didExec := true)]) else t
    case Reparent(p, parent) => if p in t.procs then t.(procs := t.procs[p := t.procs[p].(parent := parent)]) else t
    case Release(p) => t.(procs := t.procs - {p})
    case ThreadExit(tid) => t.(threads := t.threads - {tid})
  }

  function Run(t: Table, ops: seq<Op>): Table {
    if ops == [] then t else Apply(Run(t, ops[..|ops| - 1]), ops[|ops| - 1])
  }

  /** The first process, before it has made itself a session. */
  const Boot := Table(map[1 := Proc(0, 0, false, false, 0)], map[])

  lemma SetpgidKeeps(t: Table, me: int, pid0: int, pgid0: int, lsm: int)
    requires Inv(t) && me in t.procs
    ensures Inv(SetpgidTable(t, me, pid0, pgid0, lsm))
  {
    var t' := SetpgidTable(t, me, pid0, pgid0, lsm);
    var pid := if pid0 == 0 then me else pid0;
    var pgid := if pgid0 == 0 then pid else pgid0;
    if t' != t {
      assert t'.procs == t.procs[pid := t.procs[pid].(pgid := pgid)];
      assert t.procs[pid].sid == t.procs[me].sid;
      forall q | q in t.procs && t.procs[q].pgid == pgid ensures t.procs[q].sid == t.procs[pid].sid {
        if pgid != pid {
          var g :| g in t.procs && t.procs[g].pgid == pgid && t.procs[g].sid == t.procs[me].sid;
          assert t.procs[g].sid == t.procs[q].sid;
        }
      }
    }
  }

  lemma SetsidKeeps(t: Table, me: int)
    requires Inv(t) && me in t.procs
    ensures Inv(SetsidTable(t, me))
  {
  }

  lemma ForkKeeps(t: Table, me: int, child: int, sibling: bool)
    requires Inv(t)
    ensures Inv(Apply(t, Fork(me, child, sibling)))
  {
  }

  lemma StepKeeps(t: Table, op: Op)
    requires Inv(t)
    ensures Inv(Apply(t, op))
  {
    match op
    case Setpgid(me, pid, pgid, lsm) =>
      if me in t.procs {
        SetpgidKeeps(t, me, pid, pgid, lsm);
      }
    case Setsid(me) =>
      if me in t.procs {
        SetsidKeeps(t, me);
      }
    case Fork(me, child, sibling) => ForkKeeps(t, me, child, sibling);
    case _ =>
  }

  /** Over every run from boot: groups lie inside sessions, leaders keep their numbers, and a
      process whose number names a group or a session belongs to it. */
  lemma {:induction false} RunKeeps(ops: seq<Op>)
    ensures Inv(Run(Boot, ops))
  {
    if ops != [] {
      RunKeeps(ops[..|ops| - 1]);
      StepKeeps(Run(Boot, ops[..|ops| - 1]), ops[|ops| - 1]);
    }
  }

  /** A session leader stays one, with the same group and session, through every run in which it is not
      released. */
  lemma {:induction false} LeadersStay(ops: seq<Op>, more: seq<Op>, p: int)
    requires p in Run(Boot, ops).procs && Run(Boot, ops).procs[p].leader
    requires Release(p) !in more
    ensures var t' := Run(Boot, ops + more);
            p in t'.procs && t'.procs[p].leader && t'.procs[p].pgid == t'.procs[p].sid == p
    decreases |more|
  {
    if more == [] {
      assert ops + more == ops;
      RunKeeps(ops);
    } else {
      var n := |more| - 1;
      LeadersStay(ops, more[..n], p);
      assert (ops + more)[..|ops + more| - 1] == ops + more[..n] && (ops + more)[|ops + more| - 1] == more[n];
      RunKeeps(ops + more[..n]);
      LeaderStays(Run(Boot, ops + more[..n]), more[n], p);
    }
  }

  lemma LeaderStays(t: Table, op: Op, p: int)
    requires Inv(t) && p in t.procs && t.procs[p].leader && op != Release(p)
    ensures var t' := Apply(t, op); p in t'.procs && t'.procs[p].leader && t'.procs[p].pgid == t'.procs[p].sid == p
  {
  }

  /** A successful setsid gives a session and a group with exactly one member, and disturbs nobody. */
  lemma SetsidAlone(ops: seq<Op>, me: int)
    requires me in Run(Boot, ops).procs && SetsidResult(Run(Boot, ops), me) != EPERM
    ensures var t, t' := Run(Boot, ops), Run(Boot, ops + [Setsid(me)]);
            && (forall q :: q in t'.procs ==> (t'.procs[q].sid == me <==> q == me))
            && (forall q :: q in t'.procs ==> (t'.procs[q].pgid == me <==> q == me))
            && t'.procs.Keys == t.procs.Keys && t'.threads == t.threads
            && (forall q :: q in t.procs && q != me ==> t'.procs[q] == t.procs[q])
  {
    assert (ops + [Setsid(me)])[..|ops|] == ops;
    RunKeeps(ops);
  }

  /** In every reachable table setsid fails exactly when the caller's number names a group. */
  lemma SetsidFailsIff(ops: seq<Op>, me: int)
    requires me in Run(Boot, ops).procs
    ensures var t := Run(Boot, ops);
            && (SetsidResult(t, me) == -1 <==> exists g :: g in t.procs && t.procs[g].pgid == me)
            && (SetsidResult(t, me) != -1 ==> SetsidResult(t, me) == me)
  {
    RunKeeps(ops);
  }

  /** A process only ever joins a group of its own session; only setsid takes it to another one. */
  lemma SessionsAreSticky(ops: seq<Op>, op: Op, p: int)
    requires p in Run(Boot, ops).procs && p in Run(Boot, ops + [op]).procs
    ensures var t, t' := Run(Boot, ops), Run(Boot, ops + [op]);
            && (t'.procs[p].sid != t.procs[p].sid ==> op == Setsid(p) && t'.procs[p].sid == p)
            && (t'.procs[p].pgid != t.procs[p].pgid ==>
                  (op == Setsid(p) || op.Setpgid?)
                  && forall q :: q in t'.procs && t'.procs[q].pgid == t'.procs[p].pgid ==>
                                   t'.procs[q].sid == t'.procs[p].sid)
  {
    assert (ops + [op])[..|ops|] == ops;
    RunKeeps(ops + [op]);
  }

  // ----- what setpgid answers -----

  /** p is a child of me. */
  predicate ChildOf(t: Table, p: int, me: int) {
    p in t.procs && t.procs[p].parent == me
  }

  /** A group of this number exists in the session of me. */
  ghost predicate GroupHere(t: Table, me: int, pgid: int)
    requires me in t.procs
  {
    exists g :: g in t.procs && t.procs[g].pgid == pgid && t.procs[g].sid == t.procs[me].sid
  }

  /** me may say which group p is in: p is me, or a child in the same session that has not exec'd. */
  ghost predicate InReach(t: Table, me: int, p: int)
    requires me in t.procs
  {
    && p in t.procs && (p == me || t.procs[p].parent == me)
    && (t.procs[p].parent == me ==> t.procs[p].sid == t.procs[me].sid && !t.procs[p].didExec)
  }

  /** Exactly when setpgid succeeds, and, unless the security module has its say, exactly when each error comes.
      The process meant is p, the group pgid; both come from the arguments, where 0 stands for the caller and for
      the process. */
  lemma SetpgidAnswers(t: Table, me: int, pid0: int, pgid0: int, lsm: int, p: int, pgid: int)
    requires Inv(t) && me in t.procs
    requires p == (if pid0 == 0 then me else pid0) && pgid == (if pgid0 == 0 then p else pgid0)
    ensures var err := SetpgidResult(t, me, pid0, pgid0, lsm);
            var allowed := && 0 <= pgid && InReach(t, me, p) && !t.procs[p].leader
                           && (pgid == p || GroupHere(t, me, pgid));
            && (allowed ==> err == lsm)
            && (!allowed ==>
                  && (err == -22 <==> pgid < 0 || p in t.threads)
                  && (err == -3 <==> 0 <= pgid && p !in t.threads && (p !in t.procs || (p != me && !ChildOf(t, p, me))))
                  && (err == -13 <==> 0 <= pgid && ChildOf(t, p, me) && t.procs[p].sid == t.procs[me].sid
                                      && t.procs[p].didExec)
                  && (err == -1 <==> 0 <= pgid && p in t.procs && (p == me || ChildOf(t, p, me))
                                     && ((ChildOf(t, p, me) && t.procs[p].sid != t.procs[me].sid)
                                         || (InReach(t, me, p)
                                             && (t.procs[p].leader || (pgid != p && !GroupHere(t, me, pgid)))))))
  {
  }

  /** What success changes: the group of that one process, and nothing else. */
  lemma SetpgidMoves(t: Table, me: int, pid0: int, pgid0: int, lsm: int, p: int, q: int)
    requires Inv(t) && me in t.procs && p == (if pid0 == 0 then me else pid0) && q in t.procs
    ensures var t' := SetpgidTable(t, me, pid0, pgid0, lsm);
            && t'.procs.Keys == t.procs.Keys && t'.threads == t.threads
            && t'.procs[q] == t.procs[q].(pgid := t'.procs[q].pgid)
            && (SetpgidResult(t, me, pid0, pgid0, lsm) == 0 && q == p ==>
                  t'.procs[q].pgid == if pgid0 == 0 then p else pgid0)
            && (SetpgidResult(t, me, pid0, pgid0, lsm) != 0 || q != p ==> t'.procs[q] == t.procs[q])
  {
  }

  // ----- over runs -----

  /** A process that has not exec'd is one whose number has not exec'd since it was last released. */
  lemma {:induction false} ExecShows(ops: seq<Op>, p: int, i: nat)
    requires p in Run(Boot, ops).procs && !Run(Boot, ops).procs[p].didExec
    requires i < |ops| && ops[i] == Exec(p) && p in Run(Boot, ops[..i]).procs
    ensures exists j :: i < j < |ops| && ops[j] == Release(p)
    decreases |ops|
  {
    var n := |ops| - 1;
    var front := ops[..n];
    if i == n {
      assert false;
    }
    assert front[..i] == ops[..i];
    if ops[n] != Release(p) {
      var t := Run(Boot, front);
      if p !in t.procs {
        GoneReleased(front, p, i);
      } else {
        RunKeeps(front);
        assert !t.procs[p].didExec;
        ExecShows(front, p, i);
      }
      var j :| i < j < |front| && front[j] == Release(p);
      assert ops[j] == Release(p);
    }
  }

  /** Who was there and is gone was released. */
  lemma {:induction false} GoneReleased(ops: seq<Op>, p: int, i: nat)
    requires p !in Run(Boot, ops).procs && i < |ops| && ops[i] == Exec(p) && p in Run(Boot, ops[..i]).procs
    ensures exists j :: i < j < |ops| && ops[j] == Release(p)
    decreases |ops|
  {
    var n := |ops| - 1;
    var front := ops[..n];
    if i == n {
      assert false;
    }
    assert front[..i] == ops[..i];
    if ops[n] != Release(p) {
      assert p !in Run(Boot, front).procs;
      GoneReleased(front, p, i);
      var j :| i < j < |front| && front[j] == Release(p);
      assert ops[j] == Release(p);
    }
  }

  /** Whoever has its group changed by another process's setpgid is a child of that process in its session, leads
      no session, and has not exec'd: any exec under its number was by an earlier process, released since. */
  lemma OnlyFreshChildrenMove(ops: seq<Op>, me: int, pid0: int, pgid0: int, lsm: int, p: int)
    requires p in Run(Boot, ops).procs && p != me
    requires var t' := Run(Boot, ops + [Setpgid(me, pid0, pgid0, lsm)]);
             p in t'.procs && t'.procs[p].pgid != Run(Boot, ops).procs[p].pgid
    ensures var t := Run(Boot, ops);
            && me in t.procs && t.procs[p].parent == me && t.procs[p].sid == t.procs[me].sid && !t.procs[p].leader
            && forall i: nat :: i < |ops| && ops[i] == Exec(p) && p in Run(Boot, ops[..i]).procs ==>
                                  exists j :: i < j < |ops| && ops[j] == Release(p)
  {
    var op := Setpgid(me, pid0, pgid0, lsm);
    assert (ops + [op])[..|ops|] == ops;
    RunKeeps(ops);
    var t := Run(Boot, ops);
    assert me in t.procs && !t.procs[p].didExec;
    forall i: nat | i < |ops| && ops[i] == Exec(p) && p in Run(Boot, ops[..i]).procs
      ensures exists j :: i < j < |ops| && ops[j] == Release(p)
    {
      ExecShows(ops, p, i);
    }
  }

  /** A new process is in the group and the session of its creator, leads nothing and has not exec'd. */
  lemma ForkInherits(t: Table, me: int, child: int, sibling: bool)
    requires Inv(t) && me in t.procs && FreshId(t, child)
    ensures Apply(t, Fork(me, child, sibling)).procs
            == t.procs[child := Proc(t.procs[me].pgid, t.procs[me].sid, false, false,
                                     if sibling then t.procs[me].parent else me)]
  {
  }
}
