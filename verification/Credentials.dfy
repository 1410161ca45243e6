/**
  The user and group ids of a process under the calls that change them.

  Each call works on a copy of the credentials and commits it at the end. What
  the kernel's other parts decide is a parameter: whether the caller has the
  capability, whether the new user is over its process limit, and what the
  security module answers (0, or an error; only setfsuid takes a positive answer
  for one).
 */
module Credentials {

  type Id = x: int | 0 <= x <= 0xFFFF_FFFF

  const NONE: Id := 0xFFFF_FFFF   // (uid_t) -1: leave this id alone

  const EPERM: int := -1
  const EAGAIN: int := -11

  /** Real, effective, saved and filesystem id; one quadruple for users and one for groups. */
  datatype Ids = Ids(rid: Id, eid: Id, sid: Id, fsid: Id)

  /** What surrounds one call. */
  datatype Env = Env(cap: bool, overLimit: bool, lsm: int)

  datatype Call =
    | SetRe(r: Id, e: Id)             // setreuid, setregid
    | Set(id: Id)                     // setuid, setgid
    | SetRes(r: Id, e: Id, s: Id)     // setresuid, setresgid
    | SetFs(id: Id)                   // setfsuid, setfsgid

  function Or(id: Id, was: Id): Id {
    if id == NONE then was else id
  }

  /** The ids a call may install. */
  predicate Permitted(o: Ids, call: Call, cap: bool) {
    cap ||
    match call
    case SetRe(r, e) => r in {NONE, o.rid, o.eid} && e in {NONE, o.rid, o.eid, o.sid}
    case Set(id) => id in {o.rid, o.sid}
    case SetRes(r, e, s) => {r, e, s} <= {NONE, o.rid, o.eid, o.sid}
    case SetFs(id) => id in {o.rid, o.eid, o.sid, o.fsid}
  }

  /** The ids a permitted call installs. */
  function Installed(o: Ids, call: Call, cap: bool): Ids {
    match call
    case SetRe(r, e) =>
      var eff := Or(e, o.eid);
      Ids(Or(r, o.rid), eff, if r != NONE || (e != NONE && e != o.rid) then eff else o.sid, eff)
    case Set(id) => if cap then Ids(id, id, id, id) else Ids(o.rid, id, o.sid, id)
    case SetRes(r, e, s) => Ids(Or(r, o.rid), Or(e, o.eid), Or(s, o.sid), Or(e, o.eid))
    case SetFs(id) => o.(fsid := id)
  }

  /** 0, or why the call changes nothing. */
  function Verdict(o: Ids, call: Call, env: Env): int {
    if !Permitted(o, call, env.cap) then EPERM
    else if !call.SetFs? && Installed(o, call, env.cap).rid != o.rid && env.overLimit then EAGAIN
    else if env.lsm < 0 || (call.SetFs? && env.lsm != 0) then env.lsm
    else 0
  }

  function Apply(o: Ids, call: Call, env: Env): Ids {
    if Verdict(o, call, env) == 0 then Installed(o, call, env.cap) else o
  }

  /** When a call succeeds, and when each error comes: the caller may not, a limit is hit, or the security
      module refuses. */
  ghost predicate Answers(res: int, may: bool, limit: bool, lsm: int) {
    && (res == 0 <==> may && !limit && 0 <= lsm)
    && (res == -1 <==> !may || (!limit && lsm == -1))
    && (res == -11 <==> may && (limit || lsm == -11))
    && (may && !limit && lsm < 0 ==> res == lsm)
  }

  /** No id to set, or one of the real, the effective and the saved. */
  ghost predicate OneOfThree(o: Ids, id: Id) {
    id == 0xFFFF_FFFF || id == o.rid || id == o.eid || id == o.sid
  }

  // ----- the system calls -----

  class Task {
    var u: Ids
    var g: Ids

    constructor (u: Ids, g: Ids)
      ensures this.u == u && this.g == g
    {
      this.u, this.g := u, g;
    }

    method Setreuid(ruid: Id, euid: Id, env: Env) returns (res: int)
      modifies `u
      ensures res == Verdict(old(u), SetRe(ruid, euid), env)
      ensures u == Apply(old(u), SetRe(ruid, euid), env)
      ensures var o := old(u);
              Answers(res, env.cap || ((ruid == 0xFFFF_FFFF || ruid == o.rid || ruid == o.eid)
                                       && (euid == 0xFFFF_FFFF || euid == o.rid || euid == o.eid || euid == o.sid)),
                      env.overLimit && ruid != 0xFFFF_FFFF && ruid != o.rid, env.lsm)
      ensures res != 0 ==> u == old(u)
      ensures res == 0 ==>
                && u.rid == (if ruid == 0xFFFF_FFFF then old(u).rid else ruid)
                && u.eid == (if euid == 0xFFFF_FFFF then old(u).eid else euid)
                && u.sid == (if ruid == 0xFFFF_FFFF && (euid == 0xFFFF_FFFF || euid == old(u).rid) then old(u).sid
                             else u.eid)
                && u.fsid == u.eid
    {
      var cred := u;
      if ruid != NONE {
        cred := cred.(rid := ruid);
        if u.rid != ruid && u.eid != ruid && !env.cap {
          return EPERM;
        }
      }
      if euid != NONE {
        cred := cred.(eid := euid);
        if u.rid != euid && u.eid != euid && u.sid != euid && !env.cap {
          return EPERM;
        }
      }
      if cred.rid != u.rid && env.overLimit {
        return EAGAIN;
      }
      if ruid != NONE || (euid != NONE && euid != u.rid) {
        cred := cred.(sid := cred.eid);
      }
      cred := cred.(fsid := cred.eid);
      if env.lsm < 0 {
        return env.lsm;
      }
      u := cred;
      return 0;
    }

    method Setuid(uid: Id, env: Env) returns (res: int)
      modifies `u
      ensures res == Verdict(old(u), Set(uid), env)
      ensures u == Apply(old(u), Set(uid), env)
      ensures Answers(res, env.cap || uid == old(u).rid || uid == old(u).sid,
                      env.cap && env.overLimit && uid != old(u).rid, env.lsm)
      ensures res != 0 ==> u == old(u)
      ensures res == 0 ==>
                && u.eid == u.fsid == uid
                && u.rid == (if env.cap then uid else old(u).rid) && u.sid == (if env.cap then uid else old(u).sid)
    {
      var cred := u;
      if env.cap {
        cred := cred.(sid := uid, rid := uid);
        if uid != u.rid && env.overLimit {
          return EAGAIN;
        }
      } else if uid != u.rid && uid != cred.sid {
        return EPERM;
      }
      cred := cred.(fsid := uid, eid := uid);
      if env.lsm < 0 {
        return env.lsm;
      }
      u := cred;
      return 0;
    }

    method Setresuid(ruid: Id, euid: Id, suid: Id, env: Env) returns (res: int)
      modifies `u
      ensures res == Verdict(old(u), SetRes(ruid, euid, suid), env)
      ensures u == Apply(old(u), SetRes(ruid, euid, suid), env)
      ensures Answers(res,
                      env.cap || (OneOfThree(old(u), ruid) && OneOfThree(old(u), euid) && OneOfThree(old(u), suid)),
                      env.overLimit && ruid != 0xFFFF_FFFF && ruid != old(u).rid, env.lsm)
      ensures res != 0 ==> u == old(u)
      ensures res == 0 ==>
                && u.rid == (if ruid == 0xFFFF_FFFF then old(u).rid else ruid)
                && u.eid == (if euid == 0xFFFF_FFFF then old(u).eid else euid)
                && u.sid == (if suid == 0xFFFF_FFFF then old(u).sid else suid)
                && u.fsid == u.eid
    {
      var cred := u;
      if !env.cap {
        if ruid != NONE && ruid != u.rid && ruid != u.eid && ruid != u.sid {
          return EPERM;
        }
        if euid != NONE && euid != u.rid && euid != u.eid && euid != u.sid {
          return EPERM;
        }
        if suid != NONE && suid != u.rid && suid != u.eid && suid != u.sid {
          return EPERM;
        }
      }
      if ruid != NONE {
        cred := cred.(rid := ruid);
        if ruid != u.rid && env.overLimit {
          return EAGAIN;
        }
      }
      if euid != NONE {
        cred := cred.(eid := euid);
      }
      if suid != NONE {
        cred := cred.(sid := suid);
      }
      cred := cred.(fsid := cred.eid);
      if env.lsm < 0 {
        return env.lsm;
      }
      u := cred;
      return 0;
    }

    /** Always returns the old value; whether it took effect shows only in the next call. */
    method Setfsuid(uid: Id, env: Env) returns (oldFs: Id)
      modifies `u
      ensures oldFs == old(u).fsid
      ensures u == Apply(old(u), SetFs(uid), env)
      ensures var o := old(u);
              var may := env.cap || uid == o.rid || uid == o.eid || uid == o.sid || uid == o.fsid;
              u == if may && env.lsm == 0 then o.(fsid := uid) else o
    {
      var cred := u;
      oldFs := u.fsid;
      if uid == u.rid || uid == u.eid || uid == u.sid || uid == u.fsid || env.cap {
        if uid != oldFs {
          cred := cred.(fsid := uid);
          if env.lsm == 0 {
            u := cred;
          }
        }
      }
    }

    // The group calls consult neither the process limit nor the security module.

    method Setregid(rgid: Id, egid: Id, cap: bool) returns (res: int)
      modifies `g
      ensures res == Verdict(old(g), SetRe(rgid, egid), Env(cap, false, 0))
      ensures g == Apply(old(g), SetRe(rgid, egid), Env(cap, false, 0))
      ensures var o := old(g);
              Answers(res, cap || ((rgid == 0xFFFF_FFFF || rgid == o.rid || rgid == o.eid)
                                   && (egid == 0xFFFF_FFFF || egid == o.rid || egid == o.eid || egid == o.sid)),
                      false, 0)
      ensures res != 0 ==> g == old(g)
      ensures res == 0 ==>
                && g.rid == (if rgid == 0xFFFF_FFFF then old(g).rid else rgid)
                && g.eid == (if egid == 0xFFFF_FFFF then old(g).eid else egid)
                && g.sid == (if rgid == 0xFFFF_FFFF && (egid == 0xFFFF_FFFF || egid == old(g).rid) then old(g).sid
                             else g.eid)
                && g.fsid == g.eid
    {
      var cred := g;
      if rgid != NONE {
        if g.rid == rgid || g.eid == rgid || cap {
          cred := cred.(rid := rgid);
        } else {
          return EPERM;
        }
      }
      if egid != NONE {
        if g.rid == egid || g.eid == egid || g.sid == egid || cap {
          cred := cred.(eid := egid);
        } else {
          return EPERM;
        }
      }
      if rgid != NONE || (egid != NONE && egid != g.rid) {
        cred := cred.(sid := cred.eid);
      }
      cred := cred.(fsid := cred.eid);
      g := cred;
      return 0;
    }

    method Setgid(gid: Id, cap: bool) returns (res: int)
      modifies `g
      ensures res == Verdict(old(g), Set(gid), Env(cap, false, 0))
      ensures g == Apply(old(g), Set(gid), Env(cap, false, 0))
      ensures Answers(res, cap || gid == old(g).rid || gid == old(g).sid, false, 0)
      ensures res != 0 ==> g == old(g)
      ensures res == 0 ==>
                && g.eid == g.fsid == gid
                && g.rid == (if cap then gid else old(g).rid) && g.sid == (if cap then gid else old(g).sid)
    {
      var cred := g;
      if cap {
        cred := Ids(gid, gid, gid, gid);
      } else if gid == g.rid || gid == g.sid {
        cred := cred.(eid := gid, fsid := gid);
      } else {
        return EPERM;
      }
      g := cred;
      return 0;
    }

    method Setresgid(rgid: Id, egid: Id, sgid: Id, cap: bool) returns (res: int)
      modifies `g
      ensures res == Verdict(old(g), SetRes(rgid, egid, sgid), Env(cap, false, 0))
      ensures g == Apply(old(g), SetRes(rgid, egid, sgid), Env(cap, false, 0))
      ensures Answers(res, cap || (OneOfThree(old(g), rgid) && OneOfThree(old(g), egid) && OneOfThree(old(g), sgid)),
                      false, 0)
      ensures res != 0 ==> g == old(g)
      ensures res == 0 ==>
                && g.rid == (if rgid == 0xFFFF_FFFF then old(g).rid else rgid)
                && g.eid == (if egid == 0xFFFF_FFFF then old(g).eid else egid)
                && g.sid == (if sgid == 0xFFFF_FFFF then old(g).sid else sgid)
                && g.fsid == g.eid
    {
      var cred := g;
      if !cap {
        if rgid != NONE && rgid != g.rid && rgid != g.eid && rgid != g.sid {
          return EPERM;
        }
        if egid != NONE && egid != g.rid && egid != g.eid && egid != g.sid {
          return EPERM;
        }
        if sgid != NONE && sgid != g.rid && sgid != g.eid && sgid != g.sid {
          return EPERM;
        }
      }
      if rgid != NONE {
        cred := cred.(rid := rgid);
      }
      if egid != NONE {
        cred := cred.(eid := egid);
      }
      if sgid != NONE {
        cred := cred.(sid := sgid);
      }
      cred := cred.(fsid := cred.eid);
      g := cred;
      return 0;
    }

    method Setfsgid(gid: Id, cap: bool) returns (oldFs: Id)
      modifies `g
      ensures oldFs == old(g).fsid
      ensures g == Apply(old(g), SetFs(gid), Env(cap, false, 0))
      ensures var o := old(g);
              var may := cap || gid == o.rid || gid == o.eid || gid == o.sid || gid == o.fsid;
              g == if may then o.(fsid := gid) else o
    {
      oldFs := g.fsid;
      if gid == g.rid || gid == g.eid || gid == g.sid || gid == g.fsid || cap {
        if gid != oldFs {
          g := g.(fsid := gid);
        }
      }
    }
  }

  // ----- runs -----

  datatype Step = Step(call: Call, env: Env)

  function Run(o: Ids, steps: seq<Step>): Ids
    decreases |steps|
  {
    if steps == [] then o else Run(Apply(o, steps[0].call, steps[0].env), steps[1..])
  }

  ghost predicate Unprivileged(steps: seq<Step>) {
    forall i :: 0 <= i < |steps| ==> !steps[i].env.cap
  }

  function Triple(o: Ids): set<Id> {
    {o.rid, o.eid, o.sid}
  }

  /** Without the capability, no run of any calls brings in an id from outside. */
  lemma {:induction false} Closed(o: Ids, steps: seq<Step>)
    requires Unprivileged(steps)
    ensures Triple(Run(o, steps)) <= Triple(o)
    ensures Run(o, steps).fsid in Triple(o) + {o.fsid}
    decreases |steps|
  {
    if steps != [] {
      var p := Apply(o, steps[0].call, steps[0].env);
      assert Triple(p) <= Triple(o) && p.fsid in Triple(o) + {o.fsid};
      Closed(p, steps[1..]);
    }
  }

  /** Dropping privilege for good: every later unprivileged run leaves all four ids at u. */
  lemma {:induction false} DropIsIrrevocable(o: Ids, u: Id, drop: Call, env: Env, steps: seq<Step>)
    requires env.cap && Verdict(o, drop, env) == 0 && Unprivileged(steps)
    requires drop == Set(u) || (u != NONE && (drop == SetRe(u, u) || drop == SetRes(u, u, u)))
    ensures Run(Apply(o, drop, env), steps) == Ids(u, u, u, u)
  {
    Closed(Ids(u, u, u, u), steps);
  }

  /** For the two calls that read NONE as "leave alone" the side condition is the exact one. */
  lemma DropsAllIff(o: Ids, u: Id, drop: Call, env: Env)
    requires env.cap && Verdict(o, drop, env) == 0
    requires drop == SetRe(u, u) || drop == SetRes(u, u, u)
    ensures Apply(o, drop, env) == Ids(u, u, u, u) <==> u != NONE || Triple(o) == {NONE}
  {
    if u == NONE && Triple(o) == {NONE} {
      assert o.rid in Triple(o) && o.eid in Triple(o) && o.sid in Triple(o);
    }
  }

  function Swap(o: Ids): Call {
    SetRe(o.eid, o.rid)
  }

  /** Exchanging real and effective id passes the checks without privilege; doing it twice brings
      both back exactly when neither is the reserved number (or they are equal anyway). */
  lemma SwapTwice(o: Ids)
    ensures Permitted(o, Swap(o), false)
    ensures var p := Installed(o, Swap(o), false);
            var q := Installed(p, Swap(p), false);
            && Permitted(p, Swap(p), false)
            && ((q.rid == o.rid && q.eid == o.eid) <==> (o.rid != NONE && o.eid != NONE) || o.rid == o.eid)
  {
  }

  /** After any unprivileged setreuid that names an id, the saved id can no longer restore what the
      process gave up: a later unprivileged run stays within the two ids it chose. */
  lemma SetReForgetsSaved(o: Ids, r: Id, e: Id, env: Env, steps: seq<Step>)
    requires r != NONE && e != NONE && Verdict(o, SetRe(r, e), env) == 0 && Unprivileged(steps)
    ensures Triple(Run(Apply(o, SetRe(r, e), env), steps)) <= {r, e}
    ensures Run(Apply(o, SetRe(r, e), env), steps).fsid in {r, e}
  {
    Closed(Apply(o, SetRe(r, e), env), steps);
  }

  // ----- giving an id up for a while -----

  /** setresuid(-1, u, -1) and then setresuid(-1, e, -1) with e the saved id: the first takes any of the three ids
      as the effective one and leaves the other two, and the second always brings the saved one back, without
      privilege. */
  lemma TakeAndGiveBack(o: Ids, u: Id, env: Env, env': Env)
    requires 0 <= env.lsm && 0 <= env'.lsm && u in Triple(o) && u != 0xFFFF_FFFF && o.sid != 0xFFFF_FFFF
    ensures var taken := Apply(o, SetRes(0xFFFF_FFFF, u, 0xFFFF_FFFF), env);
            var back := Apply(taken, SetRes(0xFFFF_FFFF, taken.sid, 0xFFFF_FFFF), env');
            && Verdict(o, SetRes(0xFFFF_FFFF, u, 0xFFFF_FFFF), env) == 0
            && Verdict(taken, SetRes(0xFFFF_FFFF, taken.sid, 0xFFFF_FFFF), env') == 0
            && taken == Ids(o.rid, u, o.sid, u)
            && back == Ids(o.rid, o.sid, o.sid, o.sid)
            && (back.eid == o.eid <==> o.eid == o.sid)
  {
  }
}
