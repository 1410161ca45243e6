/**
  What a line comes to: the commands started, each with its descriptors, the shell's own
  descriptors afterwards, and whether the shell survives it. Built-in commands run inside
  the shell, on the shell's own descriptors, redirections included.
 */
module ShellRuns {
  import opened ShellSyntax

  /** What a descriptor refers to: something open from the start, a file that process `who` opened, or an end of
      the pipe behind process p. Processes are numbered in the order they start. */
  datatype End = File(name: int) | Opened(file: string, out: bool, who: nat) | ReadEnd(p: int) | WriteEnd(p: int)

  type Fds = map<nat, End>

  /** A command ready to run, or one that stopped at a redirection whose file could not be opened. */
  datatype Setup = Ready(argv: seq<string>, fds: Fds) | Unopened

  /** A command as it starts: forked, waited for or not, or inside the shell, which meanwhile also holds the
      read end for the next stage. */
  datatype Proc = Forked(setup: Setup, bg: bool) | Inside(setup: Setup)

  /** The shell goes on, has exited, or died comparing the name of a command that has no words. */
  datatype Status = Running | Exited | Crashed

  /** What some commands come to: what was started, the shell's own descriptors, and its status. */
  datatype Ran = Ran(procs: seq<Proc>, base: Fds, status: Status)

  /** Whether process k manages to open the file of the redirection at word i of its command. */
  type Files = (nat, nat) -> bool

  ghost predicate StdOpen(fds: Fds) {
    0 in fds && 1 in fds && 2 in fds
  }

  /** Nothing outside the stretch from lo to hi has changed. */
  ghost predicate SameOutside<T>(a: seq<T>, b: seq<T>, lo: int, hi: int) {
    |a| == |b| && forall k :: 0 <= k < |a| && !(lo <= k < hi) ==> a[k] == b[k]
  }

  predicate IsBuiltin(name: string) {
    name in ["exit", "cd", "echo", "export"]
  }

  // ----- redirections -----

  /** One redirection: a descriptor is closed, and the file opened takes its place. */
  function Reopened(fds: Fds, out: bool, file: string, k: nat): Fds {
    fds[(if out then 1 else 0) := Opened(file, out, k)]
  }

  /** The words of a command from word i on, left to right, with the arguments found before. */
  function Redirect(cmd: seq<string>, i: nat, fds: Fds, argv: seq<string>, k: nat, can: Files): Setup
    decreases |cmd| - i
  {
    if i >= |cmd| then Ready(argv, fds)
    else if cmd[i] == "<" || cmd[i] == ">" then
      if i + 1 < |cmd| && can(k, i)
      then Redirect(cmd, i + 2, Reopened(fds, cmd[i] == ">", cmd[i + 1], k), argv, k, can)
      else Unopened
    else Redirect(cmd, i + 1, fds, argv + [cmd[i]], k, can)
  }

  // ----- what a line comes to -----

  /** A command in its place: is there a pipe before it, and one behind it? */
  datatype Stage = Stage(words: seq<string>, pre: bool, post: bool, bg: bool)

  /** The descriptors process k starts from: input from the pipe before it, output to the pipe behind it. */
  function StageFds(base: Fds, pre: bool, post: bool, k: nat): Fds {
    var inp := if pre then base[0 := ReadEnd(k - 1)] else base;
    if post then inp[1 := WriteEnd(k)] else inp
  }

  /** The command of process k. A built-in one makes its descriptors the shell's own. */
  function OneStage(base: Fds, s: Stage, k: nat, can: Files): Ran {
    if s.words == [] then Ran([], base, Crashed)
    else
      var setup := Redirect(s.words, 0, StageFds(base, s.pre, s.post, k), [], k, can);
      if !IsBuiltin(s.words[0]) then Ran([Forked(setup, s.bg)], base, Running)
      else if setup.Unopened? then Ran([Inside(setup)], base, Exited)
      else Ran([Inside(setup)], setup.fds, if s.words[0] == "exit" then Exited else Running)
  }

  function After(done: seq<Proc>, r: Ran): Ran {
    r.(procs := done + r.procs)
  }

  /** Commands one after the other, until one ends the shell. */
  function Run(base: Fds, stages: seq<Stage>, k: nat, can: Files): Ran
    decreases |stages|
  {
    if stages == [] then Ran([], base, Running)
    else
      var one := OneStage(base, stages[0], k, can);
      if !one.status.Running? then one else After(one.procs, Run(one.base, stages[1..], k + 1, can))
  }

  /** The commands of a pipeline in their places. */
  function PipeStages(cmds: seq<seq<string>>, pre: bool, bg: bool): (stages: seq<Stage>)
    ensures |stages| == |cmds|
  {
    if cmds == [] then [] else [Stage(cmds[0], pre, |cmds| > 1, bg)] + PipeStages(cmds[1..], true, bg)
  }

  /** All commands of a line. */
  function LineStages(jobs: seq<Job>): seq<Stage> {
    if jobs == [] then []
    else PipeStages(PipeSplit(jobs[0].body, []), false, jobs[0].bg) + LineStages(jobs[1..])
  }

  function StagesOf(words: seq<string>): seq<Stage> {
    LineStages(Jobs(Segments(words, [])))
  }

  // ----- one after the other -----

  lemma AfterAfter(a: seq<Proc>, b: seq<Proc>, r: Ran)
    ensures After(a, After(b, r)) == After(a + b, r)
    ensures After([], r) == r
  {
  }

  /** The first of some commands. */
  lemma RunFirst(done: seq<Proc>, base: Fds, s: Stage, rest: seq<Stage>, k: nat, can: Files)
    ensures var one := OneStage(base, s, k, can);
            After(done, Run(base, [s] + rest, k, can))
            == if one.status.Running? then After(done + one.procs, Run(one.base, rest, k + 1, can))
               else After(done, one)
  {
    assert ([s] + rest)[1..] == rest;
    var one := OneStage(base, s, k, can);
    if one.status.Running? {
      AfterAfter(done, one.procs, Run(one.base, rest, k + 1, can));
    }
  }

  /** Some commands, and then others. */
  lemma {:induction false} RunAppend(base: Fds, a: seq<Stage>, b: seq<Stage>, k: nat, can: Files)
    ensures var r := Run(base, a, k, can);
            && (r.status.Running? ==> |r.procs| == |a|)
            && Run(base, a + b, k, can)
               == if r.status.Running? then After(r.procs, Run(r.base, b, k + |a|, can)) else r
    decreases |a|
  {
    if a == [] {
      assert a + b == b;
      AfterAfter([], [], Run(base, b, k, can));
    } else {
      var one := OneStage(base, a[0], k, can);
      assert (a + b)[1..] == a[1..] + b && (a + b)[0] == a[0];
      RunAppend(one.base, a[1..], b, k + 1, can);
      var r := Run(one.base, a[1..], k + 1, can);
      if one.status.Running? && r.status.Running? {
        AfterAfter(one.procs, r.procs, Run(r.base, b, k + |a|, can));
      }
    }
  }

  // ----- the words of a line -----

  /** At a bar the command read so far is the next one, and more come after it. */
  lemma StagesAtBar(rest: seq<string>, cur: seq<string>, pre: bool, bg: bool)
    requires rest != [] && rest[0] == "|"
    ensures PipeStages(PipeSplit(rest, cur), pre, bg)
            == [Stage(cur, pre, true, bg)] + PipeStages(PipeSplit(rest[1..], []), true, bg)
  {
    var cmds, tail := PipeSplit(rest, cur), PipeSplit(rest[1..], []);
    assert cmds == [cur] + tail && cmds[1..] == tail;
  }

  /** At the end it is the last. */
  lemma StagesAtEnd(cur: seq<string>, pre: bool, bg: bool)
    ensures PipeStages(PipeSplit([], cur), pre, bg) == [Stage(cur, pre, false, bg)]
  {
    assert PipeSplit([], cur) == [cur] && [cur][1..] == [];
  }

  lemma JobsAtTerminator(rest: seq<string>, cur: seq<string>)
    requires rest != [] && IsTerminator(rest[0])
    ensures var jobs, tail := Jobs(Segments(rest, cur)), Jobs(Segments(rest[1..], []));
            if cur == [] then jobs == tail else jobs == [Job(cur, rest[0] == "&")] + tail && jobs[1..] == tail
  {
    var segs := Segments(rest, cur);
    assert segs[0] == Segment(cur, rest[0]) && segs[1..] == Segments(rest[1..], []);
  }

  // ----- what stays open -----

  lemma {:induction false} RedirectKeepsKeys(cmd: seq<string>, i: nat, fds: Fds, argv: seq<string>, k: nat, can: Files)
    requires StdOpen(fds)
    ensures var r := Redirect(cmd, i, fds, argv, k, can); r.Ready? ==> r.fds.Keys == fds.Keys
    decreases |cmd| - i
  {
    if i < |cmd| {
      if cmd[i] == "<" || cmd[i] == ">" {
        if i + 1 < |cmd| && can(k, i) {
          RedirectKeepsKeys(cmd, i + 2, Reopened(fds, cmd[i] == ">", cmd[i + 1], k), argv, k, can);
        }
      } else {
        RedirectKeepsKeys(cmd, i + 1, fds, argv + [cmd[i]], k, can);
      }
    }
  }

  /** Redirecting leaves a further descriptor alone. */
  lemma {:induction false} RedirectBeside(cmd: seq<string>, i: nat, fds: Fds, argv: seq<string>, k: nat, can: Files,
                                          n: nat, e: End)
    requires n != 0 && n != 1
    ensures var r := Redirect(cmd, i, fds, argv, k, can);
            Redirect(cmd, i, fds[n := e], argv, k, can) == if r.Ready? then r.(fds := r.fds[n := e]) else Unopened
    decreases |cmd| - i
  {
    if i < |cmd| {
      if cmd[i] == "<" || cmd[i] == ">" {
        if i + 1 < |cmd| && can(k, i) {
          var next := Reopened(fds, cmd[i] == ">", cmd[i + 1], k);
          assert Reopened(fds[n := e], cmd[i] == ">", cmd[i + 1], k) == next[n := e];
          RedirectBeside(cmd, i + 2, next, argv, k, can, n, e);
        }
      } else {
        RedirectBeside(cmd, i + 1, fds, argv + [cmd[i]], k, can, n, e);
      }
    }
  }

  /** The shell has the same descriptors open after a command, whatever they refer to. */
  lemma StageKeepsKeys(base: Fds, s: Stage, k: nat, can: Files)
    requires StdOpen(base)
    ensures OneStage(base, s, k, can).base.Keys == base.Keys
  {
    if s.words != [] {
      RedirectKeepsKeys(s.words, 0, StageFds(base, s.pre, s.post, k), [], k, can);
    }
  }

  lemma {:induction false} KeepsStd(base: Fds, stages: seq<Stage>, k: nat, can: Files)
    requires StdOpen(base)
    ensures StdOpen(Run(base, stages, k, can).base)
    decreases |stages|
  {
    if stages != [] {
      StageKeepsKeys(base, stages[0], k, can);
      KeepsStd(OneStage(base, stages[0], k, can).base, stages[1..], k + 1, can);
    }
  }

  /** What all comes to, told after the first pipeline of a line has run. */
  lemma {:induction false} JobDone(all: Ran, done: seq<Proc>, base: Fds, cur: seq<string>, bg: bool, jobs: seq<Job>,
                                   can: Files)
    requires jobs != [] && jobs[0] == Job(cur, bg) && StdOpen(base)
    requires all == After(done, Run(base, LineStages(jobs), |done|, can))
    ensures var first := Run(base, PipeStages(PipeSplit(cur, []), false, bg), |done|, can);
            && StdOpen(first.base)
            && if first.status.Running?
               then all == After(done + first.procs,
                                 Run(first.base, LineStages(jobs[1..]), |done + first.procs|, can))
               else all.procs == done + first.procs && all.status == first.status
  {
    var stages, k := PipeStages(PipeSplit(cur, []), false, bg), |done|;
    KeepsStd(base, stages, k, can);
    RunAppend(base, stages, LineStages(jobs[1..]), k, can);
    var first := Run(base, stages, k, can);
    if first.status.Running? {
      AfterAfter(done, first.procs, Run(first.base, LineStages(jobs[1..]), k + |stages|, can));
    }
  }
}
