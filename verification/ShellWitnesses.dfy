/**
  Lines on which the shell does not do what one would expect.
 */
module ShellWitnesses {
  import opened ShellSyntax
  import opened ShellRuns
  import opened ShellPipes
  import opened ShellLines

  // ----- running what is spelt out -----

  lemma RunLast(base: Fds, s: Stage, k: nat, can: Files)
    ensures Run(base, [s], k, can) == OneStage(base, s, k, can)
  {
    assert [s][1..] == [];
    var one := OneStage(base, s, k, can);
    assert one.status.Running? ==> After(one.procs, Ran([], one.base, Running)) == one;
  }

  /** A line of one command. */
  lemma OneCommand(base: Fds, cmd: seq<string>, k: nat, can: Files)
    requires "|" !in cmd
    ensures LineStages([Job(cmd, false)]) == [Stage(cmd, false, false, false)]
    ensures Run(base, LineStages([Job(cmd, false)]), k, can) == OneStage(base, Stage(cmd, false, false, false), k, can)
  {
    OneOf(cmd, []);
    assert [] + cmd == cmd && [cmd][1..] == [] && [Job(cmd, false)][1..] == [];
    RunLast(base, Stage(cmd, false, false, false), k, can);
  }

  /** A line of two. */
  lemma TwoCommands(base: Fds, a: seq<string>, b: seq<string>, k: nat, can: Files)
    requires "|" !in a && "|" !in b && a != []
    ensures var one := OneStage(base, Stage(a, false, true, false), k, can);
            Run(base, LineStages([Job(a + ["|"] + b, false)]), k, can)
            == if one.status.Running?
               then After(one.procs, OneStage(one.base, Stage(b, true, false, false), k + 1, can))
               else one
  {
    var words := a + ["|"] + b;
    Bar(a, b, []);
    OneOf(b, []);
    assert [] + b == b && [] + a == a;
    var cmds := [a] + [b];
    assert cmds[1..] == [b] && [b][1..] == [] && [Job(words, false)][1..] == [];
    var first, last := Stage(a, false, true, false), Stage(b, true, false, false);
    assert PipeStages([b], true, false) == [last] && PipeStages(cmds, false, false) == [first] + [last];
    assert LineStages([Job(words, false)]) == [first] + [last] + [];
    var one := OneStage(base, first, k, can);
    RunFirst([], base, first, [last], k, can);
    RunLast(one.base, last, k + 1, can);
    AfterAfter([], [], Run(base, [first] + [last], k, can));
    AfterAfter([], [], one);
    assert [] + one.procs == one.procs;
  }

  /** A word that is no redirection is an argument. */
  lemma OneWord(w: string, fds: Fds, k: nat, can: Files)
    requires w != "<" && w != ">"
    ensures Redirect([w], 0, fds, [], k, can) == Ready([w], fds)
  {
    assert [] + [w] == [w];
    assert Redirect([w], 1, fds, [w], k, can) == Ready([w], fds);
  }

  /** A word and a redirection. */
  lemma WordAndFile(w: string, op: string, file: string, fds: Fds, k: nat, can: Files)
    requires w != "<" && w != ">" && (op == "<" || op == ">")
    ensures Redirect([w, op, file], 0, fds, [], k, can)
            == if can(k, 1) then Ready([w], Reopened(fds, op == ">", file, k)) else Unopened
  {
    var cmd := [w, op, file];
    assert [] + [w] == [w];
    assert Redirect(cmd, 0, fds, [], k, can) == Redirect(cmd, 1, fds, [w], k, can);
    assert can(k, 1) ==> Redirect(cmd, 3, Reopened(fds, op == ">", file, k), [w], k, can).Ready?;
  }

  // ----- the lines -----

  /** A bar and nothing else: the shell dies. */
  lemma EmptyCommandCrashes(base: Fds, k: nat, can: Files)
    ensures Run(base, LineStages([Job(["|"], false)]), k, can) == Ran([], base, Crashed)
  {
    StagesAtBar(["|"], [], false, false);
    assert LineStages([Job(["|"], false)])[0] == Stage([], false, true, false);
  }

  /** An exit is the last thing the shell does, whatever follows. */
  lemma ExitEnds(base: Fds, jobs: seq<Job>, k: nat, can: Files)
    requires jobs != [] && jobs[0].body == ["exit"]
    ensures Run(base, LineStages(jobs), k, can) == Ran([Inside(Ready(["exit"], base))], base, Exited)
  {
    OneOf(["exit"], []);
    assert [] + ["exit"] == ["exit"];
    assert LineStages(jobs)[0] == Stage(["exit"], false, false, jobs[0].bg);
    OneWord("exit", base, k, can);
  }

  /** In `echo | cat` the shell's own output becomes the pipe, and cat writes to the pipe it reads. */
  lemma EchoKeepsPipe(base: Fds, k: nat, can: Files)
    requires StdOpen(base)
    ensures var r := Run(base, LineStages([Job(["echo"] + ["|"] + ["cat"], false)]), k, can);
            && r.status.Running? && r.base == base[1 := WriteEnd(k)]
            && r.procs == [Inside(Ready(["echo"], r.base)), Forked(Ready(["cat"], r.base[0 := ReadEnd(k)]), false)]
  {
    TwoCommands(base, ["echo"], ["cat"], k, can);
    OneWord("echo", base[1 := WriteEnd(k)], k, can);
    OneWord("cat", base[1 := WriteEnd(k)][0 := ReadEnd(k)], k + 1, can);
  }

  /** After `echo > f` everything the shell writes goes to f. */
  lemma EchoKeepsFile(base: Fds, file: string, k: nat, can: Files)
    requires StdOpen(base) && file != "|" && can(k, 1)
    ensures var r := Run(base, LineStages([Job(["echo", ">", file], false)]), k, can);
            r.status.Running? && r.base == base[1 := Opened(file, true, k)]
  {
    OneCommand(base, ["echo", ">", file], k, can);
    WordAndFile("echo", ">", file, base, k, can);
  }

  /** If f cannot be opened, it ends the shell. */
  lemma EchoEndsShell(base: Fds, file: string, k: nat, can: Files)
    requires file != "|" && !can(k, 1)
    ensures Run(base, LineStages([Job(["echo", ">", file], false)]), k, can) == Ran([Inside(Unopened)], base, Exited)
  {
    OneCommand(base, ["echo", ">", file], k, can);
    WordAndFile("echo", ">", file, base, k, can);
  }

  /** In `ls | wc < f` nobody reads the pipe that ls writes to. */
  lemma NobodyReads(base: Fds, file: string, k: nat, can: Files)
    requires StdOpen(base) && NoPipesFrom(base, k) && file != "|" && can(k + 1, 1)
    ensures var r := Run(base, LineStages([Job(["ls"] + ["|"] + ["wc", "<", file], false)]), k, can);
            r.status.Running? && Writes(r, 0, k) && !exists b: nat :: Reads(r, b, k)
  {
    TwoCommands(base, ["ls"], ["wc", "<", file], k, can);
    OneWord("ls", base[1 := WriteEnd(k)], k, can);
    WordAndFile("wc", "<", file, base[0 := ReadEnd(k)], k + 1, can);
    var r := Run(base, LineStages([Job(["ls"] + ["|"] + ["wc", "<", file], false)]), k, can);
    assert r.procs[0].setup.fds[1] == WriteEnd(k);
  }
}
