/**
  What redirections do, who holds which end of which pipe over a whole line, when the
  shell keeps its own descriptors, and when it survives.
 */
module ShellPipes {
  import opened ShellSyntax
  import opened ShellRuns

  ghost predicate Has(fds: Fds, e: End) {
    exists n :: n in fds && fds[n] == e
  }

  // ----- redirections -----

  /** Word i is a redirection, and not the name of a redirection's file. */
  predicate IsOp(cmd: seq<string>, i: nat)
    requires i < |cmd|
  {
    (cmd[i] == "<" || cmd[i] == ">") && (i == 0 || !IsOp(cmd, i - 1))
  }

  /** The command redirects its output, or its input. */
  ghost predicate Redirects(cmd: seq<string>, out: bool) {
    exists i :: 0 <= i < |cmd| && IsOp(cmd, i) && (cmd[i] == ">") == out
  }

  /** Every redirection of process k, from word i on, has a file name behind it, and its file can be opened. */
  ghost predicate Openable(cmd: seq<string>, i: nat, k: nat, can: Files) {
    forall j: nat {:trigger IsOp(cmd, j)} :: i <= j < |cmd| && IsOp(cmd, j) ==> j + 1 < |cmd| && can(k, j)
  }

  /** The last of its redirections of one kind is at word i. */
  ghost predicate LastOp(cmd: seq<string>, i: nat, out: bool) {
    && i + 1 < |cmd| && IsOp(cmd, i) && (cmd[i] == ">") == out
    && forall j :: i < j < |cmd| && IsOp(cmd, j) ==> (cmd[j] == ">") != out
  }

  /** What is left of the words from word i on: neither redirections nor file names. */
  function Args(cmd: seq<string>, i: nat): seq<string>
    decreases |cmd| - i
  {
    if i >= |cmd| then []
    else if IsOp(cmd, i) || (i > 0 && IsOp(cmd, i - 1)) then Args(cmd, i + 1)
    else [cmd[i]] + Args(cmd, i + 1)
  }

  /** Word i is not a file name. */
  ghost predicate AtWord(cmd: seq<string>, i: nat) {
    0 < i <= |cmd| ==> !IsOp(cmd, i - 1)
  }

  /** From word i on: descriptor n, 0 or 1, ends up with the file of the last redirection of its kind, or as it
      was. */
  ghost predicate Ends(cmd: seq<string>, i: nat, fds: Fds, fds': Fds, k: nat, out: bool) {
    var n := if out then 1 else 0;
    && n in fds && n in fds'
    && (forall j: nat :: i <= j && LastOp(cmd, j, out) ==> fds'[n] == Opened(cmd[j + 1], out, k))
    && ((forall j :: i <= j < |cmd| && IsOp(cmd, j) ==> (cmd[j] == ">") != out) ==> fds'[n] == fds[n])
  }

  ghost predicate SameBut01(a: Fds, b: Fds) {
    a.Keys == b.Keys && forall n :: n in a && n != 0 && n != 1 ==> a[n] == b[n]
  }

  lemma EndsAtOp(cmd: seq<string>, i: nat, fds: Fds, fds': Fds, k: nat, out: bool)
    requires i + 1 < |cmd| && IsOp(cmd, i) && StdOpen(fds)
    requires Ends(cmd, i + 2, Reopened(fds, cmd[i] == ">", cmd[i + 1], k), fds', k, out)
    ensures Ends(cmd, i, fds, fds', k, out)
  {
    assert !IsOp(cmd, i + 1);
  }

  lemma EndsAtWord(cmd: seq<string>, i: nat, fds: Fds, fds': Fds, k: nat, out: bool)
    requires i < |cmd| && !IsOp(cmd, i) && Ends(cmd, i + 1, fds, fds', k, out)
    ensures Ends(cmd, i, fds, fds', k, out)
  {
  }

  /** The loop over the words, from word i on: whether it ends, and with which arguments. */
  lemma {:induction false} RedirectFrom(cmd: seq<string>, i: nat, fds: Fds, argv: seq<string>, k: nat, can: Files)
    requires AtWord(cmd, i)
    ensures var r := Redirect(cmd, i, fds, argv, k, can);
            (r.Ready? <==> Openable(cmd, i, k, can)) && (r.Ready? ==> r.argv == argv + Args(cmd, i))
    decreases |cmd| - i
  {
    if i < |cmd| {
      if IsOp(cmd, i) {
        if i + 1 < |cmd| && can(k, i) {
          assert !IsOp(cmd, i + 1);
          RedirectFrom(cmd, i + 2, Reopened(fds, cmd[i] == ">", cmd[i + 1], k), argv, k, can);
        }
      } else {
        RedirectFrom(cmd, i + 1, fds, argv + [cmd[i]], k, can);
      }
    }
  }

  /** And which descriptors. */
  lemma {:induction false} RedirectEnds(cmd: seq<string>, i: nat, fds: Fds, argv: seq<string>, k: nat, can: Files,
                                        out: bool)
    requires StdOpen(fds) && AtWord(cmd, i) && Redirect(cmd, i, fds, argv, k, can).Ready?
    ensures var r := Redirect(cmd, i, fds, argv, k, can);
            SameBut01(fds, r.fds) && Ends(cmd, i, fds, r.fds, k, out)
    decreases |cmd| - i
  {
    if i < |cmd| {
      var r := Redirect(cmd, i, fds, argv, k, can);
      if IsOp(cmd, i) {
        assert !(i + 1 < |cmd| && IsOp(cmd, i + 1));
        RedirectEnds(cmd, i + 2, Reopened(fds, cmd[i] == ">", cmd[i + 1], k), argv, k, can, out);
        EndsAtOp(cmd, i, fds, r.fds, k, out);
      } else {
        RedirectEnds(cmd, i + 1, fds, argv + [cmd[i]], k, can, out);
        EndsAtWord(cmd, i, fds, r.fds, k, out);
      }
    }
  }

  /** What all redirections of a command come to: it gets to run exactly if every one can be opened; its arguments
      are the words that are left; input and output, each on its own, come from the last redirection of
      their kind, or are as they were if there is none. */
  lemma RedirectMeans(cmd: seq<string>, fds: Fds, k: nat, can: Files, out: bool)
    requires StdOpen(fds)
    ensures var r := Redirect(cmd, 0, fds, [], k, can);
            && (r.Ready? <==> Openable(cmd, 0, k, can))
            && (r.Ready? ==>
                  && r.argv == Args(cmd, 0) && SameBut01(fds, r.fds) && Ends(cmd, 0, fds, r.fds, k, out)
                  && (!Redirects(cmd, out) ==> r.fds[if out then 1 else 0] == fds[if out then 1 else 0])
                  && (Redirects(cmd, out) ==> FromFile(r.fds[if out then 1 else 0], k)))
  {
    RedirectFrom(cmd, 0, fds, [], k, can);
    if Redirect(cmd, 0, fds, [], k, can).Ready? {
      RedirectEnds(cmd, 0, fds, [], k, can, out);
      if Redirects(cmd, out) {
        var j := LastOne(cmd, out);
        assert LastOp(cmd, j, out);
      }
    }
  }

  /** What it comes to for one descriptor, without saying which file. */
  lemma RedirectTakes(cmd: seq<string>, fds: Fds, k: nat, can: Files)
    requires StdOpen(fds)
    ensures var r := Redirect(cmd, 0, fds, [], k, can);
            && (r.Ready? <==> Openable(cmd, 0, k, can))
            && (r.Ready? ==>
                  && SameBut01(fds, r.fds)
                  && (if Redirects(cmd, false) then FromFile(r.fds[0], k) else r.fds[0] == fds[0])
                  && (if Redirects(cmd, true) then FromFile(r.fds[1], k) else r.fds[1] == fds[1]))
  {
    RedirectMeans(cmd, fds, k, can, true);
    RedirectMeans(cmd, fds, k, can, false);
  }

  /** A file that process k opened. */
  predicate FromFile(e: End, k: nat) {
    e.Opened? && e.who == k
  }

  /** The last redirection of a kind. */
  lemma LastOne(cmd: seq<string>, out: bool) returns (i: nat)
    requires Redirects(cmd, out) && forall j: nat :: j < |cmd| && IsOp(cmd, j) ==> j + 1 < |cmd|
    ensures LastOp(cmd, i, out)
  {
    i :| i < |cmd| && IsOp(cmd, i) && (cmd[i] == ">") == out;
    while exists j :: i < j < |cmd| && IsOp(cmd, j) && (cmd[j] == ">") == out
      invariant i < |cmd| && IsOp(cmd, i) && (cmd[i] == ">") == out
      decreases |cmd| - i
    {
      var j :| i < j < |cmd| && IsOp(cmd, j) && (cmd[j] == ">") == out;
      i := j;
    }
  }

  // ----- does the shell survive? -----

  /** A command that neither ends the shell nor makes it compare a missing name: it is not empty, not an exit,
      and, if built-in, has no redirection that fails. */
  ghost predicate Sound(cmd: seq<string>, k: nat, can: Files) {
    cmd != [] && cmd[0] != "exit" && (IsBuiltin(cmd[0]) ==> Openable(cmd, 0, k, can))
  }

  ghost predicate AllSound(stages: seq<Stage>, k: nat, can: Files) {
    forall a :: 0 <= a < |stages| ==> Sound(stages[a].words, k + a, can)
  }

  lemma StageSurvivesIff(base: Fds, s: Stage, k: nat, can: Files)
    ensures OneStage(base, s, k, can).status.Running? <==> Sound(s.words, k, can)
  {
    if s.words != [] {
      RedirectFrom(s.words, 0, StageFds(base, s.pre, s.post, k), [], k, can);
    }
  }

  lemma SoundFirst(stages: seq<Stage>, k: nat, can: Files)
    requires stages != []
    ensures AllSound(stages, k, can) <==> Sound(stages[0].words, k, can) && AllSound(stages[1..], k + 1, can)
  {
    if Sound(stages[0].words, k, can) && AllSound(stages[1..], k + 1, can) {
      forall a | 0 <= a < |stages| ensures Sound(stages[a].words, k + a, can) {
        if a > 0 {
          assert Sound(stages[1..][a - 1].words, k + 1 + (a - 1), can);
        }
      }
    }
    if AllSound(stages, k, can) {
      forall a | 0 <= a < |stages| - 1 ensures Sound(stages[1..][a].words, k + 1 + a, can) {
        assert Sound(stages[a + 1].words, k + (a + 1), can);
      }
    }
  }

  /** Commands leave the shell running exactly if none of them is empty, an exit, or built-in with a redirection
      that cannot be opened. */
  lemma {:induction false} LineSurvivesIff(base: Fds, stages: seq<Stage>, k: nat, can: Files)
    ensures Run(base, stages, k, can).status.Running? <==> AllSound(stages, k, can)
    decreases |stages|
  {
    if stages != [] {
      SoundFirst(stages, k, can);
      StageSurvivesIff(base, stages[0], k, can);
      LineSurvivesIff(OneStage(base, stages[0], k, can).base, stages[1..], k + 1, can);
    }
  }

  // ----- does it keep its descriptors? -----

  /** The process a descriptor came with: a pipe's writer is the process before it, its reader the one behind. */
  function Since(e: End): int {
    match e
    case File(_) => -1
    case Opened(_, _, k) => k
    case ReadEnd(p) => p + 1
    case WriteEnd(p) => p
  }

  /** All of this was open before process k. */
  ghost predicate Older(fds: Fds, k: nat) {
    forall n :: n in fds ==> Since(fds[n]) < k
  }

  /** A built-in command that gets a pipe end, or a file, as its input, or as its output. */
  ghost predicate Takes(s: Stage, out: bool) {
    s.words != [] && IsBuiltin(s.words[0]) && ((if out then s.post else s.pre) || Redirects(s.words, out))
  }

  ghost predicate NoneTakes(stages: seq<Stage>, out: bool) {
    forall a :: 0 <= a < |stages| ==> !Takes(stages[a], out)
  }

  lemma StageLeaves(base: Fds, s: Stage, k: nat, can: Files, out: bool)
    requires StdOpen(base) && Older(base, k)
    ensures var b, n := OneStage(base, s, k, can).base, if out then 1 else 0;
            && StdOpen(b) && SameBut01(base, b) && Older(b, k + 1)
            && (OneStage(base, s, k, can).status.Running? ==>
                  if Takes(s, out) then Since(b[n]) == k else b[n] == base[n])
  {
    if s.words != [] {
      var fds := StageFds(base, s.pre, s.post, k);
      RedirectTakes(s.words, fds, k, can);
    }
  }

  lemma SameTrans(a: Fds, b: Fds, c: Fds)
    requires SameBut01(a, b) && SameBut01(b, c)
    ensures SameBut01(a, c)
  {
  }

  lemma TakesFirst(stages: seq<Stage>, out: bool)
    requires stages != []
    ensures NoneTakes(stages, out) <==> !Takes(stages[0], out) && NoneTakes(stages[1..], out)
  {
    if !Takes(stages[0], out) && NoneTakes(stages[1..], out) {
      forall a | 0 <= a < |stages| ensures !Takes(stages[a], out) {
        assert a > 0 ==> stages[a] == stages[1..][a - 1];
      }
    }
  }

  lemma {:induction false} LineLeaves(base: Fds, stages: seq<Stage>, k: nat, can: Files, out: bool)
    requires StdOpen(base) && Older(base, k)
    ensures var r, n := Run(base, stages, k, can), if out then 1 else 0;
            && StdOpen(r.base) && SameBut01(base, r.base) && Older(r.base, k + |stages|)
            && (r.status.Running? ==>
                  if NoneTakes(stages, out) then r.base[n] == base[n] else Since(r.base[n]) >= k)
    decreases |stages|
  {
    if stages != [] {
      var one := OneStage(base, stages[0], k, can);
      StageLeaves(base, stages[0], k, can, out);
      TakesFirst(stages, out);
      if one.status.Running? {
        LineLeaves(one.base, stages[1..], k + 1, can, out);
        SameTrans(base, one.base, Run(base, stages, k, can).base);
      }
    }
  }

  /** Commands that the shell survives leave its input, and its output, as they were exactly if no built-in command
      takes it from a pipe or a file; no other descriptor is ever affected. */
  lemma LineKeepsFdsIff(base: Fds, stages: seq<Stage>, k: nat, can: Files)
    requires StdOpen(base) && Older(base, k) && Run(base, stages, k, can).status.Running?
    ensures var r := Run(base, stages, k, can);
            && SameBut01(base, r.base) && Older(r.base, k + |r.procs|)
            && (r.base[0] == base[0] <==> NoneTakes(stages, false))
            && (r.base[1] == base[1] <==> NoneTakes(stages, true))
            && (r.base == base <==> NoneTakes(stages, false) && NoneTakes(stages, true))
  {
    LineLeaves(base, stages, k, can, false);
    LineLeaves(base, stages, k, can, true);
    RunAppend(base, stages, [], k, can);
  }

  // ----- who holds which pipe end? -----

  /** No end of a pipe made from process k on. */
  ghost predicate NoPipesFrom(fds: Fds, k: int) {
    forall n :: n in fds && (fds[n].ReadEnd? || fds[n].WriteEnd?) ==> Since(fds[n]) < k
  }

  /** The process at this place reads from the pipe before it, and is not redirected from a file; or so for the
      pipe behind it. */
  ghost predicate Uses(s: Stage, out: bool) {
    (if out then s.post else s.pre) && !Redirects(s.words, out)
  }

  /** No built-in command uses a pipe. */
  ghost predicate Clean(stages: seq<Stage>) {
    forall a :: 0 <= a < |stages| && stages[a].words != [] && IsBuiltin(stages[a].words[0]) ==>
                  !Uses(stages[a], false) && !Uses(stages[a], true)
  }

  /** What the command in one place holds, once it is ready to run. */
  lemma SetupHolds(base: Fds, s: Stage, k: nat, can: Files, from: int, q: int)
    requires StdOpen(base) && NoPipesFrom(base, from) && from <= k
    ensures var r := Redirect(s.words, 0, StageFds(base, s.pre, s.post, k), [], k, can);
            r.Ready? ==>
              && (from <= q ==> (Has(r.fds, WriteEnd(q)) <==> q == k && Uses(s, true)))
              && (from <= q + 1 ==> (Has(r.fds, ReadEnd(q)) <==> q == k - 1 && Uses(s, false)))
              && StdOpen(r.fds) && (!Uses(s, true) && !Uses(s, false) ==> NoPipesFrom(r.fds, from))
  {
    var fds := StageFds(base, s.pre, s.post, k);
    var r := Redirect(s.words, 0, fds, [], k, can);
    RedirectTakes(s.words, fds, k, can);
    if r.Ready? {
      assert 0 in r.fds && 1 in r.fds;
      forall n | n in r.fds
        ensures n != 0 && n != 1 ==> r.fds[n] == base[n]
        ensures n == 0 ==> r.fds[n] == (if s.pre then ReadEnd(k - 1) else base[0]) || FromFile(r.fds[n], k)
        ensures n == 1 ==> r.fds[n] == (if s.post then WriteEnd(k) else base[1]) || FromFile(r.fds[n], k)
      {
      }
    }
  }

  ghost predicate Started(r: Ran, a: nat) {
    a < |r.procs| && r.procs[a].setup.Ready?
  }

  /** The a-th process runs with the write end of pipe q. */
  ghost predicate Writes(r: Ran, a: nat, q: int) {
    Started(r, a) && Has(r.procs[a].setup.fds, WriteEnd(q))
  }

  ghost predicate Reads(r: Ran, a: nat, q: int) {
    Started(r, a) && Has(r.procs[a].setup.fds, ReadEnd(q))
  }

  /** The a-th of these commands, process k + a, holds just the pipe ends due to its place, of all the pipes
      made from process `from` on. */
  ghost predicate EndsDue(r: Ran, stages: seq<Stage>, k: nat, from: int, a: nat, q: int)
    requires a < |stages|
  {
    && (from <= q ==> (Writes(r, a, q) <==> Started(r, a) && q == k + a && Uses(stages[a], true)))
    && (from <= q + 1 ==> (Reads(r, a, q) <==> Started(r, a) && q == k + a - 1 && Uses(stages[a], false)))
  }

  /** The first command. */
  lemma FirstEnds(base: Fds, stages: seq<Stage>, k: nat, can: Files, from: int, q: int)
    requires StdOpen(base) && NoPipesFrom(base, from) && from <= k && stages != [] && Clean(stages)
    ensures var one := OneStage(base, stages[0], k, can);
            && |one.procs| <= 1 && StdOpen(one.base) && NoPipesFrom(one.base, from)
            && (one.procs != [] ==>
                  EndsDue(one, stages, k, from, 0, q) && (Started(one, 0) <==> Openable(stages[0].words, 0, k, can)))
  {
    var s := stages[0];
    if s.words != [] {
      SetupHolds(base, s, k, can, from, q);
      RedirectTakes(s.words, StageFds(base, s.pre, s.post, k), k, can);
    }
  }

  /** The others are those of the rest. */
  lemma EndsShift(r: Ran, one: Ran, tail: Ran, stages: seq<Stage>, k: nat, from: int, a: nat, q: int)
    requires r == After(one.procs, tail) && |one.procs| == 1 && 0 < a < |stages|
    requires EndsDue(tail, stages[1..], k + 1, from, a - 1, q)
    ensures EndsDue(r, stages, k, from, a, q) && (Started(r, a) <==> Started(tail, a - 1))
  {
    assert a < |r.procs| ==> r.procs[a] == tail.procs[a - 1];
  }

  /** Over any commands among which no built-in one uses a pipe: a process gets ready exactly if its files can be
      opened, and then holds exactly the pipe ends due to its place and not replaced by a file. */
  lemma {:induction false} LineEnds(base: Fds, stages: seq<Stage>, k: nat, can: Files, from: int, a: nat, q: int)
    requires StdOpen(base) && NoPipesFrom(base, from) && from <= k && Clean(stages)
    requires a < |Run(base, stages, k, can).procs|
    ensures var r := Run(base, stages, k, can);
            && a < |stages| && EndsDue(r, stages, k, from, a, q)
            && (Started(r, a) <==> Openable(stages[a].words, 0, k + a, can))
    decreases |stages|
  {
    if stages != [] {
      var one := OneStage(base, stages[0], k, can);
      FirstEnds(base, stages, k, can, from, q);
      if one.status.Running? {
        var tail := Run(one.base, stages[1..], k + 1, can);
        var r := Run(base, stages, k, can);
        CleanRest(stages);
        if a == 0 {
          assert r.procs[0] == one.procs[0];
        } else {
          LineEnds(one.base, stages[1..], k + 1, can, from, a - 1, q);
          EndsShift(r, one, tail, stages, k, from, a, q);
        }
      }
    }
  }

  lemma CleanRest(stages: seq<Stage>)
    requires stages != [] && Clean(stages)
    ensures Clean(stages[1..])
  {
    forall a | 0 <= a < |stages| - 1 && stages[1..][a].words != [] && IsBuiltin(stages[1..][a].words[0])
      ensures !Uses(stages[1..][a], false) && !Uses(stages[1..][a], true)
    {
      assert stages[1..][a] == stages[a + 1];
    }
  }

  /** A pipe behind one command is the pipe before the next. */
  ghost predicate Chained(stages: seq<Stage>) {
    forall a :: 0 < a < |stages| ==> stages[a].pre == stages[a - 1].post
  }

  /** And there is none before the first. */
  ghost predicate Linked(stages: seq<Stage>) {
    Chained(stages) && (stages != [] ==> !stages[0].pre)
  }

  lemma ChainOn(a: seq<Stage>, b: seq<Stage>)
    requires Chained(a) && Chained(b) && (a != [] && b != [] ==> b[0].pre == a[|a| - 1].post)
    ensures Chained(a + b)
  {
    forall i | 0 < i < |a + b| ensures (a + b)[i].pre == (a + b)[i - 1].post {
      if i > |a| {
        assert b[i - |a|].pre == b[i - |a| - 1].post;
      }
    }
  }

  lemma {:induction false} PipeLinked(cmds: seq<seq<string>>, pre: bool, bg: bool)
    requires cmds != []
    ensures var stages := PipeStages(cmds, pre, bg);
            stages[0].pre == pre && !stages[|stages| - 1].post && Chained(stages)
    decreases |cmds|
  {
    if |cmds| > 1 {
      PipeLinked(cmds[1..], true, bg);
      ChainOn([Stage(cmds[0], pre, true, bg)], PipeStages(cmds[1..], true, bg));
    }
  }

  /** So it is in every line. */
  lemma {:induction false} LineLinked(jobs: seq<Job>)
    ensures Linked(LineStages(jobs))
    decreases |jobs|
  {
    if jobs != [] {
      var cmds := PipeSplit(jobs[0].body, []);
      PipeLinked(cmds, false, jobs[0].bg);
      LineLinked(jobs[1..]);
      ChainOn(PipeStages(cmds, false, jobs[0].bg), LineStages(jobs[1..]));
    }
  }

  lemma DueAt(base: Fds, stages: seq<Stage>, k: nat, can: Files, a: nat, q: nat)
    requires StdOpen(base) && NoPipesFrom(base, k) && Clean(stages)
    ensures var r := Run(base, stages, k, can); Started(r, a) ==> a < |stages| && EndsDue(r, stages, k, k, a, q)
  {
    if a < |Run(base, stages, k, can).procs| {
      LineEnds(base, stages, k, can, k, a, q);
    }
  }

  /** A process and the next one, on the pipe between them. */
  lemma Neighbours(r: Ran, stages: seq<Stage>, k: nat, a: nat, q: nat)
    requires Linked(stages) && k <= q
    requires Started(r, a) ==> a < |stages| && EndsDue(r, stages, k, k, a, q)
    requires Started(r, a + 1) ==> a + 1 < |stages| && EndsDue(r, stages, k, k, a + 1, q)
    ensures Writes(r, a, q) && Started(r, a + 1) && !Redirects(stages[a + 1].words, false) ==> Reads(r, a + 1, q)
    ensures Reads(r, a + 1, q) && Started(r, a) && !Redirects(stages[a].words, true) ==> Writes(r, a, q)
  {
    if Started(r, a) && Started(r, a + 1) {
      assert stages[a + 1].pre == stages[a].post;
    }
  }

  lemma FirstReadsNone(r: Ran, stages: seq<Stage>, k: nat, q: nat)
    requires Linked(stages) && k <= q && (Started(r, 0) ==> 0 < |stages| && EndsDue(r, stages, k, k, 0, q))
    ensures !Reads(r, 0, q)
  {
  }

  lemma OneHolder(base: Fds, stages: seq<Stage>, k: nat, can: Files, a: nat, b: nat, q: nat)
    requires StdOpen(base) && NoPipesFrom(base, k) && k <= q && Clean(stages)
    ensures var r := Run(base, stages, k, can);
            && (Writes(r, a, q) && Writes(r, b, q) ==> a == b) && (Reads(r, a, q) && Reads(r, b, q) ==> a == b)
  {
    DueAt(base, stages, k, can, a, q);
    DueAt(base, stages, k, can, b, q);
  }

  lemma ReaderNext(base: Fds, stages: seq<Stage>, k: nat, can: Files, a: nat, q: nat)
    requires StdOpen(base) && NoPipesFrom(base, k) && k <= q && Clean(stages) && Linked(stages)
    ensures var r := Run(base, stages, k, can);
            && (Started(r, a + 1) ==> a + 1 < |stages|) && !Reads(r, 0, q)
            && (Writes(r, a, q) && Started(r, a + 1) && !Redirects(stages[a + 1].words, false) ==> Reads(r, a + 1, q))
            && (Reads(r, a + 1, q) && Started(r, a) && !Redirects(stages[a].words, true) ==> Writes(r, a, q))
  {
    var r := Run(base, stages, k, can);
    DueAt(base, stages, k, can, a, q);
    DueAt(base, stages, k, can, a + 1, q);
    Neighbours(r, stages, k, a, q);
    DueAt(base, stages, k, can, 0, q);
    FirstReadsNone(r, stages, k, q);
  }

  /** Over a whole line: of every pipe made on the way at most one process holds the write end and at most one the
      read end. Behind a writer comes its reader, and before a reader its writer, each unless it could not
      start or is redirected. */
  lemma LinePipesOwned(base: Fds, words: seq<string>, k: nat, can: Files, a: nat, b: nat, q: nat)
    requires StdOpen(base) && NoPipesFrom(base, k) && k <= q && Clean(StagesOf(words))
    ensures var stages, r := StagesOf(words), Run(base, StagesOf(words), k, can);
            && (Writes(r, a, q) && Writes(r, b, q) ==> a == b)
            && (Reads(r, a, q) && Reads(r, b, q) ==> a == b)
            && (Started(r, a + 1) ==> a + 1 < |stages|) && !Reads(r, 0, q)
            && (Writes(r, a, q) && Started(r, a + 1) && !Redirects(stages[a + 1].words, false) ==> Reads(r, a + 1, q))
            && (Reads(r, a + 1, q) && Started(r, a) && !Redirects(stages[a].words, true) ==> Writes(r, a, q))
  {
    LineLinked(Jobs(Segments(words, [])));
    OneHolder(base, StagesOf(words), k, can, a, b, q);
    ReaderNext(base, StagesOf(words), k, can, a, q);
  }
}
