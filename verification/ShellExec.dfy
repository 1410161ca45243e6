/**
  Running a line: the token array is cut in place, pipes are made, children are
  forked and descriptors closed, command by command.
 */
module ShellExec {
  import opened ShellSyntax
  import opened ShellRuns

  datatype Word = Null | Word(text: string)

  class Shell {
    var tokens: array<Word>
    var fds: Fds
    var procs: seq<Proc>
    var status: Status
    const can: Files

    /** The array holds these words from position at on, then a Null. */
    ghost predicate Holds(at: nat, words: seq<string>)
      reads `tokens, tokens
    {
      && at + |words| < tokens.Length
      && (forall k :: at <= k < at + |words| ==> tokens[k] == Word(words[k - at]))
      && tokens[at + |words|] == Null
    }

    constructor (tokens: array<Word>, fds: Fds, can: Files)
      ensures this.tokens == tokens && this.fds == fds && this.can == can && procs == [] && status == Running
    {
      this.tokens, this.fds, this.can, procs, status := tokens, fds, can, [], Running;
    }

    /** pipe(): two unused descriptors for the pipe behind the next process. */
    method Pipe() returns (r: nat, w: nat)
      requires StdOpen(fds)
      modifies `fds
      ensures r !in old(fds) && w !in old(fds) && r != w
      ensures fds == old(fds)[r := ReadEnd(|procs|)][w := WriteEnd(|procs|)]
    {
      r := Unused(fds, {});
      w := Unused(fds, {r});
      fds := fds[r := ReadEnd(|procs|)][w := WriteEnd(|procs|)];
    }

    /** fopen() after close(): the file gets the lowest descriptor free, which is the one just closed. */
    method Reopen(c: Fds, out: bool, file: string) returns (c': Fds)
      requires StdOpen(c)
      ensures c' == Reopened(c, out, file, |procs|)
    {
      c' := c - {if out then 1 else 0};
      var n := Unused(c', {});
      c' := c'[n := Opened(file, out, |procs|)];
    }

    /** scan_redirect on the words from position at on, in a process with these descriptors: it ends where a file
        cannot be opened, a missing file name included. */
    method ScanRedirect(at: nat, c: Fds, ghost words: seq<string>) returns (setup: Setup)
      requires Holds(at, words) && StdOpen(c)
      ensures setup == Redirect(words, 0, c, [], |procs|, can)
    {
      var argv, now := [], c;
      var i := 0;
      while tokens[at + i] != Null
        invariant i <= |words| && StdOpen(now)
        invariant Redirect(words, i, now, argv, |procs|, can) == Redirect(words, 0, c, [], |procs|, can)
        decreases |words| - i
      {
        assert tokens[at + i] == Word(words[i]);
        var w := tokens[at + i].text;
        if w == "<" || w == ">" {
          if tokens[at + i + 1] == Null || !can(|procs|, i) {
            return Unopened;
          }
          now := Reopen(now, w == ">", tokens[at + i + 1].text);
          i := i + 2;
        } else {
          argv := argv + [w];
          i := i + 1;
        }
      }
      setup := Ready(argv, now);
    }

    /** The shell's descriptors with a pipe before the command, and one after it. */
    ghost function Around(base: Fds, pre: bool, preR: nat, post: bool, postR: nat, postW: nat, k: nat): Fds {
      var f := if pre then base[preR := ReadEnd(k - 1)] else base;
      if post then f[postR := ReadEnd(k)][postW := WriteEnd(k)] else f
    }

    /** Nothing else uses the descriptors of these pipes. */
    ghost predicate PipesApart(base: Fds, pre: bool, preR: nat, post: bool, postR: nat, postW: nat, k: nat) {
      && (pre ==> preR !in base)
      && (post ==> postR !in base && postW !in base && postR != postW)
      && (pre && post ==> preR != postR && preR != postW)
    }

    /** The child's part for an external command: the ends it needs become its standard descriptors. */
    method Connected(pre: bool, preR: nat, post: bool, postR: nat, postW: nat, ghost base: Fds, ghost k: nat)
      returns (c: Fds)
      requires StdOpen(base) && PipesApart(base, pre, preR, post, postR, postW, k)
      requires fds == Around(base, pre, preR, post, postR, postW, k)
      ensures c == StageFds(base, pre, post, k)
    {
      c := fds;
      if pre {
        c := c[0 := c[preR]];
        c := c - {preR};
      }
      if post {
        c := c - {postR};
        c := c[1 := c[postW]];
        c := c - {postW};
      }
    }

    /** The parent's part: it leaves the stage with the read end of the new pipe only. */
    method LeaveStage(pre: bool, preR: nat, post: bool, postR: nat, postW: nat, ghost base: Fds, ghost k: nat)
      requires StdOpen(base) && PipesApart(base, pre, preR, post, postR, postW, k)
      requires fds == Around(base, pre, preR, post, postR, postW, k)
      modifies `fds
      ensures fds == if post then base[postR := ReadEnd(k)] else base
    {
      if post {
        fds := fds - {postW};
      }
      if pre {
        fds := fds - {preR};
      }
    }

    /** A built-in command's part, in the shell itself. */
    method EnterStage(pre: bool, preR: nat, post: bool, postR: nat, postW: nat, ghost base: Fds, ghost k: nat)
      requires StdOpen(base) && PipesApart(base, pre, preR, post, postR, postW, k)
      requires fds == Around(base, pre, preR, post, postR, postW, k)
      modifies `fds
      ensures var b := StageFds(base, pre, post, k);
              fds == if post then b[postR := ReadEnd(k)] else b
    {
      if pre {
        fds := fds[0 := fds[preR]];
        fds := fds - {preR};
      }
      if post {
        fds := fds[1 := fds[postW]];
        fds := fds - {postW};
      }
    }

    /** do_simple_cmd. */
    method DoSimpleCmd(at: nat, pre: bool, preR: nat, post: bool, postR: nat, postW: nat, bg: bool,
                       ghost words: seq<string>, ghost base: Fds)
      requires Holds(at, words) && StdOpen(base) && status.Running?
      requires PipesApart(base, pre, preR, post, postR, postW, |procs|)
      requires fds == Around(base, pre, preR, post, postR, postW, |procs|)
      modifies `fds, `procs, `status
      ensures var one := OneStage(base, Stage(words, pre, post, bg), old(|procs|), can);
              && procs == old(procs) + one.procs && status == one.status
              && (status.Running? ==>
                    && |procs| == old(|procs|) + 1
                    && fds == if post then one.base[postR := ReadEnd(|procs| - 1)] else one.base)
    {
      if tokens[at] == Null {
        status := Crashed;  // the command name is compared without being there
        return;
      }
      var name := tokens[at].text;
      if IsBuiltin(name) {
        RunBuiltin(at, pre, preR, post, postR, postW, name, words, base);
      } else {
        ghost var k := |procs|;
        var c := Connected(pre, preR, post, postR, postW, base, k);
        var setup := ScanRedirect(at, c, words);
        procs := procs + [Forked(setup, bg)];
        LeaveStage(pre, preR, post, postR, postW, base, k);
      }
    }

    /** A built-in command: the pipe ends and the files become the shell's own, and a file that cannot be opened
        ends the shell. */
    method RunBuiltin(at: nat, pre: bool, preR: nat, post: bool, postR: nat, postW: nat, name: string,
                      ghost words: seq<string>, ghost base: Fds)
      requires Holds(at, words) && words != [] && words[0] == name && IsBuiltin(name)
      requires StdOpen(base) && status.Running?
      requires PipesApart(base, pre, preR, post, postR, postW, |procs|)
      requires fds == Around(base, pre, preR, post, postR, postW, |procs|)
      modifies `fds, `procs, `status
      ensures var setup := Redirect(words, 0, StageFds(base, pre, post, old(|procs|)), [], old(|procs|), can);
              && procs == old(procs) + [Inside(setup)]
              && status == (if setup.Unopened? || name == "exit" then Exited else Running)
              && (setup.Ready? ==> fds == if post then setup.fds[postR := ReadEnd(|procs| - 1)] else setup.fds)
    {
      ghost var k := |procs|;
      ghost var stage := StageFds(base, pre, post, k);
      EnterStage(pre, preR, post, postR, postW, base, k);
      if post {
        RedirectBeside(words, 0, stage, [], k, can, postR, ReadEnd(k));
      }
      RedirectKeepsKeys(words, 0, stage, [], k, can);
      var setup := ScanRedirect(at, fds, words);
      if setup.Unopened? {
        procs, status := procs + [Inside(Unopened)], Exited;
        return;
      }
      fds := setup.fds;
      setup := setup.(fds := if post then fds - {postR} else fds);
      assert setup == Redirect(words, 0, stage, [], k, can);
      procs := procs + [Inside(setup)];
      if name == "exit" {
        status := Exited;
      }
    }

    /** What has run, and what the rest of the pipeline will come to. */
    ghost function ToCome(base: Fds, rest: seq<string>, cur: seq<string>, first: bool, bg: bool): Ran
      reads `procs
    {
      After(procs, Run(base, PipeStages(PipeSplit(rest, cur), !first, bg), |procs|, can))
    }

    /** At position i of a pipeline: the words since position j are those of the current command, the shell
        holds the read end of the pipe before it, if any, and what has run together with what is to
        come never changes. */
    ghost predicate InPipe(i: nat, j: nat, first: bool, preR: nat, bg: bool, cur: seq<string>, rest: seq<string>,
                           base: Fds, all: Ran)
      reads this, tokens
    {
      && i == j + |cur| && Holds(i, rest) && Shows(j, cur)
      && status.Running? && StdOpen(base) && (!first ==> preR !in base)
      && fds == (if first then base else base[preR := ReadEnd(|procs| - 1)])
      && ToCome(base, rest, cur, first, bg) == all
    }

    lemma InPipeWord(i: nat, j: nat, first: bool, preR: nat, bg: bool, cur: seq<string>, rest: seq<string>,
                     base: Fds, all: Ran)
      requires InPipe(i, j, first, preR, bg, cur, rest, base, all) && rest != [] && rest[0] != "|"
      ensures InPipe(i + 1, j, first, preR, bg, cur + [rest[0]], rest[1..], base, all)
    {
      HeadWord(i, rest);
      ShowsMore(j, cur, rest[0]);
      assert PipeSplit(rest, cur) == PipeSplit(rest[1..], cur + [rest[0]]);
    }

    /** The word at position i becomes a Null: the words before it are ended, those behind it stay. */
    method CutAt(i: nat, j: nat, ghost cur: seq<string>, ghost rest: seq<string>)
      requires i == j + |cur| && Holds(i, rest) && Shows(j, cur) && rest != []
      modifies tokens
      ensures forall k :: 0 <= k < tokens.Length && k != i ==> tokens[k] == old(tokens[k])
      ensures Holds(j, cur) && Holds(i + 1, rest[1..])
    {
      HeadWord(i, rest);
      tokens[i] := Null;
    }

    /** A bar at position i: it becomes a Null, a pipe is made, and the command before it runs. */
    method AtBarDo(i: nat, j: nat, first: bool, preR: nat, bg: bool, ghost cur: seq<string>, ghost rest: seq<string>,
                   ghost base: Fds, ghost all: Ran)
      returns (postR: nat, ghost base': Fds)
      requires InPipe(i, j, first, preR, bg, cur, rest, base, all) && rest != [] && rest[0] == "|"
      modifies `fds, `procs, `status, tokens
      ensures SameOutside(old(tokens[..]), tokens[..], i, i + 1)
      ensures status.Running? ==> InPipe(i + 1, i + 1, false, postR, bg, [], rest[1..], base', all)
      ensures !status.Running? ==> procs == all.procs && status == all.status
    {
      CutAt(i, j, cur, rest);
      postR, base' := PipeCommand(j, first, preR, bg, cur, rest, base, all);
    }

    /** A pipe for the output of the next command. */
    method PipeBehind(pre: bool, preR: nat, ghost base: Fds) returns (postR: nat, postW: nat)
      requires StdOpen(base) && (pre ==> preR !in base)
      requires fds == (if pre then base[preR := ReadEnd(|procs| - 1)] else base)
      modifies `fds
      ensures PipesApart(base, pre, preR, true, postR, postW, |procs|)
      ensures fds == Around(base, pre, preR, true, postR, postW, |procs|)
    {
      postR, postW := Pipe();
    }

    /** A pipe is made, and the command at position j runs in front of it. */
    method PipeCommand(j: nat, first: bool, preR: nat, bg: bool, ghost cur: seq<string>, ghost rest: seq<string>,
                       ghost base: Fds, ghost all: Ran)
      returns (postR: nat, ghost base': Fds)
      requires Holds(j, cur) && rest != [] && rest[0] == "|"
      requires status.Running? && StdOpen(base) && (!first ==> preR !in base)
      requires fds == (if first then base else base[preR := ReadEnd(|procs| - 1)])
      requires ToCome(base, rest, cur, first, bg) == all
      modifies `fds, `procs, `status
      ensures status.Running? ==>
                && StdOpen(base') && postR !in base' && fds == base'[postR := ReadEnd(|procs| - 1)]
                && ToCome(base', rest[1..], [], false, bg) == all
      ensures !status.Running? ==> procs == all.procs && status == all.status
    {
      ghost var k, done, stage := |procs|, procs, Stage(cur, !first, true, bg);
      StagesAtBar(rest, cur, !first, bg);
      RunFirst(done, base, stage, PipeStages(PipeSplit(rest[1..], []), true, bg), k, can);
      StageKeepsKeys(base, stage, k, can);
      base' := OneStage(base, stage, k, can).base;
      var postW;
      postR, postW := PipeBehind(!first, preR, base);
      DoSimpleCmd(j, !first, preR, true, postR, postW, bg, cur, base);
    }

    /** The end of the pipeline: the last command runs. */
    method AtEndDo(i: nat, j: nat, first: bool, preR: nat, bg: bool, ghost cur: seq<string>, ghost rest: seq<string>,
                   ghost base: Fds, ghost all: Ran)
      requires InPipe(i, j, first, preR, bg, cur, rest, base, all) && tokens[i] == Null
      modifies `fds, `procs, `status
      ensures procs == all.procs && status == all.status
      ensures status.Running? ==> fds == all.base
    {
      HeadWord(i, rest);
      ghost var k, done, stage := |procs|, procs, Stage(cur, !first, false, bg);
      StagesAtEnd(cur, !first, bg);
      RunFirst(done, base, stage, [], k, can);
      assert [stage] + [] == [stage];
      DoSimpleCmd(j, !first, preR, false, 0, 0, bg, cur, base);
    }

    /** The loop of do_pipe_cmd, from the first word to the last command. */
    method PipeWords(at: nat, bg: bool, ghost words: seq<string>, ghost all: Ran)
      returns (i: nat, j: nat, first: bool, preR: nat, ghost cur: seq<string>, ghost rest: seq<string>, ghost base: Fds)
      requires InPipe(at, at, true, 0, bg, [], words, fds, all)
      modifies `fds, `procs, `status, tokens
      ensures SameOutside(old(tokens[..]), tokens[..], at, at + |words|)
      ensures status.Running? ==> InPipe(i, j, first, preR, bg, cur, rest, base, all) && tokens[i] == Null
      ensures !status.Running? ==> procs == all.procs && status == all.status
    {
      i, j, first, preR := at, at, true, 0;
      cur, rest, base := [], words, fds;
      while tokens[i] != Null
        invariant at <= j && i + |rest| == at + |words|
        invariant InPipe(i, j, first, preR, bg, cur, rest, base, all)
        invariant SameOutside(old(tokens[..]), tokens[..], at, at + |words|)
        decreases |rest|
      {
        HeadWord(i, rest);
        if tokens[i].text == "|" {
          preR, base := AtBarDo(i, j, first, preR, bg, cur, rest, base, all);
          if !status.Running? {
            return;
          }
          first := false;
          i := i + 1;
          j := i;
          cur, rest := [], rest[1..];
        } else {
          InPipeWord(i, j, first, preR, bg, cur, rest, base, all);
          i := i + 1;
          cur, rest := cur + [rest[0]], rest[1..];
        }
      }
    }

    /** do_pipe_cmd on the words from position at on: bars become Nulls, and every command but
        the first reads from the pipe of the one before it. */
    method DoPipeCmd(at: nat, bg: bool, ghost words: seq<string>)
      requires Holds(at, words) && StdOpen(fds) && status.Running?
      modifies `fds, `procs, `status, tokens
      ensures SameOutside(old(tokens[..]), tokens[..], at, at + |words|)
      ensures var r := Run(old(fds), PipeStages(PipeSplit(words, []), false, bg), old(|procs|), can);
              && procs == old(procs) + r.procs && status == r.status && (status.Running? ==> fds == r.base)
    {
      ghost var all := ToCome(fds, words, [], true, bg);
      ghost var cur, rest, base;
      var i, j, first, preR;
      i, j, first, preR, cur, rest, base := PipeWords(at, bg, words, all);
      if status.Running? {
        AtEndDo(i, j, first, preR, bg, cur, rest, base, all);
      }
    }

    /** What has run, and what the jobs to come will come to. */
    ghost function ToRun(jobs: seq<Job>): Ran
      reads `fds, `procs
    {
      After(procs, Run(fds, LineStages(jobs), |procs|, can))
    }

    /** The words of the first job lie at position j, ended by a Null: run it. */
    method RunJob(j: nat, bg: bool, ghost cur: seq<string>, ghost jobs: seq<Job>, ghost all: Ran)
      requires Holds(j, cur) && StdOpen(fds) && status.Running?
      requires jobs != [] && jobs[0] == Job(cur, bg) && ToRun(jobs) == all
      modifies `fds, `procs, `status, tokens
      ensures SameOutside(old(tokens[..]), tokens[..], j, j + |cur|)
      ensures if status.Running? then StdOpen(fds) && ToRun(jobs[1..]) == all
              else procs == all.procs && status == all.status
    {
      JobDone(all, procs, fds, cur, bg, jobs, can);
      DoPipeCmd(j, bg, cur);
    }

    /** At position i of the list: the words since position j are those of the current pipeline, and what
        has run together with what is to come never changes. */
    ghost predicate InList(i: nat, j: nat, cur: seq<string>, rest: seq<string>, all: Ran)
      reads this, tokens
    {
      && i == j + |cur| && Holds(i, rest) && Shows(j, cur)
      && status.Running? && StdOpen(fds)
      && ToRun(Jobs(Segments(rest, cur))) == all
    }

    lemma InListWord(i: nat, j: nat, cur: seq<string>, rest: seq<string>, all: Ran)
      requires InList(i, j, cur, rest, all) && rest != [] && !IsTerminator(rest[0])
      ensures InList(i + 1, j, cur + [rest[0]], rest[1..], all)
    {
      HeadWord(i, rest);
      ShowsMore(j, cur, rest[0]);
    }

    lemma InListEnd(i: nat, j: nat, cur: seq<string>, rest: seq<string>, all: Ran)
      requires InList(i, j, cur, rest, all) && tokens[i] == Null
      ensures procs == all.procs && fds == all.base && status == all.status
    {
      HeadWord(i, rest);
    }

    /** A terminator at position i: it becomes a Null, and the pipeline before it runs, if any. */
    method AtTerminatorDo(i: nat, j: nat, bg: bool, ghost cur: seq<string>, ghost rest: seq<string>, ghost all: Ran)
      requires InList(i, j, cur, rest, all)
      requires rest != [] && IsTerminator(rest[0]) && bg == (rest[0] == "&")
      modifies `fds, `procs, `status, tokens
      ensures status.Running? ==> InList(i + 1, i + 1, [], rest[1..], all)
      ensures !status.Running? ==> procs == all.procs && status == all.status
    {
      JobsAtTerminator(rest, cur);
      ghost var jobs, tail := Jobs(Segments(rest, cur)), Jobs(Segments(rest[1..], []));
      HeadWord(i, rest);
      tokens[i] := Null;
      if j != i {
        RunJob(j, bg, cur, jobs, all);
      }
      assert status.Running? ==> ToRun(tail) == all;
      assert Holds(i + 1, rest[1..]);
    }

    /** do_list_cmd on the whole token array. */
    method DoListCmd(ghost words: seq<string>)
      requires Holds(0, words) && StdOpen(fds) && status.Running?
      modifies `fds, `procs, `status, tokens
      ensures var r := Run(old(fds), StagesOf(words), old(|procs|), can);
              && procs == old(procs) + r.procs && status == r.status && (status.Running? ==> fds == r.base)
    {
      ghost var cur, rest := [], words;
      ghost var all := ToRun(Jobs(Segments(words, [])));
      var i: nat, j: nat := 0, 0;
      while tokens[i] != Null
        invariant InList(i, j, cur, rest, all)
        decreases |rest|
      {
        HeadWord(i, rest);
        if IsTerminator(tokens[i].text) {
          AtTerminatorDo(i, j, tokens[i].text == "&", cur, rest, all);
          if !status.Running? {
            return;
          }
          i := i + 1;
          j := i;
          cur, rest := [], rest[1..];
        } else {
          InListWord(i, j, cur, rest, all);
          i := i + 1;
          cur, rest := cur + [rest[0]], rest[1..];
        }
      }
      InListEnd(i, j, cur, rest, all);
    }

    /** The array shows these words from position at on. */
    ghost predicate Shows(at: nat, words: seq<string>)
      reads `tokens, tokens
    {
      at + |words| <= tokens.Length && forall k :: at <= k < at + |words| ==> tokens[k] == Word(words[k - at])
    }

    lemma ShowsMore(at: nat, words: seq<string>, w: string)
      requires Shows(at, words) && at + |words| < tokens.Length && tokens[at + |words|] == Word(w)
      ensures Shows(at, words + [w])
    {
    }

    lemma HeadWord(at: nat, words: seq<string>)
      requires Holds(at, words)
      ensures tokens[at] == if words == [] then Null else Word(words[0])
      ensures words != [] ==> Holds(at + 1, words[1..])
    {
    }
  }

  method Unused(fds: Fds, more: set<nat>) returns (n: nat)
    ensures n !in fds && n !in more && forall m: nat :: m < n ==> m in fds || m in more
  {
    var used := fds.Keys + more;
    n := 0;
    ghost var below: set<nat> := {};
    while n in used
      invariant below <= used && forall m: nat :: m in below <==> m < n
      decreases used - below
    {
      below := below + {n};
      n := n + 1;
    }
    forall m: nat | m < n ensures m in fds || m in more {
      assert m in below;
    }
  }
}
