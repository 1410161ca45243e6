/**
  What lists and pipelines mean word by word: the words that separate commands, what runs in
  the background, and which commands the shell runs itself.
 */
module ShellLines {
  import opened ShellSyntax
  import opened ShellRuns

  /** Words with none of the three that end a pipeline. */
  ghost predicate OnePipeline(words: seq<string>) {
    words != [] && ";" !in words && "&" !in words && "\n" !in words
  }

  lemma {:induction false} UpTo(a: seq<string>, end: string, rest: seq<string>, cur: seq<string>)
    requires ";" !in a && "&" !in a && "\n" !in a && (end == ";" || end == "&" || end == "\n")
    ensures Segments(a + [end] + rest, cur) == [Segment(cur + a, end)] + Segments(rest, [])
    decreases |a|
  {
    var words := a + [end] + rest;
    if a == [] {
      assert words[0] == end && words[1..] == rest && cur + a == cur;
    } else {
      assert words[0] == a[0] && words[1..] == a[1..] + [end] + rest;
      UpTo(a[1..], end, rest, cur + [a[0]]);
      assert cur + [a[0]] + a[1..] == cur + a;
    }
  }

  lemma FirstJobOf(a: seq<string>, end: string, rest: seq<string>)
    requires OnePipeline(a) && (end == ";" || end == "&" || end == "\n")
    ensures Jobs(Segments(a + [end] + rest, [])) == [Job(a, end == "&")] + Jobs(Segments(rest, []))
  {
    UpTo(a, end, rest, []);
    assert [] + a == a;
    var segs := [Segment(a, end)] + Segments(rest, []);
    assert segs[0] == Segment(a, end) && segs[1..] == Segments(rest, []);
  }

  lemma LastJob(b: seq<string>)
    requires OnePipeline(b)
    ensures Jobs(Segments(b + ["\n"], [])) == [Job(b, false)]
  {
    FirstJobOf(b, "\n", []);
    assert b + ["\n"] + [] == b + ["\n"];
  }

  /** An & runs what is before it in the background, and what follows it in the foreground. */
  lemma Background(a: seq<string>, b: seq<string>)
    requires OnePipeline(a) && OnePipeline(b)
    ensures Jobs(Segments(a + ["&"] + b + ["\n"], [])) == [Job(a, true), Job(b, false)]
  {
    assert a + ["&"] + b + ["\n"] == a + ["&"] + (b + ["\n"]);
    FirstJobOf(a, "&", b + ["\n"]);
    LastJob(b);
  }

  /** A ; runs one after the other. */
  lemma Sequential(a: seq<string>, b: seq<string>)
    requires OnePipeline(a) && OnePipeline(b)
    ensures Jobs(Segments(a + [";"] + b + ["\n"], [])) == [Job(a, false), Job(b, false)]
  {
    assert a + [";"] + b + ["\n"] == a + [";"] + (b + ["\n"]);
    FirstJobOf(a, ";", b + ["\n"]);
    LastJob(b);
  }

  /** A newline does too, as in a text of two lines. */
  lemma TwoLines(a: seq<string>, b: seq<string>)
    requires OnePipeline(a) && OnePipeline(b)
    ensures Jobs(Segments(a + ["\n"] + b + ["\n"], [])) == [Job(a, false), Job(b, false)]
  {
    assert a + ["\n"] + b + ["\n"] == a + ["\n"] + (b + ["\n"]);
    FirstJobOf(a, "\n", b + ["\n"]);
    LastJob(b);
  }

  /** Nothing runs between two terminators. */
  lemma EmptyJob(end: string, rest: seq<string>)
    requires end == ";" || end == "&" || end == "\n"
    ensures Jobs(Segments([end] + rest, [])) == Jobs(Segments(rest, []))
  {
    UpTo([], end, rest, []);
    assert [] + [end] + rest == [end] + rest;
    var segs := [Segment([], end)] + Segments(rest, []);
    assert segs[1..] == Segments(rest, []);
  }

  /** Words that nothing ends are not run. */
  lemma {:induction false} Unterminated(a: seq<string>, cur: seq<string>)
    requires ";" !in a && "&" !in a && "\n" !in a
    ensures Segments(a, cur) == [] && Jobs(Segments(a, cur)) == []
    decreases |a|
  {
    if a != [] {
      Unterminated(a[1..], cur + [a[0]]);
    }
  }

  // ----- down to the processes started -----

  lemma {:induction false} OneOf(words: seq<string>, cur: seq<string>)
    requires "|" !in words
    ensures PipeSplit(words, cur) == [cur + words]
    decreases |words|
  {
    if words == [] {
      assert cur + words == cur;
    } else {
      OneOf(words[1..], cur + [words[0]]);
      assert cur + [words[0]] + words[1..] == cur + words;
    }
  }

  /** A simple command by itself has no pipe, and goes to the background as its job does. */
  lemma OneStageOf(a: seq<string>, bg: bool, jobs: seq<Job>)
    requires "|" !in a
    ensures LineStages([Job(a, bg)] + jobs) == [Stage(a, false, false, bg)] + LineStages(jobs)
  {
    OneOf(a, []);
    assert [] + a == a && ([Job(a, bg)] + jobs)[1..] == jobs && [a][1..] == [];
  }

  /** A line of two simple commands with an & between them. */
  lemma BackgroundStages(a: seq<string>, b: seq<string>)
    requires OnePipeline(a) && OnePipeline(b) && "|" !in a && "|" !in b
    ensures StagesOf(a + ["&"] + b + ["\n"]) == [Stage(a, false, false, true), Stage(b, false, false, false)]
  {
    Background(a, b);
    OneStageOf(a, true, [Job(b, false)]);
    OneStageOf(b, false, []);
    assert [Job(a, true)] + [Job(b, false)] == [Job(a, true), Job(b, false)];
    assert [Job(b, false)] + [] == [Job(b, false)];
  }

  lemma {:induction false} PlainArgs(cmd: seq<string>, i: nat, fds: Fds, k: nat, can: Files)
    requires i <= |cmd| && "<" !in cmd && ">" !in cmd
    ensures Redirect(cmd, i, fds, cmd[..i], k, can) == Ready(cmd, fds)
    decreases |cmd| - i
  {
    if i < |cmd| {
      assert cmd[..i] + [cmd[i]] == cmd[..i + 1];
      PlainArgs(cmd, i + 1, fds, k, can);
    } else {
      assert cmd[..i] == cmd;
    }
  }

  /** A command whose name is none of the four is forked, with all its words, in its place. */
  lemma ExternalForked(base: Fds, s: Stage, k: nat, can: Files)
    requires s.words != [] && "<" !in s.words && ">" !in s.words
    requires var name := s.words[0]; name != "exit" && name != "cd" && name != "echo" && name != "export"
    ensures OneStage(base, s, k, can)
            == Ran([Forked(Ready(s.words, StageFds(base, s.pre, s.post, k)), s.bg)], base, Running)
  {
    PlainArgs(s.words, 0, StageFds(base, s.pre, s.post, k), k, can);
    assert s.words[..0] == [];
  }

  /** The four run in the shell; only exit ends it. */
  lemma BuiltinInside(base: Fds, s: Stage, k: nat, can: Files)
    requires s.words != [] && "<" !in s.words && ">" !in s.words
    requires var name := s.words[0]; name == "exit" || name == "cd" || name == "echo" || name == "export"
    ensures var fds := StageFds(base, s.pre, s.post, k);
            OneStage(base, s, k, can)
            == Ran([Inside(Ready(s.words, fds))], fds, if s.words[0] == "exit" then Exited else Running)
  {
    PlainArgs(s.words, 0, StageFds(base, s.pre, s.post, k), k, can);
    assert s.words[..0] == [];
  }

  /** A stage reads from the pipe before it on descriptor 0 and writes to the one behind it on descriptor 1. */
  lemma StageEnds(base: Fds, pre: bool, post: bool, k: nat, n: nat)
    requires StdOpen(base)
    ensures var fds := StageFds(base, pre, post, k);
            && fds.Keys == base.Keys
            && fds[0] == (if pre then ReadEnd(k - 1) else base[0])
            && fds[1] == (if post then WriteEnd(k) else base[1])
            && (n in base && n > 1 ==> fds[n] == base[n])
  {
  }

  /** A bar puts a pipe behind the command before it and before the one behind it, and nowhere else. */
  lemma BarStages(a: seq<string>, b: seq<string>, bg: bool)
    requires "|" !in a && "|" !in b
    ensures PipeStages(PipeSplit(a + ["|"] + b, []), false, bg)
            == [Stage(a, false, true, bg), Stage(b, true, false, bg)]
  {
    Bar(a, b, []);
    assert [] + a == a;
    OneOf(b, []);
    assert [] + b == b;
    var cmds := [a] + [b];
    assert cmds[1..] == [b] && [b][1..] == [];
    assert PipeStages([b], true, bg) == [Stage(b, true, false, bg)];
  }

  lemma {:induction false} Bar(a: seq<string>, b: seq<string>, cur: seq<string>)
    requires "|" !in a
    ensures PipeSplit(a + ["|"] + b, cur) == [cur + a] + PipeSplit(b, [])
    decreases |a|
  {
    var words := a + ["|"] + b;
    if a == [] {
      assert words[1..] == b && cur + a == cur;
    } else {
      assert words[1..] == a[1..] + ["|"] + b && words[0] == a[0];
      Bar(a[1..], b, cur + [a[0]]);
      assert cur + [a[0]] + a[1..] == cur + a;
    }
  }
}
