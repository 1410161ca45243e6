/**
  Lists and pipelines as sequences of words: what do_list_cmd and do_pipe_cmd
  cut a line into.
 */
module ShellSyntax {

  predicate IsTerminator(w: string) {
    w == ";" || w == "\n" || w == "&"
  }

  /** A stretch of words and the word that ended it. */
  datatype Segment = Segment(body: seq<string>, end: string)

  /** All segments of a line, empty ones included; words behind the last terminator are dropped. */
  function Segments(words: seq<string>, cur: seq<string>): seq<Segment> {
    if words == [] then []
    else if IsTerminator(words[0]) then [Segment(cur, words[0])] + Segments(words[1..], [])
    else Segments(words[1..], cur + [words[0]])
  }

  /** The pipelines of a line: the segments that are not empty, in the background after &. */
  datatype Job = Job(body: seq<string>, bg: bool)

  function Jobs(segs: seq<Segment>): seq<Job> {
    if segs == [] then []
    else (if segs[0].body == [] then [] else [Job(segs[0].body, segs[0].end == "&")]) + Jobs(segs[1..])
  }

  /** The commands of a pipeline. */
  function PipeSplit(words: seq<string>, cur: seq<string>): (cmds: seq<seq<string>>)
    ensures cmds != []
  {
    if words == [] then [cur]
    else if words[0] == "|" then [cur] + PipeSplit(words[1..], [])
    else PipeSplit(words[1..], cur + [words[0]])
  }

  // ----- cutting and pasting -----

  function Unsegment(segs: seq<Segment>): seq<string> {
    if segs == [] then [] else segs[0].body + [segs[0].end] + Unsegment(segs[1..])
  }

  /** Pasting the segments of a terminated line back together gives the line. */
  lemma {:induction false} SegmentsRejoin(words: seq<string>, cur: seq<string>)
    requires words != [] && IsTerminator(words[|words| - 1])
    ensures Unsegment(Segments(words, cur)) == cur + words
    decreases |words|
  {
    var rest := words[1..];
    if IsTerminator(words[0]) {
      if rest != [] {
        SegmentsRejoin(rest, []);
      }
      assert ([Segment(cur, words[0])] + Segments(rest, []))[1..] == Segments(rest, []);
      assert words == [words[0]] + rest;
    } else {
      SegmentsRejoin(rest, cur + [words[0]]);
      assert cur + [words[0]] + rest == cur + words;
    }
  }

  /** Every segment ends in a terminator and has none inside. */
  lemma {:induction false} SegmentsClean(words: seq<string>, cur: seq<string>)
    requires forall i :: 0 <= i < |cur| ==> !IsTerminator(cur[i])
    ensures forall s :: s in Segments(words, cur) ==>
              IsTerminator(s.end) && forall i :: 0 <= i < |s.body| ==> !IsTerminator(s.body[i])
    decreases |words|
  {
    if words != [] {
      if IsTerminator(words[0]) {
        SegmentsClean(words[1..], []);
      } else {
        SegmentsClean(words[1..], cur + [words[0]]);
      }
    }
  }

  function Join(cmds: seq<seq<string>>): seq<string>
    requires cmds != []
  {
    if |cmds| == 1 then cmds[0] else cmds[0] + ["|"] + Join(cmds[1..])
  }

  /** Pasting the commands back together with bars gives the pipeline, and no command has a bar. */
  lemma {:induction false} CommandsRejoin(words: seq<string>, cur: seq<string>)
    requires "|" !in cur
    ensures Join(PipeSplit(words, cur)) == cur + words
    ensures forall c :: c in PipeSplit(words, cur) ==> "|" !in c
    decreases |words|
  {
    if words != [] {
      var rest := words[1..];
      if words[0] == "|" {
        CommandsRejoin(rest, []);
        assert ([cur] + PipeSplit(rest, []))[1..] == PipeSplit(rest, []);
        assert words == ["|"] + rest;
      } else {
        CommandsRejoin(rest, cur + [words[0]]);
        assert cur + [words[0]] + rest == cur + words;
      }
    }
  }
}
