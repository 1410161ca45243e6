/**
  The shell's main loop around the scanner: one line at a time, each run through
  yylex to its end.
 */
module MshSession {
  import opened Bytes
  import opened Munching
  import opened LineByLine
  import opened FlexTables
  import opened FlexScanner
  import opened LexRules
  import Msh = MshTables

  ghost predicate AreLines(lines: seq<seq<Byte>>) {
    forall i :: 0 <= i < |lines| ==> Msh.EndsLine(lines[i])
  }

  /** A scanner over the shell's tables, with nothing to read yet. */
  method Start(bufSize: nat) returns (s: Scanner)
    requires 0 < bufSize
    ensures fresh(s) && fresh(s.chBuf) && s.Valid() && s.d == Msh.D()
    ensures s.sc == 0 && s.Input() == [] && s.status.New? && s.tokens == []
  {
    Msh.TablesSound();
    Msh.TablesUnpacked();
    s := new Scanner(Msh.T(), bufSize, []);
  }

  /** Between two lines the scanner has nothing left to read and is in the initial condition. */
  ghost predicate AtPrompt(s: Scanner)
    reads s, s.chBuf
  {
    s.Valid() && s.d == Msh.D() && s.sc == 0 && s.Input() == [] && s.status.New?
  }

  /** One line is handed over and scanned to its end; done and to come stay what they were together. */
  method RunLine(s: Scanner, line: seq<Byte>, ghost more: seq<Byte>)
    requires AtPrompt(s) && Msh.EndsLine(line) && NulFree(more) && NulFree(line + more)
    modifies s, s.chBuf
    ensures AtPrompt(s) && (s.chBuf == old(s.chBuf) || fresh(s.chBuf))
    ensures s.tokens + Lex(s.d, 0, more) == old(s.tokens) + Lex(s.d, 0, line + more)
  {
    Msh.LinesApart(line, more);
    ghost var done := s.tokens;
    s.GiveLine(line);
    s.Yylex();
    RegroupTokens(done, Lex(s.d, 0, line), Lex(s.d, 0, more));
  }

  lemma LinesNulFree(lines: seq<seq<Byte>>)
    requires AreLines(lines)
    ensures AllNulFree(lines)
  {
    forall i | 0 <= i < |lines| ensures NulFree(lines[i]) {
      assert Msh.EndsLine(lines[i]);
    }
  }

  /** One turn of the main loop. */
  method RunNext(s: Scanner, lines: seq<seq<Byte>>, i: nat, ghost all: seq<Token>)
    requires AreLines(lines) && i < |lines| && AtPrompt(s) && MakesUp(s.tokens, s.d, lines, i, all)
    modifies s, s.chBuf
    ensures AtPrompt(s) && MakesUp(s.tokens, s.d, lines, i + 1, all) && (s.chBuf == old(s.chBuf) || fresh(s.chBuf))
  {
    LinesNulFree(lines);
    NextPart(lines, i);
    RunLine(s, lines[i], Joined(lines[i + 1..]));
    PartDone(old(s.tokens), s.tokens, s.d, lines, i, all);
  }

  /** The main loop. */
  method RunAll(s: Scanner, lines: seq<seq<Byte>>)
    requires AtPrompt(s) && AreLines(lines) && NulFree(Joined(lines))
    modifies s, s.chBuf
    ensures AtPrompt(s) && s.tokens == old(s.tokens) + Lex(s.d, 0, Joined(lines))
  {
    ghost var all := s.tokens + Lex(s.d, 0, Joined(lines));
    NoneDone(s.tokens, s.d, lines);
    var i: nat := 0;
    while i < |lines|
      invariant i <= |lines| && AtPrompt(s) && MakesUp(s.tokens, s.d, lines, i, all)
      invariant s.chBuf == old(s.chBuf) || fresh(s.chBuf)
    {
      RunNext(s, lines, i, all);
      i := i + 1;
    }
    AllDone(s.tokens, s.d, lines, all);
  }

  /** A session: whatever the buffer size and the sizes of the reads, the actions run are those the
      lexical rules prescribe for the text of all the lines together. */
  method RunLines(bufSize: nat, lines: seq<seq<Byte>>) returns (tokens: seq<Token>)
    requires 0 < bufSize && AreLines(lines)
    ensures RuleLexing(Msh.Rules, 0, Joined(lines), tokens)
    ensures Texts(tokens) == Joined(lines)
  {
    var s := Start(bufSize);
    LinesNulFree(lines);
    JoinedNulFree(lines);
    RunAll(s, lines);
    tokens := s.tokens;
    Msh.LexMeansRules(0, Joined(lines), tokens);
    LexLosesNothing(s.d, 0, Joined(lines));
  }
}
