/**
  The other shell's main loop: one line at a time, and yylex returns at its newline,
  before the scanner asks for more.
 */
module ParselineSession {
  import opened Bytes
  import opened Munching
  import opened LineByLine
  import opened FlexTables
  import opened FlexPass
  import opened FlexScanner
  import opened LexRules
  import Pl = ParselineTables

  const NEWLINE: nat := 7   // the rule whose action returns

  /** What is left of a line: its newline is the last byte and the only one. */
  ghost predicate EndsLine(w: seq<Byte>) {
    NulFree(w) && w != [] && w[|w| - 1] == 10 && forall i :: 0 <= i < |w| - 1 ==> w[i] != 10
  }

  /** The first token of the rest of a line is the same whatever follows. It is the newline's exactly if it is
      the last; and at the line's end the match loop does not want to go on. */
  ghost predicate StaysInLine(d: Dfa, w: seq<Byte>, v: seq<Byte>) {
    var tok := FirstToken(d, 0, w);
    && FirstToken(d, 0, w + v) == tok && 0 < |tok.text| <= |w| && d.begin(tok.act, 0) == 0
    && (tok.act == NEWLINE <==> |tok.text| == |w|)
    && !StillOpen(d, 0, w)
  }

  lemma ChoiceInLine(w: seq<Byte>, v: seq<Byte>)
    requires EndsLine(w)
    ensures Pl.Choice(0, w + v) == Pl.Choice(0, w) && 0 < Pl.Choice(0, w).0 <= |w|
    ensures Pl.Choice(0, w).1 == NEWLINE <==> Pl.Choice(0, w).0 == |w|
  {
    assert (w + v)[0] == w[0];
    SpanBefore(w, v, {32, 9, 10, 124, 60, 62, 59, 38, 34});
  }

  lemma NewlineStops(d: Dfa, w: seq<Byte>)
    requires Pl.Unpacked(d) && EndsLine(w)
    ensures !StillOpen(d, 0, w)
  {
    var q := Run(d, d.Start(0), w, |w| - 1);
    assert d.step(q, 10) == if 1 <= q <= 18 then Pl.Plain(q, Pl.Class(10)) else 18;
  }

  lemma TokenStaysInLine(d: Dfa, w: seq<Byte>, v: seq<Byte>)
    requires Pl.Unpacked(d) && d.Sound() && EndsLine(w) && NulFree(v)
    ensures StaysInLine(d, w, v)
  {
    Pl.TokenIsChoice(d, 0, w);
    Pl.TokenIsChoice(d, 0, w + v);
    ChoiceInLine(w, v);
    NewlineStops(d, w);
    var n := Pl.Choice(0, w).0;
    assert (w + v)[..n] == w[..n];
  }

  lemma LineToken(w: seq<Byte>, v: seq<Byte>)
    requires EndsLine(w) && NulFree(v)
    ensures Pl.D().Sound() && 0 < Pl.D().conds && StaysInLine(Pl.D(), w, v)
  {
    Pl.TablesUnpacked();
    Pl.UnpackedSound(Pl.D());
    TokenStaysInLine(Pl.D(), w, v);
  }

  /** Taking one token of the rest of a line, with more to come. */
  lemma LineStep(d: Dfa, w: seq<Byte>, v: seq<Byte>, done: seq<Token>)
    requires d.Sound() && 0 < d.conds && EndsLine(w) && NulFree(v) && NulFree(w + v) && StaysInLine(d, w, v)
    ensures var tok := FirstToken(d, 0, w);
            var n := |tok.text|;
            && (n < |w| ==> EndsLine(w[n..])) && NulFree(w[n..] + v)
            && (done + [tok]) + Lex(d, 0, w[n..] + v) == done + Lex(d, 0, w + v)
  {
    var tok := FirstToken(d, 0, w);
    LexStep(d, 0, w + v);
    DropFromJoined(w, v, |tok.text|);
    RegroupTokens(done, [tok], Lex(d, 0, w[|tok.text|..] + v));
  }

  /** Between two lines nothing is left to read, and no read has come back empty. */
  ghost predicate AtPrompt(s: Scanner)
    reads s, s.chBuf
  {
    s.Valid() && s.d == Pl.D() && s.sc == 0 && s.Input() == [] && !s.status.EofPending?
  }

  /** In the middle of a line. */
  ghost predicate InLine(s: Scanner)
    reads s, s.chBuf
  {
    s.Valid() && s.d == Pl.D() && s.sc == 0 && EndsLine(s.Input()) && !s.status.EofPending?
  }

  /** One token; the line is done exactly if it was the newline. */
  method TakeOne(s: Scanner, ghost more: seq<Byte>) returns (done: bool)
    requires InLine(s) && NulFree(more) && NulFree(s.Input() + more)
    modifies s, s.chBuf
    ensures s.chBuf == old(s.chBuf) || fresh(s.chBuf)
    ensures if done then AtPrompt(s) else InLine(s) && |s.Input()| < |old(s.Input())|
    ensures s.Valid() && NulFree(s.Input() + more)
    ensures s.tokens + Lex(s.d, 0, s.Input() + more) == old(s.tokens) + Lex(s.d, 0, old(s.Input()) + more)
  {
    ghost var w := s.Input();
    LineToken(w, more);
    LineStep(s.d, w, more, s.tokens);
    var eof := s.TakeToken();
    done := s.tokens[|s.tokens| - 1].act == NEWLINE;
  }

  /** yylex up to the action that returns. */
  method Yylex(s: Scanner, ghost more: seq<Byte>)
    requires InLine(s) && NulFree(more) && NulFree(s.Input() + more)
    modifies s, s.chBuf
    ensures AtPrompt(s) && (s.chBuf == old(s.chBuf) || fresh(s.chBuf))
    ensures s.tokens + Lex(s.d, 0, more) == old(s.tokens) + Lex(s.d, 0, old(s.Input()) + more)
  {
    ghost var all := s.tokens + Lex(s.d, 0, s.Input() + more);
    var done := false;
    while !done
      invariant s.chBuf == old(s.chBuf) || fresh(s.chBuf)
      invariant s.Valid() && NulFree(s.Input() + more) && s.tokens + Lex(s.d, 0, s.Input() + more) == all
      invariant if done then AtPrompt(s) else InLine(s)
      decreases |s.Input()|, !done
    {
      done := TakeOne(s, more);
    }
    assert s.Input() + more == more;
  }

  /** One line is handed over and scanned to its newline. */
  method RunLine(s: Scanner, line: seq<Byte>, ghost more: seq<Byte>)
    requires AtPrompt(s) && EndsLine(line) && NulFree(more) && NulFree(line + more)
    modifies s, s.chBuf
    ensures AtPrompt(s) && (s.chBuf == old(s.chBuf) || fresh(s.chBuf))
    ensures s.tokens + Lex(s.d, 0, more) == old(s.tokens) + Lex(s.d, 0, line + more)
  {
    s.GiveLine(line);
    Yylex(s, more);
  }

  ghost predicate AreLines(lines: seq<seq<Byte>>) {
    forall i :: 0 <= i < |lines| ==> EndsLine(lines[i])
  }

  /** A scanner over this shell's tables, with nothing to read yet. */
  method Start(bufSize: nat) returns (s: Scanner)
    requires 0 < bufSize
    ensures fresh(s) && fresh(s.chBuf) && AtPrompt(s) && s.tokens == []
  {
    Pl.TablesSound();
    Pl.TablesUnpacked();
    s := new Scanner(Pl.T(), bufSize, []);
  }

  lemma LinesNulFree(lines: seq<seq<Byte>>)
    requires AreLines(lines)
    ensures AllNulFree(lines)
  {
    forall i | 0 <= i < |lines| ensures NulFree(lines[i]) {
      assert EndsLine(lines[i]);
    }
  }

  /** One turn of the main loop. */
  method RunNext(s: Scanner, lines: seq<seq<Byte>>, i: nat, ghost all: seq<Token>)
    requires AreLines(lines) && i < |lines| && AtPrompt(s) && MakesUp(s.tokens, s.d, lines, i, all)
    modifies s, s.chBuf
    ensures AtPrompt(s) && MakesUp(s.tokens, s.d, lines, i + 1, all) && (s.chBuf == old(s.chBuf) || fresh(s.chBuf))
  {
    LinesNulFree(lines);
    NextPart(lines, i);
    RunLine(s, lines[i], Joined(lines[i + 1..]));
    PartDone(old(s.tokens), s.tokens, s.d, lines, i, all);
  }

  /** The main loop. */
  method RunAll(s: Scanner, lines: seq<seq<Byte>>)
    requires AtPrompt(s) && AreLines(lines) && NulFree(Joined(lines))
    modifies s, s.chBuf
    ensures AtPrompt(s) && s.tokens == old(s.tokens) + Lex(s.d, 0, Joined(lines))
  {
    ghost var all := s.tokens + Lex(s.d, 0, Joined(lines));
    NoneDone(s.tokens, s.d, lines);
    var i: nat := 0;
    while i < |lines|
      invariant i <= |lines| && AtPrompt(s) && MakesUp(s.tokens, s.d, lines, i, all)
      invariant s.chBuf == old(s.chBuf) || fresh(s.chBuf)
    {
      RunNext(s, lines, i, all);
      i := i + 1;
    }
    AllDone(s.tokens, s.d, lines, all);
  }

  /** A session: whatever the buffer size and the sizes of the reads, the actions run are those the
      lexical rules prescribe for the text of all the lines together. */
  method RunLines(bufSize: nat, lines: seq<seq<Byte>>) returns (tokens: seq<Token>)
    requires 0 < bufSize && AreLines(lines)
    ensures RuleLexing(Pl.Rules, 0, Joined(lines), tokens)
    ensures Texts(tokens) == Joined(lines)
  {
    var s := Start(bufSize);
    LinesNulFree(lines);
    JoinedNulFree(lines);
    RunAll(s, lines);
    tokens := s.tokens;
    Pl.LexMeansRules(0, Joined(lines), tokens);
    LexLosesNothing(s.d, 0, Joined(lines));
  }
}
