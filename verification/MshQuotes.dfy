/**
  What a quoted text comes to, byte by byte.
 */
module MshQuotes {
  import opened Bytes
  import opened Munching
  import opened LexRules
  import opened MshTables

  /** The first token is the choice made by the rules, and the rest is lexed in the condition its action begins. */
  lemma Next(d: Dfa, sc: nat, w: seq<Byte>)
    requires Unpacked(d) && d.Sound() && sc < 3 && NulFree(w) && w != []
    ensures d.conds == 3 && 0 < Choice(sc, w).0 <= |w| && Begins(Choice(sc, w).1, sc) < 3
    ensures Lex(d, sc, w)
            == [Token(Choice(sc, w).1, w[..Choice(sc, w).0])]
               + Lex(d, Begins(Choice(sc, w).1, sc), w[Choice(sc, w).0..])
  {
    TokenIsChoice(d, sc, w);
    LexStep(d, sc, w);
  }

  /** A token of one byte, when the rules choose one. */
  lemma OneByte(d: Dfa, sc: nat, b: Byte, rest: seq<Byte>, act: nat, next: nat)
    requires Unpacked(d) && d.Sound() && sc < 3 && b != 0 && NulFree(rest)
    requires Choice(sc, [b] + rest) == (1, act) && Begins(act, sc) == next
    ensures d.conds == 3 && next < 3 && NulFree([b] + rest)
    ensures Lex(d, sc, [b] + rest) == [Token(act, [b])] + Lex(d, next, rest)
  {
    var w := [b] + rest;
    assert w[..1] == [b] && w[1..] == rest;
    Next(d, sc, w);
  }

  lemma {:induction false} SpanTo(w: seq<Byte>, v: seq<Byte>, except: set<Byte>)
    requires v != [] && v[0] in except && forall i :: 0 <= i < |w| ==> w[i] !in except
    ensures Span(w + v, except) == |w|
  {
    if w == [] {
      assert w + v == v;
    } else {
      assert (w + v)[0] == w[0] && (w + v)[1..] == w[1..] + v;
      SpanTo(w[1..], v, except);
    }
  }

  /** A text without quotes and newlines. */
  ghost predicate Plainly(w: seq<Byte>) {
    w != [] && forall i :: 0 <= i < |w| ==> w[i] != 0 && w[i] != 10 && w[i] != 34
  }

  /** Inside quotes the text up to the next quote or newline is one token, whatever characters it has. */
  lemma QuotedText(d: Dfa, w: seq<Byte>, rest: seq<Byte>)
    requires Unpacked(d) && d.Sound() && d.conds == 3
    requires Plainly(w) && rest != [] && (rest[0] == 34 || rest[0] == 10) && NulFree(rest)
    ensures NulFree(w + rest) && Lex(d, QUOTE, w + rest) == [Token(2, w)] + Lex(d, QUOTE, rest)
  {
    SpanTo(w, rest, {10, 34});
    assert (w + rest)[0] == w[0] && (w + rest)[..|w|] == w && (w + rest)[|w|..] == rest;
    Next(d, QUOTE, w + rest);
  }

  lemma NewlineLast(d: Dfa, sc: nat, act: nat)
    requires Unpacked(d) && d.Sound() && d.conds == 3 && ((sc == INITIAL && act == 10) || (sc == QUOTE && act == 4))
    ensures Lex(d, sc, [10]) == [Token(act, [10])]
  {
    assert [10] + [] == [10];
    OneByte(d, sc, 10, [], act, INITIAL);
  }

  lemma QuoteOpens(d: Dfa, rest: seq<Byte>)
    requires Unpacked(d) && d.Sound() && d.conds == 3 && NulFree(rest)
    ensures NulFree([34] + rest) && Lex(d, INITIAL, [34] + rest) == [Token(1, [34])] + Lex(d, QUOTE, rest)
  {
    OneByte(d, INITIAL, 34, rest, 1, QUOTE);
  }

  lemma QuoteCloses(d: Dfa, rest: seq<Byte>)
    requires Unpacked(d) && d.Sound() && d.conds == 3 && NulFree(rest)
    ensures NulFree([34] + rest) && Lex(d, QUOTE, [34] + rest) == [Token(3, [34])] + Lex(d, INITIAL, rest)
  {
    OneByte(d, QUOTE, 34, rest, 3, INITIAL);
  }

  lemma QuotedLineIn(d: Dfa, w: seq<Byte>)
    requires Unpacked(d) && d.Sound() && d.conds == 3 && Plainly(w)
    ensures NulFree([34] + w + [34, 10])
    ensures Lex(d, INITIAL, [34] + w + [34, 10])
            == [Token(1, [34]), Token(2, w), Token(3, [34]), Token(10, [10])]
  {
    NewlineLast(d, INITIAL, 10);
    QuoteCloses(d, [10]);
    QuotedText(d, w, [34] + [10]);
    QuoteOpens(d, w + ([34] + [10]));
    Quoted(w);
    InARow(Token(1, [34]), Token(2, w), Token(3, [34]), Token(10, [10]));
  }

  lemma Quoted(w: seq<Byte>)
    ensures [34] + w + [34, 10] == [34] + (w + ([34] + [10])) && [34] + w + [10] == [34] + (w + [10])
  {
    assert [34] + [10] == [34, 10];
  }

  lemma InARow(a: Token, b: Token, c: Token, e: Token)
    ensures [a] + ([b] + [c]) == [a, b, c] && [a] + ([b] + ([c] + [e])) == [a, b, c, e]
  {
  }

  /** A quoted text, spaces and operators included, is one argument between two quotes; the newline then runs the
      line. */
  lemma QuotedLine(w: seq<Byte>)
    requires Plainly(w)
    ensures D().Sound() && 0 < D().conds && NulFree([34] + w + [34, 10])
    ensures Lex(D(), INITIAL, [34] + w + [34, 10])
            == [Token(1, [34]), Token(2, w), Token(3, [34]), Token(10, [10])]
  {
    TablesUnpacked();
    UnpackedSound(D());
    QuotedLineIn(D(), w);
  }

  lemma UnclosedLineIn(d: Dfa, w: seq<Byte>)
    requires Unpacked(d) && d.Sound() && d.conds == 3 && Plainly(w)
    ensures NulFree([34] + w + [10])
    ensures Lex(d, INITIAL, [34] + w + [10]) == [Token(1, [34]), Token(2, w), Token(4, [10])]
  {
    NewlineLast(d, QUOTE, 4);
    QuotedText(d, w, [10]);
    QuoteOpens(d, w + [10]);
    Quoted(w);
    InARow(Token(1, [34]), Token(2, w), Token(4, [10]), Token(4, [10]));
  }

  /** A quote left open ends at the newline, which runs the line all the same. */
  lemma UnclosedLine(w: seq<Byte>)
    requires Plainly(w)
    ensures D().Sound() && 0 < D().conds && NulFree([34] + w + [10])
    ensures Lex(D(), INITIAL, [34] + w + [10]) == [Token(1, [34]), Token(2, w), Token(4, [10])]
  {
    TablesUnpacked();
    UnpackedSound(D());
    UnclosedLineIn(D(), w);
  }
}
