/**
  A text handed over line by line, and what of its lexing is still to come.
 */
module LineByLine {
  import opened Bytes
  import opened Munching

  /** The parts of a text, one after the other. */
  function Joined(parts: seq<seq<Byte>>): seq<Byte> {
    if parts == [] then [] else parts[0] + Joined(parts[1..])
  }

  ghost predicate AllNulFree(parts: seq<seq<Byte>>) {
    forall i :: 0 <= i < |parts| ==> NulFree(parts[i])
  }

  lemma {:induction false} JoinedNulFree(parts: seq<seq<Byte>>)
    requires AllNulFree(parts)
    ensures NulFree(Joined(parts))
  {
    if parts != [] {
      JoinedNulFree(parts[1..]);
    }
  }

  /** The next part, and what follows it. */
  lemma NextPart(parts: seq<seq<Byte>>, i: nat)
    requires AllNulFree(parts) && i < |parts|
    ensures NulFree(Joined(parts[i + 1..])) && NulFree(Joined(parts[i..]))
    ensures Joined(parts[i..]) == parts[i] + Joined(parts[i + 1..])
  {
    assert parts[i..][1..] == parts[i + 1..];
    JoinedNulFree(parts[i + 1..]);
    JoinedNulFree(parts[i..]);
  }

  /** The tokens so far, and those of the parts from i on, are all the tokens. */
  ghost predicate MakesUp(tokens: seq<Token>, d: Dfa, parts: seq<seq<Byte>>, i: nat, all: seq<Token>) {
    && d.Sound() && 0 < d.conds && i <= |parts| && NulFree(Joined(parts[i..]))
    && tokens + Lex(d, 0, Joined(parts[i..])) == all
  }

  /** Lexing the next part keeps it so. */
  lemma PartDone(before: seq<Token>, after: seq<Token>, d: Dfa, parts: seq<seq<Byte>>, i: nat, all: seq<Token>)
    requires AllNulFree(parts) && i < |parts| && MakesUp(before, d, parts, i, all)
    requires NulFree(Joined(parts[i + 1..])) && NulFree(parts[i] + Joined(parts[i + 1..]))
    requires after + Lex(d, 0, Joined(parts[i + 1..])) == before + Lex(d, 0, parts[i] + Joined(parts[i + 1..]))
    ensures MakesUp(after, d, parts, i + 1, all)
  {
    NextPart(parts, i);
  }

  /** At the start all are to come. */
  lemma NoneDone(tokens: seq<Token>, d: Dfa, parts: seq<seq<Byte>>)
    requires d.Sound() && 0 < d.conds && NulFree(Joined(parts))
    ensures MakesUp(tokens, d, parts, 0, tokens + Lex(d, 0, Joined(parts)))
  {
    assert parts[0..] == parts;
  }

  /** At the end none are. */
  lemma AllDone(tokens: seq<Token>, d: Dfa, parts: seq<seq<Byte>>, all: seq<Token>)
    requires MakesUp(tokens, d, parts, |parts|, all)
    ensures tokens == all
  {
    assert parts[|parts|..] == [] && tokens + [] == tokens;
  }
}
