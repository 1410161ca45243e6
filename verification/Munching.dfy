/**
  Longest-match lexing by an automaton, over a whole input.

  An automaton here is what a generated scanner's tables stand for: a step
  function on bytes, an action number for each accepting state, and the states
  the match loop does not stop in.
 */
module Munching {
  import opened Bytes

  datatype Dfa = Dfa(
    step: (nat, Byte) -> nat,
    accept: nat -> nat,         // action of an accepting state, 0 for the others
    live: nat -> bool,          // false where the match loop stops
    jam: nat, eob: nat,         // nothing can match; the end-of-buffer character was seen
    conds: nat,                 // number of start conditions
    begin: (nat, nat) -> nat)   // start condition after an action taken in a condition
  {
    /** First state of a start condition. */
    function Start(sc: nat): nat {
      1 + 2 * sc
    }

    /** What the buffer logic of a generated scanner needs from its automaton. */
    ghost predicate Sound() {
      && accept(jam) == 0 && !live(jam)
      && live(eob) && accept(eob) != 0 && step(eob, 0) == jam
      && (forall s :: StateSound(s))
      && (forall sc :: 0 <= sc < conds ==> CondSound(sc))
    }

    /** NUL leads to the end-of-buffer state and nothing else does; a state the loop stops in
        has nowhere to go. */
    ghost predicate StateSound(s: nat) {
      && (s != eob ==> step(s, 0) == eob && accept(s) != accept(eob))
      && (forall c :: c != 0 ==> step(s, c) != eob && (!live(s) ==> step(s, c) == jam))
    }

    ghost predicate CondSound(sc: nat) {
      && StartSound(Start(sc))
      && (sc < conds ==> forall a :: begin(a, sc) < conds)
    }

    /** A start state is live and accepts nothing; after one byte something is accepted. */
    ghost predicate StartSound(s: nat) {
      && live(s) && s != eob && accept(s) == 0
      && (forall c :: c != 0 ==> accept(step(s, c)) != 0)
    }
  }

  ghost predicate NulFree(w: seq<Byte>) {
    forall i :: 0 <= i < |w| ==> w[i] != 0
  }

  /** State after the first m bytes of w, from state s. */
  function Run(d: Dfa, s: nat, w: seq<Byte>, m: nat): nat
    requires m <= |w|
  {
    if m == 0 then s else d.step(Run(d, s, w, m - 1), w[m - 1])
  }

  /** Length of the longest accepted prefix among the first m bytes; 0 if there is none. */
  function Munch(d: Dfa, s: nat, w: seq<Byte>, m: nat): (n: nat)
    requires m <= |w|
    ensures n <= m
  {
    if m == 0 then 0
    else if d.accept(Run(d, s, w, m)) != 0 then m
    else Munch(d, s, w, m - 1)
  }

  datatype Token = Token(act: nat, text: seq<Byte>)

  /** The first token of w in condition sc. */
  function FirstToken(d: Dfa, sc: nat, w: seq<Byte>): Token {
    var n := Munch(d, d.Start(sc), w, |w|);
    Token(d.accept(Run(d, d.Start(sc), w, n)), w[..n])
  }

  /** Longest-match lexing of a whole input, each action choosing the next start condition. */
  function Lex(d: Dfa, sc: nat, w: seq<Byte>): seq<Token>
    requires d.Sound() && sc < d.conds && NulFree(w)
    decreases |w|
  {
    if w == [] then []
    else
      FirstTokenExists(d, sc, w);
      var tok := FirstToken(d, sc, w);
      [tok] + Lex(d, d.begin(tok.act, sc), w[|tok.text|..])
  }

  /** Start condition in which a whole input leaves the scanner. */
  function EndCond(d: Dfa, sc: nat, w: seq<Byte>): (e: nat)
    requires d.Sound() && sc < d.conds && NulFree(w)
    ensures e < d.conds
    decreases |w|
  {
    if w == [] then sc
    else
      FirstTokenExists(d, sc, w);
      var tok := FirstToken(d, sc, w);
      EndCond(d, d.begin(tok.act, sc), w[|tok.text|..])
  }

  // ----- facts about runs -----

  /** Munch is the longest accepted prefix, and nothing else is. */
  lemma {:induction false} MunchIsLongest(d: Dfa, s: nat, w: seq<Byte>, m: nat)
    requires m <= |w|
    ensures var n := Munch(d, s, w, m);
            && (n > 0 ==> d.accept(Run(d, s, w, n)) != 0)
            && (forall j :: n < j <= m ==> d.accept(Run(d, s, w, j)) == 0)
  {
    if m > 0 && d.accept(Run(d, s, w, m)) == 0 {
      MunchIsLongest(d, s, w, m - 1);
    }
  }

  /** Runs and munches look at the bytes they are given and at nothing behind them. */
  lemma {:induction false} RunSame(d: Dfa, s: nat, u: seq<Byte>, w: seq<Byte>, m: nat)
    requires m <= |u| && m <= |w| && u[..m] == w[..m]
    ensures Run(d, s, u, m) == Run(d, s, w, m)
  {
    if m > 0 {
      assert u[m - 1] == u[..m][m - 1] == w[..m][m - 1] == w[m - 1];
      assert u[..m - 1] == u[..m][..m - 1] == w[..m][..m - 1] == w[..m - 1];
      RunSame(d, s, u, w, m - 1);
    }
  }

  lemma {:induction false} MunchSame(d: Dfa, s: nat, u: seq<Byte>, w: seq<Byte>, m: nat)
    requires m <= |u| && m <= |w| && u[..m] == w[..m]
    ensures Munch(d, s, u, m) == Munch(d, s, w, m)
    ensures Run(d, s, u, Munch(d, s, u, m)) == Run(d, s, w, Munch(d, s, w, m))
  {
    RunSame(d, s, u, w, m);
    if m > 0 {
      assert u[..m - 1] == u[..m][..m - 1] == w[..m][..m - 1] == w[..m - 1];
      MunchSame(d, s, u, w, m - 1);
    }
  }

  /** On input without NUL the walk never enters the end-of-buffer state. */
  lemma {:induction false} RunNotEob(d: Dfa, s: nat, w: seq<Byte>, m: nat)
    requires d.Sound() && s != d.eob && m <= |w|
    requires forall i :: 0 <= i < m ==> w[i] != 0
    ensures Run(d, s, w, m) != d.eob
  {
    if m > 0 {
      RunNotEob(d, s, w, m - 1);
      assert d.StateSound(Run(d, s, w, m - 1));
    }
  }

  /** Once the walk has stopped, nothing longer is accepted. */
  lemma {:induction false} MunchStops(d: Dfa, s: nat, w: seq<Byte>, j: nat, m: nat)
    requires d.Sound() && j <= m <= |w| && NulFree(w)
    requires !d.live(Run(d, s, w, j))
    ensures !d.live(Run(d, s, w, m)) && (m > j ==> Run(d, s, w, m) == d.jam)
    ensures Munch(d, s, w, m) == Munch(d, s, w, j)
    decreases m
  {
    if m > j {
      MunchStops(d, s, w, j, m - 1);
      assert d.StateSound(Run(d, s, w, m - 1));
    }
  }

  /** The two sentinels: the first NUL enters the end-of-buffer state, which does not stop the
      loop; the second makes it jam, and backing up lands on the second NUL. */
  lemma Sentinels(d: Dfa, s: nat, b: seq<Byte>, n: nat)
    requires d.Sound() && s != d.eob
    requires |b| == n + 2 && b[n] == 0 && b[n + 1] == 0 && (forall i :: 0 <= i < n ==> b[i] != 0)
    ensures Run(d, s, b, n + 1) == d.eob && Run(d, s, b, n + 2) == d.jam
    ensures Munch(d, s, b, n + 2) == n + 1
  {
    RunNotEob(d, s, b, n);
    assert d.StateSound(Run(d, s, b, n));
    assert Run(d, s, b, n + 1) == d.eob;
    assert Run(d, s, b, n + 2) == d.jam;
  }

  /** The first byte alone is already accepted, so there is always something to back up to. */
  lemma AcceptsEarly(d: Dfa, s: nat, w: seq<Byte>)
    requires d.Sound() && d.StartSound(s) && w != [] && NulFree(w)
    ensures 0 < Munch(d, s, w, |w|)
  {
    assert Run(d, s, w, 1) == d.step(s, w[0]) by { assert Run(d, s, w, 0) == s; }
    MunchIsLongest(d, s, w, |w|);
  }

  /** Every non-empty input starts with a token, and never with the end of the buffer. */
  lemma FirstTokenExists(d: Dfa, sc: nat, w: seq<Byte>)
    requires d.Sound() && sc < d.conds && NulFree(w)
    ensures FirstToken(d, sc, w).act != d.accept(d.eob)
    ensures d.begin(FirstToken(d, sc, w).act, sc) < d.conds
    ensures w != [] ==> 0 < |FirstToken(d, sc, w).text|
  {
    assert d.CondSound(sc);
    if w != [] {
      AcceptsEarly(d, d.Start(sc), w);
    }
    RunNotEob(d, d.Start(sc), w, Munch(d, d.Start(sc), w, |w|));
    assert d.StateSound(Run(d, d.Start(sc), w, Munch(d, d.Start(sc), w, |w|)));
  }

  // ----- facts about whole lexings -----

  lemma LexStep(d: Dfa, sc: nat, w: seq<Byte>)
    requires d.Sound() && sc < d.conds && NulFree(w) && w != []
    ensures var tok := FirstToken(d, sc, w);
            && 0 < |tok.text| <= |w| && tok.text == w[..|tok.text|] && d.begin(tok.act, sc) < d.conds
            && Lex(d, sc, w) == [tok] + Lex(d, d.begin(tok.act, sc), w[|tok.text|..])
            && EndCond(d, sc, w) == EndCond(d, d.begin(tok.act, sc), w[|tok.text|..])
  {
    FirstTokenExists(d, sc, w);
  }

  /** The same after tokens already taken. */
  lemma LexStepAfter(d: Dfa, sc: nat, w: seq<Byte>, done: seq<Token>)
    requires d.Sound() && sc < d.conds && NulFree(w) && w != []
    ensures var tok := FirstToken(d, sc, w);
            && 0 < |tok.text| && d.begin(tok.act, sc) < d.conds
            && done + Lex(d, sc, w) == (done + [tok]) + Lex(d, d.begin(tok.act, sc), w[|tok.text|..])
            && EndCond(d, sc, w) == EndCond(d, d.begin(tok.act, sc), w[|tok.text|..])
  {
    LexStep(d, sc, w);
  }

  function Texts(toks: seq<Token>): seq<Byte> {
    if toks == [] then [] else toks[0].text + Texts(toks[1..])
  }

  /** No byte of the input is lost, duplicated or reordered. */
  lemma {:induction false} LexLosesNothing(d: Dfa, sc: nat, w: seq<Byte>)
    requires d.Sound() && sc < d.conds && NulFree(w)
    ensures Texts(Lex(d, sc, w)) == w
    decreases |w|
  {
    if w != [] {
      LexStep(d, sc, w);
      var tok := FirstToken(d, sc, w);
      var n, next := |tok.text|, d.begin(tok.act, sc);
      LexLosesNothing(d, next, w[n..]);
      TextsStep(tok, Lex(d, next, w[n..]), w, n);
    }
  }

  lemma TextsStep(tok: Token, toks: seq<Token>, w: seq<Byte>, n: nat)
    requires n <= |w| && tok.text == w[..n] && Texts(toks) == w[n..]
    ensures Texts([tok] + toks) == w
  {
    assert ([tok] + toks)[1..] == toks;
    assert w[..n] + w[n..] == w;
  }

  // ----- texts in parts -----

  lemma DropFromJoined(w: seq<Byte>, v: seq<Byte>, n: nat)
    requires n <= |w|
    ensures (w + v)[n..] == w[n..] + v
    ensures n == |w| ==> w[n..] + v == v
  {
  }

  lemma JoinedTokens(tok: Token, a: seq<Token>, b: seq<Token>)
    ensures [tok] + (a + b) == ([tok] + a) + b
  {
  }

  lemma RegroupTokens(a: seq<Token>, b: seq<Token>, c: seq<Token>)
    ensures (a + b) + c == a + (b + c)
  {
  }
}
