/**
  The tables of 2/xyshell-read-only/study/msh/lex.yy.c and the rules of 2/xyshell-read-only/study/msh/parsecmd.l,
  and the proof that the first implement the second.
 */
module MshTables {
  import opened Bytes
  import opened Munching
  import opened FlexTables
  import opened LexRules

  const INITIAL: nat := 0
  const QUOTE: nat := 1
  const SINGQUOTE: nat := 2

  // ----- the packed arrays, entry by entry -----

  function Accept(i: nat): nat {
    if i <= 6 then 0 else if i == 7 then 13 else if i == 8 then 9 else if i == 9 then 11 else
    if i == 10 then 10 else if i == 11 then 1 else if i == 12 then 5 else if i == 13 then 7 else
    if i == 14 then 6 else if i == 15 then 8 else if i == 16 then 2 else if i == 17 then 4 else
    if i == 18 then 3 else if i == 19 then 12 else if i == 20 then 9 else if i == 21 then 2 else 0
  }

  /** Character class of a byte. */
  function Class(i: nat): nat {
    if i == 0 then 0 else if i == 9 || i == 32 then 2 else if i == 10 then 3 else if i == 34 then 4 else
    if i == 59 then 5 else if i == 60 then 6 else if i == 62 then 7 else if i == 124 then 8 else 1
  }

  function Meta(i: nat): nat {
    if i == 0 then 0 else if i <= 2 then 1 else if i <= 4 then 2 else 1
  }

  function Base(i: nat): nat {
    if i <= 2 then 0 else if i == 3 then 6 else if i == 4 then 8 else if i <= 6 then 0 else
    if i == 7 then 20 else if i == 8 then 18 else if i <= 15 then 21 else if i == 16 then 0 else
    if i <= 19 then 21 else if i == 20 then 17 else if i == 21 then 0 else if i == 22 then 21 else
    if i == 23 then 12 else if i == 24 then 14 else 16
  }

  function Default(i: nat): nat {
    if i == 0 then 0 else if i == 1 then 22 else if i == 2 then 1 else if i <= 4 then 23 else
    if i <= 6 then 24 else if i <= 15 then 22 else if i == 16 then 25 else if i <= 20 then 22 else
    if i == 21 then 25 else if i == 22 then 0 else 22
  }

  function Next(i: nat): nat {
    if i == 0 then 0 else if i == 1 then 8 else if i == 2 then 9 else if i == 3 then 10 else
    if i == 4 then 11 else if i == 5 then 12 else if i == 6 then 13 else if i == 7 then 14 else
    if i == 8 then 15 else if i == 9 then 17 else if i == 10 then 18 else if i == 11 then 17 else
    if i == 12 then 18 else if i <= 14 then 16 else if i <= 16 then 19 else if i == 17 then 21 else
    if i <= 19 then 20 else if i == 20 then 22 else if i == 21 then 7 else 22
  }

  function Check(i: nat): nat {
    if i == 0 then 0 else if i <= 8 then 1 else if i <= 10 then 3 else if i <= 12 then 4 else
    if i <= 14 then 23 else if i <= 16 then 24 else if i == 17 then 25 else if i == 18 then 20 else
    if i == 19 then 8 else if i == 20 then 7 else 22
  }

  /** Longest default chain from a state; not in the source. */
  function Links(i: nat): nat {
    if i == 22 then 0 else if i == 1 || i >= 23 || 7 <= i <= 15 || 17 <= i <= 20 then 1 else 2
  }

  function T(): Tables {
    Tables(seq(23, i requires 0 <= i => Accept(i)), seq(256, i requires 0 <= i => Class(i)),
           seq(9, i requires 0 <= i => Meta(i)),
           seq(26, i requires 0 <= i => Base(i)), seq(26, i requires 0 <= i => Default(i)),
           seq(30, i requires 0 <= i => Next(i)),
           seq(30, i requires 0 <= i => Check(i)), 13, 3, [-1, 1, -1, 0, 0, -1, -1, -1, -1, -1, -1, -1, -1, -1],
           seq(26, i requires 0 <= i => Links(i)))
  }

  // ----- the arrays as the generated file prints them -----

  function PrintedAccept(): seq<nat> {
    [0, 0, 0, 0, 0, 0, 0, 13, 9, 11, 10, 1, 5, 7, 6, 8, 2, 4, 3, 12, 9, 2, 0]
  }

  function PrintedMeta(): seq<nat> {
    [0, 1, 1, 2, 2, 1, 1, 1, 1]
  }

  function PrintedBase(): seq<nat> {
    [0, 0, 0, 6, 8, 0, 0, 20, 18, 21, 21, 21, 21, 21, 21, 21, 0, 21, 21, 21, 17, 0, 21, 12, 14, 16]
  }

  function PrintedDefault(): seq<nat> {
    [0, 22, 1, 23, 23, 24, 24, 22, 22, 22, 22, 22, 22, 22, 22, 22, 25, 22, 22, 22, 22, 25, 0, 22, 22, 22]
  }

  function PrintedNext(): seq<nat> {
    [0, 8, 9, 10, 11, 12, 13, 14, 15, 17, 18, 17, 18, 16, 16,
     19, 19, 21, 20, 20, 22, 7, 22, 22, 22, 22, 22, 22, 22, 22]
  }

  function PrintedCheck(): seq<nat> {
    [0, 1, 1, 1, 1, 1, 1, 1, 1, 3, 3, 4, 4, 23, 23, 24, 24, 25, 20, 8, 7, 22, 22, 22, 22, 22, 22, 22, 22, 22]
  }

  /** One eighth of the class array. */
  function PrintedClasses(row: nat): seq<nat>
    requires row < 8
  {
    if row == 0 then [0, 1, 1, 1, 1, 1, 1, 1, 1, 2, 3, 1, 1, 1, 1, 1, 1, 1, 1, 1, 1, 1, 1, 1, 1, 1, 1, 1, 1, 1, 1, 1]
    else if row == 1 then
      [2, 1, 4, 1, 1, 1, 1, 1, 1, 1, 1, 1, 1, 1, 1, 1, 1, 1, 1, 1, 1, 1, 1, 1, 1, 1, 1, 5, 6, 1, 7, 1]
    else if row == 3 then
      [1, 1, 1, 1, 1, 1, 1, 1, 1, 1, 1, 1, 1, 1, 1, 1, 1, 1, 1, 1, 1, 1, 1, 1, 1, 1, 1, 1, 8, 1, 1, 1]
    else [1, 1, 1, 1, 1, 1, 1, 1, 1, 1, 1, 1, 1, 1, 1, 1, 1, 1, 1, 1, 1, 1, 1, 1, 1, 1, 1, 1, 1, 1, 1, 1]
  }

  lemma AcceptAsPrinted()
    ensures T().accept == PrintedAccept()
  {
    forall i | 0 <= i < 23 ensures PrintedAccept()[i] == Accept(i) {
    }
  }

  lemma MetaAsPrinted()
    ensures T().meta == PrintedMeta()
  {
    forall i | 0 <= i < 9 ensures PrintedMeta()[i] == Meta(i) {
    }
  }

  lemma BaseAsPrinted()
    ensures T().base == PrintedBase()
  {
    forall i | 0 <= i < 26 ensures PrintedBase()[i] == Base(i) {
    }
  }

  lemma DefaultAsPrinted()
    ensures T().def == PrintedDefault()
  {
    forall i | 0 <= i < 26 ensures PrintedDefault()[i] == Default(i) {
    }
  }

  lemma NextAsPrinted()
    ensures T().nxt == PrintedNext()
  {
    forall i | 0 <= i < 30 ensures PrintedNext()[i] == Next(i) {
    }
  }

  lemma CheckAsPrinted()
    ensures T().chk == PrintedCheck()
  {
    forall i | 0 <= i < 30 ensures PrintedCheck()[i] == Check(i) {
    }
  }

  lemma FirstClasses(k: nat)
    requires k < 32
    ensures |PrintedClasses(0)| == 32 && PrintedClasses(0)[k] == Class(k)
  {
  }

  lemma SecondClasses(k: nat)
    requires k < 32
    ensures |PrintedClasses(1)| == 32 && PrintedClasses(1)[k] == Class(32 + k)
  {
  }

  lemma LastClasses(row: nat, k: nat)
    requires 2 <= row < 8 && k < 32
    ensures |PrintedClasses(row)| == 32 && PrintedClasses(row)[k] == Class(32 * row + k)
  {
  }

  lemma ClassAsPrinted(c: Byte)
    ensures |PrintedClasses(c / 32)| == 32 && T().ec[c] == PrintedClasses(c / 32)[c % 32]
  {
    var row, k := c / 32, c % 32;
    if row == 0 {
      FirstClasses(k);
    } else if row == 1 {
      SecondClasses(k);
    } else {
      LastClasses(row, k);
    }
  }

  /** All seven arrays are the printed ones. */
  lemma TablesAsPrinted()
    ensures T().accept == PrintedAccept() && T().meta == PrintedMeta() && T().base == PrintedBase()
    ensures T().def == PrintedDefault() && T().nxt == PrintedNext() && T().chk == PrintedCheck()
    ensures |T().ec| == 256
    ensures forall c: Byte :: |PrintedClasses(c / 32)| == 32 && T().ec[c] == PrintedClasses(c / 32)[c % 32]
  {
    AcceptAsPrinted();
    MetaAsPrinted();
    BaseAsPrinted();
    DefaultAsPrinted();
    NextAsPrinted();
    CheckAsPrinted();
    forall c: Byte ensures |PrintedClasses(c / 32)| == 32 && T().ec[c] == PrintedClasses(c / 32)[c % 32] {
      ClassAsPrinted(c);
    }
  }

  // ----- the rules -----

  // \t = 9, \n = 10, blank = 32, " = 34, ; = 59, < = 60, > = 62, | = 124
  const Rules: seq<Rule> := [
    Rule({INITIAL}, Char(34), Begin(QUOTE)),
    Rule({QUOTE}, ManyNotIn({10, 34}), Stay),                            // quoted text
    Rule({QUOTE}, Char(34), Begin(INITIAL)),
    Rule({QUOTE}, Char(10), Begin(INITIAL)),                             // run the line
    Rule({INITIAL}, Char(59), Stay),
    Rule({INITIAL}, Char(62), Stay),
    Rule({INITIAL}, Char(60), Stay),
    Rule({INITIAL}, Char(124), Stay),
    Rule({INITIAL}, ManyNotIn({32, 9, 10, 124, 60, 62, 59, 34}), Stay),  // word
    Rule({INITIAL}, Char(10), Stay),                                     // run the line
    Rule({INITIAL}, NotIn({10}), Stay),                                  // skip
    Rule({INITIAL, QUOTE, SINGQUOTE}, NotIn({}), Stay)                   // default: echo
  ]

  // ----- the walk of the packed arrays, unpacked -----

  function Plain(s: nat, k: nat): nat {
    if k == 0 then (if s == 7 then 22 else 7)
    else if s <= 2 then 7 + k
    else if s <= 4 then (if k == 3 then 17 else if k == 4 then 18 else 16)
    else if s <= 6 then 19
    else if (s == 8 || s == 20) && k == 1 then 20
    else if (s == 16 || s == 21) && k != 3 && k != 4 then 21
    else 22
  }

  lemma Entries(s: nat, k: nat)
    requires 1 <= s < 26 && k < 9
    ensures T().EntryOk(s, k)
  {
  }

  lemma WalkTerminates()
    ensures T().Walkable()
  {
    forall s, k | 1 <= s < |T().base| && 0 <= k < |T().meta| ensures T().EntryOk(s, k) {
      Entries(s, k);
    }
  }

  /** One lookup: a hit, or the same question one default link further. */
  lemma OneLink(s: nat, k: nat)
    requires T().Walkable() && 1 <= s < 26 && k < 9
    ensures T().Trans(s, k) == if Check(Base(s) + k) == s then Next(Base(s) + k)
                             else T().Trans(Default(s), if Default(s) >= 23 then Meta(k) else k)
  {
    var t := T();
    assert t.EntryOk(s, k);
    assert t.base[s] == Base(s) && t.def[s] == Default(s) && t.meta[k] == Meta(k);
    assert t.chk[Base(s) + k] == Check(Base(s) + k) && t.nxt[Base(s) + k] == Next(Base(s) + k);
  }

  lemma TransStart(s: nat, k: nat)
    requires T().Walkable() && 1 <= s <= 4 && k < 9
    ensures T().Trans(s, k) == Plain(s, k)
  {
    OneLink(s, k);
    if Check(Base(s) + k) != s {
      var d, m := Default(s), if Default(s) >= 23 then Meta(k) else k;
      OneLink(d, m);
      OneLink(22, m);
    }
  }

  lemma TransLow(s: nat, k: nat)
    requires T().Walkable() && 5 <= s <= 8 && k < 9
    ensures T().Trans(s, k) == Plain(s, k)
  {
    OneLink(s, k);
    if Check(Base(s) + k) != s {
      var d, m := Default(s), if Default(s) >= 23 then Meta(k) else k;
      OneLink(d, m);
      OneLink(22, m);
    }
  }

  lemma TransHigh(s: nat, k: nat)
    requires T().Walkable() && 9 <= s <= 22 && k < 9
    ensures T().Trans(s, k) == Plain(s, k)
  {
    OneLink(s, k);
    if Check(Base(s) + k) != s {
      var d, m := Default(s), if Default(s) >= 23 then Meta(k) else k;
      OneLink(d, m);
      OneLink(22, m);
    }
  }

  /** Walking the packed arrays makes the transitions of the plain automaton. */
  lemma TransIsPlain(s: nat, k: nat)
    requires T().Walkable() && 1 <= s <= 22 && k < 9
    ensures T().Trans(s, k) == Plain(s, k)
  {
    if s <= 4 {
      TransStart(s, k);
    } else if s <= 8 {
      TransLow(s, k);
    } else {
      TransHigh(s, k);
    }
  }

  // ----- the automaton -----

  function D(): Dfa {
    WalkTerminates();
    T().Automaton()
  }

  /** The BEGINs of the actions. */
  function Begins(a: nat, sc: nat): nat {
    if a == 1 then QUOTE else if a == 3 || a == 4 then INITIAL else sc
  }

  /** Automaton d with its transitions spelt out. */
  ghost predicate Unpacked(d: Dfa) {
    && d.jam == 22 && d.eob == 7 && d.conds == 3
    && (forall s: nat, c: Byte :: d.step(s, c) == if 1 <= s <= 22 then Plain(s, Class(c)) else if c == 0 then 7 else 22)
    && (forall s: nat :: d.accept(s) == if s <= 22 then Accept(s) else 0)
    && (forall s: nat :: d.live(s) <==> 1 <= s <= 22 && Base(s) != 21)
    && (forall a: nat, sc: nat :: d.begin(a, sc) == Begins(a, sc))
  }

  lemma TablesUnpacked()
    ensures Unpacked(D())
  {
    WalkTerminates();
    TransIsPlain(22, 0);
    forall s: nat, c: Byte
      ensures D().step(s, c) == if 1 <= s <= 22 then Plain(s, Class(c)) else if c == 0 then 7 else 22
    {
      if 1 <= s <= 22 {
        TransIsPlain(s, Class(c));
      }
    }
  }

  lemma CondIsSound(d: Dfa, sc: nat)
    requires Unpacked(d) && sc < 3
    ensures d.CondSound(sc)
  {
    var s := d.Start(sc);
    assert s == 1 || s == 3 || s == 5;
    forall c: Byte | c != 0 ensures d.accept(d.step(s, c)) != 0 {
      var q := Plain(s, Class(c));
      assert d.step(s, c) == q && Accept(q) != 0;
    }
  }

  lemma UnpackedSound(d: Dfa)
    requires Unpacked(d)
    ensures d.Sound() && d.accept(d.eob) == 13
  {
    forall s ensures d.StateSound(s) {
    }
    forall sc: nat | sc < 3 ensures d.CondSound(sc) {
      CondIsSound(d, sc);
    }
  }

  /** So a scanner can run from these tables. */
  lemma TablesSound()
    ensures T().Walkable() && T().Automaton().Sound()
    ensures T().endOfBuffer == T().Automaton().accept(T().Automaton().eob)
  {
    WalkTerminates();
    TablesUnpacked();
    UnpackedSound(D());
  }

  // ----- the tables implement the rules -----

  lemma WordsShape(d: Dfa)
    requires Unpacked(d)
    ensures WordShape(d, INITIAL, 8, 20, {32, 9, 10, 124, 60, 62, 59, 34}) && d.accept(8) == 9
  {
    forall c: Byte | c != 0 ensures WordStep(d, INITIAL, 8, 20, {32, 9, 10, 124, 60, 62, 59, 34}, c) {
    }
  }

  lemma QuotedShape(d: Dfa)
    requires Unpacked(d)
    ensures WordShape(d, QUOTE, 16, 21, {10, 34}) && d.accept(16) == 2
  {
    forall c: Byte | c != 0 ensures WordStep(d, QUOTE, 16, 21, {10, 34}, c) {
    }
  }

  /** Length and rule number of the first token, read off the first byte. */
  function Choice(sc: nat, w: seq<Byte>): (nat, nat)
    requires w != []
  {
    if sc == INITIAL then
      if w[0] == 34 then (1, 1)
      else if w[0] == 59 then (1, 5)
      else if w[0] == 62 then (1, 6)
      else if w[0] == 60 then (1, 7)
      else if w[0] == 124 then (1, 8)
      else if w[0] == 10 then (1, 10)
      else if w[0] == 9 || w[0] == 32 then (1, 11)
      else (Span(w, {32, 9, 10, 124, 60, 62, 59, 34}), 9)
    else if sc == QUOTE then
      if w[0] == 34 then (1, 3)
      else if w[0] == 10 then (1, 4)
      else (Span(w, {10, 34}), 2)
    else (1, 12)
  }

  lemma ChoiceIsBest(sc: nat, w: seq<Byte>)
    requires sc < 3 && w != []
    ensures BestMatch(Rules, sc, w, Choice(sc, w).0, Choice(sc, w).1)
  {
    BestByPrefixes(Rules, sc, w, Choice(sc, w).0, Choice(sc, w).1);
  }

  lemma TokenIsChoice(d: Dfa, sc: nat, w: seq<Byte>)
    requires Unpacked(d) && d.Sound() && sc < 3 && NulFree(w) && w != []
    ensures FirstToken(d, sc, w) == Token(Choice(sc, w).1, w[..Choice(sc, w).0])
  {
    if sc == INITIAL && Class(w[0]) == 1 {
      WordsShape(d);
      WordToken(d, sc, 8, 20, {32, 9, 10, 124, 60, 62, 59, 34}, w);
    } else if sc == QUOTE && w[0] != 10 && w[0] != 34 {
      QuotedShape(d);
      WordToken(d, sc, 16, 21, {10, 34}, w);
    } else {
      var q := Plain(d.Start(sc), Class(w[0]));
      assert d.step(d.Start(sc), w[0]) == q;
      assert !d.live(q) && d.accept(q) == Accept(q) != 0;
      OneByteToken(d, sc, w);
    }
  }

  lemma BeginAsRules(a: nat, sc: nat)
    requires 1 <= a <= |Rules|
    ensures Begins(a, sc) == Enters(Rules, a, sc)
  {
  }

  /** The first token the tables find is the one the rules choose, on every input. */
  lemma TablesMeanRules()
    ensures D().Sound() && Means(D(), Rules)
  {
    TablesUnpacked();
    UnpackedSound(D());
    forall sc: nat, w: seq<Byte> | sc < 3 && NulFree(w) && w != [] ensures FirstIsBest(D(), Rules, sc, w) {
      TokenIsChoice(D(), sc, w);
      ChoiceIsBest(sc, w);
    }
    forall r: nat, sc: nat | 1 <= r <= |Rules| ensures D().begin(r, sc) == Enters(Rules, r, sc) {
      BeginAsRules(r, sc);
    }
  }

  /** Over a whole input: the tables produce exactly the tokens the rules prescribe. */
  lemma LexMeansRules(sc: nat, w: seq<Byte>, toks: seq<Token>)
    requires sc < 3 && NulFree(w)
    ensures D().Sound() && sc < D().conds
    ensures RuleLexing(Rules, sc, w, toks) <==> toks == Lex(D(), sc, w)
  {
    TablesUnpacked();
    TablesMeanRules();
    LexByRules(D(), Rules, sc, w, toks);
  }

  // ----- lines -----

  /** A run of lines: the text ends in a newline. */
  ghost predicate EndsLine(w: seq<Byte>) {
    NulFree(w) && w != [] && w[|w| - 1] == 10
  }

  lemma ChoiceStaysInLine(sc: nat, w: seq<Byte>, v: seq<Byte>)
    requires sc < 2 && EndsLine(w)
    ensures Choice(sc, w + v) == Choice(sc, w)
    ensures Choice(sc, w).0 == |w| ==> Choice(sc, w).1 == 10 || Choice(sc, w).1 == 4
  {
    assert (w + v)[0] == w[0];
    SpanBefore(w, v, {32, 9, 10, 124, 60, 62, 59, 34});
    SpanBefore(w, v, {10, 34});
  }

  /** The first token of the text w in condition sc is the same whatever follows, and leads to
      INITIAL if nothing of w is left. */
  ghost predicate StaysInLine(d: Dfa, sc: nat, w: seq<Byte>, v: seq<Byte>) {
    var tok := FirstToken(d, sc, w);
    && FirstToken(d, sc, w + v) == tok
    && d.begin(tok.act, sc) < 2
    && (|tok.text| == |w| ==> d.begin(tok.act, sc) == INITIAL)
  }

  /** A newline ends a token, quoted or not, so no token reaches from one line into the next. */
  lemma TokenStaysInLine(d: Dfa, sc: nat, w: seq<Byte>, v: seq<Byte>)
    requires Unpacked(d) && d.Sound() && sc < 2 && EndsLine(w) && NulFree(v)
    ensures StaysInLine(d, sc, w, v)
  {
    TokenIsChoice(d, sc, w);
    TokenIsChoice(d, sc, w + v);
    ChoiceStaysInLine(sc, w, v);
    var n := Choice(sc, w).0;
    assert (w + v)[..n] == w[..n];
  }

  ghost predicate LinesStay(d: Dfa, v: seq<Byte>) {
    forall c: nat, u: seq<Byte> {:trigger StaysInLine(d, c, u, v)} :: c < 2 && EndsLine(u) ==> StaysInLine(d, c, u, v)
  }

  lemma AllLinesStay(d: Dfa, v: seq<Byte>)
    requires Unpacked(d) && d.Sound() && NulFree(v)
    ensures LinesStay(d, v)
  {
    forall c: nat, u: seq<Byte> | c < 2 && EndsLine(u) ensures StaysInLine(d, c, u, v) {
      TokenStaysInLine(d, c, u, v);
    }
  }

  lemma {:induction false} LineEndsInitial(d: Dfa, sc: nat, w: seq<Byte>)
    requires d.Sound() && d.conds == 3 && sc < 2 && EndsLine(w)
    requires LinesStay(d, [])
    ensures EndCond(d, sc, w) == INITIAL
    decreases |w|
  {
    assert StaysInLine(d, sc, w, []);
    LexStep(d, sc, w);
    var tok := FirstToken(d, sc, w);
    if |tok.text| < |w| {
      LineEndsInitial(d, d.begin(tok.act, sc), w[|tok.text|..]);
    }
  }

  lemma LineStep(d: Dfa, sc: nat, w: seq<Byte>, v: seq<Byte>)
    requires d.Sound() && d.conds == 3 && sc < 2 && EndsLine(w) && NulFree(v) && StaysInLine(d, sc, w, v)
    ensures var tok := FirstToken(d, sc, w);
            var n, next := |tok.text|, d.begin(tok.act, sc);
            && 0 < n && next < 2
            && Lex(d, sc, w) == [tok] + Lex(d, next, w[n..])
            && Lex(d, sc, w + v) == [tok] + Lex(d, next, w[n..] + v)
  {
    DropFromJoined(w, v, |FirstToken(d, sc, w).text|);
    LexStep(d, sc, w);
    LexStep(d, sc, w + v);
  }

  lemma NothingLeft(d: Dfa, sc: nat, w: seq<Byte>)
    requires d.Sound() && sc < d.conds && w == []
    ensures Lex(d, sc, w) == [] && forall v: seq<Token> :: Lex(d, sc, w) + v == v
  {
  }

  /** Lexing line by line is lexing the lines joined together. */
  lemma {:induction false} LexLineByLine(d: Dfa, sc: nat, w: seq<Byte>, v: seq<Byte>)
    requires d.Sound() && d.conds == 3 && sc < 2 && EndsLine(w) && NulFree(v)
    requires LinesStay(d, v)
    ensures Lex(d, sc, w + v) == Lex(d, sc, w) + Lex(d, INITIAL, v)
    decreases |w|
  {
    assert StaysInLine(d, sc, w, v);
    LineStep(d, sc, w, v);
    var tok := FirstToken(d, sc, w);
    var n, next := |tok.text|, d.begin(tok.act, sc);
    if n < |w| {
      LexLineByLine(d, next, w[n..], v);
    } else {
      DropFromJoined(w, v, n);
      NothingLeft(d, next, w[n..]);
    }
    JoinedTokens(tok, Lex(d, next, w[n..]), Lex(d, INITIAL, v));
  }

  /** The shell's automaton lexes a line by itself, whatever follows, and leaves it in the initial condition,
      unclosed quotes included. */
  lemma LinesApart(w: seq<Byte>, v: seq<Byte>)
    requires EndsLine(w) && NulFree(v)
    ensures D().Sound() && 0 < D().conds
    ensures Lex(D(), INITIAL, w + v) == Lex(D(), INITIAL, w) + Lex(D(), INITIAL, v)
    ensures EndCond(D(), INITIAL, w) == INITIAL
  {
    TablesUnpacked();
    LinesApartIn(D(), w, v);
  }

  lemma LinesApartIn(d: Dfa, w: seq<Byte>, v: seq<Byte>)
    requires Unpacked(d) && EndsLine(w) && NulFree(v)
    ensures d.Sound() && 0 < d.conds
    ensures Lex(d, INITIAL, w + v) == Lex(d, INITIAL, w) + Lex(d, INITIAL, v) && EndCond(d, INITIAL, w) == INITIAL
  {
    UnpackedSound(d);
    AllLinesStay(d, v);
    AllLinesStay(d, []);
    LineEndsInitial(d, INITIAL, w);
    LexLineByLine(d, INITIAL, w, v);
  }
}
