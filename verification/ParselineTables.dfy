/**
  The tables of 2/parseline.c and the rules of 2/parseline.l,
  and the proof that the first implement the second.
 */
module ParselineTables {
  import opened Bytes
  import opened Munching
  import opened FlexTables
  import opened LexRules

  const INITIAL: nat := 0
  const QUOTE: nat := 1
  const SINGQUOTE: nat := 2

  // ----- the packed arrays, entry by entry -----

  function Accept(i: nat): nat {
    if i <= 6 then 0 else if i == 7 then 10 else if i == 8 then 6 else if i == 9 then 8 else
    if i == 10 then 7 else if i == 11 then 5 else if i == 12 then 1 else if i == 13 then 3 else
    if i == 14 then 2 else if i == 15 then 4 else if i == 16 then 9 else if i == 17 then 6 else 0
  }

  /** Character class of a byte. */
  function Class(i: nat): nat {
    if i == 0 then 0 else if i == 9 || i == 32 || i == 34 then 2 else if i == 10 then 3 else if i == 38 then 4 else
    if i == 59 then 5 else if i == 60 then 6 else if i == 62 then 7 else if i == 124 then 8 else 1
  }

  function Meta(i: nat): nat {
    if i == 0 then 0 else 1
  }

  function Base(i: nat): nat {
    if i <= 6 then 0 else if i == 7 then 12 else if i == 8 then 10 else if i <= 16 then 13 else
    if i == 17 then 9 else if i == 18 then 13 else 8
  }

  function Default(i: nat): nat {
    if i == 0 then 0 else if i == 1 then 18 else if i == 2 then 1 else if i <= 6 then 19 else
    if i <= 17 then 18 else if i == 18 then 0 else 18
  }

  function Next(i: nat): nat {
    if i == 0 then 0 else if i == 1 then 8 else if i == 2 then 9 else if i == 3 then 10 else
    if i == 4 then 11 else if i == 5 then 12 else if i == 6 then 13 else if i == 7 then 14 else
    if i == 8 then 15 else if i == 9 then 16 else if i <= 11 then 17 else if i == 12 then 18 else
    if i == 13 then 7 else 18
  }

  function Check(i: nat): nat {
    if i == 0 then 0 else if i <= 8 then 1 else if i == 9 then 19 else if i == 10 then 17 else
    if i == 11 then 8 else if i == 12 then 7 else 18
  }

  /** Longest default chain from a state; not in the source. */
  function Links(i: nat): nat {
    if i == 18 then 0 else if i == 1 || i >= 7 then 1 else 2
  }

  function T(): Tables {
    Tables(seq(19, i requires 0 <= i => Accept(i)), seq(256, i requires 0 <= i => Class(i)),
           seq(9, i requires 0 <= i => Meta(i)),
           seq(20, i requires 0 <= i => Base(i)), seq(20, i requires 0 <= i => Default(i)),
           seq(22, i requires 0 <= i => Next(i)),
           seq(22, i requires 0 <= i => Check(i)), 10, 3, [], seq(20, i requires 0 <= i => Links(i)))
  }

  // ----- the arrays as the generated file prints them -----

  function PrintedAccept(): seq<nat> {
    [0, 0, 0, 0, 0, 0, 0, 10, 6, 8, 7, 5, 1, 3, 2, 4, 9, 6, 0]
  }

  function PrintedMeta(): seq<nat> {
    [0, 1, 1, 1, 1, 1, 1, 1, 1]
  }

  function PrintedBase(): seq<nat> {
    [0, 0, 0, 0, 0, 0, 0, 12, 10, 13, 13, 13, 13, 13, 13, 13, 13, 9, 13, 8]
  }

  function PrintedDefault(): seq<nat> {
    [0, 18, 1, 19, 19, 19, 19, 18, 18, 18, 18, 18, 18, 18, 18, 18, 18, 18, 0, 18]
  }

  function PrintedNext(): seq<nat> {
    [0, 8, 9, 10, 11, 12, 13, 14, 15, 16, 17, 17, 18, 7, 18, 18, 18, 18, 18, 18, 18, 18]
  }

  function PrintedCheck(): seq<nat> {
    [0, 1, 1, 1, 1, 1, 1, 1, 1, 19, 17, 8, 7, 18, 18, 18, 18, 18, 18, 18, 18, 18]
  }

  /** One eighth of the class array. */
  function PrintedClasses(row: nat): seq<nat>
    requires row < 8
  {
    if row == 0 then [0, 1, 1, 1, 1, 1, 1, 1, 1, 2, 3, 1, 1, 1, 1, 1, 1, 1, 1, 1, 1, 1, 1, 1, 1, 1, 1, 1, 1, 1, 1, 1]
    else if row == 1 then
      [2, 1, 2, 1, 1, 1, 4, 1, 1, 1, 1, 1, 1, 1, 1, 1, 1, 1, 1, 1, 1, 1, 1, 1, 1, 1, 1, 5, 6, 1, 7, 1]
    else if row == 3 then
      [1, 1, 1, 1, 1, 1, 1, 1, 1, 1, 1, 1, 1, 1, 1, 1, 1, 1, 1, 1, 1, 1, 1, 1, 1, 1, 1, 1, 8, 1, 1, 1]
    else [1, 1, 1, 1, 1, 1, 1, 1, 1, 1, 1, 1, 1, 1, 1, 1, 1, 1, 1, 1, 1, 1, 1, 1, 1, 1, 1, 1, 1, 1, 1, 1]
  }

  lemma AcceptAsPrinted()
    ensures T().accept == PrintedAccept()
  {
    forall i | 0 <= i < 19 ensures PrintedAccept()[i] == Accept(i) {
    }
  }

  lemma MetaAsPrinted()
    ensures T().meta == PrintedMeta()
  {
    forall i | 0 <= i < 9 ensures PrintedMeta()[i] == Meta(i) {
    }
  }

  lemma BaseAsPrinted()
    ensures T().base == PrintedBase()
  {
    forall i | 0 <= i < 20 ensures PrintedBase()[i] == Base(i) {
    }
  }

  lemma DefaultAsPrinted()
    ensures T().def == PrintedDefault()
  {
    forall i | 0 <= i < 20 ensures PrintedDefault()[i] == Default(i) {
    }
  }

  lemma NextAsPrinted()
    ensures T().nxt == PrintedNext()
  {
    forall i | 0 <= i < 22 ensures PrintedNext()[i] == Next(i) {
    }
  }

  lemma CheckAsPrinted()
    ensures T().chk == PrintedCheck()
  {
    forall i | 0 <= i < 22 ensures PrintedCheck()[i] == Check(i) {
    }
  }

  lemma FirstClasses(k: nat)
    requires k < 32
    ensures |PrintedClasses(0)| == 32 && PrintedClasses(0)[k] == Class(k)
  {
  }

  lemma SecondClasses(k: nat)
    requires k < 32
    ensures |PrintedClasses(1)| == 32 && PrintedClasses(1)[k] == Class(32 + k)
  {
  }

  lemma LastClasses(row: nat, k: nat)
    requires 2 <= row < 8 && k < 32
    ensures |PrintedClasses(row)| == 32 && PrintedClasses(row)[k] == Class(32 * row + k)
  {
  }

  lemma ClassAsPrinted(c: Byte)
    ensures |PrintedClasses(c / 32)| == 32 && T().ec[c] == PrintedClasses(c / 32)[c % 32]
  {
    var row, k := c / 32, c % 32;
    if row == 0 {
      FirstClasses(k);
    } else if row == 1 {
      SecondClasses(k);
    } else {
      LastClasses(row, k);
    }
  }

  /** All seven arrays are the printed ones. */
  lemma TablesAsPrinted()
    ensures T().accept == PrintedAccept() && T().meta == PrintedMeta() && T().base == PrintedBase()
    ensures T().def == PrintedDefault() && T().nxt == PrintedNext() && T().chk == PrintedCheck()
    ensures |T().ec| == 256
    ensures forall c: Byte :: |PrintedClasses(c / 32)| == 32 && T().ec[c] == PrintedClasses(c / 32)[c % 32]
  {
    AcceptAsPrinted();
    MetaAsPrinted();
    BaseAsPrinted();
    DefaultAsPrinted();
    NextAsPrinted();
    CheckAsPrinted();
    forall c: Byte ensures |PrintedClasses(c / 32)| == 32 && T().ec[c] == PrintedClasses(c / 32)[c % 32] {
      ClassAsPrinted(c);
    }
  }

  // ----- the rules -----

  // \t = 9, \n = 10, blank = 32, " = 34, & = 38, ; = 59, < = 60, > = 62, | = 124
  const Rules: seq<Rule> := [
    Rule({INITIAL}, Char(59), Stay),
    Rule({INITIAL}, Char(62), Stay),
    Rule({INITIAL}, Char(60), Stay),
    Rule({INITIAL}, Char(124), Stay),
    Rule({INITIAL}, Char(38), Stay),
    Rule({INITIAL}, ManyNotIn({32, 9, 10, 124, 60, 62, 59, 38, 34}), Stay),   // word
    Rule({INITIAL}, Char(10), Stay),                                          // run the line
    Rule({INITIAL}, NotIn({10}), Stay),                                       // skip
    Rule({INITIAL, QUOTE, SINGQUOTE}, NotIn({}), Stay)                        // default: jammed
  ]

  // ----- the walk of the packed arrays, unpacked -----

  function Plain(s: nat, k: nat): nat {
    if k == 0 then (if s == 7 then 18 else 7)
    else if s <= 2 then 7 + k
    else if s <= 6 then 16
    else if (s == 8 || s == 17) && k == 1 then 17
    else 18
  }

  lemma Entries(s: nat, k: nat)
    requires 1 <= s < 20 && k < 9
    ensures T().EntryOk(s, k)
  {
  }

  lemma WalkTerminates()
    ensures T().Walkable()
  {
    forall s, k | 1 <= s < |T().base| && 0 <= k < |T().meta| ensures T().EntryOk(s, k) {
      Entries(s, k);
    }
  }

  /** One lookup: a hit, or the same question one default link further. */
  lemma OneLink(s: nat, k: nat)
    requires T().Walkable() && 1 <= s < 20 && k < 9
    ensures T().Trans(s, k) == if Check(Base(s) + k) == s then Next(Base(s) + k)
                             else T().Trans(Default(s), if Default(s) >= 19 then Meta(k) else k)
  {
    assert T().EntryOk(s, k);
  }

  lemma TransIsPlain(s: nat, k: nat)
    requires T().Walkable() && 1 <= s <= 18 && k < 9
    ensures T().Trans(s, k) == Plain(s, k)
  {
    OneLink(s, k);
    if Check(Base(s) + k) != s {
      var d, m := Default(s), if Default(s) >= 19 then Meta(k) else k;
      OneLink(d, m);
      OneLink(18, m);
    }
  }

  // ----- the automaton -----

  function D(): Dfa {
    WalkTerminates();
    T().Automaton()
  }

  /** The BEGINs of the actions. */
  function Begins(a: nat, sc: nat): nat {
    sc
  }

  /** Automaton d with its transitions spelt out. */
  ghost predicate Unpacked(d: Dfa) {
    && d.jam == 18 && d.eob == 7 && d.conds == 3
    && (forall s: nat, c: Byte :: d.step(s, c) == if 1 <= s <= 18 then Plain(s, Class(c)) else if c == 0 then 7 else 18)
    && (forall s: nat :: d.accept(s) == if s <= 18 then Accept(s) else 0)
    && (forall s: nat :: d.live(s) <==> 1 <= s <= 18 && Base(s) != 13)
    && (forall a: nat, sc: nat :: d.begin(a, sc) == Begins(a, sc))
  }

  lemma TablesUnpacked()
    ensures Unpacked(D())
  {
    WalkTerminates();
    TransIsPlain(18, 0);
    forall s: nat, c: Byte
      ensures D().step(s, c) == if 1 <= s <= 18 then Plain(s, Class(c)) else if c == 0 then 7 else 18
    {
      if 1 <= s <= 18 {
        TransIsPlain(s, Class(c));
      }
    }
  }

  lemma CondIsSound(d: Dfa, sc: nat)
    requires Unpacked(d) && sc < 3
    ensures d.CondSound(sc)
  {
    var s := d.Start(sc);
    assert s == 1 || s == 3 || s == 5;
    forall c: Byte | c != 0 ensures d.accept(d.step(s, c)) != 0 {
      var q := Plain(s, Class(c));
      assert d.step(s, c) == q && Accept(q) != 0;
    }
  }

  lemma UnpackedSound(d: Dfa)
    requires Unpacked(d)
    ensures d.Sound() && d.accept(d.eob) == 10
  {
    forall s ensures d.StateSound(s) {
    }
    forall sc: nat | sc < 3 ensures d.CondSound(sc) {
      CondIsSound(d, sc);
    }
  }

  /** So a scanner can run from these tables. */
  lemma TablesSound()
    ensures T().Walkable() && T().Automaton().Sound()
    ensures T().endOfBuffer == T().Automaton().accept(T().Automaton().eob)
  {
    WalkTerminates();
    TablesUnpacked();
    UnpackedSound(D());
  }

  // ----- the tables implement the rules -----

  lemma WordsShape(d: Dfa)
    requires Unpacked(d)
    ensures WordShape(d, INITIAL, 8, 17, {32, 9, 10, 124, 60, 62, 59, 38, 34}) && d.accept(8) == 6
  {
    forall c: Byte | c != 0 ensures WordStep(d, INITIAL, 8, 17, {32, 9, 10, 124, 60, 62, 59, 38, 34}, c) {
    }
  }

  /** Length and rule number of the first token, read off the first byte. */
  function Choice(sc: nat, w: seq<Byte>): (nat, nat)
    requires w != []
  {
    if sc == INITIAL then
      if w[0] == 59 then (1, 1)
      else if w[0] == 62 then (1, 2)
      else if w[0] == 60 then (1, 3)
      else if w[0] == 124 then (1, 4)
      else if w[0] == 38 then (1, 5)
      else if w[0] == 10 then (1, 7)
      else if w[0] == 9 || w[0] == 32 || w[0] == 34 then (1, 8)
      else (Span(w, {32, 9, 10, 124, 60, 62, 59, 38, 34}), 6)
    else (1, 9)
  }

  lemma ChoiceIsBest(sc: nat, w: seq<Byte>)
    requires sc < 3 && w != []
    ensures BestMatch(Rules, sc, w, Choice(sc, w).0, Choice(sc, w).1)
  {
    BestByPrefixes(Rules, sc, w, Choice(sc, w).0, Choice(sc, w).1);
  }

  lemma TokenIsChoice(d: Dfa, sc: nat, w: seq<Byte>)
    requires Unpacked(d) && d.Sound() && sc < 3 && NulFree(w) && w != []
    ensures FirstToken(d, sc, w) == Token(Choice(sc, w).1, w[..Choice(sc, w).0])
  {
    if sc == INITIAL && Class(w[0]) == 1 {
      WordsShape(d);
      WordToken(d, sc, 8, 17, {32, 9, 10, 124, 60, 62, 59, 38, 34}, w);
    } else {
      var q := Plain(d.Start(sc), Class(w[0]));
      assert d.step(d.Start(sc), w[0]) == q;
      assert !d.live(q) && d.accept(q) == Accept(q) != 0;
      OneByteToken(d, sc, w);
    }
  }

  lemma BeginAsRules(a: nat, sc: nat)
    requires 1 <= a <= |Rules|
    ensures Begins(a, sc) == Enters(Rules, a, sc)
  {
  }

  /** The first token the tables find is the one the rules choose, on every input. */
  lemma TablesMeanRules()
    ensures D().Sound() && Means(D(), Rules)
  {
    TablesUnpacked();
    UnpackedSound(D());
    forall sc: nat, w: seq<Byte> | sc < 3 && NulFree(w) && w != [] ensures FirstIsBest(D(), Rules, sc, w) {
      TokenIsChoice(D(), sc, w);
      ChoiceIsBest(sc, w);
    }
    forall r: nat, sc: nat | 1 <= r <= |Rules| ensures D().begin(r, sc) == Enters(Rules, r, sc) {
      BeginAsRules(r, sc);
    }
  }

  /** Over a whole input: the tables produce exactly the tokens the rules prescribe. */
  lemma LexMeansRules(sc: nat, w: seq<Byte>, toks: seq<Token>)
    requires sc < 3 && NulFree(w)
    ensures D().Sound() && sc < D().conds
    ensures RuleLexing(Rules, sc, w, toks) <==> toks == Lex(D(), sc, w)
  {
    TablesUnpacked();
    TablesMeanRules();
    LexByRules(D(), Rules, sc, w, toks);
  }
}
