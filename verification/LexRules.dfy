/**
  Lexical rules as they are written by hand: a start condition set, a pattern, and the
  condition the action begins; the longest match winning and the earlier rule breaking ties.
 */
module LexRules {
  import opened Bytes
  import opened Munching

  /** The forms the two rule files use: one character, one character outside a class, a run of
      characters outside a class. */
  datatype Pattern = Char(c: Byte) | NotIn(except: set<Byte>) | ManyNotIn(except: set<Byte>)

  /** What the action does to the start condition. */
  datatype Next = Stay | Begin(cond: nat)

  datatype Rule = Rule(conds: set<nat>, pat: Pattern, next: Next)

  /** The condition after the action of rule r, taken in condition sc. */
  function Enters(rules: seq<Rule>, r: nat, sc: nat): nat
    requires 1 <= r <= |rules|
  {
    if rules[r - 1].next.Begin? then rules[r - 1].next.cond else sc
  }

  ghost predicate Matches(p: Pattern, w: seq<Byte>) {
    match p
    case Char(c) => w == [c]
    case NotIn(except) => |w| == 1 && w[0] !in except
    case ManyNotIn(except) => |w| >= 1 && forall i :: 0 <= i < |w| ==> w[i] !in except
  }

  /** Rule number r (counted from 1) is active in condition sc and matches all of w. */
  ghost predicate Applies(rules: seq<Rule>, sc: nat, r: nat, w: seq<Byte>) {
    1 <= r <= |rules| && sc in rules[r - 1].conds && Matches(rules[r - 1].pat, w)
  }

  /** The rules choose the first n bytes of w and rule r. */
  ghost predicate BestMatch(rules: seq<Rule>, sc: nat, w: seq<Byte>, n: nat, r: nat) {
    && 1 <= n <= |w| && Applies(rules, sc, r, w[..n])
    && forall m, q :: 1 <= m <= |w| && Applies(rules, sc, q, w[..m]) ==> m < n || (m == n && r <= q)
  }

  /** The token list the rules prescribe for w, the condition changing by the action of each rule. */
  ghost predicate RuleLexing(rules: seq<Rule>, sc: nat, w: seq<Byte>, toks: seq<Token>)
    decreases |w|
  {
    if w == [] then toks == []
    else
      && toks != [] && 1 <= |toks[0].text| <= |w| && toks[0].text == w[..|toks[0].text|]
      && BestMatch(rules, sc, w, |toks[0].text|, toks[0].act)
      && RuleLexing(rules, Enters(rules, toks[0].act, sc), w[|toks[0].text|..], toks[1..])
  }

  /** The automaton's first token is always the rules' choice, and its actions begin what the rules say. */
  ghost predicate Means(d: Dfa, rules: seq<Rule>) {
    && (forall sc: nat, w: seq<Byte> :: sc < d.conds && NulFree(w) && w != [] ==> FirstIsBest(d, rules, sc, w))
    && (forall r: nat, sc: nat :: 1 <= r <= |rules| ==> d.begin(r, sc) == Enters(rules, r, sc))
  }

  ghost predicate FirstIsBest(d: Dfa, rules: seq<Rule>, sc: nat, w: seq<Byte>) {
    BestMatch(rules, sc, w, |FirstToken(d, sc, w).text|, FirstToken(d, sc, w).act)
  }

  /** Then lexing by the automaton is lexing by the rules, and nothing else is. */
  lemma {:induction false} LexByRules(d: Dfa, rules: seq<Rule>, sc: nat, w: seq<Byte>, toks: seq<Token>)
    requires d.Sound() && sc < d.conds && NulFree(w) && Means(d, rules)
    ensures RuleLexing(rules, sc, w, toks) <==> toks == Lex(d, sc, w)
    decreases |w|
  {
    if w != [] {
      LexStep(d, sc, w);
      var tok := FirstToken(d, sc, w);
      assert FirstIsBest(d, rules, sc, w);
      var tail := Lex(d, d.begin(tok.act, sc), w[|tok.text|..]);
      if toks != [] && 1 <= |toks[0].text| <= |w| && toks[0].text == w[..|toks[0].text|]
         && BestMatch(rules, sc, w, |toks[0].text|, toks[0].act) {
        BestIsUnique(rules, sc, w, |tok.text|, tok.act, |toks[0].text|, toks[0].act);
        assert toks[0] == tok;
        LexByRules(d, rules, d.begin(tok.act, sc), w[|tok.text|..], toks[1..]);
        assert toks == [tok] + toks[1..];
      } else {
        assert ([tok] + tail)[0] == tok && tok.text == w[..|tok.text|];
      }
      assert ([tok] + tail)[1..] == tail;
    }
  }

  lemma BestIsUnique(rules: seq<Rule>, sc: nat, w: seq<Byte>, n: nat, r: nat, n': nat, r': nat)
    requires BestMatch(rules, sc, w, n, r) && BestMatch(rules, sc, w, n', r')
    ensures n == n' && r == r'
  {
  }

  // ----- two shapes of automaton -----

  /** Number of leading bytes of w outside a class. */
  function Span(w: seq<Byte>, except: set<Byte>): (n: nat)
    ensures n <= |w| && (forall i :: 0 <= i < n ==> w[i] !in except)
    ensures n < |w| ==> w[n] in except
  {
    if w == [] || w[0] in except then 0 else 1 + Span(w[1..], except)
  }

  /** What follows a byte outside the run does not matter. */
  lemma {:induction false} SpanBefore(w: seq<Byte>, v: seq<Byte>, except: set<Byte>)
    requires w != [] && w[|w| - 1] in except
    ensures Span(w, except) == Span(w + v, except) < |w|
  {
    assert (w + v)[0] == w[0] && (w + v)[1..] == w[1..] + v;
    if w[0] !in except {
      SpanBefore(w[1..], v, except);
    }
  }

  /** What it takes for a pattern to match the first m bytes of w. */
  ghost predicate MatchesPrefix(p: Pattern, w: seq<Byte>, m: nat)
    requires w != []
  {
    match p
    case Char(c) => m == 1 && w[0] == c
    case NotIn(except) => m == 1 && w[0] !in except
    case ManyNotIn(except) => 1 <= m <= Span(w, except)
  }

  lemma PrefixMatches(p: Pattern, w: seq<Byte>, m: nat)
    requires 1 <= m <= |w|
    ensures Matches(p, w[..m]) <==> MatchesPrefix(p, w, m)
  {
    assert w[..m][0] == w[0];
    match p
    case Char(c) =>
      assert w[..1] == [w[0]];
    case NotIn(except) =>
    case ManyNotIn(except) =>
      assert Span(w, except) < m ==> w[..m][Span(w, except)] == w[Span(w, except)];
  }

  /** Rule q is active in condition sc and matches the first m bytes of w. */
  ghost predicate Reaches(rules: seq<Rule>, sc: nat, w: seq<Byte>, m: nat, q: nat)
    requires w != []
  {
    1 <= q <= |rules| && sc in rules[q - 1].conds && MatchesPrefix(rules[q - 1].pat, w, m)
  }

  /** A match is best if no active rule reaches further, or as far with a lower number. */
  lemma BestByPrefixes(rules: seq<Rule>, sc: nat, w: seq<Byte>, n: nat, r: nat)
    requires 1 <= n <= |w| && Reaches(rules, sc, w, n, r)
    requires forall m, q :: 1 <= m <= |w| && Reaches(rules, sc, w, m, q) ==> m < n || (m == n && r <= q)
    ensures BestMatch(rules, sc, w, n, r)
  {
    PrefixMatches(rules[r - 1].pat, w, n);
    forall m, q | 1 <= m <= |w| && Applies(rules, sc, q, w[..m]) ensures m < n || (m == n && r <= q) {
      PrefixMatches(rules[q - 1].pat, w, m);
      assert Reaches(rules, sc, w, m, q);
    }
  }

  /** A state that stops at once: the token is one byte. */
  lemma OneByteToken(d: Dfa, sc: nat, w: seq<Byte>)
    requires d.Sound() && sc < d.conds && NulFree(w) && w != []
    requires var q := d.step(d.Start(sc), w[0]); !d.live(q) && d.accept(q) != 0
    ensures FirstToken(d, sc, w) == Token(d.accept(d.step(d.Start(sc), w[0])), w[..1])
  {
    assert Run(d, d.Start(sc), w, 0) == d.Start(sc);
    assert Run(d, d.Start(sc), w, 1) == d.step(d.Start(sc), w[0]);
    MunchStops(d, d.Start(sc), w, 1, |w|);
  }

  /** First state q1, then q2 as long as the bytes stay outside the class. */
  ghost predicate WordShape(d: Dfa, sc: nat, q1: nat, q2: nat, except: set<Byte>) {
    && d.accept(q1) == d.accept(q2) != 0
    && forall c :: c != 0 ==> WordStep(d, sc, q1, q2, except, c)
  }

  ghost predicate WordStep(d: Dfa, sc: nat, q1: nat, q2: nat, except: set<Byte>, c: Byte) {
    if c in except then d.step(q1, c) == d.step(q2, c) == d.jam
    else d.step(d.Start(sc), c) == q1 && d.step(q1, c) == d.step(q2, c) == q2
  }

  lemma {:induction false} WordRun(d: Dfa, sc: nat, q1: nat, q2: nat, except: set<Byte>, w: seq<Byte>, m: nat)
    requires WordShape(d, sc, q1, q2, except) && NulFree(w) && 1 <= m <= Span(w, except)
    ensures Run(d, d.Start(sc), w, m) == if m == 1 then q1 else q2
  {
    assert WordStep(d, sc, q1, q2, except, w[m - 1]);
    if m == 1 {
      assert Run(d, d.Start(sc), w, 0) == d.Start(sc);
    } else {
      WordRun(d, sc, q1, q2, except, w, m - 1);
    }
  }

  /** A maximal run of bytes outside the class is one token. */
  lemma WordToken(d: Dfa, sc: nat, q1: nat, q2: nat, except: set<Byte>, w: seq<Byte>)
    requires d.Sound() && sc < d.conds && WordShape(d, sc, q1, q2, except)
    requires NulFree(w) && w != [] && w[0] !in except
    ensures FirstToken(d, sc, w) == Token(d.accept(q1), w[..Span(w, except)])
  {
    var s0, n := d.Start(sc), Span(w, except);
    WordRun(d, sc, q1, q2, except, w, n);
    assert Munch(d, s0, w, n) == n;
    if n < |w| {
      assert WordStep(d, sc, q1, q2, except, w[n]);
      assert Run(d, s0, w, n + 1) == d.jam;
      MunchStops(d, s0, w, n + 1, |w|);
    }
  }
}
