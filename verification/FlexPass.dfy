/**
  What one pass of the match loop over a buffer means for the whole input: the last
  accepting point, where the loop stops, and which action that leads to.
 */
module FlexPass {
  import opened Bytes
  import opened Munching
  import opened FlexTables

  /** Window b, text without NUL and two sentinels, shows a first part of input w. */
  ghost predicate Sees(b: seq<Byte>, w: seq<Byte>) {
    && 2 <= |b| <= |w| + 2
    && b[|b| - 2] == 0 && b[|b| - 1] == 0
    && b[..|b| - 2] == w[..|b| - 2] && NulFree(w)
  }

  /** The last-accepting registers (a state and a distance from the token start) describe the
      accepting points strictly before offset i. */
  ghost predicate LastOk(d: Dfa, s0: nat, b: seq<Byte>, i: nat, lastState: nat, lastLen: int)
    requires i <= |b|
  {
    i > 0 ==>
      var n := Munch(d, s0, b, i - 1);
      n > 0 ==> lastLen == n && lastState == Run(d, s0, b, n)
  }

  /** Where the match loop stops, from offset i on. */
  ghost function StopAt(d: Dfa, s0: nat, b: seq<Byte>, i: nat): (j: nat)
    requires i <= |b| && !d.live(Run(d, s0, b, |b|))
    ensures i <= j <= |b| && !d.live(Run(d, s0, b, j))
    decreases |b| - i
  {
    if d.live(Run(d, s0, b, i)) then StopAt(d, s0, b, i + 1) else i
  }

  lemma {:induction false} LiveBeforeStop(d: Dfa, s0: nat, b: seq<Byte>, i: nat, m: nat)
    requires i <= |b| && !d.live(Run(d, s0, b, |b|)) && i <= m < StopAt(d, s0, b, i)
    ensures d.live(Run(d, s0, b, m))
    decreases m - i
  {
    if i < m {
      LiveBeforeStop(d, s0, b, i + 1, m);
    }
  }

  /** State and registers mean the same over the window as over the whole input. */
  lemma EnterWindow(d: Dfa, s0: nat, b: seq<Byte>, w: seq<Byte>, i: nat, lastState: nat, lastLen: int)
    requires d.Sound() && d.StartSound(s0) && Sees(b, w) && i <= |b| - 2
    ensures !d.live(Run(d, s0, b, |b|)) && Run(d, s0, b, i) == Run(d, s0, w, i)
    ensures LastOk(d, s0, w, i, lastState, lastLen) <==> LastOk(d, s0, b, i, lastState, lastLen)
  {
    forall k | 0 <= k < |b| - 2 ensures b[k] != 0 {
      assert b[k] == b[..|b| - 2][k] == w[..|b| - 2][k] == w[k];
    }
    Sentinels(d, s0, b, |b| - 2);
    assert b[..i] == b[..|b| - 2][..i] == w[..|b| - 2][..i] == w[..i];
    RunSame(d, s0, b, w, i);
    if i > 0 {
      assert b[..i - 1] == b[..i][..i - 1] == w[..i][..i - 1] == w[..i - 1];
      MunchSame(d, s0, b, w, i - 1);
    }
  }

  /** With n bytes of w in the buffer, action act and match length m were chosen: either w's first
      token, or the end of the buffer, seen in a state that can still go on. */
  ghost predicate Chosen(d: Dfa, sc: nat, w: seq<Byte>, n: nat, m: nat, act: nat)
    requires n <= |w|
  {
    if act == d.accept(d.eob) then m == n + 1 && d.live(Run(d, d.Start(sc), w, n))
    else m <= n && Token(act, w[..m]) == FirstToken(d, sc, w)
  }

  /** Stopping inside the text: the match is the longest one of the whole input. */
  lemma StoppedInside(d: Dfa, sc: nat, b: seq<Byte>, w: seq<Byte>, j: nat)
    requires d.Sound() && d.StartSound(d.Start(sc)) && Sees(b, w)
    requires 0 < j <= |b| - 2 && !d.live(Run(d, d.Start(sc), b, j))
    ensures var m := Munch(d, d.Start(sc), b, j);
            0 < m && Chosen(d, sc, w, |b| - 2, m, d.accept(Run(d, d.Start(sc), b, m)))
  {
    var s0 := d.Start(sc);
    assert b[..j] == b[..|b| - 2][..j] == w[..|b| - 2][..j] == w[..j];
    MunchSame(d, s0, b, w, j);
    RunSame(d, s0, b, w, j);
    MunchStops(d, s0, w, j, |w|);
    AcceptsEarly(d, s0, w);
    RunNotEob(d, s0, w, Munch(d, s0, w, |w|));
    assert d.StateSound(Run(d, s0, w, Munch(d, s0, w, |w|)));
  }

  /** The action found after stopping: the first token of w, or the end of the buffer. */
  lemma ActionFound(d: Dfa, sc: nat, b: seq<Byte>, w: seq<Byte>, i: nat)
    requires d.Sound() && d.StartSound(d.Start(sc)) && Sees(b, w)
    requires i <= |b| - 2 && d.live(Run(d, d.Start(sc), b, i)) && !d.live(Run(d, d.Start(sc), b, |b|))
    ensures var m := Munch(d, d.Start(sc), b, StopAt(d, d.Start(sc), b, i));
            0 < m && Chosen(d, sc, w, |b| - 2, m, d.accept(Run(d, d.Start(sc), b, m)))
  {
    var s0, n, j := d.Start(sc), |b| - 2, StopAt(d, d.Start(sc), b, i);
    if j <= n {
      StoppedInside(d, sc, b, w, j);
    } else {
      forall k | 0 <= k < n ensures b[k] != 0 {
        assert b[k] == b[..n][k] == w[..n][k] == w[k];
      }
      Sentinels(d, s0, b, n);
      LiveBeforeStop(d, s0, b, i, n);
      RunSame(d, s0, b, w, n);
    }
  }

  /** All that a pass over window b needs and gives, said of the pending input w. */
  lemma PassOver(d: Dfa, sc: nat, b: seq<Byte>, w: seq<Byte>, i: nat, lastState: nat, lastLen: int)
    requires d.Sound() && sc < d.conds && Sees(b, w) && i <= |b| - 2
    requires d.live(Run(d, d.Start(sc), w, i)) && LastOk(d, d.Start(sc), w, i, lastState, lastLen)
    ensures !d.live(Run(d, d.Start(sc), b, |b|)) && Run(d, d.Start(sc), b, i) == Run(d, d.Start(sc), w, i)
    ensures LastOk(d, d.Start(sc), b, i, lastState, lastLen)
    ensures var m := Munch(d, d.Start(sc), b, StopAt(d, d.Start(sc), b, i));
            0 < m && Chosen(d, sc, w, |b| - 2, m, d.accept(Run(d, d.Start(sc), b, m)))
  {
    assert d.CondSound(sc);
    EnterWindow(d, d.Start(sc), b, w, i, lastState, lastLen);
    ActionFound(d, sc, b, w, i);
  }

  /** The buffer, sentinels included, is fit for matching by the tables, and matching chooses rightly. */
  lemma BeforeMatch(t: Tables, d: Dfa, sc: nat, b: seq<Byte>, w: seq<Byte>, i: nat, lastState: nat, lastLen: int)
    requires t.Implements(d) && d.Sound() && sc < d.conds && Sees(b, w) && i <= |b| - 2
    requires d.live(Run(d, d.Start(sc), w, i)) && LastOk(d, d.Start(sc), w, i, lastState, lastLen)
    ensures 1 <= d.Start(sc) < |t.accept| && !d.live(Run(d, d.Start(sc), b, |b|))
    ensures Run(d, d.Start(sc), b, i) == Run(d, d.Start(sc), w, i)
    ensures LastOk(d, d.Start(sc), b, i, lastState, lastLen)
    ensures var m := Munch(d, d.Start(sc), b, StopAt(d, d.Start(sc), b, i));
            0 < m && Chosen(d, sc, w, |b| - 2, m, d.accept(Run(d, d.Start(sc), b, m)))
  {
    PassOver(d, sc, b, w, i, lastState, lastLen);
    assert t.CondFrom(d, sc);
  }

  /** At the end of w the match loop could still go on. */
  ghost predicate StillOpen(d: Dfa, sc: nat, w: seq<Byte>) {
    d.live(Run(d, d.Start(sc), w, |w|))
  }

  /** With all of w in the buffer and nothing left to read, the text in hand decides. */
  lemma AllSeen(d: Dfa, sc: nat, w: seq<Byte>)
    requires d.Sound() && sc < d.conds && NulFree(w) && w != []
    ensures var m := Munch(d, d.Start(sc), w, |w|);
            var act := d.accept(Run(d, d.Start(sc), w, m));
            0 < m && act != d.accept(d.eob) && Chosen(d, sc, w, |w|, m, act)
  {
    assert d.CondSound(sc);
    AcceptsEarly(d, d.Start(sc), w);
    FirstTokenExists(d, sc, w);
  }

  /** Terminating the text at cp leaves the text before it, and the input behind it once the byte is back. */
  lemma CutText(was: seq<Byte>, now: seq<Byte>, bp: nat, cp: nat, n: nat, rest: seq<Byte>, w: seq<Byte>)
    requires bp <= cp <= n < |was| && now == was[cp := 0] && w == was[bp..n] + rest
    ensures now[bp..cp] == w[..cp - bp]
    ensures (if cp == n then [] else [was[cp]] + now[cp + 1..n]) + rest == w[cp - bp..]
  {
    assert now[bp..cp] == was[bp..cp] == was[bp..n][..cp - bp];
    assert w[cp - bp..] == was[cp..n] + rest;
    if cp < n {
      assert was[cp..n] == [was[cp]] + was[cp + 1..n];
      assert now[cp + 1..n] == was[cp + 1..n];
    }
  }

  lemma {:induction false} RunInTable(t: Tables, d: Dfa, s0: nat, b: seq<Byte>, m: nat)
    requires t.Implements(d) && 1 <= s0 < |t.accept| && m <= |b|
    ensures 1 <= Run(d, s0, b, m) < |t.accept|
  {
    if m > 0 {
      RunInTable(t, d, s0, b, m - 1);
      assert t.StateFrom(d, Run(d, s0, b, m - 1));
      assert 1 <= t.Trans(Run(d, s0, b, m - 1), t.ec[b[m - 1]]) < |t.accept|;
    }
  }
}
