/**
  The refillable buffer behind yylex: match, back up, find the end of the buffer,
  move the partial token to the front, read more, replay the state, go on.
  Whatever the sizes of the reads, the tokens are those of longest-match lexing
  of the whole input.
 */
module FlexScanner {
  import opened Bytes
  import opened Munching
  import opened FlexTables
  import opened FlexPass

  datatype BufferStatus = New | Normal | EofPending

  datatype BufferAct = ContinueScan | EndOfFile | LastMatch

  const READ_BUF_SIZE: nat := 8192

  class Scanner {
    const t: Tables
    ghost const d: Dfa          // the automaton the tables stand for
    var chBuf: array<Byte>      // the buffer, with room for the two sentinels
    var bufSize: nat            // its size, sentinels not counted
    var bufChars: nat           // character count kept with the buffer
    var status: BufferStatus
    var nChars: nat             // characters in the buffer
    var cBufP: nat              // current position
    var textPtr: nat            // start of the token just matched
    var holdChar: Byte          // the byte overwritten to terminate the token
    var sc: nat                 // start condition
    var lastState: nat          // last accepting state, and where it was
    var lastCpos: nat
    var rest: seq<Byte>         // input not read yet
    var tokens: seq<Token>      // actions run so far

    ghost predicate Ready()
      reads `sc
    {
      t.Implements(d) && d.Sound() && sc < d.conds
    }

    /** The partial token and the unread input, seen from the token start. */
    ghost function Pending(bp: nat): seq<Byte>
      requires bp <= nChars <= chBuf.Length
      reads `nChars, `chBuf, `rest, chBuf
    {
      chBuf[bp..nChars] + rest
    }

    /** The held byte is back in place: both sentinels stand behind text without NUL. */
    ghost predicate Restored(bp: nat)
      reads `chBuf, `bufSize, `bufChars, `nChars, `status, `rest, chBuf
    {
      && 0 < bufSize && bp <= nChars <= bufSize && chBuf.Length == bufSize + 2
      && chBuf[nChars] == 0 && chBuf[nChars + 1] == 0
      && NulFree(Pending(bp))
      && (status.EofPending? ==> rest == [])
      && (status.New? ==> nChars == 0 && bufChars == 0)
    }

    /** The input still to be scanned: what is left of the buffer, with the byte held aside back
        in place, then what was not read. */
    ghost function Input(): seq<Byte>
      requires cBufP <= nChars <= chBuf.Length
      reads `chBuf, `nChars, `cBufP, `holdChar, `rest, chBuf
    {
      (if cBufP == nChars then [] else [holdChar] + chBuf[cBufP + 1..nChars]) + rest
    }

    /** The buffer between tokens. */
    ghost predicate Held()
      reads `chBuf, `bufSize, `bufChars, `nChars, `status, `cBufP, `holdChar, `rest, chBuf
    {
      && 0 < bufSize && cBufP <= nChars <= bufSize && chBuf.Length == bufSize + 2
      && (if cBufP == nChars then holdChar == 0 else chBuf[nChars] == 0)
      && chBuf[nChars + 1] == 0
      && NulFree(Input())
      && (status.EofPending? ==> rest == [])
      && (status.New? ==> nChars == 0 && bufChars == 0)
    }

    ghost predicate Valid()
      reads this, chBuf
    {
      Ready() && Held()
    }

    constructor (t: Tables, bufSize: nat, input: seq<Byte>)
      requires t.Walkable() && t.Automaton().Sound() && t.endOfBuffer == t.Automaton().accept(t.Automaton().eob)
      requires 0 < t.conds && 0 < bufSize && NulFree(input)
      ensures Valid() && fresh(chBuf) && this.t == t && d == t.Automaton()
      ensures Input() == input && sc == 0 && tokens == [] && status.New?
    {
      this.t, this.bufSize, d := t, bufSize, t.Automaton();
      chBuf := new Byte[bufSize + 2](_ => 0);
      bufChars, status, nChars, cBufP, textPtr, holdChar := 0, New, 0, 0, 0, 0;
      sc, lastState, lastCpos := 0, 0, 0;
      rest, tokens := input, [];
      new;
      AutomatonImplemented(t);
    }

    // ----- matching -----

    /** The body shared by the match loop and the replay loop: note the state if it accepts, then
        follow the transition on the byte at cp, the i-th of the token. */
    method Advance(cp: nat, state0: nat, yyc: nat, ghost s0: nat, ghost b: seq<Byte>, ghost i: nat)
      returns (state: nat)
      requires t.Implements(d) && 1 <= state0 < |t.accept| && i <= cp && i < |b| && yyc == t.ec[b[i]]
      requires state0 == Run(d, s0, b, i) && LastOk(d, s0, b, i, lastState, lastCpos - (cp - i))
      modifies `lastState, `lastCpos
      ensures 1 <= state < |t.accept| && state == Run(d, s0, b, i + 1)
      ensures LastOk(d, s0, b, i + 1, lastState, lastCpos - (cp - i))
    {
      assert t.StateFrom(d, state0);
      if t.accept[state0] != 0 {
        lastState, lastCpos := state0, cp;
      }
      state := NextState(t, state0, yyc);
    }

    /** One turn of the match loop. */
    method MatchStep(bp: nat, cp: nat, state0: nat, ghost s0: nat, ghost b: seq<Byte>, ghost i: nat)
      returns (state: nat, go: bool)
      requires t.Implements(d) && 1 <= state0 < |t.accept| && !d.live(Run(d, s0, b, |b|))
      requires cp == bp + i && i < |b| && bp + |b| <= chBuf.Length && chBuf[bp..bp + |b|] == b
      requires state0 == Run(d, s0, b, i) && d.live(state0) && LastOk(d, s0, b, i, lastState, lastCpos - bp)
      modifies `lastState, `lastCpos
      ensures 1 <= state < |t.accept| && state == Run(d, s0, b, i + 1) && (go <==> d.live(state))
      ensures StopAt(d, s0, b, i) == StopAt(d, s0, b, i + 1)
      ensures LastOk(d, s0, b, i + 1, lastState, lastCpos - bp)
    {
      assert chBuf[cp] == b[i];
      state := Advance(cp, state0, t.ec[chBuf[cp]], s0, b, i);
      assert t.StateFrom(d, state);
      go := t.base[state] != t.base[t.Jam()];
    }

    /** The match loop: run until a state that stops, remembering the last accepting point. */
    method Match(bp: nat, from: nat, state0: nat, ghost s0: nat, ghost b: seq<Byte>)
      returns (cp: nat, state: nat)
      requires t.Implements(d) && 1 <= state0 < |t.accept| && !d.live(Run(d, s0, b, |b|))
      requires bp <= from < bp + |b| <= chBuf.Length && chBuf[bp..bp + |b|] == b
      requires state0 == Run(d, s0, b, from - bp) && d.live(state0)
      requires LastOk(d, s0, b, from - bp, lastState, lastCpos - bp)
      modifies `lastState, `lastCpos
      ensures 1 <= state < |t.accept| && bp <= cp
      ensures cp - bp == StopAt(d, s0, b, from - bp) && state == Run(d, s0, b, cp - bp)
      ensures LastOk(d, s0, b, cp - bp, lastState, lastCpos - bp)
    {
      cp, state := from, state0;
      var go := true;
      ghost var i, stop: nat := from - bp, StopAt(d, s0, b, from - bp);
      while go
        invariant cp == bp + i && i <= |b| && 1 <= state < |t.accept| && chBuf[bp..bp + |b|] == b
        invariant state == Run(d, s0, b, i) && (go <==> d.live(state))
        invariant StopAt(d, s0, b, i) == stop
        invariant LastOk(d, s0, b, i, lastState, lastCpos - bp)
        decreases |b| - i
      {
        assert i < |b|;
        state, go := MatchStep(bp, cp, state, s0, b, i);
        cp, i := cp + 1, i + 1;
      }
    }

    /** Choose the action, backing up to the last accepting point if the state has none. */
    method FindAction(bp: nat, cp0: nat, state0: nat, ghost s0: nat, ghost b: seq<Byte>)
      returns (cp: nat, act: nat)
      requires t.Implements(d) && 1 <= state0 < |t.accept| && bp <= cp0 <= bp + |b|
      requires state0 == Run(d, s0, b, cp0 - bp)
      requires LastOk(d, s0, b, cp0 - bp, lastState, lastCpos - bp)
      requires 0 < Munch(d, s0, b, cp0 - bp)
      requires 1 <= s0 < |t.accept|
      ensures cp == bp + Munch(d, s0, b, cp0 - bp)
      ensures act == d.accept(Run(d, s0, b, Munch(d, s0, b, cp0 - bp)))
    {
      cp := cp0;
      assert t.StateFrom(d, state0);
      act := t.accept[state0];
      if act == 0 {
        RunInTable(t, d, s0, b, Munch(d, s0, b, cp0 - bp));
        assert t.StateFrom(d, lastState);
        cp := lastCpos;
        act := t.accept[lastState];
      }
    }

    /** yy_match down to the choice of action, the end of the window being a stop. */
    method MatchAndFind(bp: nat, from: nat, state0: nat, ghost s0: nat, ghost b: seq<Byte>)
      returns (cp: nat, act: nat)
      requires t.Implements(d) && 1 <= state0 < |t.accept| && !d.live(Run(d, s0, b, |b|))
      requires bp <= from < bp + |b| <= chBuf.Length && chBuf[bp..bp + |b|] == b
      requires state0 == Run(d, s0, b, from - bp) && d.live(state0)
      requires LastOk(d, s0, b, from - bp, lastState, lastCpos - bp)
      requires 0 < Munch(d, s0, b, StopAt(d, s0, b, from - bp)) && 1 <= s0 < |t.accept|
      modifies `lastState, `lastCpos
      ensures cp == bp + Munch(d, s0, b, StopAt(d, s0, b, from - bp))
      ensures act == d.accept(Run(d, s0, b, Munch(d, s0, b, StopAt(d, s0, b, from - bp))))
    {
      var state;
      cp, state := Match(bp, from, state0, s0, b);
      cp, act := FindAction(bp, cp, state, s0, b);
    }

    lemma WindowSees(bp: nat)
      requires Restored(bp)
      ensures Sees(chBuf[bp..nChars + 2], Pending(bp))
    {
      assert chBuf[bp..nChars + 2][..nChars - bp] == Pending(bp)[..nChars - bp];
    }

    /** What matching over the buffer needs and gives. */
    lemma FitForMatch(bp: nat, from: nat, w: seq<Byte>, b: seq<Byte>)
      requires Ready() && Restored(bp) && bp <= from <= nChars && w == Pending(bp) && b == chBuf[bp..nChars + 2]
      requires d.live(Run(d, d.Start(sc), w, from - bp))
      requires LastOk(d, d.Start(sc), w, from - bp, lastState, lastCpos - bp)
      ensures |b| == nChars + 2 - bp && 1 <= d.Start(sc) < |t.accept| && !d.live(Run(d, d.Start(sc), b, |b|))
      ensures Run(d, d.Start(sc), b, from - bp) == Run(d, d.Start(sc), w, from - bp)
      ensures LastOk(d, d.Start(sc), b, from - bp, lastState, lastCpos - bp)
      ensures var m := Munch(d, d.Start(sc), b, StopAt(d, d.Start(sc), b, from - bp));
              0 < m && Chosen(d, sc, w, |b| - 2, m, d.accept(Run(d, d.Start(sc), b, m)))
    {
      WindowSees(bp);
      BeforeMatch(t, d, sc, b, w, from - bp, lastState, lastCpos - bp);
    }

    /** Match from a live state with the input w pending. */
    method ScanOn(bp: nat, from: nat, state0: nat, ghost w: seq<Byte>) returns (cp: nat, act: nat)
      requires Ready() && Restored(bp) && bp <= from <= nChars && w == Pending(bp)
      requires 1 <= state0 < |t.accept| && state0 == Run(d, d.Start(sc), w, from - bp) && d.live(state0)
      requires LastOk(d, d.Start(sc), w, from - bp, lastState, lastCpos - bp)
      modifies `lastState, `lastCpos
      ensures bp < cp && Chosen(d, sc, w, nChars - bp, cp - bp, act)
    {
      ghost var b := chBuf[bp..nChars + 2];
      FitForMatch(bp, from, w, b);
      cp, act := MatchAndFind(bp, from, state0, d.Start(sc), b);
    }

    /** Replay the first m bytes of the partial token, to recover the state before the end of the
        buffer. */
    method GetPreviousState(ghost w: seq<Byte>) returns (state: nat)
      requires Ready() && textPtr <= cBufP <= chBuf.Length
      requires NulFree(w) && cBufP - textPtr <= |w| && chBuf[textPtr..cBufP] == w[..cBufP - textPtr]
      modifies `lastState, `lastCpos
      ensures 1 <= state < |t.accept| && state == Run(d, d.Start(sc), w, cBufP - textPtr)
      ensures LastOk(d, d.Start(sc), w, cBufP - textPtr, lastState, lastCpos - textPtr)
    {
      assert t.CondFrom(d, sc);
      state := 1 + 2 * sc;
      var cp := textPtr;
      ghost var i: nat := 0;
      while cp < cBufP
        invariant cp == textPtr + i && cp <= cBufP && 1 <= state < |t.accept|
        invariant state == Run(d, d.Start(sc), w, i) && LastOk(d, d.Start(sc), w, i, lastState, lastCpos - textPtr)
      {
        assert w[i] == w[..cBufP - textPtr][i] == chBuf[cp];
        var yyc := if chBuf[cp] != 0 then t.ec[chBuf[cp]] else 1;
        state := Advance(cp, state, yyc, d.Start(sc), w, i);
        cp, i := cp + 1, i + 1;
      }
    }

    // ----- refilling -----

    /** yyrealloc: a larger buffer with the old contents in front. */
    method Grow()
      requires 0 < bufSize && chBuf.Length == bufSize + 2
      modifies `chBuf, `bufSize
      ensures bufSize == 2 * old(bufSize) && chBuf.Length == bufSize + 2 && fresh(chBuf)
      ensures chBuf[..old(chBuf.Length)] == old(chBuf[..])
    {
      var was := chBuf;
      bufSize := 2 * bufSize;
      chBuf := new Byte[bufSize + 2](i requires 0 <= i reads was => if i < was.Length then was[i] else 0);
      assert chBuf[..was.Length] == was[..];
    }

    /** my_yyinput: the smaller of what is asked for and what is left of the line. */
    method MyYyinput(dest: nat, max: nat) returns (n: nat)
      requires dest + max <= chBuf.Length
      modifies chBuf, `rest
      ensures n == (if max < |old(rest)| then max else |old(rest)|)
      ensures rest == old(rest)[n..]
      ensures chBuf[..dest] == old(chBuf[..dest])
      ensures chBuf[dest..dest + n] == old(rest)[..n]
    {
      n := if max < |rest| then max else |rest|;
      var i := 0;
      while i < n
        invariant 0 <= i <= n && rest == old(rest)
        invariant chBuf[..dest] == old(chBuf[..dest])
        invariant chBuf[dest..dest + i] == rest[..i]
      {
        chBuf[dest + i] := rest[i];
        i := i + 1;
        assert chBuf[dest..dest + i] == chBuf[dest..dest + i - 1] + [rest[i - 1]] == rest[..i];
      }
      rest := rest[n..];
    }

    /** Any input function: it may hand over less than it could, but at least one byte unless the input is
        exhausted. */
    method ReadInput(dest: nat, max: nat) returns (n: nat)
      requires 0 < max && dest + max <= chBuf.Length
      modifies chBuf, `rest
      ensures n <= max && n <= |old(rest)| && (n == 0 <==> old(rest) == [])
      ensures rest == old(rest)[n..]
      ensures chBuf[..dest] == old(chBuf[..dest])
      ensures chBuf[dest..dest + n] == old(rest)[..n]
    {
      var chunk: nat :| 0 < chunk <= max;
      n := MyYyinput(dest, chunk);
    }

    /** Move the partial token to the front of the buffer. */
    method MoveToFront(n: nat)
      requires textPtr + n <= chBuf.Length
      modifies chBuf
      ensures chBuf[..n] == old(chBuf[textPtr..textPtr + n])
    {
      var i := 0;
      while i < n
        invariant 0 <= i <= n
        invariant forall k :: 0 <= k < i ==> chBuf[k] == old(chBuf[textPtr + k])
        invariant forall k :: i <= k < chBuf.Length ==> chBuf[k] == old(chBuf[k])
      {
        chBuf[i] := chBuf[textPtr + i];
        i := i + 1;
      }
    }

    /** Make room, growing the buffer while it is full, and read more. */
    method Refill(numberToMove: nat) returns (n: nat)
      requires 0 < bufSize && chBuf.Length == bufSize + 2 && numberToMove <= bufSize
      modifies `chBuf, `bufSize, `rest, chBuf
      ensures bufSize > 0 && chBuf.Length == bufSize + 2 && (chBuf == old(chBuf) || fresh(chBuf))
      ensures numberToMove + n < bufSize && n <= |old(rest)| && (n == 0 <==> old(rest) == [])
      ensures rest == old(rest)[n..]
      ensures chBuf[..numberToMove + n] == old(chBuf[..numberToMove]) + old(rest)[..n]
    {
      ghost var kept := chBuf[..numberToMove];
      var numToRead: int := bufSize - numberToMove - 1;
      while numToRead <= 0
        invariant 0 < bufSize && chBuf.Length == bufSize + 2 && numberToMove <= bufSize
        invariant chBuf == old(chBuf) || fresh(chBuf)
        invariant chBuf[..numberToMove] == kept && rest == old(rest)
        invariant numToRead == bufSize - numberToMove - 1
        decreases -numToRead
      {
        Grow();
        numToRead := bufSize - numberToMove - 1;
      }
      if numToRead > READ_BUF_SIZE {
        numToRead := READ_BUF_SIZE;
      }
      n := ReadInput(numberToMove, numToRead);
      assert chBuf[..numberToMove + n] == chBuf[..numberToMove] + chBuf[numberToMove..numberToMove + n];
    }

    /** yyrestart on an exhausted source: an empty buffer, marked new. */
    method Restart()
      requires chBuf.Length >= 2
      modifies `bufChars, `status, `nChars, `textPtr, `cBufP, `holdChar, chBuf
      ensures bufChars == nChars == textPtr == cBufP == 0 && status == New && holdChar == 0
      ensures chBuf[0] == 0 && chBuf[1] == 0
    {
      bufChars := 0;
      chBuf[0], chBuf[1] := 0, 0;
      status := New;
      nChars, textPtr, cBufP := bufChars, 0, 0;
      holdChar := chBuf[cBufP];
    }

    /** Put the two sentinels behind k characters. */
    method CloseBuffer(k: nat)
      requires k + 2 <= chBuf.Length
      modifies chBuf, `nChars, `textPtr
      ensures nChars == k && textPtr == 0
      ensures chBuf[..k] == old(chBuf[..k]) && chBuf[k] == 0 && chBuf[k + 1] == 0
    {
      nChars := k;
      chBuf[nChars], chBuf[nChars + 1] := 0, 0;
      textPtr := 0;
    }

    /** The first half of yy_get_next_buffer: the partial token to the front, new text behind it. */
    method LoadBehindToken() returns (numberToMove: nat)
      requires Restored(textPtr) && cBufP == nChars + 1
      modifies `chBuf, `bufSize, `bufChars, `nChars, `rest, chBuf
      ensures numberToMove == old(nChars - textPtr) && nChars == |old(rest)| - |rest|
      ensures 0 < bufSize && numberToMove + nChars <= bufSize && chBuf.Length == bufSize + 2
      ensures chBuf == old(chBuf) || fresh(chBuf)
      ensures chBuf[..numberToMove + nChars] + rest == old(Pending(textPtr))
      ensures nChars == 0 ==> rest == []
    {
      assert cBufP <= nChars + 1;  // the end of the buffer is never missed
      ghost var partial, unread := chBuf[textPtr..nChars], rest;
      numberToMove := cBufP - textPtr - 1;
      MoveToFront(numberToMove);
      var n := 0;
      if status.EofPending? {
        bufChars := 0;
      } else {
        n := Refill(numberToMove);
        bufChars := n;
      }
      nChars := n;
      assert chBuf[..numberToMove + n] == partial + unread[..n];
      assert partial + unread[..n] + unread[n..] == partial + unread;
    }

    /** yy_get_next_buffer: keep the partial token, read more behind it, put the sentinels back. */
    method GetNextBuffer() returns (act: BufferAct)
      requires Restored(textPtr) && cBufP == nChars + 1 && !status.New?
      modifies `chBuf, `bufSize, `bufChars, `status, `nChars, `textPtr, `cBufP, `holdChar, `rest, chBuf
      ensures Restored(0) && textPtr == 0 && (chBuf == old(chBuf) || fresh(chBuf))
      ensures Pending(0) == old(Pending(textPtr))
      ensures old(nChars - textPtr) <= nChars && |rest| <= old(|rest|)
      ensures act.ContinueScan? ==> |rest| < |old(rest)| && status == old(status)
      ensures act.LastMatch? ==> rest == [] && nChars == old(nChars - textPtr) > 0 && status == EofPending
      ensures act.EndOfFile? ==> rest == [] && nChars == old(nChars - textPtr) == 0
                                  && status == New && holdChar == 0 && bufChars == 0
    {
      var numberToMove := LoadBehindToken();
      if nChars == 0 {
        if numberToMove == 0 {
          act := EndOfFile;
          Restart();
        } else {
          act := LastMatch;
          status := EofPending;
        }
      } else {
        act := ContinueScan;
      }
      assert nChars + numberToMove <= bufSize;  // so the extra 50% extension is never taken
      CloseBuffer(nChars + numberToMove);
      assert chBuf[0..nChars] == chBuf[..nChars];
    }

    // ----- tokens -----

    /** YY_DO_BEFORE_ACTION: terminate the text with a NUL, holding the byte under it aside. */
    method DoBeforeAction(bp: nat, cp: nat)
      requires bp <= cp < chBuf.Length
      modifies `textPtr, `holdChar, `cBufP, chBuf
      ensures textPtr == bp && cBufP == cp && holdChar == old(chBuf[cp])
      ensures chBuf[..] == old(chBuf[..])[cp := 0]
    {
      textPtr := bp;
      holdChar := chBuf[cp];
      chBuf[cp] := 0;
      cBufP := cp;
    }

    /** The end of the buffer was seen in the middle of a token. */
    ghost predicate AtBufferEnd(w: seq<Byte>)
      reads this, chBuf
    {
      && Restored(textPtr) && cBufP == nChars + 1 && holdChar == 0
      && Pending(textPtr) == w && d.live(Run(d, d.Start(sc), w, nChars - textPtr))
    }

    /** The first token of w was found, and its text is terminated in the buffer. */
    ghost predicate AtToken(act: nat, w: seq<Byte>)
      reads this, chBuf
    {
      && Held() && textPtr < cBufP && cBufP - textPtr <= |w|
      && chBuf[textPtr..cBufP] == w[..cBufP - textPtr] && Input() == w[cBufP - textPtr..]
      && Token(act, w[..cBufP - textPtr]) == FirstToken(d, sc, w)
    }

    /** The state in which the action switch is entered. */
    ghost predicate AtAction(act: nat, w: seq<Byte>)
      reads this, chBuf
    {
      NulFree(w) && if act == d.accept(d.eob) then AtBufferEnd(w) else AtToken(act, w)
    }

    method EnterBufferEnd(bp: nat, cp: nat, ghost w: seq<Byte>)
      requires Restored(bp) && w == Pending(bp) && cp == nChars + 1
      requires d.live(Run(d, d.Start(sc), w, nChars - bp))
      modifies `textPtr, `holdChar, `cBufP, chBuf
      ensures AtBufferEnd(w)
    {
      ghost var was := chBuf[..];
      DoBeforeAction(bp, cp);
      assert chBuf[..] == was;
    }

    method EnterToken(bp: nat, cp: nat, ghost act: nat, ghost w: seq<Byte>)
      requires Restored(bp) && w == Pending(bp) && bp < cp <= nChars
      requires Token(act, w[..cp - bp]) == FirstToken(d, sc, w)
      modifies `textPtr, `holdChar, `cBufP, chBuf
      ensures AtToken(act, w)
    {
      ghost var was := chBuf[..];
      DoBeforeAction(bp, cp);
      CutText(was, chBuf[..], bp, cp, nChars, rest, w);
      assert Input() == w[cp - bp..];
    }

    method EnterAction(bp: nat, cp: nat, act: nat, ghost w: seq<Byte>)
      requires Ready() && Restored(bp) && w == Pending(bp) && bp < cp
      requires Chosen(d, sc, w, nChars - bp, cp - bp, act)
      modifies `textPtr, `holdChar, `cBufP, chBuf
      ensures AtAction(act, w)
    {
      if act == t.endOfBuffer {
        EnterBufferEnd(bp, cp, w);
      } else {
        EnterToken(bp, cp, act, w);
      }
    }

    /** Replay the partial token and go on matching behind it. */
    method Rematch(ghost w: seq<Byte>) returns (cp: nat, act: nat)
      requires Ready() && Restored(0) && textPtr == 0 && Pending(0) == w && cBufP <= nChars
      requires d.live(Run(d, d.Start(sc), w, cBufP))
      modifies `lastState, `lastCpos
      ensures 0 < cp && Chosen(d, sc, w, nChars, cp, act)
    {
      assert chBuf[textPtr..cBufP] == w[..cBufP];
      var state := GetPreviousState(w);
      cp, act := ScanOn(textPtr, cBufP, state, w);
    }

    /** EOB_ACT_CONTINUE_SCAN. */
    method ContinueMatch(amount: nat, ghost w: seq<Byte>) returns (act: nat)
      requires Ready() && Restored(0) && textPtr == 0 && Pending(0) == w
      requires amount <= nChars && d.live(Run(d, d.Start(sc), w, amount))
      modifies `lastState, `lastCpos, `textPtr, `holdChar, `cBufP, chBuf
      ensures AtAction(act, w)
    {
      cBufP := textPtr + amount;
      var cp;
      cp, act := Rematch(w);
      EnterAction(textPtr, cp, act, w);
    }

    /** The longest match of the text in hand, from the state its replay leads to. */
    method LastAction(ghost w: seq<Byte>) returns (cp: nat, act: nat)
      requires Ready() && Restored(0) && textPtr == 0 && Pending(0) == w
      requires rest == [] && 0 < nChars && cBufP == nChars
      modifies `lastState, `lastCpos
      ensures 0 < cp && Chosen(d, sc, w, nChars, cp, act) && act != d.accept(d.eob)
    {
      assert chBuf[textPtr..cBufP] == w == w[..|w|];
      AllSeen(d, sc, w);
      assert t.CondFrom(d, sc);
      ghost var s0 := d.Start(sc);
      var state := GetPreviousState(w);
      cp, act := FindAction(textPtr, cBufP, state, s0, w);
    }

    /** EOB_ACT_LAST_MATCH: nothing is left to read, so the text in hand decides. */
    method FinishMatch(ghost w: seq<Byte>) returns (act: nat)
      requires Ready() && Restored(0) && textPtr == 0 && Pending(0) == w
      requires rest == [] && 0 < nChars
      modifies `lastState, `lastCpos, `textPtr, `holdChar, `cBufP, chBuf
      ensures AtAction(act, w) && act != d.accept(d.eob)
    {
      cBufP := nChars;
      var cp;
      cp, act := LastAction(w);
      EnterAction(textPtr, cp, act, w);
    }

    /** Undo the termination of the text and try to read past the end of the buffer. */
    method ReadPast(ghost w: seq<Byte>) returns (amount: nat, ret: BufferAct)
      requires Ready() && AtAction(d.accept(d.eob), w)
      modifies `chBuf, `bufSize, `bufChars, `status, `nChars, `textPtr, `cBufP, `holdChar, `rest, chBuf
      ensures chBuf == old(chBuf) || fresh(chBuf)
      ensures Restored(0) && textPtr == 0 && Pending(0) == w
      ensures amount <= nChars && amount <= |w| && d.live(Run(d, d.Start(sc), w, amount))
      ensures |rest| <= old(|rest|) && (ret.ContinueScan? ==> |rest| < old(|rest|))
      ensures ret.LastMatch? ==> rest == [] && 0 < nChars && amount == |w|
      ensures ret.ContinueScan? && status.EofPending? ==> old(status).EofPending?
      ensures ret.EndOfFile? ==> w == [] && nChars == 0 && holdChar == 0 && status == New
    {
      amount := cBufP - textPtr - 1;
      chBuf[cBufP] := holdChar;
      if status.New? {
        nChars := bufChars;
        status := Normal;
      }
      assert Restored(textPtr) && Pending(textPtr) == w;
      assert cBufP > nChars;  // so this was not a NUL of the input
      ret := GetNextBuffer();
    }

    /** With the buffer refilled, or with nothing left to refill it from: go on with the token. */
    method Resume(ret: BufferAct, amount: nat, ghost w: seq<Byte>) returns (act: nat)
      requires Ready() && Restored(0) && textPtr == 0 && Pending(0) == w && !ret.EndOfFile?
      requires amount <= nChars && d.live(Run(d, d.Start(sc), w, amount))
      requires ret.LastMatch? ==> rest == [] && 0 < nChars
      modifies `lastState, `lastCpos, `textPtr, `holdChar, `cBufP, chBuf
      ensures AtAction(act, w) && (ret.LastMatch? ==> act != d.accept(d.eob))
    {
      if ret.ContinueScan? {
        act := ContinueMatch(amount, w);
      } else {
        act := FinishMatch(w);
      }
    }

    /** Case YY_END_OF_BUFFER: refill and carry on, or report the end of the input. */
    method EndOfBuffer(ghost w: seq<Byte>) returns (eof: bool, act: nat)
      requires Ready() && AtAction(d.accept(d.eob), w)
      modifies `chBuf, `bufSize, `bufChars, `status, `nChars, `textPtr, `cBufP, `holdChar, `rest
      modifies `lastState, `lastCpos, chBuf
      ensures chBuf == old(chBuf) || fresh(chBuf)
      ensures eof ==> w == [] && Held() && Input() == [] && status.New?
      ensures !eof ==> AtAction(act, w)
      ensures |rest| <= old(|rest|) && (!eof && act == d.accept(d.eob) ==> |rest| < old(|rest|))
      ensures status.EofPending? ==> old(status).EofPending? || StillOpen(d, sc, w)
    {
      var amount, ret := ReadPast(w);
      eof, act := ret.EndOfFile?, 0;
      if eof {
        cBufP := textPtr;
      } else {
        act := Resume(ret, amount, w);
      }
    }

    /** Put the held byte back. */
    method PutBack(ghost w: seq<Byte>)
      requires Held() && w == Input()
      modifies chBuf
      ensures Restored(cBufP) && Pending(cBufP) == w
    {
      ghost var was := chBuf[..];
      chBuf[cBufP] := holdChar;
      assert chBuf[cBufP + 1..nChars + 1] == was[cBufP + 1..nChars + 1];
      if cBufP < nChars {
        assert chBuf[cBufP..nChars] == [holdChar] + chBuf[cBufP + 1..nChars];
        assert chBuf[cBufP + 1..nChars] == was[cBufP + 1..nChars];
      }
      assert Pending(cBufP) == w;
    }

    /** The first match of a token, from its start condition. */
    method FirstMatch(bp: nat, ghost w: seq<Byte>) returns (cp: nat, act: nat)
      requires Ready() && Restored(bp) && w == Pending(bp)
      modifies `lastState, `lastCpos
      ensures bp < cp && Chosen(d, sc, w, nChars - bp, cp - bp, act)
    {
      assert d.CondSound(sc) && t.CondFrom(d, sc);
      cp, act := ScanOn(bp, bp, 1 + 2 * sc, w);
    }

    /** Start on a token: put the held byte back and match. */
    method BeginToken(ghost w: seq<Byte>) returns (act: nat)
      requires Valid() && w == Input()
      modifies `textPtr, `holdChar, `cBufP, `lastState, `lastCpos, chBuf
      ensures AtAction(act, w)
    {
      var bp := cBufP;
      PutBack(w);
      var cp;
      cp, act := FirstMatch(bp, w);
      EnterAction(bp, cp, act, w);
    }

    /** However often the buffer ends in the middle of the token, it is found, or the input ends. */
    method PastBufferEnds(act0: nat, ghost w: seq<Byte>) returns (eof: bool, act: nat)
      requires Ready() && AtAction(act0, w)
      modifies `chBuf, `bufSize, `bufChars, `status, `nChars, `textPtr, `cBufP, `holdChar, `rest
      modifies `lastState, `lastCpos, chBuf
      ensures chBuf == old(chBuf) || fresh(chBuf)
      ensures if eof then w == [] && Held() && Input() == [] && status.New? else AtToken(act, w)
      ensures status.EofPending? ==> old(status).EofPending? || StillOpen(d, sc, w)
    {
      eof, act := false, act0;
      while act == t.endOfBuffer && !eof
        invariant chBuf == old(chBuf) || fresh(chBuf)
        invariant if eof then w == [] && Held() && Input() == [] && status.New? else AtAction(act, w)
        invariant status.EofPending? ==> old(status).EofPending? || StillOpen(d, sc, w)
        decreases |rest|, !eof, act == t.endOfBuffer
      {
        eof, act := EndOfBuffer(w);
      }
    }

    /** One token of the pending input, or its end. */
    method NextToken() returns (eof: bool, tok: Token)
      requires Valid()
      modifies `chBuf, `bufSize, `bufChars, `status, `nChars, `textPtr, `cBufP, `holdChar, `rest
      modifies `lastState, `lastCpos, chBuf
      ensures Held() && (chBuf == old(chBuf) || fresh(chBuf))
      ensures eof <==> old(Input()) == []
      ensures eof ==> Input() == [] && status.New?
      ensures !eof ==> tok == FirstToken(d, sc, old(Input())) && Input() == old(Input())[|tok.text|..]
      ensures status.EofPending? ==> old(status).EofPending? || StillOpen(d, sc, old(Input()))
    {
      ghost var w := Input();
      var act := BeginToken(w);
      assert Ready();
      eof, act := PastBufferEnds(act, w);
      if eof {
        return eof, Token(0, []);
      }
      tok := TokenText(act, w);
    }

    /** yytext: the text of the token found. */
    method TokenText(act: nat, ghost w: seq<Byte>) returns (tok: Token)
      requires AtToken(act, w)
      ensures w != [] && Held() && tok == FirstToken(d, sc, w) && |tok.text| <= |w| && Input() == w[|tok.text|..]
    {
      tok := Token(act, chBuf[textPtr..cBufP]);
      assert |tok.text| == cBufP - textPtr;
    }

    /** Match one token and run its action: record it, and enter the condition it begins. */
    method TakeToken() returns (eof: bool)
      requires Valid()
      modifies this, chBuf
      ensures Valid() && (chBuf == old(chBuf) || fresh(chBuf))
      ensures eof <==> old(Input()) == []
      ensures eof ==> Input() == [] && status.New? && tokens == old(tokens) && sc == old(sc)
      ensures !eof ==> var tok := FirstToken(d, old(sc), old(Input()));
                       && tokens == old(tokens) + [tok]
                       && sc == d.begin(tok.act, old(sc))
                       && Input() == old(Input())[|tok.text|..]
      ensures status.EofPending? ==> old(status).EofPending? || StillOpen(d, old(sc), old(Input()))
    {
      ghost var w, c := Input(), sc;
      FirstTokenExists(d, c, w);
      assert t.CondFrom(d, c);
      var tok;
      eof, tok := NextToken();
      if !eof {
        tokens := tokens + [tok];
        if tok.act < |t.begins| && t.begins[tok.act] >= 0 {
          sc := t.begins[tok.act];
        }
      }
    }

    /** The scanner: run the action of every token up to the end of the input. */
    method Yylex()
      requires Valid()
      modifies this, chBuf
      ensures Valid() && (chBuf == old(chBuf) || fresh(chBuf))
      ensures Input() == [] && status.New?
      ensures tokens == old(tokens) + Lex(d, old(sc), old(Input()))
      ensures sc == EndCond(d, old(sc), old(Input()))
    {
      ghost var c, w := sc, Input();
      ghost var all, end := tokens + Lex(d, c, w), EndCond(d, c, w);
      var eof := false;
      while !eof
        invariant Valid() && (chBuf == old(chBuf) || fresh(chBuf))
        invariant sc == c && Input() == w && (eof ==> w == [] && status.New?)
        invariant tokens + Lex(d, c, w) == all && EndCond(d, c, w) == end
        decreases |w|, !eof
      {
        if w != [] {
          LexStepAfter(d, c, w, tokens);
        }
        eof := TakeToken();
        c, w := sc, Input();
      }
    }

    /** The shell hands over the next line once the last one is used up. */
    method GiveLine(line: seq<Byte>)
      requires Valid() && Input() == [] && !status.EofPending? && NulFree(line)
      modifies `rest
      ensures Valid() && Input() == line
    {
      rest := line;
    }
  }
}
