/**
  The table walk that flex compiles into a scanner, for any set of tables.

  A transition is looked up in one packed array (nxt) whose slots are guarded by
  a second one (chk); a missing slot is inherited from a default state, and the
  template states past the jam state see the character class through meta.
 */
module FlexTables {
  import opened Bytes
  import opened Munching

  /** The arrays of a generated scanner, its end-of-buffer action, the start condition entered by
      each action (negative: none), and, not in the source, a bound on the length of every
      default chain, from which the walk's termination follows. */
  datatype Tables = Tables(
    accept: seq<nat>, ec: seq<nat>, meta: seq<nat>,
    base: seq<nat>, def: seq<nat>, nxt: seq<nat>, chk: seq<nat>,
    endOfBuffer: nat, conds: nat, begins: seq<int>, links: seq<nat>)
  {
    /** State reached when nothing more can match. */
    function Jam(): int {
      |accept| - 1
    }

    /** The slot of state s for class k is inside the arrays, and following it leads to a proper
        state or one link down the default chain. */
    ghost predicate EntryOk(s: nat, k: nat)
      requires s < |base| == |def| == |links| && k < |meta| && |chk| == |nxt|
    {
      && base[s] + k < |chk|
      && meta[k] < |meta|
      && (if chk[base[s] + k] == s then 1 <= nxt[base[s] + k] < |accept|
          else 1 <= def[s] < |base| && links[def[s]] < links[s])
    }

    ghost predicate Walkable() {
      && 2 <= |accept| <= |base| == |def| == |links|
      && |chk| == |nxt| && |ec| == 256 && 0 < |meta|
      && (forall c: Byte :: ec[c] < |meta|)
      && (forall s, k :: 1 <= s < |base| && 0 <= k < |meta| ==> EntryOk(s, k))
    }

    /** One transition of the packed automaton. */
    function Trans(s: nat, k: nat): (r: nat)
      requires Walkable() && 1 <= s < |base| && k < |meta|
      ensures 1 <= r < |accept|
      decreases links[s]
    {
      assert EntryOk(s, k);
      if chk[base[s] + k] == s then nxt[base[s] + k]
      else Trans(def[s], if def[s] >= |accept| then meta[k] else k)
    }

    /** The automaton the tables stand for. States outside the tables behave like the jam state. */
    function Automaton(): Dfa
      requires Walkable()
    {
      Dfa((s: nat, c: Byte) => if 1 <= s < |accept| then Trans(s, ec[c]) else if c == 0 then Trans(Jam(), 0) else Jam(),
          (s: nat) => if s < |accept| then accept[s] else 0,
          (s: nat) => 1 <= s < |accept| && base[s] != base[Jam()],
          Jam(), Trans(Jam(), 0), conds,
          (a: nat, sc: nat) => if a < |begins| && begins[a] >= 0 then begins[a] else sc)
    }

    /** What the scanner's code needs to know to run automaton d from the tables. */
    ghost predicate Implements(d: Dfa) {
      && Walkable()
      && (forall s :: 1 <= s < |accept| ==> StateFrom(d, s))
      && (forall sc :: 0 <= sc < d.conds ==> CondFrom(d, sc))
      && endOfBuffer == d.accept(d.eob)
    }

    ghost predicate StateFrom(d: Dfa, s: nat)
      requires Walkable() && 1 <= s < |accept|
    {
      && d.accept(s) == accept[s]
      && (d.live(s) <==> base[s] != base[Jam()])
      && (forall c: Byte :: d.step(s, c) == Trans(s, ec[c]))
    }

    ghost predicate CondFrom(d: Dfa, sc: nat) {
      && d.Start(sc) < |accept|
      && (forall a: nat :: d.begin(a, sc) == if a < |begins| && begins[a] >= 0 then begins[a] else sc)
    }
  }

  lemma AutomatonImplemented(t: Tables)
    requires t.Walkable() && t.Automaton().Sound() && t.endOfBuffer == t.Automaton().accept(t.Automaton().eob)
    ensures t.Implements(t.Automaton())
  {
    var d := t.Automaton();
    forall sc: nat | sc < d.conds ensures t.CondFrom(d, sc) {
      assert d.CondSound(sc);
    }
  }

  /** The scanner's lookup loop: follow default links until the slot belongs to the state. */
  method NextState(t: Tables, state: nat, cls: nat) returns (next: nat)
    requires t.Walkable() && 1 <= state < |t.base| && cls < |t.meta|
    ensures next == t.Trans(state, cls)
  {
    var s: nat, k: nat := state, cls;
    assert t.EntryOk(s, k);
    while t.chk[t.base[s] + k] != s
      invariant 1 <= s < |t.base| && k < |t.meta| && t.EntryOk(s, k)
      invariant t.Trans(s, k) == t.Trans(state, cls)
      decreases t.links[s]
    {
      s := t.def[s];
      if s >= |t.accept| {
        k := t.meta[k];
      }
      assert t.EntryOk(s, k);
    }
    next := t.nxt[t.base[s] + k];
  }
}
