/**
  The sparse store: a list of items, each with an array of quanta, grown on demand
  and emptied by one walk. Memory is explicit, so that reading or freeing a block that
  is not live is a precondition that fails. A ghost map gives every live block its place,
  so that no block has two places and no live block is out of reach.
 */
module ScullStore {
  import opened ScullPosition

  // ----- memory -----

  type Ptr = nat

  const NULL: Ptr := 0

  datatype Block =
    | Item(data: Ptr, next: Ptr)
    | Array(quanta: seq<Ptr>)
    | Quantum(bytes: nat)

  type Heap = map<Ptr, Block>

  lemma {:induction false} AddressLeft(used: set<Ptr>)
    ensures exists p: Ptr :: p != NULL && p !in used
  {
    var top := Top(used);
    assert top + 1 != NULL && top + 1 !in used;
  }

  ghost function Top(used: set<Ptr>): (top: Ptr)
    ensures forall p :: p in used ==> p <= top
  {
    if used == {} then 0
    else
      var p :| p in used;
      var rest := Top(used - {p});
      assert forall q :: q in used ==> q == p || q in used - {p};
      if rest < p then p else rest
  }

  // ----- the store -----

  /** The place of a block in the store. */
  datatype Slot = ItemAt(k: nat) | ArrayAt(k: nat) | QuantumAt(k: nat, i: nat)

  /** The list in memory, with every live block's place. */
  datatype Store = Store(heap: Heap, items: seq<Ptr>, owner: map<Ptr, Slot>, quantum: nat, qset: nat)

  ghost predicate Holds(s: Store, p: Ptr, slot: Slot) {
    p in s.heap && p in s.owner && s.owner[p] == slot
  }

  ghost predicate ItemOk(s: Store, k: nat) {
    && k < |s.items| && Holds(s, s.items[k], ItemAt(k)) && s.heap[s.items[k]].Item?
    && s.heap[s.items[k]].next == (if k + 1 < |s.items| then s.items[k + 1] else NULL)
    && (s.heap[s.items[k]].data != NULL ==> ArrayOk(s, s.heap[s.items[k]].data, k))
  }

  ghost predicate ArrayOk(s: Store, d: Ptr, k: nat) {
    && Holds(s, d, ArrayAt(k)) && s.heap[d].Array? && |s.heap[d].quanta| == s.qset
    && forall i :: 0 <= i < s.qset && s.heap[d].quanta[i] != NULL ==> QuantumOk(s, s.heap[d].quanta[i], k, i)
  }

  ghost predicate QuantumOk(s: Store, q: Ptr, k: nat, i: nat) {
    Holds(s, q, QuantumAt(k, i)) && s.heap[q] == Quantum(s.quantum)
  }

  /** The list leads to the block. */
  ghost predicate Reached(s: Store, p: Ptr)
    requires p in s.owner
  {
    var slot := s.owner[p];
    && slot.k < |s.items| && s.items[slot.k] in s.heap && s.heap[s.items[slot.k]].Item?
    && var d := s.heap[s.items[slot.k]].data;
       match slot
       case ItemAt(k) => s.items[k] == p
       case ArrayAt(k) => d == p
       case QuantumAt(k, i) => d in s.heap && s.heap[d].Array? && i < |s.heap[d].quanta| && s.heap[d].quanta[i] == p
  }

  ghost predicate Basics(s: Store) {
    Sizes(s.quantum, s.qset) && NULL !in s.heap && s.heap.Keys == s.owner.Keys
  }

  /** Every pointer leads to a live block of the right kind, and every live block is reached exactly once. */
  ghost predicate Ok(s: Store) {
    && Basics(s)
    && (forall k {:trigger ItemOk(s, k)} :: 0 <= k < |s.items| ==> ItemOk(s, k))
    && (forall p {:trigger Reached(s, p)} :: p in s.owner ==> Reached(s, p))
  }

  /** The array of an item, once it has one. */
  ghost predicate HasQuantum(s: Store, item: nat, sPos: nat)
    requires Ok(s)
  {
    item < |s.items| && ItemOk(s, item) && s.heap[s.items[item]].data != NULL && sPos < s.qset
    && s.heap[s.heap[s.items[item]].data].quanta[sPos] != NULL
  }

  // ----- growing keeps the shape -----

  function Appended(s: Store, p: Ptr): Store
    requires s.items != [] ==> s.items[|s.items| - 1] in s.heap && s.heap[s.items[|s.items| - 1]].Item?
  {
    var heap := if s.items == [] then s.heap
                else var last := s.items[|s.items| - 1]; s.heap[last := s.heap[last].(next := p)];
    s.(heap := heap[p := Item(NULL, NULL)], items := s.items + [p], owner := s.owner[p := ItemAt(|s.items|)])
  }

  lemma AppendedItem(s: Store, p: Ptr, k: nat)
    requires Basics(s) && p != NULL && p !in s.heap && k <= |s.items|
    requires s.items != [] ==> ItemOk(s, |s.items| - 1)
    requires k < |s.items| ==> ItemOk(s, k)
    ensures ItemOk(Appended(s, p), k)
  {
    var t := Appended(s, p);
    if k < |s.items| && s.heap[s.items[k]].data != NULL {
      ArrayKept(s, t, s.heap[s.items[k]].data, k);
    }
  }

  lemma AppendedReach(s: Store, p: Ptr, q: Ptr)
    requires Basics(s) && p != NULL && p !in s.heap
    requires s.items != [] ==> ItemOk(s, |s.items| - 1)
    requires q in s.owner && Reached(s, q) && ItemOk(s, s.owner[q].k)
    ensures Reached(Appended(s, p), q)
  {
  }

  lemma AppendedOk(s: Store, p: Ptr)
    requires Ok(s) && p != NULL && p !in s.heap
    requires s.items != [] ==> ItemOk(s, |s.items| - 1)
    ensures Ok(Appended(s, p))
  {
    var t := Appended(s, p);
    forall k | 0 <= k < |t.items| ensures ItemOk(t, k) {
      AppendedItem(s, p, k);
    }
    forall q | q in t.owner ensures Reached(t, q) {
      if q != p {
        AppendedReach(s, p, q);
      }
    }
  }

  /** An array stays as it was when its block and those of its quanta do. */
  lemma ArrayKept(s: Store, t: Store, d: Ptr, k: nat)
    requires ArrayOk(s, d, k) && t.qset == s.qset && t.quantum == s.quantum
    requires d in t.heap && t.heap[d] == s.heap[d]
    requires forall q :: q in s.owner ==> q in t.owner && t.owner[q] == s.owner[q]
    requires forall q :: q in s.heap && s.heap[q].Quantum? ==> q in t.heap && t.heap[q] == s.heap[q]
    ensures ArrayOk(t, d, k)
  {
    forall i | 0 <= i < t.qset && t.heap[d].quanta[i] != NULL ensures QuantumOk(t, t.heap[d].quanta[i], k, i) {
      assert QuantumOk(s, s.heap[d].quanta[i], k, i);
    }
  }

  function WithArray(s: Store, k: nat, p: Ptr): Store
    requires k < |s.items| && s.items[k] in s.heap && s.heap[s.items[k]].Item?
  {
    s.(heap := s.heap[s.items[k] := s.heap[s.items[k]].(data := p)][p := Array(seq(s.qset, i => NULL))],
       owner := s.owner[p := ArrayAt(k)])
  }

  lemma WithArrayItem(s: Store, k: nat, p: Ptr, j: nat)
    requires Basics(s) && p != NULL && p !in s.heap && ItemOk(s, k) && ItemOk(s, j)
    requires s.heap[s.items[k]].data == NULL
    ensures ItemOk(WithArray(s, k, p), j)
  {
    if j != k && s.heap[s.items[j]].data != NULL {
      ArrayKept(s, WithArray(s, k, p), s.heap[s.items[j]].data, j);
    }
  }

  lemma WithArrayReach(s: Store, k: nat, p: Ptr, q: Ptr)
    requires Basics(s) && p != NULL && p !in s.heap && ItemOk(s, k) && s.heap[s.items[k]].data == NULL
    requires q in s.owner && Reached(s, q) && ItemOk(s, s.owner[q].k)
    ensures Reached(WithArray(s, k, p), q)
  {
  }

  lemma WithArrayOk(s: Store, k: nat, p: Ptr)
    requires Ok(s) && p != NULL && p !in s.heap && ItemOk(s, k) && s.heap[s.items[k]].data == NULL
    ensures Ok(WithArray(s, k, p))
  {
    var t := WithArray(s, k, p);
    forall j | 0 <= j < |t.items| ensures ItemOk(t, j) {
      WithArrayItem(s, k, p, j);
    }
    forall q | q in t.owner ensures Reached(t, q) {
      if q != p {
        WithArrayReach(s, k, p, q);
      }
    }
  }

  function WithQuantum(s: Store, k: nat, i: nat, p: Ptr): Store
    requires k < |s.items| && s.items[k] in s.heap && s.heap[s.items[k]].Item?
    requires var d := s.heap[s.items[k]].data; d in s.heap && s.heap[d].Array? && i < |s.heap[d].quanta|
  {
    var d := s.heap[s.items[k]].data;
    s.(heap := s.heap[d := Array(s.heap[d].quanta[i := p])][p := Quantum(s.quantum)],
       owner := s.owner[p := QuantumAt(k, i)])
  }

  /** The place is allocated as far as its array, and waits for its quantum. */
  ghost predicate Waiting(s: Store, k: nat, i: nat) {
    && i < s.qset && ItemOk(s, k) && s.heap[s.items[k]].data != NULL
    && s.heap[s.heap[s.items[k]].data].quanta[i] == NULL
  }

  lemma WithQuantumArray(s: Store, k: nat, i: nat, p: Ptr)
    requires Basics(s) && p != NULL && p !in s.heap && Waiting(s, k, i)
    ensures ArrayOk(WithQuantum(s, k, i, p), s.heap[s.items[k]].data, k)
  {
    var t := WithQuantum(s, k, i, p);
    var d := s.heap[s.items[k]].data;
    assert ArrayOk(s, d, k);
    forall m | 0 <= m < t.qset && t.heap[d].quanta[m] != NULL ensures QuantumOk(t, t.heap[d].quanta[m], k, m) {
      if m != i {
        assert QuantumOk(s, s.heap[d].quanta[m], k, m);
      }
    }
  }

  lemma WithQuantumItem(s: Store, k: nat, i: nat, p: Ptr, j: nat)
    requires Basics(s) && p != NULL && p !in s.heap && Waiting(s, k, i) && ItemOk(s, j)
    ensures ItemOk(WithQuantum(s, k, i, p), j)
  {
    if j == k {
      WithQuantumArray(s, k, i, p);
    } else if s.heap[s.items[j]].data != NULL {
      ArrayKept(s, WithQuantum(s, k, i, p), s.heap[s.items[j]].data, j);
    }
  }

  lemma WithQuantumReach(s: Store, k: nat, i: nat, p: Ptr, q: Ptr)
    requires Basics(s) && p != NULL && p !in s.heap && Waiting(s, k, i)
    requires q in s.owner && Reached(s, q) && ItemOk(s, s.owner[q].k)
    ensures Reached(WithQuantum(s, k, i, p), q)
  {
  }

  lemma WithQuantumOk(s: Store, k: nat, i: nat, p: Ptr)
    requires Ok(s) && p != NULL && p !in s.heap && Waiting(s, k, i)
    ensures Ok(WithQuantum(s, k, i, p))
  {
    var t := WithQuantum(s, k, i, p);
    forall j | 0 <= j < |t.items| ensures ItemOk(t, j) {
      WithQuantumItem(s, k, i, p, j);
    }
    forall q | q in t.owner ensures Reached(t, q) {
      if q != p {
        WithQuantumReach(s, k, i, p, q);
      }
    }
  }

  // ----- what growing means for the rest of the store -----

  /** Every block that was live still is, at its place. */
  ghost predicate Grown(s: Store, t: Store) {
    && s.items <= t.items && s.quantum == t.quantum && s.qset == t.qset
    && forall p :: p in s.owner ==> p in t.owner && t.owner[p] == s.owner[p]
  }

  /** The new blocks are all on the way to one place. */
  ghost predicate OnlyOnPath(s: Store, t: Store, here: Place) {
    forall p :: p in t.owner && p !in s.owner ==> OnPath(t.owner[p], here)
  }

  ghost predicate OnPath(slot: Slot, here: Place) {
    match slot
    case ItemAt(k) => k <= here.item
    case ArrayAt(k) => k == here.item
    case QuantumAt(k, i) => k == here.item && i == here.sPos
  }

  ghost predicate OnlyItems(s: Store, t: Store) {
    forall p :: p in t.owner && p !in s.owner ==> t.owner[p].ItemAt?
  }

  /** Two places never share a block. */
  lemma NoSharing(s: Store, here: Place, there: Place)
    requires Ok(s) && HasQuantum(s, here.item, here.sPos) && HasQuantum(s, there.item, there.sPos)
    requires QuantumAtPlace(s, here.item, here.sPos) == QuantumAtPlace(s, there.item, there.sPos)
    ensures here.item == there.item && here.sPos == there.sPos
  {
    assert ItemOk(s, here.item) && ItemOk(s, there.item);
    assert QuantumOk(s, QuantumAtPlace(s, here.item, here.sPos), here.item, here.sPos);
    assert QuantumOk(s, QuantumAtPlace(s, there.item, there.sPos), there.item, there.sPos);
  }

  ghost function QuantumAtPlace(s: Store, item: nat, sPos: nat): Ptr
    requires Ok(s) && HasQuantum(s, item, sPos)
  {
    s.heap[s.heap[s.items[item]].data].quanta[sPos]
  }

  /** Growing keeps the quantum of every place that had one. */
  lemma GrownKeeps(s: Store, t: Store, item: nat, sPos: nat)
    requires Ok(s) && Ok(t) && Grown(s, t) && HasQuantum(s, item, sPos)
    ensures HasQuantum(t, item, sPos) && QuantumAtPlace(t, item, sPos) == QuantumAtPlace(s, item, sPos)
  {
    var q := QuantumAtPlace(s, item, sPos);
    assert QuantumOk(s, q, item, sPos);
    assert Reached(t, q);
    assert ItemOk(t, item);
  }

  /** New items bring no quanta. */
  lemma ItemsBringNoQuanta(s: Store, t: Store, item: nat, sPos: nat)
    requires Ok(s) && Ok(t) && Grown(s, t) && OnlyItems(s, t)
    ensures HasQuantum(t, item, sPos) <==> HasQuantum(s, item, sPos)
  {
    if HasQuantum(s, item, sPos) {
      GrownKeeps(s, t, item, sPos);
    }
    if HasQuantum(t, item, sPos) {
      var q := QuantumAtPlace(t, item, sPos);
      assert QuantumOk(t, q, item, sPos);
      assert Reached(s, q);
      assert ItemOk(s, item);
    }
  }
}
