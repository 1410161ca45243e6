/**
  The sparse device: following the list and growing it, the two transfers as far as
  addressing and allocation go, and the walk that frees everything.
 */
module ScullDevice {
  import opened Arith
  import opened ScullPosition
  import opened ScullStore

  /** What a transfer returns: how much it moved, or why it moved nothing. */
  datatype Outcome = Moved(n: int) | NoMemory | BadUserBuffer

  /** How many items following to item n must add. */
  ghost function MissingItems(s: Store, n: nat): nat {
    Max(0, n + 1 - |s.items|)
  }

  /** How many blocks writing to a place must add. */
  ghost function MissingBlocks(s: Store, here: Place): nat
    requires Ok(s)
  {
    MissingItems(s, here.item) + MissingInItem(s, here)
  }

  ghost function MissingInItem(s: Store, here: Place): nat
    requires Ok(s)
  {
    (if HasArray(s, here.item) then 0 else 1) + (if HasQuantum(s, here.item, here.sPos) then 0 else 1)
  }

  ghost predicate HasArray(s: Store, item: nat)
    requires Ok(s)
  {
    item < |s.items| && ItemOk(s, item) && s.heap[s.items[item]].data != NULL
  }

  ghost function LastItem(s: Store): Ptr {
    if s.items == [] then NULL else s.items[|s.items| - 1]
  }

  /** The list is empty exactly if its first, or its last, pointer is null. */
  lemma LastIsItem(s: Store)
    requires Ok(s)
    ensures s.items != [] ==> ItemOk(s, |s.items| - 1) && LastItem(s) != NULL && s.items[0] != NULL
  {
    if s.items != [] {
      assert ItemOk(s, 0) && ItemOk(s, |s.items| - 1);
    }
  }

  /** An item's next pointer is null exactly at the end of the list. */
  lemma NextIsItem(s: Store, k: nat)
    requires Ok(s) && k < |s.items|
    ensures ItemOk(s, k) && s.items[k] != NULL
    ensures var next := s.heap[s.items[k]].next;
            if k + 1 < |s.items| then next != NULL && next == s.items[k + 1] else next == NULL
  {
    assert ItemOk(s, k);
    if k + 1 < |s.items| {
      assert ItemOk(s, k + 1);
    }
  }

  /** The store grew by items, none past item n. */
  ghost predicate AddsItems(s: Store, t: Store, n: nat) {
    Grown(s, t) && forall p :: p in t.owner && p !in s.owner ==> t.owner[p].ItemAt? && t.owner[p].k <= n
  }

  ghost predicate AddsItem(s: Store, t: Store) {
    |t.items| == |s.items| + 1 && AddsItems(s, t, |s.items|)
  }

  lemma AppendedAdds(s: Store, p: Ptr)
    requires p !in s.owner && (s.items != [] ==> ItemOk(s, |s.items| - 1))
    ensures AddsItem(s, Appended(s, p))
  {
  }

  lemma AddsChain(s: Store, t: Store, u: Store, n: nat)
    requires AddsItems(s, t, n) && AddsItem(t, u) && |t.items| <= n + 1
    ensures AddsItems(s, u, n + 1)
  {
  }

  /** New items bring no arrays. */
  lemma ItemsBringNoArrays(s: Store, t: Store, item: nat)
    requires Ok(s) && Ok(t) && Grown(s, t) && OnlyItems(s, t)
    ensures HasArray(t, item) <==> HasArray(s, item)
  {
    if HasArray(s, item) {
      var d := s.heap[s.items[item]].data;
      assert Reached(t, d);
      assert ItemOk(t, item);
    }
    if HasArray(t, item) {
      var d := t.heap[t.items[item]].data;
      assert Reached(s, d);
      assert ItemOk(s, item);
    }
  }

  lemma PathChain(s: Store, t: Store, u: Store, here: Place)
    requires AddsItems(s, t, here.item) && Grown(t, u) && OnlyOnPath(t, u, here)
    ensures Grown(s, u) && OnlyOnPath(s, u, here)
  {
    forall p | p in u.owner && p !in s.owner ensures OnPath(u.owner[p], here) {
      if p in t.owner {
        assert u.owner[p] == t.owner[p];
      }
    }
  }

  /** The block at this place is still there when trimming is at item k. */
  ghost predicate Live(slot: Slot, k: nat, i: nat, arr: bool) {
    slot.k > k
    || (slot.k == k && match slot
                       case ItemAt(_) => true
                       case ArrayAt(_) => arr
                       case QuantumAt(_, j) => arr && i <= j)
  }

  lemma TakeOne(ps: set<Ptr>, p: Ptr)
    requires p in ps
    ensures multiset(ps - {p}) + multiset{p} == multiset(ps)
  {
  }

  /** Only the block its array names is at a quantum's place. */
  lemma QuantumGone(s: Store, k: nat, i: nat)
    requires Ok(s) && ItemOk(s, k) && s.heap[s.items[k]].data != NULL && i < s.qset
    ensures forall p :: p in s.owner && s.owner[p] == QuantumAt(k, i) ==> p == s.heap[s.heap[s.items[k]].data].quanta[i]
  {
    forall p | p in s.owner && s.owner[p] == QuantumAt(k, i)
      ensures p == s.heap[s.heap[s.items[k]].data].quanta[i] && p != NULL
    {
      assert Reached(s, p);
    }
  }

  /** When its quanta and its array are gone, only the item's own block is left of it. */
  lemma RestGone(s: Store, k: nat)
    requires Ok(s) && ItemOk(s, k)
    ensures forall p :: p in s.owner && s.owner[p] == ArrayAt(k) ==> p == s.heap[s.items[k]].data && p != NULL
    ensures forall p, i: nat :: p in s.owner && s.owner[p] == QuantumAt(k, i) ==>
                             s.heap[s.items[k]].data != NULL && i < s.qset
    ensures forall p :: p in s.owner && s.owner[p] == ItemAt(k) ==> p == s.items[k]
  {
    forall p | p in s.owner && s.owner[p].k == k
      ensures s.owner[p] == ArrayAt(k) ==> p == s.heap[s.items[k]].data && p != NULL
      ensures s.owner[p].QuantumAt? ==> s.heap[s.items[k]].data != NULL && s.owner[p].i < s.qset
      ensures s.owner[p] == ItemAt(k) ==> p == s.items[k]
    {
      assert Reached(s, p);
    }
  }

  lemma AllInList(s: Store)
    requires Ok(s)
    ensures forall p :: p in s.owner ==> s.owner[p].k < |s.items|
  {
    forall p | p in s.owner ensures s.owner[p].k < |s.items| {
      assert Reached(s, p);
    }
  }

  class Device {
    var heap: Heap
    var data: Ptr
    var quantum: nat
    var qset: nat
    var size: nat
    ghost var items: seq<Ptr>
    ghost var owner: map<Ptr, Slot>
    ghost var freed: multiset<Ptr>    // what was given back, and how often

    ghost function St(): Store
      reads this
    {
      Store(heap, items, owner, quantum, qset)
    }

    ghost predicate Valid()
      reads this
    {
      Ok(St()) && data == if items == [] then NULL else items[0]
    }

    constructor (quantum: nat, qset: nat)
      requires Sizes(quantum, qset)
      ensures Valid() && items == [] && size == 0 && this.quantum == quantum && this.qset == qset
      ensures heap == map[] && freed == multiset{}
    {
      heap, data, size := map[], NULL, 0;
      this.quantum, this.qset := quantum, qset;
      items, owner, freed := [], map[], multiset{};
    }

    /** Allocates a block; only the first `room` requests succeed. */
    method Kmalloc(b: Block, room: nat) returns (p: Ptr, left: nat)
      requires NULL !in heap
      modifies `heap
      ensures room == 0 ==> p == NULL && heap == old(heap) && left == 0
      ensures room > 0 ==> p != NULL && p !in old(heap) && heap == old(heap)[p := b] && left == room - 1
    {
      if room == 0 {
        return NULL, 0;
      }
      AddressLeft(heap.Keys);
      p :| p != NULL && p !in heap.Keys;
      heap := heap[p := b];
      left := room - 1;
    }

    /** Gives a block back. */
    method Kfree(p: Ptr)
      requires p in heap
      modifies `heap, `owner, `freed
      ensures heap == old(heap) - {p} && owner == old(owner) - {p} && freed == old(freed) + multiset{p}
      ensures multiset(heap.Keys) + freed == old(multiset(heap.Keys) + freed)
    {
      TakeOne(heap.Keys, p);
      assert (heap - {p}).Keys == heap.Keys - {p};
      heap := heap - {p};
      owner := owner - {p};
      freed := freed + multiset{p};
    }

    /** Adds an item behind the last one. */
    method AddItem(last: Ptr, room: nat) returns (p: Ptr, left: nat)
      requires Valid() && last == LastItem(St())
      modifies `heap, `data, `items, `owner
      ensures Valid()
      ensures room == 0 ==> p == NULL && left == 0 && St() == old(St())
      ensures room > 0 ==> p != NULL && left == room - 1 && LastItem(St()) == p && AddsItem(old(St()), St())
    {
      ghost var s := St();
      LastIsItem(s);
      p, left := Kmalloc(Item(NULL, NULL), room);
      if last == NULL {
        data := p;
      } else {
        heap := heap[last := heap[last].(next := p)];
      }
      if p == NULL {
        assert heap == s.heap;
        return;
      }
      items, owner := items + [p], owner[p := ItemAt(|items|)];
      assert heap == Appended(s, p).heap;
      AppendedOk(s, p);
      AppendedAdds(s, p);
    }

    /** The item behind item k; if it is missing, it is added. */
    method NextOf(qs: Ptr, room: nat, ghost k: nat) returns (next: Ptr, left: nat)
      requires Valid() && k < |items| && qs == items[k]
      modifies `heap, `data, `items, `owner
      ensures Valid()
      ensures next == NULL <==> k + 1 == |old(items)| && room == 0
      ensures next == NULL || k + 1 < |old(items)| ==> St() == old(St()) && left == room
      ensures next != NULL ==> k + 1 < |items| && next == items[k + 1]
      ensures k + 1 == |old(items)| && next != NULL ==> AddsItem(old(St()), St()) && left == room - 1
    {
      NextIsItem(St(), k);
      left := room;
      next := heap[qs].next;
      if next == NULL {
        next, left := AddItem(qs, left);
      }
    }

    /** scull_follow: item n, with every item before it; items that are missing are added. */
    method Follow(n: nat, room: nat) returns (qs: Ptr, left: nat)
      requires Valid()
      modifies `heap, `data, `items, `owner
      ensures Valid() && AddsItems(old(St()), St(), n)
      ensures |items| == |old(items)| + Min(room, MissingItems(old(St()), n))
      ensures qs != NULL <==> room >= MissingItems(old(St()), n)
      ensures qs != NULL ==> n < |items| && qs == items[n] && left == room - MissingItems(old(St()), n)
    {
      ghost var s := St();
      LastIsItem(s);
      qs, left := data, room;
      if qs == NULL {
        qs, left := AddItem(NULL, left);
        if qs == NULL {
          return;
        }
      }
      var togo := n;
      while togo > 0
        invariant 0 <= togo <= n && n - togo < |items| && qs == items[n - togo]
        invariant Valid() && AddsItems(s, St(), n - togo)
        invariant |items| == Max(|s.items|, n - togo + 1) && left == room - (|items| - |s.items|)
      {
        ghost var before := St();
        var next;
        next, left := NextOf(qs, left, n - togo);
        if next == NULL {
          qs := NULL;
          return;
        }
        if St() != before {
          AddsChain(s, before, St(), n - togo);
        }
        qs, togo := next, togo - 1;
      }
      NextIsItem(St(), n);
    }

    /** Gives an item its array. */
    method AddArray(qs: Ptr, room: nat, ghost k: nat) returns (d: Ptr, left: nat)
      requires Valid() && ArraysFit(qset) && ItemOk(St(), k) && qs == items[k] && heap[qs].data == NULL
      modifies `heap, `owner
      ensures Valid()
      ensures room == 0 ==> d == NULL && left == 0 && St() == old(St())
      ensures room > 0 ==> d != NULL && left == room - 1 && d !in old(heap) && St() == WithArray(old(St()), k, d)
    {
      ghost var s := St();
      d, left := Kmalloc(Array(seq(ArrayBytes(qset) / POINTER_SIZE, i => NULL)), room);
      heap := heap[qs := heap[qs].(data := d)];
      if d == NULL {
        assert heap == s.heap;
        return;
      }
      owner := owner[d := ArrayAt(k)];
      assert heap == WithArray(s, k, d).heap;
      WithArrayOk(s, k, d);
    }

    /** Gives a place its quantum. */
    method AddQuantum(d: Ptr, i: nat, room: nat, ghost k: nat) returns (q: Ptr, left: nat)
      requires Valid() && Waiting(St(), k, i) && d == heap[items[k]].data
      modifies `heap, `owner
      ensures Valid()
      ensures room == 0 ==> q == NULL && left == 0 && St() == old(St())
      ensures room > 0 ==> q != NULL && left == room - 1 && q !in old(heap) && St() == WithQuantum(old(St()), k, i, q)
    {
      ghost var s := St();
      q, left := Kmalloc(Quantum(quantum), room);
      heap := heap[d := Array(heap[d].quanta[i := q])];
      if q == NULL {
        assert s.heap[d].quanta == s.heap[d].quanta[i := NULL];
        assert heap == s.heap;
        return;
      }
      owner := owner[q := QuantumAt(k, i)];
      assert heap == WithQuantum(s, k, i, q).heap;
      WithQuantumOk(s, k, i, q);
    }

    /** Allocates what the item still lacks for the place. */
    method FillPlace(qs: Ptr, here: Place, room: nat) returns (ok: bool)
      requires Valid() && ArraysFit(qset)
      requires InStore(here, quantum, qset) && here.item < |items| && qs == items[here.item]
      modifies `heap, `owner
      ensures Valid() && Grown(old(St()), St()) && OnlyOnPath(old(St()), St(), here)
      ensures ok <==> room >= MissingInItem(old(St()), here)
      ensures ok ==> HasQuantum(St(), here.item, here.sPos)
    {
      assert ItemOk(St(), here.item);
      var d, left := heap[qs].data, room;
      if d == NULL {
        d, left := AddArray(qs, left, here.item);
        if d == NULL {
          return false;
        }
      }
      assert ItemOk(St(), here.item);
      if heap[d].quanta[here.sPos] == NULL {
        d, left := AddQuantum(d, here.sPos, left, here.item);
        assert ItemOk(St(), here.item);
        return d != NULL;
      }
      return true;
    }

    /** Allocates the place a write goes to. */
    method MakePlace(here: Place, room: nat) returns (ok: bool)
      requires Valid() && ArraysFit(qset) && InStore(here, quantum, qset)
      modifies `heap, `data, `items, `owner
      ensures Valid() && Grown(old(St()), St()) && OnlyOnPath(old(St()), St(), here)
      ensures ok <==> room >= MissingBlocks(old(St()), here)
      ensures ok ==> HasQuantum(St(), here.item, here.sPos)
    {
      ghost var s := St();
      var qs, left := Follow(here.item, room);
      if qs == NULL {
        return false;
      }
      ghost var t := St();
      ItemsBringNoQuanta(s, t, here.item, here.sPos);
      ItemsBringNoArrays(s, t, here.item);
      ok := FillPlace(qs, here, left);
      PathChain(s, t, St(), here);
    }

    /** Where the code goes for a position in range. */
    method FindPlace(pos: nat) returns (here: Place)
      requires InRange(pos, quantum, qset)
      ensures here == Locate(pos, quantum, qset)
    {
      RightWithin(pos, quantum, qset);
      var c := Computed(pos, quantum, qset);
      here := Place(c.item, c.sPos, c.qPos);
    }

    /** scull_write: the place is allocated, and the amount handed to the copy is cut first to the quantum and
        then to what is left of the old flat device. The new position is 64 bits wide, the size 32. */
    method Write(pos: nat, count: nat, room: nat, copied: bool) returns (r: Outcome, newPos: nat)
      requires Valid() && InRange(pos, quantum, qset) && ArraysFit(qset)
      modifies `heap, `data, `items, `owner, `size
      ensures Valid() && Grown(old(St()), St())
      ensures OnlyOnPath(old(St()), St(), Locate(pos, quantum, qset))
      ensures r.NoMemory? <==> room < MissingBlocks(old(St()), Locate(pos, quantum, qset))
      ensures !r.NoMemory? ==> HasQuantum(St(), Locate(pos, quantum, qset).item, Locate(pos, quantum, qset).sPos)
      ensures r.Moved? <==> !r.NoMemory? && copied
      ensures !r.Moved? ==> newPos == pos && size == old(size)
      ensures r.Moved? ==>
                var n := Amount(pos, count, Locate(pos, quantum, qset).qPos, quantum);
                && r.n == AsInt32(n) && newPos == pos + n
                && size == (if old(size) < newPos then newPos % WORD else old(size))
    {
      var here := FindPlace(pos);
      newPos := pos;
      var ok := MakePlace(here, room);
      if !ok {
        return NoMemory, pos;
      }
      var n := Clamp(count, here.qPos, quantum);
      if pos + n > DATA_SIZE {
        n := (DATA_SIZE - pos) % WORD;
      }
      if !copied {
        return BadUserBuffer, pos;
      }
      newPos := pos + n;
      if size < newPos {
        size := newPos % WORD;
      }
      r := Moved(AsInt32(n));
    }

    /** scull_read, as far as the place goes. Following may add items, but never quanta: a hole reads as the
        end of the data. */
    method Read(pos: nat, count: nat, room: nat, copied: bool) returns (r: Outcome, newPos: nat)
      requires Valid() && InRange(pos, quantum, qset)
      modifies `heap, `data, `items, `owner
      ensures Valid() && AddsItems(old(St()), St(), Locate(pos, quantum, qset).item)
      ensures pos >= size ==> St() == old(St())
      ensures var here := Locate(pos, quantum, qset);
              r == if pos >= size || !HasQuantum(old(St()), here.item, here.sPos) then Moved(0)
                   else if copied then Moved(Clamp(Min(count, size - pos), here.qPos, quantum))
                   else BadUserBuffer
      ensures newPos == pos + if r.Moved? then r.n else 0
      ensures pos <= size ==> newPos <= size
    {
      if pos >= size {
        return Moved(0), pos;
      }
      var wanted := if pos + count > size then size - pos else count;
      var here := FindPlace(pos);
      ghost var s := St();
      var qs, left := Follow(here.item, room);
      ItemsBringNoQuanta(s, St(), here.item, here.sPos);
      if qs == NULL {
        return Moved(0), pos;
      }
      assert ItemOk(St(), here.item);
      var d := heap[qs].data;
      if d == NULL || heap[d].quanta[here.sPos] == NULL {
        return Moved(0), pos;
      }
      if !copied {
        return BadUserBuffer, pos;
      }
      var n := Clamp(wanted, here.qPos, quantum);
      return Moved(n), pos + n;
    }

    /** What trimming has left when it is at item k of the store s: the first i quanta of that item are gone,
        and its array too unless `arr`. */
    ghost predicate Remains(s: Store, k: nat, i: nat, arr: bool)
      reads this
    {
      && heap.Keys == owner.Keys && s.heap.Keys == s.owner.Keys
      && (forall p {:trigger p in heap} :: p in heap <==> p in s.owner && Live(s.owner[p], k, i, arr))
      && (forall p {:trigger heap[p]} :: p in heap && (arr || s.owner[p] != ItemAt(k)) ==> heap[p] == s.heap[p])
    }

    /** Every block is either still there or was given back, once. */
    ghost function Accounted(): multiset<Ptr>
      reads this
    {
      multiset(heap.Keys) + freed
    }

    /** Frees quantum i of an item, if it is there. */
    method FreeQuantum(d: Ptr, i: nat, ghost s: Store, ghost k: nat)
      requires Ok(s) && ItemOk(s, k) && d == s.heap[s.items[k]].data && d != NULL && i < s.qset
      requires Remains(s, k, i, true)
      modifies `heap, `owner, `freed
      ensures Remains(s, k, i + 1, true) && Accounted() == old(Accounted())
    {
      assert s.owner[d] == ArrayAt(k) && d in heap && heap[d] == s.heap[d];
      var q := heap[d].quanta[i];
      QuantumGone(s, k, i);
      if q != NULL {
        assert QuantumOk(s, q, k, i);
        Kfree(q);
      }
    }

    /** Frees the quanta of one item. */
    method FreeQuanta(d: Ptr, count: nat, ghost s: Store, ghost k: nat)
      requires Ok(s) && ItemOk(s, k) && d == s.heap[s.items[k]].data && d != NULL && count == s.qset
      requires Remains(s, k, 0, true)
      modifies `heap, `owner, `freed
      ensures Remains(s, k, count, true) && Accounted() == old(Accounted())
    {
      ghost var total := Accounted();
      var i := 0;
      while i < count
        invariant 0 <= i <= count && Remains(s, k, i, true) && Accounted() == total
      {
        FreeQuantum(d, i, s, k);
        i := i + 1;
      }
    }

    /** Frees the array of an item, if it has one, with its quanta. */
    method FreeArray(dptr: Ptr, ghost s: Store, ghost k: nat)
      requires Ok(s) && ItemOk(s, k) && dptr == s.items[k] && qset == s.qset
      requires Remains(s, k, 0, true)
      modifies `heap, `owner, `freed
      ensures Remains(s, k, qset, false) && Accounted() == old(Accounted())
      ensures dptr in heap && heap[dptr].Item? && heap[dptr].next == s.heap[dptr].next
    {
      assert dptr in heap && heap[dptr] == s.heap[dptr];
      var d := heap[dptr].data;
      if d != NULL {
        FreeQuanta(d, qset, s, k);
        assert s.owner[d] == ArrayAt(k) && d in heap;
        Kfree(d);
        heap := heap[dptr := heap[dptr].(data := NULL)];
      }
      RestGone(s, k);
    }

    /** Frees one item with its array and quanta, and names the next item, read before the block is gone. */
    method FreeItem(dptr: Ptr, ghost s: Store, ghost k: nat) returns (next: Ptr)
      requires Ok(s) && k < |s.items| && dptr == s.items[k] && qset == s.qset
      requires Remains(s, k, 0, true)
      modifies `heap, `owner, `freed
      ensures Remains(s, k + 1, 0, true) && Accounted() == old(Accounted())
      ensures next == if k + 1 < |s.items| then s.items[k + 1] else NULL
    {
      NextIsItem(s, k);
      FreeArray(dptr, s, k);
      RestGone(s, k);
      next := heap[dptr].next;
      Kfree(dptr);
    }

    /** The walk over the list. */
    method FreeItems()
      requires Valid()
      modifies `heap, `owner, `freed
      ensures heap == map[] && owner == map[] && Accounted() == old(Accounted())
    {
      ghost var s, k, total := St(), 0, Accounted();
      var dptr := data;
      LastIsItem(s);
      while dptr != NULL
        invariant 0 <= k <= |s.items| && dptr == (if k < |s.items| then s.items[k] else NULL)
        invariant Remains(s, k, 0, true) && Accounted() == total
        decreases |s.items| - k
      {
        dptr := FreeItem(dptr, s, k);
        k := k + 1;
      }
      if k < |s.items| {
        NextIsItem(s, k);
      }
      AllInList(s);
      assert heap.Keys == {};
    }

    /** scull_trim: the walk frees every block exactly once, and the device starts empty with new sizes. */
    method Trim(newQuantum: nat, newQset: nat)
      requires Valid() && Sizes(newQuantum, newQset)
      modifies this
      ensures Valid() && heap == map[] && items == [] && size == 0
      ensures quantum == newQuantum && qset == newQset
      ensures freed == old(freed) + multiset(old(heap).Keys)
    {
      FreeItems();
      assert freed == Accounted();
      size, quantum, qset, data := 0, newQuantum, newQset, NULL;
      items := [];
    }
  }
}
