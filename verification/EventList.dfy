/**
  The system calls on the linked list of events, against the model: every call but one is
  exactly a step of the model, and the one that closes the newest event leaves a pointer
  to a block that is gone.
 */
module EventList {
  import opened EventModel

  type Ptr = nat

  const NULL: Ptr := 0

  datatype Node = Node(event: Event, next: Ptr)

  // ----- the list in memory -----

  ghost predicate NodeOk(heap: map<Ptr, Node>, nodes: seq<Ptr>, k: nat) {
    && k < |nodes| && nodes[k] in heap && nodes[k] != NULL
    && heap[nodes[k]].next == if k + 1 < |nodes| then nodes[k + 1] else NULL
  }

  ghost predicate Linked(heap: map<Ptr, Node>, nodes: seq<Ptr>) {
    && (forall k {:trigger NodeOk(heap, nodes, k)} :: 0 <= k < |nodes| ==> NodeOk(heap, nodes, k))
    && (forall i, j {:trigger Differ(nodes, i, j)} :: 0 <= i < j < |nodes| ==> Differ(nodes, i, j))
    && forall p {:trigger Listed(nodes, p)} :: p in heap ==> Listed(nodes, p)
  }

  ghost predicate Differ(nodes: seq<Ptr>, i: nat, j: nat) {
    i < |nodes| && j < |nodes| && nodes[i] != nodes[j]
  }

  ghost predicate Listed(nodes: seq<Ptr>, p: Ptr) {
    p in nodes
  }

  ghost function Events(heap: map<Ptr, Node>, nodes: seq<Ptr>): (m: seq<Event>)
    requires forall k {:trigger NodeOk(heap, nodes, k)} :: 0 <= k < |nodes| ==> NodeOk(heap, nodes, k)
    ensures |m| == |nodes|
  {
    seq(|nodes|, k requires 0 <= k < |nodes| => assert NodeOk(heap, nodes, k); heap[nodes[k]].event)
  }

  /** The first position with the number is its index. */
  lemma FirstIndex(m: seq<Event>, k: nat, num: int)
    requires k <= |m| && (forall j :: 0 <= j < k ==> m[j].num != num) && (k < |m| ==> m[k].num == num)
    ensures IndexOf(m, num) == k
  {
    var i := IndexOf(m, num);
    assert !(i < k) && !(k < i);
  }

  /** Changing an event in place keeps the list, and changes the model at that position. */
  lemma Updated(heap: map<Ptr, Node>, nodes: seq<Ptr>, k: nat, e: Event)
    requires Linked(heap, nodes) && NodeOk(heap, nodes, k)
    ensures var after := heap[nodes[k] := heap[nodes[k]].(event := e)];
            Linked(after, nodes) && Events(after, nodes) == Events(heap, nodes)[k := e]
  {
    var after := heap[nodes[k] := heap[nodes[k]].(event := e)];
    forall j | 0 <= j < |nodes| ensures NodeOk(after, nodes, j) {
      assert NodeOk(heap, nodes, j);
    }
    forall j | 0 <= j < |nodes| ensures Events(after, nodes)[j] == Events(heap, nodes)[k := e][j] {
      assert NodeOk(heap, nodes, j) && NodeOk(after, nodes, j);
      assert j < k ==> Differ(nodes, j, k);
      assert k < j ==> Differ(nodes, k, j);
    }
    forall p | p in after ensures Listed(nodes, p) {
      assert p in heap;
    }
  }

  /** Hanging a new node behind the last one keeps the list. */
  lemma Hung(heap: map<Ptr, Node>, nodes: seq<Ptr>, p: Ptr, e: Event)
    requires Linked(heap, nodes) && p !in heap && p != NULL
    requires nodes != [] ==> NodeOk(heap, nodes, |nodes| - 1)
    ensures var linked := if nodes == [] then heap
                          else heap[nodes[|nodes| - 1] := heap[nodes[|nodes| - 1]].(next := p)];
            var after := linked[p := Node(e, NULL)];
            Linked(after, nodes + [p]) && Events(after, nodes + [p]) == Events(heap, nodes) + [e]
  {
    var linked := if nodes == [] then heap
                  else heap[nodes[|nodes| - 1] := heap[nodes[|nodes| - 1]].(next := p)];
    var after := linked[p := Node(e, NULL)];
    var longer := nodes + [p];
    forall j | 0 <= j < |longer| ensures NodeOk(after, longer, j) {
      if j < |nodes| {
        assert NodeOk(heap, nodes, j);
        assert j < |nodes| - 1 ==> Differ(nodes, j, |nodes| - 1);
      }
    }
    forall i, j | 0 <= i < j < |longer| ensures Differ(longer, i, j) {
      assert NodeOk(heap, nodes, i);
      assert j < |nodes| ==> Differ(nodes, i, j);
    }
    forall q | q in after ensures Listed(longer, q) {
      assert q == p || Listed(nodes, q);
      assert longer[|nodes|] == p;
    }
    forall j | 0 <= j < |nodes| ensures nodes[j] != p && Events(after, longer)[j] == Events(heap, nodes)[j] {
      assert NodeOk(heap, nodes, j) && NodeOk(after, longer, j);
    }
    assert NodeOk(after, longer, |nodes|);
  }

  /** The heap once node k is bypassed and given back. */
  ghost function Without(heap: map<Ptr, Node>, nodes: seq<Ptr>, k: nat): map<Ptr, Node>
    requires k + 1 < |nodes| && (k > 0 ==> NodeOk(heap, nodes, k - 1))
  {
    (if k == 0 then heap else heap[nodes[k - 1] := heap[nodes[k - 1]].(next := nodes[k + 1])]) - {nodes[k]}
  }

  lemma StillOk(heap: map<Ptr, Node>, nodes: seq<Ptr>, k: nat, j: nat)
    requires Linked(heap, nodes) && k + 1 < |nodes| && (k > 0 ==> NodeOk(heap, nodes, k - 1)) && j < |nodes| - 1
    ensures NodeOk(Without(heap, nodes, k), nodes[..k] + nodes[k + 1..], j)
    ensures Without(heap, nodes, k)[(nodes[..k] + nodes[k + 1..])[j]].event
            == heap[nodes[if j < k then j else j + 1]].event
  {
    var was := if j < k then j else j + 1;
    assert NodeOk(heap, nodes, was);
    assert was < k ==> Differ(nodes, was, k);
    assert k < was ==> Differ(nodes, k, was);
    assert was + 1 < k ==> Differ(nodes, was, k - 1);
    assert k < was && k > 0 ==> Differ(nodes, k - 1, was);
  }

  /** Taking out a node that is not the last keeps the list. */
  lemma UnlinkedOk(heap: map<Ptr, Node>, nodes: seq<Ptr>, k: nat)
    requires Linked(heap, nodes) && k + 1 < |nodes| && (k > 0 ==> NodeOk(heap, nodes, k - 1))
    ensures Linked(Without(heap, nodes, k), nodes[..k] + nodes[k + 1..])
  {
    var after := Without(heap, nodes, k);
    var shorter := nodes[..k] + nodes[k + 1..];
    forall j | 0 <= j < |shorter| ensures NodeOk(after, shorter, j) {
      StillOk(heap, nodes, k, j);
    }
    forall p | p in after ensures Listed(shorter, p) {
      assert p in heap && Listed(nodes, p);
      var j :| 0 <= j < |nodes| && nodes[j] == p;
      assert shorter[if j < k then j else j - 1] == p;
    }
    forall i, j | 0 <= i < j < |shorter| ensures Differ(shorter, i, j) {
      assert Differ(nodes, if i < k then i else i + 1, if j < k then j else j + 1);
    }
  }

  lemma Unlinked(heap: map<Ptr, Node>, nodes: seq<Ptr>, k: nat)
    requires Linked(heap, nodes) && k + 1 < |nodes| && (k > 0 ==> NodeOk(heap, nodes, k - 1))
    ensures var shorter := nodes[..k] + nodes[k + 1..];
            Linked(Without(heap, nodes, k), shorter)
            && Events(Without(heap, nodes, k), shorter) == Events(heap, nodes)[..k] + Events(heap, nodes)[k + 1..]
  {
    UnlinkedOk(heap, nodes, k);
    var after := Without(heap, nodes, k);
    var shorter := nodes[..k] + nodes[k + 1..];
    forall j | 0 <= j < |shorter|
      ensures Events(after, shorter)[j] == Events(heap, nodes)[if j < k then j else j + 1]
    {
      StillOk(heap, nodes, k, j);
    }
  }

  /** Some pointer of the list leads to a block that is gone. */
  ghost predicate Dangles(heap: map<Ptr, Node>, head: Ptr) {
    (head != NULL && head !in heap) || exists p :: p in heap && heap[p].next != NULL && heap[p].next !in heap
  }

  lemma LinkedNeverDangles(heap: map<Ptr, Node>, nodes: seq<Ptr>)
    requires Linked(heap, nodes)
    ensures !Dangles(heap, if nodes == [] then NULL else nodes[0])
  {
    if nodes != [] {
      assert NodeOk(heap, nodes, 0);
    }
    forall p | p in heap ensures heap[p].next == NULL || heap[p].next in heap {
      assert Listed(nodes, p);
      var k :| 0 <= k < |nodes| && nodes[k] == p;
      assert NodeOk(heap, nodes, k);
      if k + 1 < |nodes| {
        assert NodeOk(heap, nodes, k + 1);
      }
    }
  }

  lemma TailDangles(heap: map<Ptr, Node>, nodes: seq<Ptr>)
    requires Linked(heap, nodes) && nodes != []
    ensures Dangles(heap - {nodes[|nodes| - 1]}, nodes[0])
  {
    var last := nodes[|nodes| - 1];
    assert NodeOk(heap, nodes, |nodes| - 1);
    if |nodes| > 1 {
      assert NodeOk(heap, nodes, |nodes| - 2) && Differ(nodes, |nodes| - 2, |nodes| - 1);
      assert (heap - {last})[nodes[|nodes| - 2]].next == last;
    }
  }

  // ----- the system calls -----

  class Registry {
    var heap: map<Ptr, Node>
    var head: Ptr
    var end: Ptr
    ghost var nodes: seq<Ptr>

    ghost predicate Valid()
      reads this
    {
      && Linked(heap, nodes) && Inv(Events(heap, nodes))
      && head == (if nodes == [] then NULL else nodes[0])
      && end == (if nodes == [] then NULL else nodes[|nodes| - 1])
    }

    ghost function Model(): seq<Event>
      requires Valid()
      reads this
    {
      Events(heap, nodes)
    }

    constructor ()
      ensures Valid() && Model() == []
    {
      heap, head, end, nodes := map[], NULL, NULL, [];
    }

    /** scheventNum: the node with the number, and the one before it. */
    method Search(num: int) returns (tmp: Ptr, prev: Ptr)
      requires Valid()
      ensures var k := IndexOf(Model(), num);
              && tmp == (if k < |nodes| then nodes[k] else NULL)
              && (k < |nodes| ==> NodeOk(heap, nodes, k) && prev == if k == 0 then NULL else nodes[k - 1])
              && (tmp != NULL <==> Has(Model(), num))
    {
      tmp, prev := head, NULL;
      ghost var k := 0;
      if nodes != [] {
        assert NodeOk(heap, nodes, 0);
      }
      while tmp != NULL
        invariant 0 <= k <= |nodes|
        invariant tmp == (if k < |nodes| then nodes[k] else NULL) && (k < |nodes| ==> NodeOk(heap, nodes, k))
        invariant prev == if k == 0 then NULL else nodes[k - 1]
        invariant forall j :: 0 <= j < k ==> Model()[j].num != num
        decreases |nodes| - k
      {
        if heap[tmp].event.num == num {
          FirstIndex(Model(), k, num);
          return;
        }
        if k + 1 < |nodes| {
          assert NodeOk(heap, nodes, k + 1);
        }
        prev, tmp, k := tmp, heap[tmp].next, k + 1;
      }
      FirstIndex(Model(), k, num);
    }

    /** Appends a new event with the next even number. */
    method Create(value: int, p: Ptr) returns (r: int)
      requires Valid() && p != NULL && p !in heap
      modifies this
      ensures Valid() && Model() == Step(old(Model()), Call.Open(value)) && r == NextNum(old(Model()))
    {
      ghost var m := Model();
      if nodes != [] {
        assert NodeOk(heap, nodes, 0) && NodeOk(heap, nodes, |nodes| - 1);
      }
      r := if head == NULL then 2 else heap[end].event.num + 2;
      assert r == NextNum(m);
      Hung(heap, nodes, p, Event(r, value, []));
      StepKeeps(m, Call.Open(value));
      if head == NULL {
        head := p;
      } else {
        heap := heap[end := heap[end].(next := p)];
      }
      end := p;
      heap := heap[p := Node(Event(r, value, []), NULL)];
      nodes := nodes + [p];
    }

    /** sys_myevent_open: number 0 asks for a new event; p is the block the allocator gives. */
    method Open(num: int, value: int, p: Ptr) returns (r: int)
      requires Valid() && p != NULL && p !in heap
      modifies this
      ensures Valid()
      ensures var c := if num == 0 then Call.Open(value) else Find(num);
              Model() == Step(old(Model()), c) && r == Answer(old(Model()), c)
    {
      if num != 0 {
        var tmp, prev := Search(num);
        return if tmp == NULL then 0 else num;
      }
      r := Create(value, p);
    }

    /** sys_myevent_wait: takes a free unit, or puts the caller to sleep at the end of the queue. */
    method Wait(num: int, pid: Pid) returns (r: int, asleep: bool)
      requires Valid()
      modifies `heap
      ensures Valid() && Model() == Step(old(Model()), Call.Wait(num, pid))
      ensures r == Answer(old(Model()), Call.Wait(num, pid))
      ensures asleep <==> PutToSleep(old(Model()), Call.Wait(num, pid), num) != []
    {
      ghost var m := Model();
      var tmp, prev := Search(num);
      if tmp == NULL {
        return 0, false;
      }
      ghost var k := IndexOf(m, num);
      Updated(heap, nodes, k, Waited(m[k], pid));
      StepKeeps(m, Call.Wait(num, pid));
      var e := heap[tmp].event;
      if e.value > 0 {
        heap := heap[tmp := heap[tmp].(event := e.(value := e.value - 1))];
        return num, false;
      }
      heap := heap[tmp := heap[tmp].(event := e.(queue := e.queue + [pid]))];
      return num, true;
    }

    /** sys_myevent_signal: wakes the first sleeper, or frees a unit. */
    method Signal(num: int) returns (r: int, woken: seq<Pid>)
      requires Valid()
      modifies `heap
      ensures Valid() && Model() == Step(old(Model()), Call.Signal(num))
      ensures r == Answer(old(Model()), Call.Signal(num))
      ensures woken == Woken(old(Model()), Call.Signal(num), num)
    {
      ghost var m := Model();
      var tmp, prev := Search(num);
      if tmp == NULL {
        return 0, [];
      }
      ghost var k := IndexOf(m, num);
      Updated(heap, nodes, k, Signalled(m[k]));
      StepKeeps(m, Call.Signal(num));
      var e := heap[tmp].event;
      if e.queue == [] {
        heap := heap[tmp := heap[tmp].(event := e.(value := e.value + 1))];
        return num, [];
      }
      heap := heap[tmp := heap[tmp].(event := e.(queue := e.queue[1..]))];
      return num, e.queue[..1];
    }

    /** Takes a node that is not the last out of the list. */
    method TakeOut(releaseItem: Ptr, prev: Ptr, ghost k: nat)
      requires Valid() && k + 1 < |nodes| && releaseItem == nodes[k]
      requires prev == if k == 0 then NULL else nodes[k - 1]
      modifies this
      ensures Valid() && Model() == old(Model())[..k] + old(Model())[k + 1..]
    {
      assert NodeOk(heap, nodes, k);
      if k > 0 {
        assert NodeOk(heap, nodes, k - 1) && Differ(nodes, 0, k);
      }
      CloseKeeps(Model(), k);
      Unlinked(heap, nodes, k);
      if releaseItem == head {
        head := heap[head].next;
      } else {
        heap := heap[prev := heap[prev].(next := heap[releaseItem].next)];
      }
      heap := heap - {releaseItem};
      nodes := nodes[..k] + nodes[k + 1..];
    }

    /** sys_myevent_close: wakes every sleeper and gives the node back. The newest event's node is given
        back without being taken out of the list. */
    method Close(num: int) returns (r: int, woken: seq<Pid>)
      requires Valid()
      modifies this
      ensures r == Answer(old(Model()), Call.Close(num))
      ensures woken == if Has(old(Model()), num) then At(old(Model()), num).queue else []
      ensures Dangles(heap, head) <==> ClosesLast(old(Model()), Call.Close(num))
      ensures !ClosesLast(old(Model()), Call.Close(num)) ==> Valid() && Model() == Step(old(Model()), Call.Close(num))
    {
      ghost var k := IndexOf(Model(), num);
      LinkedNeverDangles(heap, nodes);
      var releaseItem, prev := Search(num);
      if releaseItem == NULL {
        return 0, [];
      }
      assert k < |nodes| - 1 ==> Differ(nodes, k, |nodes| - 1);
      woken := heap[releaseItem].event.queue;
      if releaseItem == end {
        end := prev;
        TailDangles(heap, nodes);
        heap := heap - {releaseItem};
      } else {
        TakeOut(releaseItem, prev, k);
        LinkedNeverDangles(heap, nodes);
      }
      return num, woken;
    }
  }
}
