/**
  Lazy synchronisation of the kernel part of the page tables (32-bit): every
  process table copies middle entries from the reference table when it first
  needs them, or all at once.
 */
module PageTables {
  import opened Arith

  /** A middle-level entry: absent, or the page it points to. */
  datatype Entry = Absent | Page(page: int)

  const WORD: int := 0x1_0000_0000   // addresses are 32 bits and wrap here

  /** What the configuration fixes: the size mapped by one entry, and the borders. */
  datatype Layout = Layout(pmdSize: nat, taskSize: nat, vmallocStart: nat, vmallocEnd: nat, fixaddrTop: nat,
                           sharedKernelPmd: bool)
  {
    ghost predicate Valid() {
      && 0 < pmdSize < WORD && WORD % pmdSize == 0
      && 0 < taskSize && taskSize <= vmallocStart - vmallocStart % pmdSize
      && vmallocStart <= vmallocEnd < WORD && fixaddrTop < WORD
    }

    function Index(address: nat): nat
      requires 0 < pmdSize
    {
      address / pmdSize
    }

    /** Entry i lies in the range that vmalloc_sync_all walks. */
    predicate InRange(i: nat)
      requires 0 < pmdSize
    {
      Index(vmallocStart) <= i && i * pmdSize < fixaddrTop
    }
  }

  /** A process table is a partial copy of the reference. */
  ghost predicate Agree(ref: seq<Entry>, table: seq<Entry>) {
    |table| == |ref| && forall i :: 0 <= i < |ref| ==> table[i] == Absent || table[i] == ref[i]
  }

  /** The reference, with the presence of the two upper levels above each entry, and the table of every
      process. */
  datatype State = State(upper: seq<bool>, ref: seq<Entry>, tables: seq<seq<Entry>>)
  {
    /** Every process entry is absent or equal to the reference, whose entries have their upper levels. */
    ghost predicate Consistent(l: Layout) {
      && l.Valid() && |upper| == |ref| == WORD / l.pmdSize
      && (forall i :: 0 <= i < |ref| ==> EntryReachable(i))
      && (forall k :: 0 <= k < |tables| ==> Agree(ref, tables[k]))
    }

    ghost predicate EntryReachable(i: nat)
      requires i < |upper| == |ref|
    {
      ref[i].Page? ==> upper[i]
    }

    /** The reference has an entry to copy. */
    predicate Reachable(i: nat)
      requires i < |upper| == |ref|
    {
      upper[i] && ref[i].Page?
    }

    /** One table with one entry brought up to date, if there is anything to copy. */
    function Copied(k: nat, i: nat): seq<Entry>
      requires k < |tables| && i < |upper| == |ref| == |tables[k]|
    {
      if Reachable(i) then tables[k][i := ref[i]] else tables[k]
    }

    /** One table brought up to date over the whole range. */
    function Synced(l: Layout, k: nat): (t: seq<Entry>)
      requires 0 < l.pmdSize && k < |tables| && |upper| == |ref| == |tables[k]|
      ensures |t| == |ref|
    {
      seq(|ref|, i requires 0 <= i < |ref| => if l.InRange(i) && Reachable(i) then ref[i] else tables[k][i])
    }
  }

  // ----- what every step keeps -----

  datatype Op =
    | SyncAll
    | Fault(k: nat, address: nat)
    | Populate(i: nat, page: int)       // the reference gets a new entry
    | NewTable(copied: set<nat>)        // a new process starts with some of its entries

  /** Copying one entry keeps the tables consistent. */
  lemma CopiedKeeps(l: Layout, s: State, k: nat, i: nat)
    requires s.Consistent(l) && k < |s.tables| && i < |s.ref|
    ensures |s.tables[k]| == |s.ref| && s.(tables := s.tables[k := s.Copied(k, i)]).Consistent(l)
    ensures s.tables[k][i] == s.ref[i] ==> s.Copied(k, i) == s.tables[k]
  {
    assert Agree(s.ref, s.tables[k]);
    var r := s.(tables := s.tables[k := s.Copied(k, i)]);
    forall j | 0 <= j < |r.tables| ensures Agree(r.ref, r.tables[j]) {
      assert Agree(s.ref, s.tables[j]);
    }
    forall j | 0 <= j < |r.ref| ensures r.EntryReachable(j) {
      assert s.EntryReachable(j);
    }
  }

  function AllSynced(l: Layout, s: State): (r: State)
    requires s.Consistent(l)
    ensures r.Consistent(l)
  {
    assert forall k :: 0 <= k < |s.tables| ==> Agree(s.ref, s.tables[k]);
    var tables := seq(|s.tables|, k requires 0 <= k < |s.tables| => s.Synced(l, k));
    SyncedKeeps(l, s, tables);
    s.(tables := tables)
  }

  lemma SyncedKeeps(l: Layout, s: State, tables: seq<seq<Entry>>)
    requires s.Consistent(l) && |tables| == |s.tables|
    requires forall k :: 0 <= k < |tables| ==> |s.tables[k]| == |s.ref| && tables[k] == s.Synced(l, k)
    ensures s.(tables := tables).Consistent(l)
  {
    var r := s.(tables := tables);
    forall k | 0 <= k < |r.tables| ensures Agree(r.ref, r.tables[k]) {
      assert Agree(s.ref, s.tables[k]);
    }
    forall j | 0 <= j < |r.ref| ensures r.EntryReachable(j) {
      assert s.EntryReachable(j);
    }
  }

  function Populated(l: Layout, s: State, i: nat, page: int): (r: State)
    requires s.Consistent(l) && i < |s.ref| && s.ref[i] == Absent
    ensures r.Consistent(l)
  {
    PopulatedKeeps(l, s, i, page);
    s.(ref := s.ref[i := Page(page)], upper := s.upper[i := true])
  }

  lemma PopulatedKeeps(l: Layout, s: State, i: nat, page: int)
    requires s.Consistent(l) && i < |s.ref| && s.ref[i] == Absent
    ensures s.(ref := s.ref[i := Page(page)], upper := s.upper[i := true]).Consistent(l)
  {
    var r := s.(ref := s.ref[i := Page(page)], upper := s.upper[i := true]);
    forall k | 0 <= k < |r.tables| ensures Agree(r.ref, r.tables[k]) {
      assert Agree(s.ref, s.tables[k]);
    }
    forall j | 0 <= j < |r.ref| ensures r.EntryReachable(j) {
      assert s.EntryReachable(j);
    }
  }

  function Started(l: Layout, s: State, copied: set<nat>): (r: State)
    requires s.Consistent(l)
    ensures r.Consistent(l)
  {
    var table := seq(|s.ref|, i requires 0 <= i < |s.ref| => if i in copied then s.ref[i] else Absent);
    StartedKeeps(l, s, table);
    s.(tables := s.tables + [table])
  }

  lemma StartedKeeps(l: Layout, s: State, table: seq<Entry>)
    requires s.Consistent(l) && Agree(s.ref, table)
    ensures s.(tables := s.tables + [table]).Consistent(l)
  {
    var r := s.(tables := s.tables + [table]);
    forall k | 0 <= k < |r.tables| ensures Agree(r.ref, r.tables[k]) {
      assert k < |s.tables| ==> Agree(s.ref, s.tables[k]);
    }
    forall j | 0 <= j < |r.ref| ensures r.EntryReachable(j) {
      assert s.EntryReachable(j);
    }
  }

  /** One step; a step that names what is not there changes nothing. */
  function Apply(l: Layout, s: State, op: Op): (r: State)
    requires s.Consistent(l)
    ensures r.Consistent(l)
  {
    match op
    case SyncAll => if l.sharedKernelPmd then s else AllSynced(l, s)
    case Fault(k, address) =>
      if k < |s.tables| && l.vmallocStart <= address < l.vmallocEnd then
        DivBelow(address, WORD, l.pmdSize);
        CopiedKeeps(l, s, k, l.Index(address));
        s.(tables := s.tables[k := s.Copied(k, l.Index(address))])
      else s
    case Populate(i, page) => if i < |s.ref| && s.ref[i] == Absent then Populated(l, s, i, page) else s
    case NewTable(copied) => Started(l, s, copied)
  }

  function Run(l: Layout, s: State, ops: seq<Op>): (r: State)
    requires s.Consistent(l)
    ensures r.Consistent(l)
  {
    if ops == [] then s else Apply(l, Run(l, s, ops[..|ops| - 1]), ops[|ops| - 1])
  }

  /** Before any process has a table. */
  function Boot(upper: seq<bool>, ref: seq<Entry>): State {
    State(upper, ref, [])
  }

  ghost predicate Bootable(l: Layout, upper: seq<bool>, ref: seq<Entry>) {
    && l.Valid() && |upper| == |ref| == WORD / l.pmdSize
    && forall i :: 0 <= i < |ref| ==> Boot(upper, ref).EntryReachable(i)
  }

  /** In every state reached from boot every process entry is absent or equal to the reference, so the
      comparison of an entry that is present never fails. */
  lemma RunAgrees(l: Layout, upper: seq<bool>, ref: seq<Entry>, ops: seq<Op>, k: nat, i: nat)
    requires Bootable(l, upper, ref)
    ensures Boot(upper, ref).Consistent(l)
    ensures var s := Run(l, Boot(upper, ref), ops);
            k < |s.tables| && i < |s.ref| ==>
              |s.tables[k]| == |s.ref| && (s.tables[k][i] == Absent || s.tables[k][i] == s.ref[i])
  {
    var s := Run(l, Boot(upper, ref), ops);
    if k < |s.tables| {
      assert Agree(s.ref, s.tables[k]);
    }
  }

  /** What a table holds it keeps. */
  lemma StepKeepsEntry(l: Layout, s: State, op: Op, k: nat, i: nat)
    requires s.Consistent(l) && k < |s.tables| && i < |s.ref|
    ensures |Apply(l, s, op).tables| >= |s.tables| && |s.tables[k]| == |Apply(l, s, op).tables[k]| == |s.ref|
    ensures s.tables[k][i] != Absent ==> Apply(l, s, op).tables[k][i] == s.tables[k][i]
  {
    assert Agree(s.ref, s.tables[k]);
    assert Agree(Apply(l, s, op).ref, Apply(l, s, op).tables[k]);
  }

  /** A sync right after any run leaves every table equal to the reference over the whole range. */
  lemma SyncedAgrees(l: Layout, s: State, k: nat, i: nat)
    requires s.Consistent(l) && !l.sharedKernelPmd && k < |s.tables| && i < |s.ref| && l.InRange(i)
    ensures Apply(l, s, SyncAll).ref == s.ref && |Apply(l, s, SyncAll).tables| == |s.tables|
    ensures |Apply(l, s, SyncAll).tables[k]| == |s.ref| && Apply(l, s, SyncAll).tables[k][i] == s.ref[i]
  {
    assert Agree(s.ref, s.tables[k]) && s.EntryReachable(i);
    assert Apply(l, s, SyncAll).tables[k] == s.Synced(l, k);
  }

  /** A table that was k in state s is up to date from entry first up to entry n. */
  ghost predicate PartlySynced(s: State, k: nat, table: seq<Entry>, first: nat, n: nat) {
    && k < |s.tables| && |table| == |s.tables[k]| == |s.ref| == |s.upper|
    && forall i :: 0 <= i < |table| ==>
         table[i] == if first <= i < n && s.Reachable(i) then s.ref[i] else s.tables[k][i]
  }

  /** Tables that are up to date over the whole range are what a sync leaves. */
  lemma RangeSynced(l: Layout, s: State, tables: seq<seq<Entry>>, first: nat, n: nat)
    requires s.Consistent(l) && !l.sharedKernelPmd && |tables| == |s.tables|
    requires forall k :: 0 <= k < |tables| ==> PartlySynced(s, k, tables[k], first, n)
    requires forall i :: 0 <= i < |s.ref| ==> (l.InRange(i) <==> first <= i < n)
    ensures tables == Apply(l, s, SyncAll).tables
    ensures forall k, i :: 0 <= k < |tables| && 0 <= i < |s.ref| && l.InRange(i) ==>
                             |tables[k]| == |s.ref| && tables[k][i] == s.ref[i]
  {
    forall k | 0 <= k < |tables| ensures tables[k] == Apply(l, s, SyncAll).tables[k] {
      assert PartlySynced(s, k, tables[k], first, n);
    }
    forall k, i | 0 <= k < |tables| && 0 <= i < |s.ref| && l.InRange(i)
      ensures |tables[k]| == |s.ref| && tables[k][i] == s.ref[i]
    {
      SyncedAgrees(l, s, k, i);
    }
  }

  // ----- the code -----

  class Mm {
    const l: Layout
    var upper: seq<bool>
    var ref: seq<Entry>
    var tables: seq<seq<Entry>>

    function St(): State
      reads this
    {
      State(upper, ref, tables)
    }

    ghost predicate Valid()
      reads this
    {
      St().Consistent(l)
    }

    constructor (l: Layout, upper: seq<bool>, ref: seq<Entry>)
      requires Bootable(l, upper, ref)
      ensures Valid() && this.l == l && St() == Boot(upper, ref)
    {
      this.l, this.upper, this.ref, tables := l, upper, ref, [];
      new;
      assert St() == Boot(upper, ref);
    }

    lemma InTable(address: nat)
      requires l.Valid() && address < WORD
      ensures l.Index(address) < WORD / l.pmdSize
    {
      DivBelow(address, WORD, l.pmdSize);
    }

    /** vmalloc_sync_one: false if there is nothing to copy. */
    method SyncOne(k: nat, address: nat) returns (found: bool)
      requires Valid() && k < |tables| && address < WORD
      modifies `tables
      ensures Valid() && l.Index(address) < |ref| && |old(tables[k])| == |ref|
      ensures found <==> St().Reachable(l.Index(address))
      ensures tables == old(tables)[k := old(St()).Copied(k, l.Index(address))]
    {
      InTable(address);
      var index := l.Index(address);
      CopiedKeeps(l, St(), k, index);
      assert Agree(ref, tables[k]);
      if !upper[index] {
        return false;
      }
      if ref[index] == Absent {
        return false;
      }
      if tables[k][index] == Absent {
        tables := tables[k := tables[k][index := ref[index]]];
      } else {
        assert tables[k][index] == ref[index];  // the BUG_ON
      }
      return true;
    }

    /** One round of vmalloc_sync_all: all tables at one address, stopping at the first that finds
        nothing, because then none will. */
    method SyncRound(address: nat)
      requires Valid() && address < WORD
      modifies `tables
      ensures Valid() && |tables| == |old(tables)| && l.Index(address) < |ref|
      ensures forall k :: 0 <= k < |tables| ==>
                |old(tables[k])| == |ref| && tables[k] == old(St()).Copied(k, l.Index(address))
    {
      InTable(address);
      ghost var i, s := l.Index(address), St();
      assert forall j :: 0 <= j < |tables| ==> Agree(ref, tables[j]);
      var k := 0;
      while k < |tables|
        invariant 0 <= k <= |tables| == |s.tables| && Valid()
        invariant k > 0 ==> s.Reachable(i)
        invariant forall j :: 0 <= j < k ==> tables[j] == s.Copied(j, i)
        invariant forall j :: k <= j < |tables| ==> tables[j] == s.tables[j]
      {
        var found := SyncOne(k, address);
        if !found {
          break;
        }
        k := k + 1;
      }
    }

    /** vmalloc_sync_all. The address wraps like a 32-bit word, and the test against the user limit ends the
        loop then. */
    method SyncAll()
      requires Valid()
      modifies `tables
      ensures Valid() && St() == Apply(l, old(St()), Op.SyncAll)
      ensures !l.sharedKernelPmd ==>
                forall k, i :: 0 <= k < |tables| && 0 <= i < |ref| && l.InRange(i) ==>
                  |tables[k]| == |ref| && tables[k][i] == ref[i]
    {
      if l.sharedKernelPmd {
        return;
      }
      ghost var s := St();
      assert forall k :: 0 <= k < |tables| ==> Agree(ref, tables[k]);
      var address: nat := l.vmallocStart - l.vmallocStart % l.pmdSize;
      ghost var first := l.Index(l.vmallocStart);
      ghost var n := first;
      InTable(l.vmallocStart);
      DivMod(l.vmallocStart, l.pmdSize);
      assert address == first * l.pmdSize;
      while address >= l.taskSize && address < l.fixaddrTop
        invariant Valid() && |tables| == |s.tables| && first <= n <= |ref|
        invariant address == if n < |ref| then n * l.pmdSize else 0
        invariant ref == s.ref && upper == s.upper
        invariant forall k :: 0 <= k < |tables| ==> PartlySynced(s, k, tables[k], first, n)
        invariant forall i :: first <= i < n ==> l.InRange(i)
        decreases |ref| - n
      {
        DivUnique(n * l.pmdSize, l.pmdSize, n, 0);
        ghost var before := tables;
        SyncRound(address);
        forall k | 0 <= k < |tables| ensures PartlySynced(s, k, tables[k], first, n + 1) {
          assert PartlySynced(s, k, before[k], first, n);
        }
        NextEntry(n, l.pmdSize);
        address := (address + l.pmdSize) % WORD;
        n := n + 1;
      }
      RangeEnds(l, first, n, |ref|);
      RangeSynced(l, s, tables, first, n);
    }

    /** vmalloc_fault: 0 if the fault is repaired. pteThere: the last level is present. */
    method Fault(k: nat, address: nat, pteThere: bool) returns (res: int)
      requires Valid() && k < |tables| && address < WORD
      modifies `tables
      ensures Valid() && l.Index(address) < |ref| && St() == Apply(l, old(St()), Op.Fault(k, address))
      ensures res == if l.vmallocStart <= address < l.vmallocEnd && St().Reachable(l.Index(address)) && pteThere then 0
                     else -1
      ensures address / l.pmdSize < |upper|
      ensures res == 0 <==> l.vmallocStart <= address < l.vmallocEnd && pteThere
                            && upper[address / l.pmdSize] && ref[address / l.pmdSize] != Absent
      ensures res == 0 ==> |tables[k]| == |ref| && tables[k][l.Index(address)] == ref[l.Index(address)] != Absent
    {
      InTable(address);
      if !(address >= l.vmallocStart && address < l.vmallocEnd) {
        return -1;
      }
      var found := SyncOne(k, address);
      if !found {
        return -1;
      }
      if !pteThere {
        return -1;
      }
      return 0;
    }
  }

  lemma DivBelow(a: nat, b: nat, d: nat)
    requires 0 < d && a < b && b % d == 0
    ensures a / d < b / d
  {
    DivMod(a, d);
    DivMod(b, d);
    MulMonotone(b / d, a / d, d);
  }

  /** The next entry's address, or 0 past the last. */
  lemma NextEntry(n: nat, d: nat)
    requires 0 < d && WORD % d == 0 && n < WORD / d
    ensures (n * d + d) % WORD == if n + 1 < WORD / d then (n + 1) * d else 0
  {
    DivMod(WORD, d);
    assert n * d + d == (n + 1) * d;
    if n + 1 < WORD / d {
      assert (n + 1) * d < (WORD / d) * d;
    } else {
      assert (n + 1) * d == WORD;
    }
  }

  /** The loop stops at the end of the range and not before. */
  lemma RangeEnds(l: Layout, first: nat, n: nat, size: nat)
    requires l.Valid() && first == l.Index(l.vmallocStart) && size == WORD / l.pmdSize && first <= n <= size
    requires n < size ==> !(n * l.pmdSize >= l.taskSize && n * l.pmdSize < l.fixaddrTop)
    ensures forall i :: n <= i < size ==> !l.InRange(i)
  {
    if n < size {
      forall i | n <= i < size ensures !l.InRange(i) {
        PastRange(l, first, n, i);
      }
    }
  }

  lemma PastRange(l: Layout, first: nat, n: nat, i: nat)
    requires l.Valid() && first == l.Index(l.vmallocStart) && first <= n <= i
    requires !(n * l.pmdSize >= l.taskSize && n * l.pmdSize < l.fixaddrTop)
    ensures !l.InRange(i)
  {
    DivMod(l.vmallocStart, l.pmdSize);
    MulMonotone(first, n, l.pmdSize);
    MulMonotone(n, i, l.pmdSize);
  }

  // ----- every operation, entry by entry -----

  /** A sync copies each entry of the range that the reference has, upper levels included, and nothing else. The
      range is from the block of the first vmalloc address up to the last block that begins below the top. */
  lemma SyncedEntry(l: Layout, s: State, k: nat, i: nat)
    requires s.Consistent(l) && k < |s.tables| && i < |s.ref|
    ensures var t := Apply(l, s, SyncAll);
            && t.ref == s.ref && t.upper == s.upper && |t.tables| == |s.tables|
            && |s.tables[k]| == |t.tables[k]| == |s.ref|
            && t.tables[k][i] == if && !l.sharedKernelPmd && s.upper[i] && s.ref[i] != Absent
                                    && l.vmallocStart / l.pmdSize <= i && i * l.pmdSize < l.fixaddrTop
                                 then s.ref[i] else s.tables[k][i]
  {
    assert Agree(s.ref, s.tables[k]);
    if !l.sharedKernelPmd {
      assert Apply(l, s, SyncAll).tables[k] == s.Synced(l, k);
    }
  }

  /** So after it every table has, for every address from the first of vmalloc up to the top, the entry that the
      reference has; entry i is the one whose block holds the address. */
  lemma SyncedAddress(l: Layout, s: State, k: nat, address: nat, i: nat)
    requires s.Consistent(l) && !l.sharedKernelPmd && k < |s.tables|
    requires l.vmallocStart <= address < l.fixaddrTop && i * l.pmdSize <= address < (i + 1) * l.pmdSize
    ensures i < |s.ref|
    ensures var t := Apply(l, s, SyncAll);
            |t.tables| == |s.tables| && |t.tables[k]| == |s.ref| && t.tables[k][i] == s.ref[i]
  {
    assert (i + 1) * l.pmdSize == i * l.pmdSize + l.pmdSize;
    DivUnique(address, l.pmdSize, i, address - i * l.pmdSize);
    DivBelow(address, WORD, l.pmdSize);
    DivMono(l.vmallocStart, address, l.pmdSize);
    SyncedAgrees(l, s, k, i);
  }

  lemma DivMono(a: nat, b: nat, d: nat)
    requires 0 < d && a <= b
    ensures a / d <= b / d
  {
    DivMod(a, d);
    DivMod(b, d);
    if b / d < a / d {
      MulMonotone(b / d + 1, a / d, d);
    }
  }

  /** A fault copies the one entry its address falls on, in the one table, if the address is in the vmalloc area and
      the reference has the entry, upper levels included. */
  lemma FaultEntry(l: Layout, s: State, k: nat, address: nat, j: nat, i: nat)
    requires s.Consistent(l) && k < |s.tables| && j < |s.tables| && i < |s.ref|
    ensures var t := Apply(l, s, Fault(k, address));
            && t.ref == s.ref && t.upper == s.upper && |t.tables| == |s.tables|
            && |s.tables[j]| == |t.tables[j]| == |s.ref|
            && t.tables[j][i] == if j == k && l.vmallocStart <= address < l.vmallocEnd && i == address / l.pmdSize
                                    && s.upper[i] && s.ref[i] != Absent
                                 then s.ref[i] else s.tables[j][i]
  {
    assert Agree(s.ref, s.tables[k]) && Agree(s.ref, s.tables[j]);
    if l.vmallocStart <= address < l.vmallocEnd {
      DivBelow(address, WORD, l.pmdSize);
    }
  }
}
