/**
  The event semaphores as a list of events in the order of their numbers, each call
  one step. What a run does to one event is counted from the calls themselves.
 */
module EventModel {

  type Pid = nat

  /** One event: its number, its free units, and the processes asleep on it, longest first. */
  datatype Event = Event(num: int, value: int, queue: seq<Pid>)

  datatype Call = Open(value: int) | Find(num: int) | Wait(num: int, pid: Pid) | Signal(num: int) | Close(num: int)

  // ----- one call -----

  /** The position of a number in the list, or its length. */
  function IndexOf(m: seq<Event>, num: int): (k: nat)
    ensures k <= |m|
    ensures k < |m| ==> m[k].num == num
    ensures forall j :: 0 <= j < k ==> m[j].num != num
  {
    if m == [] then 0
    else if m[0].num == num then 0
    else
      var k := IndexOf(m[1..], num);
      assert forall j :: 0 < j < |m| ==> m[j] == m[1..][j - 1];
      k + 1
  }

  predicate Has(m: seq<Event>, num: int) {
    IndexOf(m, num) < |m|
  }

  function NextNum(m: seq<Event>): int {
    if m == [] then 2 else m[|m| - 1].num + 2
  }

  function Waited(e: Event, pid: Pid): Event {
    if e.value > 0 then e.(value := e.value - 1) else e.(queue := e.queue + [pid])
  }

  function Signalled(e: Event): Event {
    if e.queue == [] then e.(value := e.value + 1) else e.(queue := e.queue[1..])
  }

  /** The list after one call. Unknown numbers change nothing. */
  function Step(m: seq<Event>, c: Call): seq<Event> {
    match c
    case Open(value) => m + [Event(NextNum(m), value, [])]
    case Find(_) => m
    case Wait(num, pid) => var k := IndexOf(m, num); if k < |m| then m[k := Waited(m[k], pid)] else m
    case Signal(num) => var k := IndexOf(m, num); if k < |m| then m[k := Signalled(m[k])] else m
    case Close(num) => var k := IndexOf(m, num); if k < |m| then m[..k] + m[k + 1..] else m
  }

  /** What the call answers: the event's number, or 0. */
  function Answer(m: seq<Event>, c: Call): int {
    match c
    case Open(_) => NextNum(m)
    case Find(num) => if Has(m, num) then num else 0
    case Wait(num, _) => if Has(m, num) then num else 0
    case Signal(num) => if Has(m, num) then num else 0
    case Close(num) => if Has(m, num) then num else 0
  }

  /** The call closes the newest event, which the list does not survive. */
  predicate ClosesLast(m: seq<Event>, c: Call) {
    c.Close? && m != [] && IndexOf(m, c.num) == |m| - 1
  }

  // ----- the invariant -----

  /** Numbers are even, positive and strictly increasing; nobody sleeps while units are free. */
  ghost predicate Inv(m: seq<Event>) {
    Increasing(m) && forall i :: 0 <= i < |m| ==> EventOk(m[i])
  }

  ghost predicate Increasing(m: seq<Event>) {
    forall i, j :: 0 <= i < j < |m| ==> m[i].num < m[j].num
  }

  ghost predicate EventOk(e: Event) {
    e.num >= 2 && e.num % 2 == 0 && (e.queue != [] ==> e.value <= 0)
  }

  lemma StepKeeps(m: seq<Event>, c: Call)
    requires Inv(m)
    ensures Inv(Step(m, c))
  {
    match c
    case Open(value) => OpenKeeps(m, value);
    case Find(_) =>
    case Wait(num, pid) => UpdateKeeps(m, IndexOf(m, num), pid);
    case Signal(num) => UpdateKeeps(m, IndexOf(m, num), 0);
    case Close(num) => CloseKeeps(m, IndexOf(m, num));
  }

  lemma CloseKeeps(m: seq<Event>, k: nat)
    requires Inv(m)
    ensures k < |m| ==> Inv(m[..k] + m[k + 1..])
  {
    if k < |m| {
      var t := m[..k] + m[k + 1..];
      forall i | 0 <= i < |t| ensures EventOk(t[i]) {
        assert t[i] == m[if i < k then i else i + 1];
      }
      forall i, j | 0 <= i < j < |t| ensures t[i].num < t[j].num {
        assert t[i] == m[if i < k then i else i + 1] && t[j] == m[if j < k then j else j + 1];
      }
    }
  }

  lemma OpenKeeps(m: seq<Event>, value: int)
    requires Inv(m)
    ensures Inv(Step(m, Open(value)))
  {
    if m != [] {
      assert EventOk(m[|m| - 1]);
    }
  }

  lemma UpdateKeeps(m: seq<Event>, k: nat, pid: Pid)
    requires Inv(m)
    ensures k < |m| ==> Inv(m[k := Waited(m[k], pid)]) && Inv(m[k := Signalled(m[k])])
  {
    if k < |m| {
      assert EventOk(m[k]);
      assert EventOk(Waited(m[k], pid)) && EventOk(Signalled(m[k]));
    }
  }

  /** In a list with increasing numbers a position determines its number's index. */
  lemma IndexIs(m: seq<Event>, k: nat)
    requires Inv(m) && k < |m|
    ensures IndexOf(m, m[k].num) == k
  {
    var i := IndexOf(m, m[k].num);
    assert !(k < i);
  }

  // ----- runs -----

  function Run(m: seq<Event>, cs: seq<Call>): seq<Event>
    decreases |cs|
  {
    if cs == [] then m else Run(Step(m, cs[0]), cs[1..])
  }

  /** No call of the run closes the event that is newest when it is made. */
  predicate KeepsLast(m: seq<Event>, cs: seq<Call>)
    decreases |cs|
  {
    cs == [] || (!ClosesLast(m, cs[0]) && KeepsLast(Step(m, cs[0]), cs[1..]))
  }

  lemma {:induction false} RunKeeps(m: seq<Event>, cs: seq<Call>)
    requires Inv(m) && KeepsLast(m, cs)
    ensures Inv(Run(m, cs))
    decreases |cs|
  {
    if cs != [] {
      StepKeeps(m, cs[0]);
      RunKeeps(Step(m, cs[0]), cs[1..]);
    }
  }

  /** The numbers the run hands out. */
  function Issued(m: seq<Event>, cs: seq<Call>): seq<int>
    decreases |cs|
  {
    if cs == [] then []
    else (if cs[0].Open? then [Answer(m, cs[0])] else []) + Issued(Step(m, cs[0]), cs[1..])
  }

  lemma LastStays(m: seq<Event>, c: Call)
    requires Inv(m) && !ClosesLast(m, c)
    ensures NextNum(Step(m, c)) == if c.Open? then NextNum(m) + 2 else NextNum(m)
  {
  }

  /** The numbers handed out are new and strictly increasing, so none is handed out twice. */
  lemma {:induction false} NeverReissued(m: seq<Event>, cs: seq<Call>)
    requires Inv(m) && KeepsLast(m, cs)
    ensures forall i :: 0 <= i < |Issued(m, cs)| ==> Issued(m, cs)[i] >= NextNum(m)
    ensures forall i, j :: 0 <= i < j < |Issued(m, cs)| ==> Issued(m, cs)[i] < Issued(m, cs)[j]
    decreases |cs|
  {
    if cs != [] {
      StepKeeps(m, cs[0]);
      LastStays(m, cs[0]);
      NeverReissued(Step(m, cs[0]), cs[1..]);
    }
  }

  /** From nothing on, the numbers are 2, 4, 6 and so on, whatever else is called. */
  lemma {:induction false} IssuedEven(m: seq<Event>, cs: seq<Call>, k: nat)
    requires Inv(m) && KeepsLast(m, cs) && NextNum(m) == 2 * k
    ensures forall i :: 0 <= i < |Issued(m, cs)| ==> Issued(m, cs)[i] == 2 * (k + i)
    decreases |cs|
  {
    if cs != [] {
      StepKeeps(m, cs[0]);
      LastStays(m, cs[0]);
      IssuedEven(Step(m, cs[0]), cs[1..], if cs[0].Open? then k + 1 else k);
    }
  }

  lemma IssuedFromTwo(cs: seq<Call>, i: nat)
    requires KeepsLast([], cs) && i < |Issued([], cs)|
    ensures Issued([], cs)[i] == 2 * (i + 1)
  {
    IssuedEven([], cs, 1);
  }

  /** Every call but an opening answers the number it was given exactly if an event has it, and 0 otherwise. */
  lemma AnswersIff(m: seq<Event>, c: Call)
    requires !c.Open? && c.num != 0
    ensures Answer(m, c) == c.num <==> exists i :: 0 <= i < |m| && m[i].num == c.num
    ensures Answer(m, c) == 0 || Answer(m, c) == c.num
  {
    var k := IndexOf(m, c.num);
    if exists i :: 0 <= i < |m| && m[i].num == c.num {
      var i :| 0 <= i < |m| && m[i].num == c.num;
      assert !(i < k);
    }
  }

  /** A wait takes a unit if there is one, and otherwise queues the caller last; a signal wakes the first in the
      queue if there is one, and otherwise adds a unit. */
  lemma WaitAndSignal(m: seq<Event>, k: nat, pid: Pid)
    requires Inv(m) && k < |m|
    ensures var e, n := m[k], m[k].num;
            && Step(m, Wait(n, pid)) == m[k := if 0 < e.value then Event(n, e.value - 1, e.queue)
                                               else Event(n, e.value, e.queue + [pid])]
            && Step(m, Signal(n)) == m[k := if e.queue == [] then Event(n, e.value + 1, [])
                                            else Event(n, e.value, e.queue[1..])]
            && Step(m, Close(n)) == m[..k] + m[k + 1..]
  {
    IndexIs(m, k);
  }

  // ----- what a run does to one event -----

  /** Signals sent to the event. */
  function Signals(m: seq<Event>, cs: seq<Call>, num: int): nat
    decreases |cs|
  {
    if cs == [] then 0
    else (if cs[0] == Signal(num) && Has(m, num) then 1 else 0) + Signals(Step(m, cs[0]), cs[1..], num)
  }

  /** Waits on the event that ended: those that found a unit free, and those a signal woke. */
  function Completed(m: seq<Event>, cs: seq<Call>, num: int): nat
    decreases |cs|
  {
    if cs == [] then 0
    else
      (if (WaitsOn(cs[0], num) && Has(m, num) && m[IndexOf(m, num)].value > 0) || Woken(m, cs[0], num) != []
       then 1 else 0)
      + Completed(Step(m, cs[0]), cs[1..], num)
  }

  predicate WaitsOn(c: Call, num: int) {
    c.Wait? && c.num == num
  }

  /** Who the call wakes from the event's queue. */
  function Woken(m: seq<Event>, c: Call, num: int): seq<Pid> {
    if c == Signal(num) && Has(m, num) && m[IndexOf(m, num)].queue != [] then m[IndexOf(m, num)].queue[..1] else []
  }

  /** Who the call puts to sleep on the event. */
  function PutToSleep(m: seq<Event>, c: Call, num: int): seq<Pid> {
    if WaitsOn(c, num) && Has(m, num) && m[IndexOf(m, num)].value <= 0 then [c.pid] else []
  }

  function AllWoken(m: seq<Event>, cs: seq<Call>, num: int): seq<Pid>
    decreases |cs|
  {
    if cs == [] then [] else Woken(m, cs[0], num) + AllWoken(Step(m, cs[0]), cs[1..], num)
  }

  function AllPutToSleep(m: seq<Event>, cs: seq<Call>, num: int): seq<Pid>
    decreases |cs|
  {
    if cs == [] then [] else PutToSleep(m, cs[0], num) + AllPutToSleep(Step(m, cs[0]), cs[1..], num)
  }

  function At(m: seq<Event>, num: int): Event
    requires Has(m, num)
  {
    m[IndexOf(m, num)]
  }

  /** What one call does to an event that survives it. */
  lemma EventStep(m: seq<Event>, c: Call, num: int)
    requires Inv(m) && Has(m, num) && c != Close(num)
    ensures Has(Step(m, c), num)
    ensures At(Step(m, c), num) == if c == Signal(num) then Signalled(At(m, num))
                                   else if WaitsOn(c, num) then Waited(At(m, num), c.pid)
                                   else At(m, num)
  {
    StepKeeps(m, c);
    var t := Step(m, c);
    var k := IndexOf(m, num);
    if c.Close? && IndexOf(m, c.num) < k {
      assert t[k - 1] == m[k];
      IndexIs(t, k - 1);
    } else {
      assert t[k].num == num;
      IndexIs(t, k);
    }
  }

  /** One call keeps the balance of units, and the order of the queue. */
  lemma BalanceStep(m: seq<Event>, c: Call, num: int)
    requires Inv(m) && Has(m, num) && c != Close(num)
    ensures Has(Step(m, c), num)
    ensures At(Step(m, c), num).value + Completed(m, [c], num) == At(m, num).value + Signals(m, [c], num)
    ensures At(m, num).queue + PutToSleep(m, c, num) == Woken(m, c, num) + At(Step(m, c), num).queue
  {
    EventStep(m, c, num);
  }

  lemma Queues(a: seq<Pid>, s: seq<Pid>, w: seq<Pid>, b: seq<Pid>, ss: seq<Pid>, ws: seq<Pid>, e: seq<Pid>)
    requires a + s == w + b && b + ss == ws + e
    ensures a + (s + ss) == (w + ws) + e
  {
    assert a + (s + ss) == (a + s) + ss;
    assert (w + b) + ss == w + (b + ss);
    assert w + (ws + e) == (w + ws) + e;
  }

  /** A number that is gone stays gone: later numbers are larger. */
  lemma {:induction false} GoneForGood(m: seq<Event>, cs: seq<Call>, num: int)
    requires Inv(m) && KeepsLast(m, cs) && !Has(m, num) && num < NextNum(m)
    ensures !Has(Run(m, cs), num)
    decreases |cs|
  {
    if cs != [] {
      StepKeeps(m, cs[0]);
      LastStays(m, cs[0]);
      GoneStep(m, cs[0], num);
      GoneForGood(Step(m, cs[0]), cs[1..], num);
    }
  }

  lemma GoneStep(m: seq<Event>, c: Call, num: int)
    requires Inv(m) && !Has(m, num) && num < NextNum(m)
    ensures !Has(Step(m, c), num)
  {
  }

  lemma ClosedIsGone(m: seq<Event>, num: int)
    requires Inv(m) && Has(m, num) && !ClosesLast(m, Close(num))
    ensures !Has(Step(m, Close(num)), num) && num < NextNum(Step(m, Close(num)))
  {
  }

  /** The balance of a run whose rest is in balance. */
  ghost predicate Balanced(m: seq<Event>, cs: seq<Call>, num: int) {
    && Has(m, num) && Has(Run(m, cs), num)
    && At(Run(m, cs), num).value + Completed(m, cs, num) == At(m, num).value + Signals(m, cs, num)
    && At(m, num).queue + AllPutToSleep(m, cs, num) == AllWoken(m, cs, num) + At(Run(m, cs), num).queue
  }

  lemma ConservedOn(m: seq<Event>, cs: seq<Call>, num: int)
    requires Inv(m) && cs != [] && Has(m, num) && cs[0] != Close(num)
    requires Balanced(Step(m, cs[0]), cs[1..], num)
    ensures Balanced(m, cs, num)
  {
    var c, t := cs[0], Step(m, cs[0]);
    BalanceStep(m, c, num);
    OneCall(m, c, num);
    Queues(At(m, num).queue, PutToSleep(m, c, num), Woken(m, c, num), At(t, num).queue,
           AllPutToSleep(t, cs[1..], num), AllWoken(t, cs[1..], num), At(Run(t, cs[1..]), num).queue);
  }

  lemma OneCall(m: seq<Event>, c: Call, num: int)
    ensures Completed(m, [c], num)
            == if (WaitsOn(c, num) && Has(m, num) && m[IndexOf(m, num)].value > 0) || Woken(m, c, num) != [] then 1
               else 0
    ensures Signals(m, [c], num) == if c == Signal(num) && Has(m, num) then 1 else 0
  {
    assert [c][1..] == [];
  }

  /** An event open before and after a run was open all through it: what it has free and what it gave
      out equals what it had and what was signalled; and processes leave its queue in the order they
      entered it. */
  lemma {:induction false} Conserved(m: seq<Event>, cs: seq<Call>, num: int)
    requires Inv(m) && KeepsLast(m, cs) && Has(m, num) && Has(Run(m, cs), num)
    ensures At(Run(m, cs), num).value + Completed(m, cs, num) == At(m, num).value + Signals(m, cs, num)
    ensures At(m, num).queue + AllPutToSleep(m, cs, num) == AllWoken(m, cs, num) + At(Run(m, cs), num).queue
    decreases |cs|
  {
    if cs != [] {
      var c, t := cs[0], Step(m, cs[0]);
      StepKeeps(m, c);
      if c == Close(num) {
        ClosedIsGone(m, num);
        GoneForGood(t, cs[1..], num);
      } else {
        BalanceStep(m, c, num);
        Conserved(t, cs[1..], num);
        ConservedOn(m, cs, num);
      }
    }
  }
}
