/**
  Positions in the sparse store: which item, which quantum of it, which byte of that. The
  code computes them in 32-bit signed integers; here is what that gives, and when it is right.
 */
module ScullPosition {
  import opened Arith

  /** Where one byte lives: the item, the quantum in it, the byte in that. */
  datatype Place = Place(item: nat, sPos: nat, qPos: nat)

  ghost predicate Sizes(quantum: nat, qset: nat) {
    0 < quantum && 0 < qset && 0 < quantum * qset
  }

  // ----- places, in unbounded arithmetic -----

  function Locate(pos: nat, quantum: nat, qset: nat): (p: Place)
    requires Sizes(quantum, qset)
    ensures InStore(p, quantum, qset)
  {
    var itemSize := quantum * qset;
    var rest := pos % itemSize;
    RestFits(rest, quantum, qset);
    Place(pos / itemSize, rest / quantum, rest % quantum)
  }

  lemma RestFits(rest: nat, quantum: nat, qset: nat)
    requires Sizes(quantum, qset) && rest < quantum * qset
    ensures rest / quantum < qset
  {
    DivMod(rest, quantum);
    if qset <= rest / quantum {
      MulMonotone(qset, rest / quantum, quantum);
    }
  }

  function Position(p: Place, quantum: nat, qset: nat): nat {
    p.item * (quantum * qset) + p.sPos * quantum + p.qPos
  }

  ghost predicate InStore(p: Place, quantum: nat, qset: nat) {
    p.sPos < qset && p.qPos < quantum
  }

  lemma LocateInverse(pos: nat, quantum: nat, qset: nat)
    requires Sizes(quantum, qset)
    ensures Position(Locate(pos, quantum, qset), quantum, qset) == pos
  {
    DivMod(pos, quantum * qset);
    DivMod(pos % (quantum * qset), quantum);
  }

  lemma PositionInverse(p: Place, quantum: nat, qset: nat)
    requires Sizes(quantum, qset) && InStore(p, quantum, qset)
    ensures Locate(Position(p, quantum, qset), quantum, qset) == p
  {
    var rest := p.sPos * quantum + p.qPos;
    assert rest < quantum * qset by {
      MulMonotone(p.sPos + 1, qset, quantum);
    }
    DivUnique(Position(p, quantum, qset), quantum * qset, p.item, rest);
    DivUnique(rest, quantum, p.sPos, p.qPos);
  }

  // ----- places, as the code computes them -----

  const INT_LIMIT: nat := 0x8000_0000
  const WORD: nat := 0x1_0000_0000

  /** A value kept in a 32-bit int or long. */
  function AsInt32(n: int): int {
    var low := n % WORD;
    if low < INT_LIMIT then low else low - WORD
  }

  /** Division of signed integers, towards zero. */
  function TruncDiv(a: int, b: int): int
    requires b != 0
  {
    var q := Abs(a) / Abs(b);
    if (a < 0) != (b < 0) then -q else q
  }

  function TruncMod(a: int, b: int): int
    requires b != 0
  {
    a - TruncDiv(a, b) * b
  }

  datatype Where = Found(item: int, sPos: int, qPos: int) | DivideError

  function Coordinates(at: int, itemSize: int, quantum: nat): Where
    requires 0 < quantum
  {
    if itemSize == 0 then DivideError
    else
      var rest := TruncMod(at, itemSize);
      Found(TruncDiv(at, itemSize), TruncDiv(rest, quantum), TruncMod(rest, quantum))
  }

  /** The position is cast to a 32-bit long, and the size of an item is an int product. */
  function Computed(pos: nat, quantum: nat, qset: nat): Where
    requires 0 < quantum
  {
    Coordinates(AsInt32(pos), AsInt32(quantum * qset), quantum)
  }

  /** The code arrives at the right place. */
  ghost predicate Right(pos: nat, quantum: nat, qset: nat)
    requires Sizes(quantum, qset)
  {
    var p := Locate(pos, quantum, qset);
    Computed(pos, quantum, qset) == Found(p.item, p.sPos, p.qPos)
  }

  /** What is computed adds up to the position as cast. */
  lemma ComputedSum(pos: nat, quantum: nat, qset: nat)
    requires 0 < quantum && Computed(pos, quantum, qset).Found?
    ensures var c := Computed(pos, quantum, qset);
            c.item * AsInt32(quantum * qset) + (c.sPos * quantum + c.qPos) == AsInt32(pos)
  {
  }

  lemma RightWithin(pos: nat, quantum: nat, qset: nat)
    requires Sizes(quantum, qset) && pos < INT_LIMIT && quantum * qset < INT_LIMIT
    ensures Right(pos, quantum, qset)
  {
    assert AsInt32(pos) == pos && AsInt32(quantum * qset) == quantum * qset;
    PlainCoordinates(pos, quantum * qset, quantum);
  }

  lemma PlainCoordinates(at: nat, itemSize: nat, quantum: nat)
    requires 0 < itemSize && 0 < quantum
    ensures Coordinates(at, itemSize, quantum) == Found(at / itemSize, at % itemSize / quantum, at % itemSize % quantum)
  {
    TruncIsDiv(at, itemSize);
    TruncIsDiv(at % itemSize, quantum);
  }

  /** With item sizes below 2^31, the code finds the right place exactly for positions below 2^31. */
  lemma RightIff(pos: nat, quantum: nat, qset: nat)
    requires Sizes(quantum, qset) && quantum * qset < INT_LIMIT
    ensures Right(pos, quantum, qset) <==> pos < INT_LIMIT
  {
    if pos < INT_LIMIT {
      RightWithin(pos, quantum, qset);
    } else if Right(pos, quantum, qset) {
      ComputedSum(pos, quantum, qset);
      LocateInverse(pos, quantum, qset);
    }
  }

  /** Positions below 2^31 are found right, if the size of an item overflows, just as long as they stay in
      what the code takes to be the first item. */
  lemma OverflownIff(pos: nat, quantum: nat, qset: nat)
    requires Sizes(quantum, qset) && pos < INT_LIMIT <= quantum * qset
    ensures Right(pos, quantum, qset) <==> pos < Abs(AsInt32(quantum * qset))
  {
    var itemSize := AsInt32(quantum * qset);
    DivUnique(pos, quantum * qset, 0, pos);
    assert AsInt32(pos) == pos && Locate(pos, quantum, qset) == Place(0, pos / quantum, pos % quantum);
    if itemSize != 0 {
      FirstItemIff(pos, itemSize);
      TruncIsDiv(pos, quantum);
    }
  }

  lemma FirstItemIff(pos: nat, itemSize: int)
    requires itemSize != 0
    ensures TruncDiv(pos, itemSize) == 0 <==> pos < Abs(itemSize)
    ensures pos < Abs(itemSize) ==> TruncMod(pos, itemSize) == pos
  {
    if pos < Abs(itemSize) {
      DivUnique(pos, Abs(itemSize), 0, pos);
    } else {
      DivMod(pos, Abs(itemSize));
      assert pos / Abs(itemSize) != 0;
    }
  }

  lemma TruncIsDiv(a: nat, b: nat)
    requires 0 < b
    ensures TruncDiv(a, b) == a / b && TruncMod(a, b) == a % b
  {
    DivMod(a, b);
  }

  /** Exactly which sizes serve all positions below 2^31: those whose product is below 2^31, or wraps to
      -2^31. */
  lemma SizesRightIff(quantum: nat, qset: nat)
    requires Sizes(quantum, qset)
    ensures (forall pos: nat :: pos < INT_LIMIT ==> Right(pos, quantum, qset))
            <==> quantum * qset < INT_LIMIT || quantum * qset % WORD == INT_LIMIT
  {
    if quantum * qset < INT_LIMIT {
      forall pos: nat | pos < INT_LIMIT ensures Right(pos, quantum, qset) {
        RightWithin(pos, quantum, qset);
      }
    } else {
      forall pos: nat | pos < INT_LIMIT
        ensures Right(pos, quantum, qset) <==> pos < Abs(AsInt32(quantum * qset))
      {
        OverflownIff(pos, quantum, qset);
      }
      if quantum * qset % WORD != INT_LIMIT {
        var pos: nat := Abs(AsInt32(quantum * qset));
        assert pos < INT_LIMIT && !Right(pos, quantum, qset);
      }
    }
  }

  /** With the default sizes the first position past the limit goes to a negative item. */
  lemma DefaultSizesFail()
    ensures Computed(0x8000_0000, 4000, 1000) == Found(-536, -870, -3648)
    ensures Locate(0x8000_0000, 4000, 1000) == Place(536, 870, 3648)
  {
  }

  /** With both sizes 65536 every access divides by zero. */
  lemma WrappedSizeFails(pos: nat)
    ensures Computed(pos, 65536, 65536) == DivideError
  {
  }

  // ----- how large an item's array is -----

  const POINTER_SIZE: nat := 4

  /** The bytes asked for, a 32-bit product. */
  function ArrayBytes(qset: nat): nat {
    qset * POINTER_SIZE % WORD
  }

  /** An item's array has room for all its pointers. */
  predicate ArraysFit(qset: nat) {
    qset < 0x4000_0000
  }

  /** Of the sizes an int can have, exactly those below 2^30 get all they need. */
  lemma ArraysFitIff(qset: nat)
    requires qset < INT_LIMIT
    ensures ArrayBytes(qset) == qset * POINTER_SIZE <==> ArraysFit(qset)
    ensures ArrayBytes(qset) / POINTER_SIZE == qset <==> ArraysFit(qset)
  {
  }

  /** With one byte to the quantum and 2^30 quanta to the item, all positions are in range, and an array has no
      room at all. */
  lemma WrappedArrayFails(pos: nat)
    requires pos < INT_LIMIT
    ensures InRange(pos, 1, 0x4000_0000) && ArrayBytes(0x4000_0000) == 0
  {
  }

  // ----- what a transfer touches -----

  /** Where the code's arithmetic is right. */
  ghost predicate InRange(pos: nat, quantum: nat, qset: nat) {
    Sizes(quantum, qset) && quantum * qset < INT_LIMIT && pos < INT_LIMIT
  }

  /** Every position in range is computed to a place in the store that gives it back. */
  lemma ComputedInverse(pos: nat, quantum: nat, qset: nat)
    requires InRange(pos, quantum, qset)
    ensures var c := Computed(pos, quantum, qset);
            && c.Found? && 0 <= c.item && 0 <= c.sPos < qset && 0 <= c.qPos < quantum
            && Position(Place(c.item, c.sPos, c.qPos), quantum, qset) == pos
  {
    RightWithin(pos, quantum, qset);
    LocateInverse(pos, quantum, qset);
  }

  /** Every place whose position is in range is what the code computes for that position, and for no other. */
  lemma PlaceComputed(p: Place, pos: nat, quantum: nat, qset: nat)
    requires InStore(p, quantum, qset) && InRange(Position(p, quantum, qset), quantum, qset)
    requires InRange(pos, quantum, qset)
    ensures Computed(pos, quantum, qset) == Found(p.item, p.sPos, p.qPos) <==> pos == Position(p, quantum, qset)
  {
    PositionInverse(p, quantum, qset);
    RightWithin(pos, quantum, qset);
    LocateInverse(pos, quantum, qset);
  }

  /** How much one call may transfer: all of it, or up to the end of the quantum. */
  function Clamp(count: nat, qPos: nat, quantum: nat): (n: nat)
    requires qPos < quantum
    ensures n <= count && n <= quantum - qPos && (n == count || n == quantum - qPos)
  {
    if count > quantum - qPos then quantum - qPos else count
  }

  /** All the bytes of one transfer lie in the quantum computed for its start. */
  lemma TransferStays(pos: nat, count: nat, quantum: nat, qset: nat, k: nat)
    requires InRange(pos, quantum, qset) && k < Clamp(count, Locate(pos, quantum, qset).qPos, quantum)
    ensures var c := Computed(pos, quantum, qset);
            && c.Found? && 0 <= c.item && 0 <= c.sPos && 0 <= c.qPos
            && Locate(pos + k, quantum, qset) == Place(c.item, c.sPos, c.qPos + k)
  {
    RightWithin(pos, quantum, qset);
    LocateInverse(pos, quantum, qset);
    var here := Locate(pos, quantum, qset);
    PositionInverse(here.(qPos := here.qPos + k), quantum, qset);
  }

  /** A transfer is cut short only at the end of its quantum: for the next position the code computes the
      start of the next quantum, or of the next item. */
  lemma CutAtQuantum(pos: nat, count: nat, quantum: nat, qset: nat)
    requires InRange(pos, quantum, qset) && Clamp(count, Locate(pos, quantum, qset).qPos, quantum) < count
    requires InRange(pos + Clamp(count, Locate(pos, quantum, qset).qPos, quantum), quantum, qset)
    ensures var here := Locate(pos, quantum, qset);
            Computed(pos + Clamp(count, here.qPos, quantum), quantum, qset)
            == if here.sPos + 1 < qset then Found(here.item, here.sPos + 1, 0) else Found(here.item + 1, 0, 0)
  {
    LocateInverse(pos, quantum, qset);
    var here := Locate(pos, quantum, qset);
    var next := pos + Clamp(count, here.qPos, quantum);
    RightWithin(next, quantum, qset);
    NextStart(here, quantum, qset);
    if here.sPos + 1 < qset {
      PositionInverse(Place(here.item, here.sPos + 1, 0), quantum, qset);
    } else {
      PositionInverse(Place(here.item + 1, 0, 0), quantum, qset);
    }
  }

  lemma NextStart(p: Place, quantum: nat, qset: nat)
    requires Sizes(quantum, qset) && InStore(p, quantum, qset)
    ensures Position(Place(p.item, p.sPos + 1, 0), quantum, qset) == Position(p, quantum, qset) + quantum - p.qPos
    ensures p.sPos + 1 == qset ==>
              Position(Place(p.item + 1, 0, 0), quantum, qset) == Position(p, quantum, qset) + quantum - p.qPos
  {
    assert (p.sPos + 1) * quantum == p.sPos * quantum + quantum;
    assert (p.item + 1) * (quantum * qset) == p.item * (quantum * qset) + quantum * qset;
  }

  // ----- how much a write asks to have copied -----

  const DATA_SIZE: nat := 16   // what is left of the flat device

  /** The amount of a write: cut to the quantum, then cut once more to the size of the old flat device;
      that difference is kept in an unsigned 32-bit count. */
  function Amount(pos: nat, count: nat, qPos: nat, quantum: nat): nat
    requires qPos < quantum
  {
    var n := Clamp(count, qPos, quantum);
    if pos + n > DATA_SIZE then (DATA_SIZE - pos) % WORD else n
  }

  /** Exactly when a write moves what the quantum lets it: when it ends within the first 16 bytes. */
  lemma AmountIff(pos: nat, count: nat, qPos: nat, quantum: nat)
    requires qPos < quantum < INT_LIMIT && pos < INT_LIMIT
    ensures Amount(pos, count, qPos, quantum) == Clamp(count, qPos, quantum)
            <==> pos + Clamp(count, qPos, quantum) <= DATA_SIZE
  {
  }

  /** A write that starts within those bytes, or right behind them, and reaches past them is cut there. */
  lemma CutAtOldEnd(pos: nat, count: nat, qPos: nat, quantum: nat)
    requires qPos < quantum && pos <= 16 < pos + Clamp(count, qPos, quantum)
    ensures pos + Amount(pos, count, qPos, quantum) == 16
  {
  }

  /** Past those bytes no write can report success: the count has wrapped, and read back as the signed
      result it is negative. */
  lemma NothingPastTheOldEnd(pos: nat, count: nat, qPos: nat, quantum: nat)
    requires qPos < quantum && DATA_SIZE < pos < INT_LIMIT
    ensures AsInt32(Amount(pos, count, qPos, quantum)) == DATA_SIZE - pos < 0
  {
  }
}
