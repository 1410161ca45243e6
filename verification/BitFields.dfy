/**
  Fields in a word of bits: reading, writing, and what neighbouring fields do to each other.

  A word is its sequence of bits, lowest first.
 */
module BitFields {

  type Bits = seq<bool>

  function And(x: Bits, y: Bits): Bits
    requires |x| == |y|
  {
    seq(|x|, i requires 0 <= i < |x| => x[i] && y[i])
  }

  function Or(x: Bits, y: Bits): Bits
    requires |x| == |y|
  {
    seq(|x|, i requires 0 <= i < |x| => x[i] || y[i])
  }

  function Not(x: Bits): Bits {
    seq(|x|, i requires 0 <= i < |x| => !x[i])
  }

  function Shl(x: Bits, n: nat): Bits {
    seq(|x|, i requires 0 <= i < |x| => i >= n && x[i - n])
  }

  function Shr(x: Bits, n: nat): Bits {
    seq(|x|, i requires 0 <= i < |x| => i + n < |x| && x[i + n])
  }

  /** (1UL << width) - 1: the width lowest bits. */
  function Mask(size: nat, width: nat): Bits {
    seq(size, i => i < width)
  }

  /** The value fits in width bits. */
  ghost predicate Fits(x: Bits, width: nat) {
    forall i :: width <= i < |x| ==> !x[i]
  }

  // ----- one field -----

  function GetField(flags: Bits, shift: nat, width: nat): Bits {
    And(Shr(flags, shift), Mask(|flags|, width))
  }

  function PutField(flags: Bits, shift: nat, width: nat, v: Bits): Bits
    requires |v| == |flags|
  {
    Or(And(flags, Not(Shl(Mask(|flags|, width), shift))), Shl(And(v, Mask(|flags|, width)), shift))
  }

  /** Bit by bit: the field takes the low bits of the value, everything else stays. */
  lemma PutBit(flags: Bits, shift: nat, width: nat, v: Bits, i: nat)
    requires |v| == |flags| && i < |flags|
    ensures |PutField(flags, shift, width, v)| == |flags|
    ensures PutField(flags, shift, width, v)[i] == if shift <= i < shift + width then v[i - shift] else flags[i]
  {
  }

  /** What was put is got back, and every bit outside the field is as it was. */
  lemma GetPut(flags: Bits, shift: nat, width: nat, v: Bits)
    requires |v| == |flags| && shift + width <= |flags| && Fits(v, width)
    ensures GetField(PutField(flags, shift, width, v), shift, width) == v
    ensures forall i :: 0 <= i < |flags| && !(shift <= i < shift + width) ==>
                          && |PutField(flags, shift, width, v)| == |flags|
                          && PutField(flags, shift, width, v)[i] == flags[i]
  {
    var q := PutField(flags, shift, width, v);
    forall i | 0 <= i < |flags| && !(shift <= i < shift + width) ensures |q| == |flags| && q[i] == flags[i] {
      PutBit(flags, shift, width, v, i);
    }
    forall i | 0 <= i < |v| ensures GetField(q, shift, width)[i] == v[i] {
      if i + shift < |v| {
        PutBit(flags, shift, width, v, i + shift);
      }
    }
  }

  /** A field elsewhere is not disturbed. */
  lemma GetPutOther(flags: Bits, shift: nat, width: nat, v: Bits, shift': nat, width': nat)
    requires |v| == |flags|
    requires width == 0 || width' == 0 || shift + width <= shift' || shift' + width' <= shift
    ensures GetField(PutField(flags, shift, width, v), shift', width') == GetField(flags, shift', width')
  {
    var q := PutField(flags, shift, width, v);
    forall i | 0 <= i < |v| ensures GetField(q, shift', width')[i] == GetField(flags, shift', width')[i] {
      if i + shift' < |v| {
        PutBit(flags, shift, width, v, i + shift');
      }
    }
    assert |GetField(q, shift', width')| == |GetField(flags, shift', width')|;
  }

  /** Bits lo up to lo + width hold the value. */
  ghost predicate HeldAt(flags: Bits, lo: int, width: nat, v: Bits) {
    && 0 <= lo && lo + width <= |flags| == |v|
    && forall i :: 0 <= i < width ==> flags[lo + i] == v[i]
  }

  lemma PutHeld(flags: Bits, lo: nat, width: nat, v: Bits)
    requires |v| == |flags| && lo + width <= |flags|
    ensures |PutField(flags, lo, width, v)| == |flags| && HeldAt(PutField(flags, lo, width, v), lo, width, v)
  {
    forall i | 0 <= i < width
      ensures |PutField(flags, lo, width, v)| == |flags| && PutField(flags, lo, width, v)[lo + i] == v[i]
    {
      PutBit(flags, lo, width, v, lo + i);
    }
    if width == 0 && |flags| > 0 {
      PutBit(flags, lo, width, v, 0);
    }
  }

  lemma PutHeldOther(flags: Bits, lo: nat, width: nat, v: Bits, lo': nat, width': nat, v': Bits)
    requires |v| == |flags| && |v'| == |flags| && lo' + width' <= |flags| && HeldAt(flags, lo', width', v')
    requires width == 0 || lo + width <= lo' || lo' + width' <= lo
    ensures |PutField(flags, lo, width, v)| == |flags| && HeldAt(PutField(flags, lo, width, v), lo', width', v')
  {
    forall i | 0 <= i < |flags|
      ensures |PutField(flags, lo, width, v)| == |flags|
      ensures PutField(flags, lo, width, v)[i] == if lo <= i < lo + width then v[i - lo] else flags[i]
    {
      PutBit(flags, lo, width, v, i);
    }
  }

  /** Three fields set one after the other are all there afterwards. */
  lemma ThreeFields(f0: Bits, f1: Bits, f2: Bits, f3: Bits, a: nat, aw: nat, u: Bits, b: nat, bw: nat, v: Bits,
                    c: nat, cw: nat, w: Bits)
    requires |f0| == |u| == |v| == |w| && a + aw <= |f0| && b + bw <= |f0| && c + cw <= |f0|
    requires aw == 0 || bw == 0 || a + aw <= b
    requires bw == 0 || cw == 0 || b + bw <= c
    requires aw == 0 || cw == 0 || a + aw <= c
    requires f1 == PutField(f0, a, aw, u) && |f1| == |f0|
    requires f2 == PutField(f1, b, bw, v) && |f2| == |f0|
    requires f3 == PutField(f2, c, cw, w)
    ensures |f3| == |f0|
    ensures (aw > 0 ==> HeldAt(f3, a, aw, u)) && (bw > 0 ==> HeldAt(f3, b, bw, v)) && (cw > 0 ==> HeldAt(f3, c, cw, w))
  {
    PutHeld(f2, c, cw, w);
    if bw > 0 {
      PutHeld(f1, b, bw, v);
      PutHeldOther(f2, c, cw, w, b, bw, v);
    }
    if aw > 0 {
      PutHeld(f0, a, aw, u);
      PutHeldOther(f1, b, bw, v, a, aw, u);
      PutHeldOther(f2, c, cw, w, a, aw, u);
    }
  }
}
