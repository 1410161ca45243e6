/**
  Recognising a prefetch instruction at a faulting address (32-bit): the loop over
  prefix bytes, and what it accepts.
 */
module Prefetch {
  import opened Bytes

  /** Code bytes by address; an address that is not in the map cannot be read. */
  type Code = map<int, Byte>

  const LIMIT: int := 0x1_0000_0000   // addresses wrap here

  /** The prefix bytes of 32-bit code: segment overrides 26, 2E, 36, 3E, 64, 65, sizes 66, 67, and
      lock and repeat F0, F2, F3. */
  predicate IsPrefix(b: Byte) {
    b in {0x26, 0x2E, 0x36, 0x3E, 0x64, 0x65, 0x66, 0x67, 0xF0, 0xF2, 0xF3}
  }

  /** At address a: some prefixes, at most n in all, then 0F and 0D or 18. */
  ghost predicate PrefetchWithin(code: Code, a: int, n: nat) {
    exists k :: 0 <= k <= n && PrefetchAfter(code, a, k)
  }

  ghost predicate PrefetchAfter(code: Code, a: int, k: int) {
    && (forall j :: 0 <= j < k ==> PrefixAt(code, a, j))
    && a + k in code && code[a + k] == 0x0F
    && a + k + 1 in code && code[a + k + 1] in {0x0D, 0x18}
  }

  ghost predicate PrefixAt(code: Code, a: int, j: int) {
    a + j in code && IsPrefix(code[a + j])
  }

  /** check_prefetch_opcode: whether to go on after this byte, and whether the instruction is a
      prefetch; instr is the address of the next byte. */
  method CheckPrefetchOpcode(code: Code, instr: int, opcode: Byte, prefetch0: bool) returns (more: bool, prefetch: bool)
    ensures more <==> IsPrefix(opcode)
    ensures prefetch == if opcode < 0x10 && instr in code
                        then opcode == 0x0F && code[instr] in {0x0D, 0x18} else prefetch0
  {
    prefetch := prefetch0;
    var hi, lo := opcode / 16 * 16, opcode % 16;
    assert opcode == hi + lo;
    match hi
    case 0x20 => more := lo % 8 == 6;
    case 0x30 => more := lo % 8 == 6;
    case 0x60 => more := lo / 4 == 1;
    case 0xF0 => more := lo == 0 || lo / 2 == 1;
    case 0x00 =>
      more := false;
      if instr in code {
        prefetch := lo == 0xF && (code[instr] == 0x0D || code[instr] == 0x18);
      }
    case _ => more := false;
  }

  /** is_prefetch: not for instruction fetches, and not above the user limit in user mode. */
  method IsPrefetch(code: Code, fetch: bool, userMode: bool, taskSize: int, ip: int) returns (prefetch: bool)
    requires 0 <= ip < LIMIT
    ensures prefetch <==> && !fetch && !(userMode && ip >= taskSize)
                          && ip + 15 < LIMIT && PrefetchWithin(code, ip, 14)
  {
    if fetch {
      return false;
    }
    var instr := ip;
    var maxInstr := (instr + 15) % LIMIT;
    if userMode && instr >= taskSize {
      return false;
    }
    prefetch := false;
    ghost var decided := false;
    while instr < maxInstr
      invariant ip <= instr && (ip + 15 < LIMIT ==> instr <= maxInstr) && !prefetch && !decided
      invariant ip + 15 >= LIMIT ==> instr == ip
      invariant forall j :: 0 <= j < instr - ip ==> PrefixAt(code, ip, j)
      decreases maxInstr - instr
    {
      if instr !in code {
        NotBefore(code, ip, instr - ip);
        decided := true;
        break;
      }
      var opcode := code[instr];
      instr := instr + 1;
      var more;
      more, prefetch := CheckPrefetchOpcode(code, instr, opcode, prefetch);
      if !more {
        Decided(code, ip, instr - 1 - ip);
        decided := true;
        break;
      }
      assert PrefixAt(code, ip, instr - 1 - ip);
    }
    if ip + 15 < LIMIT && !decided {
      AllPrefixes(code, ip);
    }
  }

  /** An unreadable byte after k prefixes: no prefetch. */
  lemma NotBefore(code: Code, a: int, k: int)
    requires 0 <= k && a + k !in code && forall j :: 0 <= j < k ==> PrefixAt(code, a, j)
    ensures !PrefetchWithin(code, a, 14)
  {
    forall m | 0 <= m <= 14 ensures !PrefetchAfter(code, a, m) {
      if m < k {
        assert PrefixAt(code, a, m);
      } else if m > k {
        assert !PrefixAt(code, a, k);
      }
    }
  }

  /** A byte that is no prefix decides. */
  lemma Decided(code: Code, a: int, k: int)
    requires 0 <= k <= 14 && a + k in code && !IsPrefix(code[a + k])
    requires forall j :: 0 <= j < k ==> PrefixAt(code, a, j)
    ensures PrefetchWithin(code, a, 14) <==> PrefetchAfter(code, a, k)
  {
    forall m | 0 <= m <= 14 && m != k ensures !PrefetchAfter(code, a, m) {
      if m < k {
        assert PrefixAt(code, a, m);
      } else {
        assert !PrefixAt(code, a, k);
      }
    }
  }

  /** Fifteen prefixes leave no room for the instruction. */
  lemma AllPrefixes(code: Code, a: int)
    requires forall j :: 0 <= j < 15 ==> PrefixAt(code, a, j)
    ensures !PrefetchWithin(code, a, 14)
  {
    forall m | 0 <= m <= 14 ensures !PrefetchAfter(code, a, m) {
      assert PrefixAt(code, a, m);
    }
  }

  /** The prefix bytes by their two halves, as the source tells them apart. */
  lemma PrefixByHalves(b: Byte)
    ensures IsPrefix(b) <==>
              || ((b / 16 == 2 || b / 16 == 3) && b % 8 == 6)
              || (b / 16 == 6 && 4 <= b % 16 <= 7)
              || (b / 16 == 15 && (b % 16 == 0 || b % 16 == 2 || b % 16 == 3))
  {
  }

  ghost predicate ListedAt(code: Code, a: int, j: int) {
    && a + j in code
    && code[a + j] in {0x26, 0x2E, 0x36, 0x3E, 0x64, 0x65, 0x66, 0x67, 0xF0, 0xF2, 0xF3}
  }

  /** n prefixes of any kind and then 0F 0D or 0F 18: found up to fourteen prefixes, and not from fifteen on. */
  lemma PrefixedPrefetch(code: Code, a: int, n: nat, last: Byte)
    requires forall j :: 0 <= j < n ==> ListedAt(code, a, j)
    requires a + n in code && code[a + n] == 0x0F && a + n + 1 in code && code[a + n + 1] == last
    ensures PrefetchWithin(code, a, 14) <==> n <= 14 && (last == 0x0D || last == 0x18)
  {
    forall j | 0 <= j < n ensures PrefixAt(code, a, j) {
      assert ListedAt(code, a, j);
    }
    if n <= 14 {
      Decided(code, a, n);
    } else {
      AllPrefixes(code, a);
    }
  }
}
