/**
  The page fault handler: which way out a fault takes, and that every way keeps
  the memory map's read lock balanced.
 */
module FaultPath {

  // error code bits
  const PF_PROT: bv8 := 1
  const PF_WRITE: bv8 := 2
  const PF_USER: bv8 := 4
  const PF_RSVD: bv8 := 8

  // what handle_mm_fault may answer
  const VM_FAULT_OOM: bv16 := 0x0001
  const VM_FAULT_SIGBUS: bv16 := 0x0002
  const VM_FAULT_MAJOR: bv16 := 0x0004
  const VM_FAULT_HWPOISON: bv16 := 0x0010
  const VM_FAULT_ERROR: bv16 := VM_FAULT_OOM | VM_FAULT_SIGBUS | VM_FAULT_HWPOISON

  /** A region of the address space. */
  datatype Vma = Vma(start: nat, growsDown: bool, readable: bool, writable: bool, executable: bool)

  /** What one fault meets: the registers, and the answers of everything the handler calls. */
  datatype Env = Env(
    address: nat, code: bv8, sp: nat, taskSizeMax: nat, longBytes: nat,
    kmmio: bool, vmallocRepairs: bool, kmemcheck: bool, spurious: bool, notified: bool,
    userRegs: bool,
    tableSurvives: bool,          // a corrupt page table is excused by the die chain
    atomicOrNoMm: bool, lockFree: bool, fixupKnown: bool,
    vma: seq<Vma>,                // what find_vma returns: nothing, or one
    expandFails: bool, fault: bv16,
    prefetch: bool)               // is_prefetch and the errata checks excuse the fault

  /** How a fault ends. */
  datatype Exit =
    | Handled(major: bool)        // the fault was served, or repaired without a lock
    | Ignored                     // another subsystem took it, or it was excused
    | Segv | Bus | Oom            // the process is signalled, or the killer is called
    | NoContext                   // the kernel's own fault: its exception table, or an oops
    | Killed                      // a corrupt page table killed the process; no return

  class Mm {
    var held: nat                 // read locks held on mmap_sem
    var taken: nat                // how often it was taken and released
    var released: nat

    constructor ()
      ensures held == taken == released == 0
    {
      held, taken, released := 0, 0, 0;
    }

    method Down()
      modifies this
      ensures held == old(held) + 1 && taken == old(taken) + 1 && released == old(released)
    {
      held, taken := held + 1, taken + 1;
    }

    method Up()
      requires 0 < held
      modifies this
      ensures held == old(held) - 1 && released == old(released) + 1 && taken == old(taken)
    {
      held, released := held - 1, released + 1;
    }
  }

  // ----- the pure tests -----

  predicate AccessError(code: bv8, write: bool, vma: Vma) {
    if write then !vma.writable
    else code & PF_PROT != 0 || !(vma.readable || vma.executable || vma.writable)
  }

  predicate FaultInKernelSpace(e: Env) {
    e.address >= e.taskSizeMax
  }

  /** The stack pointer leaves no room for the access to be a push. */
  predicate BelowStack(e: Env) {
    e.address + 65536 + 32 * e.longBytes < e.sp
  }

  // ----- the error exits -----

  method BadAreaNosemaphore(e: Env, code: bv8) returns (x: Exit)
    ensures x == if code & PF_USER != 0 then (if e.prefetch then Ignored else Segv) else NoContext
  {
    if code & PF_USER != 0 {
      if e.prefetch {
        return Ignored;
      }
      return Segv;
    }
    return NoContext;
  }

  method BadArea(e: Env, code: bv8, mm: Mm) returns (x: Exit)
    requires 0 < mm.held
    modifies mm
    ensures mm.held == old(mm.held) - 1 && mm.released == old(mm.released) + 1 && mm.taken == old(mm.taken)
    ensures x == if code & PF_USER != 0 then (if e.prefetch then Ignored else Segv) else NoContext
  {
    mm.Up();
    x := BadAreaNosemaphore(e, code);
  }

  method DoSigbus(e: Env, code: bv8, mm: Mm) returns (x: Exit)
    requires 0 < mm.held
    modifies mm
    ensures mm.held == old(mm.held) - 1 && mm.released == old(mm.released) + 1 && mm.taken == old(mm.taken)
    ensures x == if code & PF_USER != 0 then (if e.prefetch then Ignored else Bus) else NoContext
  {
    mm.Up();
    if code & PF_USER == 0 {
      return NoContext;
    }
    if e.prefetch {
      return Ignored;
    }
    return Bus;
  }

  method MmFaultError(e: Env, code: bv8, fault: bv16, mm: Mm) returns (x: Exit)
    requires 0 < mm.held && fault & VM_FAULT_ERROR != 0
    modifies mm
    ensures mm.held == old(mm.held) - 1 && mm.released == old(mm.released) + 1 && mm.taken == old(mm.taken)
    ensures x == if code & PF_USER == 0 then NoContext
                 else if fault & VM_FAULT_OOM != 0 then Oom
                 else if e.prefetch then Ignored else Bus
  {
    ErrorBits(fault);
    if fault & VM_FAULT_OOM != 0 {
      if code & PF_USER == 0 {
        mm.Up();
        return NoContext;
      }
      mm.Up();
      return Oom;
    } else {
      if fault & (VM_FAULT_SIGBUS | VM_FAULT_HWPOISON) != 0 {
        x := DoSigbus(e, code, mm);
      } else {
        assert false;  // the BUG()
      }
    }
  }

  /** An error is out of memory, or one of the two bus errors; there is no third kind. */
  lemma ErrorBits(fault: bv16)
    ensures fault & VM_FAULT_ERROR != 0 <==>
              fault & VM_FAULT_OOM != 0 || fault & (VM_FAULT_SIGBUS | VM_FAULT_HWPOISON) != 0
  {
  }

  /** The error code as the rest of the handler sees it: faults taken in user mode count as user
      accesses. */
  function Code(e: Env): bv8 {
    if e.userRegs then e.code | PF_USER else e.code
  }

  /** The region serves the address: it contains it, or is a stack that may grow to it. */
  predicate Covers(e: Env) {
    e.vma != [] &&
    (e.vma[0].start <= e.address
     || (e.vma[0].growsDown && (Code(e) & PF_USER != 0 ==> !BelowStack(e)) && !e.expandFails))
  }

  /** The region serves this kind of access to the address. */
  predicate Allowed(e: Env) {
    Covers(e) && !AccessError(Code(e), Code(e) & PF_WRITE != 0, e.vma[0])
  }

  /** The fault is in user space and is looked up in the address space, under the lock. */
  predicate LooksUp(e: Env) {
    && !e.kmmio && !FaultInKernelSpace(e) && !e.notified && !e.atomicOrNoMm
    && (e.code & PF_RSVD == 0 || e.tableSurvives)
    && (e.lockFree || Code(e) & PF_USER != 0 || e.fixupKnown)
  }

  /** A user access that nothing in the address space serves, and no other subsystem takes. */
  predicate Unserved(e: Env) {
    && !e.kmmio && !e.notified
    && if FaultInKernelSpace(e) then e.code & PF_USER != 0
       else Code(e) & PF_USER != 0 && (e.code & PF_RSVD == 0 || e.tableSurvives) && (e.atomicOrNoMm || !Allowed(e))
  }

  /** The fault handler answered a bus error, and not out of memory. */
  predicate BusError(fault: bv16) {
    fault & VM_FAULT_OOM == 0 && fault & (VM_FAULT_SIGBUS | VM_FAULT_HWPOISON) != 0
  }

  /** A kernel-space fault that a missing page-table copy explains. */
  predicate RepairedLazily(e: Env) {
    !e.kmmio && FaultInKernelSpace(e) && e.code & (PF_RSVD | PF_USER | PF_PROT) == 0 && e.vmallocRepairs
  }

  /** The kernel's own access that nothing serves, repairs or excuses: its exception table, or an oops. */
  predicate KernelOops(e: Env) {
    && !e.kmmio && !e.notified
    && if FaultInKernelSpace(e) then
         && e.code & PF_USER == 0
         && !(e.code & (PF_RSVD | PF_USER | PF_PROT) == 0 && (e.vmallocRepairs || e.kmemcheck))
         && !(e.code & (PF_USER | PF_RSVD) == 0 && e.spurious)
       else
         && Code(e) & PF_USER == 0 && (e.code & PF_RSVD == 0 || e.tableSurvives)
         && !(LooksUp(e) && Allowed(e) && e.fault & VM_FAULT_ERROR == 0)
  }

  /** An address above the user limit: no lock is taken on any way out. */
  method KernelSpaceFault(e: Env) returns (x: Exit)
    requires !e.kmmio && FaultInKernelSpace(e)
    ensures x.Handled? <==> RepairedLazily(e)
    ensures x.Segv? <==> e.code & PF_USER != 0 && !e.notified && !e.prefetch
    ensures x.NoContext? <==> KernelOops(e)
    ensures x.Handled? || x.Segv? || x.NoContext? || x.Ignored?
  {
    if e.code & (PF_RSVD | PF_USER | PF_PROT) == 0 {
      if e.vmallocRepairs {
        return Handled(false);
      }
      if e.kmemcheck {
        return Ignored;
      }
    }
    if e.code & (PF_USER | PF_RSVD) == 0 && e.spurious {
      return Ignored;
    }
    if e.notified {
      return Ignored;
    }
    x := BadAreaNosemaphore(e, e.code);
  }

  /** The checks on the region found; where the answer is no, the handler goes to its bad-area exit. */
  method Passes(e: Env, code: bv8) returns (good: bool)
    requires |e.vma| <= 1 && code == Code(e)
    ensures good <==> Allowed(e)
  {
    if e.vma == [] {
      return false;
    }
    var vma := e.vma[0];
    if vma.start > e.address {
      if !vma.growsDown {
        return false;
      }
      if code & PF_USER != 0 && BelowStack(e) {
        return false;
      }
      if e.expandFails {
        return false;
      }
    }
    good := !AccessError(code, code & PF_WRITE != 0, vma);
  }

  /** The look-up proper, entered with the lock held; it is released on every way out. */
  method UserSpaceFault(e: Env, code: bv8, mm: Mm) returns (x: Exit)
    requires |e.vma| <= 1 && code == Code(e) && 0 < mm.held
    modifies mm
    ensures mm.held == old(mm.held) - 1 && mm.released == old(mm.released) + 1 && mm.taken == old(mm.taken)
    ensures x.Handled? <==> Allowed(e) && e.fault & VM_FAULT_ERROR == 0
    ensures x.Handled? ==> x.major == (e.fault & VM_FAULT_MAJOR != 0)
    ensures code & PF_USER != 0 ==> (x.Segv? <==> !Allowed(e) && !e.prefetch) && !x.NoContext?
    ensures code & PF_USER == 0 ==> x.Handled? || x.NoContext?
    ensures x.NoContext? ==> code & PF_USER == 0
    ensures x.Oom? <==> code & PF_USER != 0 && Allowed(e) && e.fault & VM_FAULT_OOM != 0
    ensures x.Bus? <==> code & PF_USER != 0 && Allowed(e) && BusError(e.fault) && !e.prefetch
    ensures !x.Killed?
  {
    var good := Passes(e, code);
    ErrorBits(e.fault);
    if !good {
      x := BadArea(e, code, mm);
    } else if e.fault & VM_FAULT_ERROR != 0 {
      x := MmFaultError(e, code, e.fault, mm);
    } else {
      x := Handled(e.fault & VM_FAULT_MAJOR != 0);
      mm.Up();
    }
  }

  /** Marking the fault as a user access leaves the other bits of the code alone. */
  lemma UserBitOnly(code: bv8)
    ensures (code | PF_USER) & PF_RSVD == code & PF_RSVD
    ensures (code | PF_USER) & PF_USER != 0
  {
  }

  /** The handler. */
  method DoPageFault(e: Env, mm: Mm) returns (x: Exit)
    requires |e.vma| <= 1
    modifies mm
    ensures mm.held == old(mm.held)
    ensures mm.taken - old(mm.taken) == mm.released - old(mm.released) == (if LooksUp(e) then 1 else 0)
    ensures x.Handled? <==> RepairedLazily(e) || (LooksUp(e) && Allowed(e) && e.fault & VM_FAULT_ERROR == 0)
    ensures x.Handled? && LooksUp(e) ==> x.major == (e.fault & VM_FAULT_MAJOR != 0)
    ensures x.Segv? <==> Unserved(e) && !e.prefetch
    ensures x.Oom? <==> LooksUp(e) && Code(e) & PF_USER != 0 && Allowed(e) && e.fault & VM_FAULT_OOM != 0
    ensures x.Bus? <==> LooksUp(e) && Code(e) & PF_USER != 0 && Allowed(e) && BusError(e.fault) && !e.prefetch
    ensures x.NoContext? <==> KernelOops(e)
    // a write to a region that is not writable, or to none, is never served, nor is a user access above the limit
    ensures e.address < e.taskSizeMax && (forall v :: v in e.vma ==> e.code & 2 != 0 && !v.writable) ==> !x.Handled?
    ensures e.address >= e.taskSizeMax && e.code & 4 != 0 ==> !x.Handled?
    ensures x.Killed? <==>
              (!e.kmmio && !FaultInKernelSpace(e) && !e.notified && e.code & PF_RSVD != 0 && !e.tableSurvives)
  {
    if e.kmmio {
      return Ignored;
    }
    if FaultInKernelSpace(e) {
      x := KernelSpaceFault(e);
      return;
    }
    if e.notified {
      return Ignored;
    }
    var code := Code(e);
    UserBitOnly(e.code);
    if code & PF_RSVD != 0 && !e.tableSurvives {
      return Killed;
    }
    if e.atomicOrNoMm {
      x := BadAreaNosemaphore(e, code);
      return;
    }
    if !e.lockFree && code & PF_USER == 0 && !e.fixupKnown {
      x := BadAreaNosemaphore(e, code);
      return;
    }
    mm.Down();
    x := UserSpaceFault(e, code, mm);
  }

  // ----- the conditions, bit by bit -----

  /** The code with the user bit (4) added when the registers are those of user mode. */
  lemma CodeBits(e: Env)
    ensures Code(e) & 4 != 0 <==> e.userRegs || e.code & 4 != 0
    ensures Code(e) & 1 == e.code & 1 && Code(e) & 2 == e.code & 2 && Code(e) & 8 == e.code & 8
  {
  }

  /** An access is allowed if it hits a region, or the stack it may grow to, and the region permits it: a write
      (bit 2) needs a writable one; anything else needs a page that is not present (bit 1 clear) and some
      permission. */
  lemma AllowedIff(e: Env)
    requires |e.vma| == 1
    ensures var v := e.vma[0];
            var user := e.userRegs || e.code & 4 != 0;
            Allowed(e) <==>
              && (v.start <= e.address
                  || (v.growsDown && !e.expandFails && (user ==> e.sp <= e.address + 65536 + 32 * e.longBytes)))
              && (if e.code & 2 != 0 then v.writable else e.code & 1 == 0 && (v.readable || v.writable || v.executable))
  {
    CodeBits(e);
  }

  lemma NoRegion(e: Env)
    ensures e.vma == [] ==> !Allowed(e)
  {
  }

  /** When the address space is looked up. */
  lemma LooksUpIff(e: Env)
    ensures LooksUp(e) <==>
              && !e.kmmio && e.address < e.taskSizeMax && !e.notified && !e.atomicOrNoMm
              && (e.code & 8 == 0 || e.tableSurvives)
              && (e.lockFree || e.userRegs || e.code & 4 != 0 || e.fixupKnown)
  {
    CodeBits(e);
  }

  /** When a fault above the user limit is repaired: a kernel access (4 clear) to a page not present (1 clear), in
      tables that are sound (8 clear). */
  lemma RepairedLazilyIff(e: Env)
    ensures RepairedLazily(e) <==>
              && !e.kmmio && e.address >= e.taskSizeMax && e.vmallocRepairs
              && e.code & 1 == 0 && e.code & 4 == 0 && e.code & 8 == 0
  {
  }

  /** When a user access goes unserved. */
  lemma UnservedIff(e: Env)
    ensures Unserved(e) <==>
              && !e.kmmio && !e.notified
              && if e.address >= e.taskSizeMax then e.code & 4 != 0
                 else (e.userRegs || e.code & 4 != 0) && (e.code & 8 == 0 || e.tableSurvives)
                      && (e.atomicOrNoMm || !Allowed(e))
  {
    CodeBits(e);
  }

  /** When the kernel is left to its exception table. Every kernel access to user space that is not served gets
      there, unless a corrupt table has killed the process. */
  lemma KernelOopsIff(e: Env)
    requires !e.kmmio && !e.notified && e.code & 4 == 0
    ensures e.address < e.taskSizeMax && !e.userRegs && (e.code & 8 == 0 || e.tableSurvives) ==>
              (KernelOops(e) <==> !(LooksUp(e) && Allowed(e) && e.fault & 0x0013 == 0))
    ensures e.address >= e.taskSizeMax ==>
              (KernelOops(e) <==> && (e.code & 9 == 0 ==> !e.vmallocRepairs && !e.kmemcheck)
                                  && (e.code & 8 == 0 ==> !e.spurious))
    ensures e.address < e.taskSizeMax && e.userRegs ==> !KernelOops(e)
  {
    CodeBits(e);
  }

  lemma BusErrorIff(fault: bv16)
    ensures BusError(fault) <==> fault & 0x0001 == 0 && (fault & 0x0002 != 0 || fault & 0x0010 != 0)
  {
  }
}
