/** Interrupts and exceptions on the registers of the CPU: which interrupt is selected, when it is taken, and
    the numbers of the causes. */
module Interrupts {
  import opened Isa
  import opened CpuUnits
  import opened Cpu
  import opened Bits
  import opened CpuRefinement

  // ---- The highest bit -----------------------------------------------------------------------------

  lemma {:induction false} LastSetIsHighest(x: Word, n: nat, k: nat) returns (j: nat)
    requires k < n <= 32 && Bit(x, k)
    ensures j < n && LastSet(x, n) == Place(j) && Bit(x, j) && forall i: nat :: j < i < n ==> !Bit(x, i)
    decreases n
  {
    hide Bit, Place;
    if Bit(x, n - 1) {
      j := n - 1;
    } else {
      j := LastSetIsHighest(x, n - 1, k);
    }
  }

  // ---- Which interrupt is selected ----------------------------------------------------------------

  /** An interrupt that is pending and enabled. */
  predicate Pending(u: CsrUnit, k: nat)
    requires k < 32
  {
    Bit(u.sip, k) && Bit(u.sie, k)
  }

  /** User mode always takes interrupts, supervisor mode while SIE (bit 1) is set. */
  predicate Allowed(u: CsrUnit) { u.supervisor ==> Bit(u.sstatus, 1) }

  /** An interrupt is selected if and only if some bit is pending and enabled, and the mode and SIE allow it. */
  lemma SelectedIff(u: CsrUnit)
    ensures HasIntr(u) <==> Allowed(u) && exists k: nat :: k < 32 && Pending(u, k)
    ensures Allowed(u) <==> TakesInterrupts(CsrsOf(u))
  {
    hide Bit, And;
    BitOne(u.sstatus);
    var x := And(u.sip, u.sie);
    forall k: nat | k < 32 ensures Bit(x, k) <==> Pending(u, k) {
      BothBits(u.sip, u.sie, k);
    }
    if x == 0 {
      forall k: nat | k < 32 ensures !Pending(u, k) {
        ZeroHasNoBit(k);
      }
    } else if forall k: nat :: k < 32 ==> !Bit(x, k) {
      NoBit(x);
    }
  }

  /** The highest interrupt that is pending and enabled. */
  ghost predicate Selected(u: CsrUnit, j: nat) {
    j < 32 && Pending(u, j) && forall k: nat :: j < k < 32 ==> !Pending(u, k)
  }

  /** The cause of the selected interrupt is the highest such bit, with the interrupt bit set. */
  lemma CauseIsSelected(u: CsrUnit) returns (j: nat)
    requires HasIntr(u)
    ensures Selected(u, j) && IntrCause(u) == Place(j) | 0x8000_0000
  {
    hide Bit, LastSet, And, Place;
    SelectedIff(u);
    var x := And(u.sip, u.sie);
    forall k: nat | k < 32 ensures Bit(x, k) <==> Pending(u, k) {
      BothBits(u.sip, u.sie, k);
    }
    var k: nat :| k < 32 && Pending(u, k);
    j := LastSetIsHighest(x, 32, k);
  }

  /** A tick of the timer sets bit 5 of sip, one of the external line bit 9; all other bits stay. */
  lemma TicksSetBits(c: Cpu, kind: Kind, in_: In, k: nat)
    requires k < 32
    ensures Bit(NextCsr(c, kind, in_).sip, k)
            <==> Bit(c.csr.sip, k) || (k == 5 && in_.timer) || (k == 9 && in_.ext)
  {
    hide Bit, Or;
    BitFive(k);
    BitNine(k);
    ZeroHasNoBit(k);
    var t, e: Word := if in_.timer then 0x20 else 0, if in_.ext then 0x200 else 0;
    EitherBit(c.csr.sip, t, k);
    EitherBit(Or(c.csr.sip, t), e, k);
  }

  // ---- The CSRs over a pass --------------------------------------------------------------------------

  lemma RaisedKeepsCsr(c: Cpu, was: Cpu, cause: Word, value: Word)
    ensures RaiseException(c, was, cause, value).csr == c.csr
  {
  }

  lemma InterruptKeepsCsr(c: Cpu, was: Cpu, w: Wires)
    ensures RaiseInterrupt(c, was, w).csr == c.csr
  {
    hide NextPc;
  }

  lemma RequestKeepsCsr(c: Cpu, d: Cpu, w: Wires)
    ensures NextRequest(c, d, w).csr == d.csr
  {
    hide RaiseException;
    RaisedKeepsCsr(d, c, FETCH_MISALIGNED, c.pc);
  }

  lemma FetchKeepsCsr(c: Cpu, d: Cpu, in_: In)
    ensures NextFetch(c, d, in_).csr == d.csr
  {
    hide RaiseException;
    RaisedKeepsCsr(d.(rdReq := false), c, FETCH_FAULT, c.pc);
  }

  lemma AccessKeepsCsr(c: Cpu, d: Cpu, w: Wires, in_: In)
    ensures NextMemWait(c, d, w, in_).csr == d.csr
  {
    hide NextPc, RaiseException, RaiseInterrupt;
    var n := d.(rdReq := false, wrReq := false);
    RaisedKeepsCsr(n, c, if w.kind.KLoad? then LOAD_FAULT else STORE_FAULT, w.addr);
    InterruptKeepsCsr(n, c, w);
  }

  lemma StateKeepsCsr(c: Cpu, d: Cpu, w: Wires, in_: In)
    ensures NextState(c, d, w, in_).csr == d.csr
  {
    hide NextRequest, NextFetch, NextExec, NextMemWait;
    match c.state {
      case RdInstReq => RequestKeepsCsr(c, d, w);
      case RdInstWait => FetchKeepsCsr(c, d, in_);
      case ExecInst => ExecKeepsUnits(c, d, w);
      case ExecInstMemWait => AccessKeepsCsr(c, d, w, in_);
      case DecodeInst => assert d.(state := ExecInst, f := w.decoded).csr == d.csr;
      case CheckExc => assert d.(state := RdInstReq, hasException := false, pcChanged := false).csr == d.csr;
    }
  }

  lemma UnitsClock(c: Cpu, w: Wires, in_: In)
    ensures NextWith(c, w, in_).csr == NextCsr(c, w.kind, in_)
  {
    hide NextCsr, GprIn, NextPc, NextState;
    StateKeepsCsr(c, Datapath(c, w, in_), w, in_);
  }

  /** Until the last edge of a pass only sip changes, and no bit of it is cleared. */
  predicate Waiting(u: CsrUnit, v: CsrUnit) {
    && v == u.(sip := v.sip)
    && forall k: nat :: k < 32 && Bit(u.sip, k) ==> Bit(v.sip, k)
  }

  lemma SipGrows(c: Cpu, kind: Kind, in_: In)
    requires !c.hasException && !(c.state.ExecInst? && kind.KSret?)
    ensures Waiting(c.csr, NextCsr(c, kind, in_))
  {
    hide Bit;
    forall k: nat | k < 32 && Bit(c.csr.sip, k) ensures Bit(NextCsr(c, kind, in_).sip, k) {
      TicksSetBits(c, kind, in_, k);
    }
  }

  lemma SretEndsPass(c: Cpu, w: Wires, in_: In)
    requires AtExec(c) && w.kind.KSret?
    ensures NextWith(c, w, in_).state.CheckExc?
  {
    ExecStateWritten(c, w, in_);
  }

  lemma InnerEdge(c: Cpu, i: Instr, w: Wires, in_: In)
    requires Flags(c, i) && !c.state.CheckExc? && !NextWith(c, w, in_).state.CheckExc?
    ensures Waiting(c.csr, NextWith(c, w, in_).csr)
  {
    hide NextWith, Waiting, NextCsr;
    UnitsClock(c, w, in_);
    if c.state.ExecInst? && w.kind.KSret? {
      SretEndsPass(c, w, in_);
    } else {
      SipGrows(c, w.kind, in_);
    }
  }

  lemma WaitingJoins(u: CsrUnit, v: CsrUnit, w: CsrUnit)
    requires Waiting(u, v) && Waiting(v, w)
    ensures Waiting(u, w)
  {
    hide Bit;
  }

  lemma ExecTakes(c: Cpu, mem: Memory, i: Instr, w: Wires, in_: In)
    requires Flags(c, i) && Legal(i) && Ready(c, i, w) && Shown(c, w, in_) && w.intr && c.state.ExecInst?
    ensures forall e :: e in Completes(c, w, in_, i) ==> Traps(View(c, mem), e)
  {
    hide NextWith, Delivers, Exec, Wired;
    var a := View(c, mem);
    if UsesMemory(i) {
      AccessShown(c, i, w.kind);
      if w.misaligned {
        MisalignedRaise(a, i);
      }
    } else if i.Ecall? {
      EcallRaises(a);
    }
  }

  lemma EdgeTakes(c: Cpu, mem: Memory, i: Instr, w: Wires, in_: In)
    requires Flags(c, i) && Legal(i) && Ready(c, i, w) && Shown(c, w, in_) && w.intr
    ensures forall e :: e in Completes(c, w, in_, i) ==> Traps(View(c, mem), e)
  {
    hide NextWith, Delivers, Exec, Wired, View, Ready, Shown;
    if c.state.ExecInst? {
      ExecTakes(c, mem, i, w, in_);
    }
  }

  lemma EdgeSelects(c: Cpu, w: Wires, in_: In, i: Instr)
    requires w.intr == HasIntr(c.csr) && w.intrCause == IntrCause(c.csr)
    ensures forall e :: e in Completes(c, w, in_, i) && e.Interrupted? ==>
              HasIntr(c.csr) && e.cause == IntrCause(c.csr)
  {
    hide HasIntr, IntrCause;
    match c.state {
      case ExecInst =>
      case ExecInstMemWait =>
      case _ =>
    }
  }

  /** What the edge that ends a pass finds: `u` is what the CSRs are before it. */
  ghost predicate Decides(a: Arch, u: CsrUnit, e: Event) {
    && (e.Interrupted? ==> HasIntr(u) && e.cause == IntrCause(u))
    && (HasIntr(u) ==> Traps(a, e))
  }

  ghost predicate NoneCleared(x: Word, y: Word) {
    forall k: nat :: k < 32 && Bit(x, k) ==> Bit(y, k)
  }

  lemma EdgeClearsNone(c: Cpu, w: Wires, in_: In)
    ensures NoneCleared(c.csr.sip, NextWith(c, w, in_).csr.sip)
  {
    hide Bit, NextWith, NextCsr;
    UnitsClock(c, w, in_);
    forall k: nat | k < 32 && Bit(c.csr.sip, k) ensures Bit(NextWith(c, w, in_).csr.sip, k) {
      TicksSetBits(c, w.kind, in_, k);
    }
  }

  lemma LastEdgeDecides(s: Sys, in_: In, i: Instr, e: Event)
    requires Inv(s, i) && e in Completes(s.cpu, WiresOf(s.cpu, in_), in_, i)
    ensures Decides(Abs(s), s.cpu.csr, e)
  {
    hide WiresOf, Completes, HasIntr, IntrCause, View, Traps, Flags, Ready, Shown;
    var w := WiresOf(s.cpu, in_);
    WiresShown(s, i, in_);
    WiresSelect(s.cpu, in_);
    EdgeSelects(s.cpu, w, in_, i);
    if w.intr {
      EdgeTakes(s.cpu, s.mem, i, w, in_);
    }
  }

  lemma WiresSelect(c: Cpu, in_: In)
    ensures WiresOf(c, in_).intr == HasIntr(c.csr) && WiresOf(c, in_).intrCause == IntrCause(c.csr)
  {
  }

  lemma LastOfPass(s: Sys, in_: In, i: Instr) returns (e: Event)
    requires Inv(s, i) && Answers(s, in_) && (FetchEnds(s.cpu, in_) ==> Supported(Abs(s)))
    requires PassEnds(s.cpu, Step(s, in_).cpu)
    ensures PassDoes(Abs(s), e, Step(s, in_)) && Flags(Step(s, in_).cpu, Fetching(s, in_, i))
    ensures Decides(Abs(s), s.cpu.csr, e) && NoneCleared(s.cpu.csr.sip, Step(s, in_).cpu.csr.sip)
  {
    hide Inv, Flags, PassDoes, Decides, NoneCleared, Completes, Answers, Supported, NextWith, View, PassEnds;
    e := LastEdge(s, in_, i);
    LastEdgeDecides(s, in_, i, e);
    EdgeClearsNone(s.cpu, WiresOf(s.cpu, in_), in_);
  }

  lemma InnerOfPass(s: Sys, in_: In, i: Instr, n: Sys)
    requires Inv(s, i) && Answers(s, in_) && (FetchEnds(s.cpu, in_) ==> Supported(Abs(s))) && n == Step(s, in_)
    requires !s.cpu.state.CheckExc? && !n.cpu.state.CheckExc?
    ensures Inv(n, Fetching(s, in_, i)) && Abs(n) == Abs(s) && Waiting(s.cpu.csr, n.cpu.csr)
  {
    hide Flags, Fetched, Decoded, Completes, Answers, Supported, NextWith, View, Waiting, WiresOf;
    var es := Completes(s.cpu, WiresOf(s.cpu, in_), in_, i);
    EdgeRuns(s, in_, i, n, Abs(s), Abs(n), es);
    InnerEdge(s.cpu, i, WiresOf(s.cpu, in_), in_);
  }

  /** The event of a pass, with the CSRs that its last edge finds. */
  lemma {:induction false} PassDecides(s: Sys, ins: seq<In>, i: Instr) returns (e: Event, u: CsrUnit, i': Instr)
    requires Inv(s, i) && Served(s, ins) && IsPass(s, ins)
    ensures PassDoes(Abs(s), e, Run(s, ins)) && Flags(Run(s, ins).cpu, i')
    ensures Waiting(s.cpu.csr, u) && NoneCleared(u.sip, Run(s, ins).cpu.csr.sip) && Decides(Abs(s), u, e)
    decreases ins
  {
    hide Inv, Flags, View, PassDoes, Decides, Waiting, NoneCleared, Supported, Answers, Step, FetchEnds;
    var n := Step(s, ins[0]);
    if |ins| == 1 {
      e := LastOfPass(s, ins[0], i);
      u, i' := s.cpu.csr, Fetching(s, ins[0], i);
      WaitingStays(u);
      assert ins[1..] == [] && Run(s, ins) == n;
    } else {
      InnerOfPass(s, ins[0], i, n);
      e, u, i' := PassDecides(n, ins[1..], Fetching(s, ins[0], i));
      WaitingJoins(s.cpu.csr, n.cpu.csr, u);
    }
  }

  lemma WaitingStays(u: CsrUnit)
    ensures Waiting(u, u)
  {
  }

  // ---- What a whole pass takes ----------------------------------------------------------------------------

  lemma StillPending(u: CsrUnit, v: CsrUnit, k: nat)
    requires Waiting(u, v) && k < 32 && Pending(u, k)
    ensures Pending(v, k)
  {
    hide Bit;
  }

  lemma StillSelected(u: CsrUnit, v: CsrUnit)
    requires Waiting(u, v) && HasIntr(u)
    ensures HasIntr(v)
  {
    hide Waiting, Pending, HasIntr;
    SelectedIff(u);
    SelectedIff(v);
    var k: nat :| k < 32 && Pending(u, k);
    StillPending(u, v, k);
    AllowedStays(u, v);
  }

  lemma AllowedStays(u: CsrUnit, v: CsrUnit)
    requires Waiting(u, v)
    ensures Allowed(u) <==> Allowed(v)
  {
    hide Bit;
  }

  /** Interrupt `j` may be what a pass takes: it is enabled, it is pending at the end of the pass, and no higher
      one that is enabled was pending at its start. */
  ghost predicate Taken(u: CsrUnit, after: CsrUnit, j: nat) {
    j < 32 && Bit(u.sie, j) && Bit(after.sip, j) && forall k: nat :: j < k < 32 ==> !Pending(u, k)
  }

  lemma SelectedIsTaken(u: CsrUnit, v: CsrUnit, after: CsrUnit, j: nat)
    requires Waiting(u, v) && NoneCleared(v.sip, after.sip) && Selected(v, j)
    ensures Taken(u, after, j)
  {
    hide Bit, Waiting;
    forall k: nat | j < k < 32 ensures !Pending(u, k) {
      if Pending(u, k) {
        StillPending(u, v, k);
      }
    }
    SieStays(u, v);
  }

  lemma SieStays(u: CsrUnit, v: CsrUnit)
    requires Waiting(u, v)
    ensures u.sie == v.sie
  {
  }

  /** A whole pass of the CPU. If an interrupt is pending, enabled and allowed when it starts, then its instruction
      either raises an exception or completes and is followed by an interrupt. If it is followed by one, then interrupts
      were allowed, and the cause is the highest enabled one that was pending when the instruction completed. */
  lemma PendingInterruptIsTaken(s: Sys, ins: seq<In>, in_: In, i: Instr) returns (e: Event)
    requires Inv(s, i) && Served(s, ins) && s.cpu.state.RdInstReq? && IsPass(s, ins)
    ensures var u, t := s.cpu.csr, Run(s, ins);
      && PassDoes(Abs(s), e, t) && Holding(Step(t, in_), IsaStep(Abs(s), e))
      && (Allowed(u) && (exists k: nat :: k < 32 && Pending(u, k)) ==> e.Interrupted? || IsException(Abs(s), e))
      && (e.Interrupted? ==>
            && Allowed(u)
            && exists j: nat :: Taken(u, t.cpu.csr, j) && Step(t, in_).cpu.csr.scause == Place(j) | 0x8000_0000)
  {
    hide Inv, Served, IsPass, Run, Step, Waiting, NoneCleared, HasIntr, Allowed, Pending, Taken, View, Possible,
         IsException, Bit, Place;
    var v, i';
    e, v, i' := PassDecides(s, ins, i);
    PassWritten(Run(s, ins), in_, i');
    SelectedIff(s.cpu.csr);
    if HasIntr(s.cpu.csr) {
      StillSelected(s.cpu.csr, v);
    }
    if e.Interrupted? {
      var j := CauseIsSelected(v);
      SelectedIff(v);
      AllowedStays(s.cpu.csr, v);
      SelectedIsTaken(s.cpu.csr, v, Run(s, ins).cpu.csr, j);
    }
  }

  // ---- The numbers of the exceptions ------------------------------------------------------------------------

  /** Table 4.2 of section 4.1.8 of the Privileged ISA. */
  function CauseNumber(a: Arch, e: Event): Word {
    match e
    case FetchTrap(_) => if a.pc & 3 != 0 then 0 else 1
    case AccessFault(i) => if i.Load? then 5 else 7
    case Retire(i) => if i.Load? then 4 else if i.Store? then 6 else if a.csrs.supervisor then 9 else 8
    case Interrupted(_, cause, _) => cause
  }

  lemma RaisedCause(a: Arch, i: Instr)
    requires Exec(a, i).Raise?
    ensures Exec(a, i).cause == CauseNumber(a, Retire(i))
  {
  }

  lemma CauseIsNumber(a: Arch, e: Event)
    requires Possible(a, e) && IsException(a, e)
    ensures IsaStep(a, e).csrs.scause == CauseNumber(a, e)
  {
    hide Exec;
    if e.Retire? {
      RaisedCause(a, e.i);
    }
  }

  /** After a whole pass that ends in an exception, scause holds its number. */
  lemma ExceptionsAreNumbered(s: Sys, ins: seq<In>, in_: In, i: Instr) returns (e: Event)
    requires Inv(s, i) && Served(s, ins) && s.cpu.state.RdInstReq? && IsPass(s, ins)
    ensures PassDoes(Abs(s), e, Run(s, ins))
    ensures IsException(Abs(s), e) ==> Step(Run(s, ins), in_).cpu.csr.scause == CauseNumber(Abs(s), e)
  {
    hide Inv, Served, IsPass, Run, Step, View, IsException, Possible, IsaStep;
    e := PassIsEvent(s, ins, in_, i);
    if IsException(Abs(s), e) {
      CauseIsNumber(Abs(s), e);
    }
  }
}
