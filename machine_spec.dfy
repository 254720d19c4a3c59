/**
 * The execution engine of Machine.java as functions on a value of the whole
 * machine state: one clock cycle is fetch and decode, the privilege gate,
 * execution, the timer tick and the drain of one pending interrupt.
 *
 * The class `Machine` (module Engine) performs the same cycle in place; each
 * of its methods is proved to compute the function of the same name here.
 */
module MachineSpec {
  import opened Sicxe
  import opened Memories
  import opened InterruptClasses
  import opened RegisterFile
  import opened Interrupts
  import opened Instructions

  /** A memory span recorded for the debugger (`MemorySpan`); `NoSpan` after `clear`. */
  datatype Span = NoSpan | Span(start: int, length: int)

  /** The four pending-interrupt slots; a later request of the same class overwrites an earlier one. */
  datatype Pending = Pending(svc: Option<Interrupt>, program: Option<Interrupt>, timer: Option<Interrupt>, io: Option<Interrupt>)

  /**
   * What the device bus answers during one cycle, per device number: the byte
   * `read` returns and whether `test` reports the device ready. The bus itself
   * (`Devices`) is not part of this model.
   */
  datatype Bus = Bus(input: int -> Byte, ready: int -> bool)

  /** The machine: registers, memory, timer, pending interrupts, call stack and statistics. */
  datatype Cpu = Cpu(regs: RegState, mem: seq<Byte>, timer: int, pending: Pending, callStack: seq<int>,
                     count: JInt, lastAddr: Span, lastRead: Span, lastWrite: Span)
  {
    predicate Valid() {
      |mem| == MEMORY_SIZE
    }
  }

  /** What one cycle ends in: the new state, and whether the instruction aborted the cycle. */
  datatype Outcome = Outcome(cpu: Cpu, aborted: bool)

  // ---------------------------------------------------------------- decode

  /** The result of fetch and decode: the instruction, the bytes fetched, the span recorded, and whether the addressing was invalid. */
  datatype Decoded = Decoded(ins: Instruction, fetched: nat, span: nat, addressingError: bool)

  /** Operand of a SIC/F3/F4 instruction before indexing, its size, and whether its relative flags are invalid. */
  datatype Operand = Operand(value: int, size: nat, invalid: bool)

  /**
   * The operand of a SIC, F3 or F4 instruction whose first two bytes are at
   * `pc`: SIC takes 15 bits; F4 takes 20 bits and may not be relative; F3 takes
   * 12 bits and adds either the PC after the instruction (signed displacement)
   * or B, and may not set both relative flags.
   */
  function ReadOperand(mem: seq<Byte>, r: RegState, f: Flags): (o: Operand)
    requires |mem| == MEMORY_SIZE
  {
    var pc := r.pc;
    var b1 := ByteAt(mem, pc + 1);
    if f.IsSic() then Operand(OperandSic(b1, ByteAt(mem, pc + 2)), 3, false)
    else if f.IsExtended() then Operand(OperandF4(b1, ByteAt(mem, pc + 2), ByteAt(mem, pc + 3)), 4, f.IsRelative())
    else
      var d := OperandF3(b1, ByteAt(mem, pc + 2));
      if f.IsPCRelative() then Operand(OperandPCRelative(d) + (pc + 3) % MEMORY_SIZE, 3, false)
      else if f.IsBaseRelative() then Operand(d + r.b, 3, false)
      else Operand(d, 3, !f.IsAbsolute())
  }

  /** Indexing is valid with simple addressing (X is added now) and with indirect addressing (X is added after the dereference). */
  predicate IndexingInvalid(f: Flags) {
    f.IsIndexed() && !f.IsSimple() && !f.IsIndirect()
  }

  /** `fetchDecode`, on the bytes at PC: the instruction it builds and how many bytes it consumes. */
  function DecodeAt(mem: seq<Byte>, r: RegState): (d: Decoded)
    requires |mem| == MEMORY_SIZE
  {
    var op := ByteAt(mem, r.pc);
    if IsF1(op) then Decoded(InstructionF1(op), 1, 1, false)
    else if IsF2(op) then Decoded(InstructionF2(op, ByteAt(mem, r.pc + 1)), 2, 2, false)
    else if IsF34(op / 4 * 4) then
      var f := FlagsOf(op, ByteAt(mem, r.pc + 1));
      var o := ReadOperand(mem, r, f);
      var operand := if f.IsIndexed() && f.IsSimple() then o.value + SwordToInt(r.x) else o.value;
      Decoded(InstructionSicF3F4(op / 4 * 4, f, operand), o.size, o.size, o.invalid || IndexingInvalid(f))
    else Decoded(InvalidInstruction(op), 1, 0, false)
  }

  /** A PROGRAM/ILLEGAL_INSTRUCTION request, queued only when PROGRAM interrupts are enabled (otherwise the source only logs). */
  function ReportIllegal(c: Cpu): Cpu {
    if c.regs.sw.IntEnabled(PROGRAM) then c.(pending := c.pending.(program := Some(Interrupt(PROGRAM, ILLEGAL_INSTRUCTION))))
    else c
  }

  /** The decoded instruction and the machine after fetching it. */
  datatype Fetch = Fetch(ins: Instruction, cpu: Cpu)

  /**
   * `fetchDecode`: count the instruction, clear the read and write spans,
   * advance PC past the bytes fetched, record the instruction's span and
   * report an invalid addressing mode.
   */
  function FetchDecode(c: Cpu): (f: Fetch)
    requires c.Valid()
    ensures f.cpu.Valid()
  {
    var d := DecodeAt(c.mem, c.regs);
    var c1 := c.(regs := c.regs.(pc := (c.regs.pc + d.fetched) % MEMORY_SIZE), count := Int32(c.count + 1),
                 lastAddr := Span(c.regs.pc, d.span), lastRead := NoSpan, lastWrite := NoSpan);
    Fetch(d.ins, if d.addressingError then ReportIllegal(c1) else c1)
  }

  // ---------------------------------------------------------------- memory operands

  /** `resolveAddr`: the operand itself, or for indirect addressing the word it points to, plus signed X if indexed. */
  function ResolveAddr(c: Cpu, f: Flags, addr: int): int
    requires c.Valid()
  {
    if f.IsIndirect() then
      WordAt(c.mem, addr) + (if f.IsIndexed() then SwordToInt(c.regs.x) else 0)
    else addr
  }

  /** A loaded value and the machine after the load. */
  datatype Load = Load(value: int, cpu: Cpu)

  /** `setLastExecRead`. */
  function NoteRead(c: Cpu, addr: int, length: int): Cpu {
    c.(lastWrite := NoSpan, lastRead := Span(addr, length))
  }

  /** `setLastExecWrite`. */
  function NoteWrite(c: Cpu, addr: int, length: int): Cpu {
    c.(lastRead := NoSpan, lastWrite := Span(addr, length))
  }

  /** `loadWord`: an immediate operand is the value; otherwise the word at the resolved address. */
  function LoadWord(c: Cpu, f: Flags, operand: int): (l: Load)
    requires c.Valid()
    ensures l.cpu.Valid()
  {
    if f.IsImmediate() then Load(operand, c)
    else
      var addr := ResolveAddr(c, f, operand);
      Load(WordAt(c.mem, addr), NoteRead(c, addr, 3))
  }

  /** `loadByte`: an immediate operand is the value; otherwise the byte at the resolved address. */
  function LoadByte(c: Cpu, f: Flags, operand: int): (l: Load)
    requires c.Valid()
    ensures l.cpu.Valid()
  {
    if f.IsImmediate() then Load(operand, c)
    else
      var addr := ResolveAddr(c, f, operand);
      Load(ByteAt(c.mem, addr), NoteRead(c, addr, 1))
  }

  /** `storeWord`: the word goes to the resolved address (immediate addressing is not special-cased). */
  function StoreWord(c: Cpu, f: Flags, operand: int, w: int): (c': Cpu)
    requires c.Valid()
    ensures c'.Valid()
  {
    var addr := ResolveAddr(c, f, operand);
    NoteWrite(c, addr, 3).(mem := WithWord(c.mem, addr, w))
  }

  /** `storeByte`: the low byte goes to the resolved address. */
  function StoreByte(c: Cpu, f: Flags, operand: int, v: int): (c': Cpu)
    requires c.Valid()
    ensures c'.Valid()
  {
    var addr := ResolveAddr(c, f, operand);
    NoteWrite(c, addr, 1).(mem := WithByte(c.mem, addr, v))
  }

  // ---------------------------------------------------------------- execution

  /** Format 2 register numbers: the high and the low nibble of the operand byte. */
  function R1(operand: Byte): int { operand / 16 }
  function R2(operand: Byte): int { operand % 16 }

  /** `InstructionF2.execute`. Register arithmetic is Java `int` arithmetic before `set` truncates it. */
  function ExecF2(c: Cpu, opcode: int, operand: Byte): (c': Cpu)
    requires c.Valid()
    ensures c'.Valid()
  {
    var o1, o2 := R1(operand), R2(operand);
    var r := c.regs;
    if opcode == ADDR then c.(regs := r.Set(o2, Int32(r.Get(o2) + r.Get(o1))))
    else if opcode == SUBR then c.(regs := r.Set(o2, Int32(r.Get(o2) - r.Get(o1))))
    else if opcode == MULR then c.(regs := r.Set(o2, Int32(r.Get(o2) * r.Get(o1))))
    else if opcode == DIVR then
      if r.Get(o1) == 0 then ReportIllegal(c)
      else c.(regs := r.Set(o2, Int32(TruncDiv(r.Gets(o2), r.Get(o1)))))
    else if opcode == COMPR then c.(regs := r.(sw := r.sw.(cc := Int32(r.Gets(o1) - r.Gets(o2)))))
    else if opcode == SHIFTL then c.(regs := r.Set(o1, Or32(Shl32(r.Get(o1), o2 + 1), Sar32(r.Get(o1), 24 - o2 - 1))))
    else if opcode == SHIFTR then c.(regs := r.Set(o1, Sar32(r.Gets(o1), o2 + 1)))
    else if opcode == RMO then c.(regs := r.Set(o2, r.Get(o1)))
    else if opcode == CLEAR then c.(regs := r.Set(o1, 0))
    else if opcode == TIXR then
      var r1 := r.(x := IntToWord(r.x + 1));
      c.(regs := r1.(sw := r1.sw.(cc := Int32(SwordToInt(r1.x) - r1.Gets(o1)))))
    else if opcode == Instructions.SVC then
      if r.sw.IntEnabled(IClass.SVC) then c.(pending := c.pending.(svc := Some(Interrupt(IClass.SVC, operand))))
      else c
    else c
  }

  /** Stores of `InstructionSICF3F4.execute`: STA, STX, STL, STCH, STB, STS, STT, STSW. */
  function ExecStore(c: Cpu, opcode: int, f: Flags, operand: int): (c': Cpu)
    requires c.Valid()
    ensures c'.Valid()
  {
    var r := c.regs;
    if opcode == STA then StoreWord(c, f, operand, r.a)
    else if opcode == STX then StoreWord(c, f, operand, r.x)
    else if opcode == STL then StoreWord(c, f, operand, r.l)
    else if opcode == STCH then StoreByte(c, f, operand, r.a)
    else if opcode == STB then StoreWord(c, f, operand, r.b)
    else if opcode == STS then StoreWord(c, f, operand, r.s)
    else if opcode == STT then StoreWord(c, f, operand, r.t)
    else if opcode == STSW then StoreWord(c, f, operand, Pack(r.sw))
    else c
  }

  /**
   * Jumps: JEQ, JGT, JLT, J, JSUB and RSUB. RSUB on an empty call stack
   * aborts the cycle after it has set PC (the source's `pop` throws).
   */
  function ExecJump(c: Cpu, opcode: int, f: Flags, operand: int): (o: Outcome)
    requires c.Valid()
    ensures o.cpu.Valid()
  {
    var r := c.regs;
    if opcode == JEQ then Outcome(if r.sw.IsEqual() then c.(regs := r.(pc := IntToAddr(ResolveAddr(c, f, operand)))) else c, false)
    else if opcode == JGT then Outcome(if r.sw.IsGreater() then c.(regs := r.(pc := IntToAddr(ResolveAddr(c, f, operand)))) else c, false)
    else if opcode == JLT then Outcome(if r.sw.IsLower() then c.(regs := r.(pc := IntToAddr(ResolveAddr(c, f, operand)))) else c, false)
    else if opcode == J then Outcome(c.(regs := r.(pc := IntToAddr(ResolveAddr(c, f, operand)))), false)
    else if opcode == RSUB then
      var c1 := c.(regs := r.(pc := IntToAddr(r.l)));
      if |c.callStack| == 0 then Outcome(c1, true)
      else Outcome(c1.(callStack := c.callStack[..|c.callStack| - 1]), false)
    else if opcode == JSUB then
      var r1 := r.(l := IntToWord(r.pc));
      var c1 := c.(regs := r1, callStack := c.callStack + [r1.pc]);
      Outcome(c1.(regs := r1.(pc := IntToAddr(ResolveAddr(c1, f, operand)))), false)
    else Outcome(c, false)
  }

  /** Loads: LDA, LDX, LDL, LDCH, LDB, LDS, LDT. */
  function ExecLoad(c: Cpu, opcode: int, f: Flags, operand: int): (c': Cpu)
    requires c.Valid()
    ensures c'.Valid()
  {
    if opcode == LDCH then
      var l := LoadByte(c, f, operand);
      l.cpu.(regs := l.cpu.regs.WithALo(l.value))
    else if opcode in {LDA, LDX, LDL, LDB, LDS, LDT} then
      var l := LoadWord(c, f, operand);
      var r := l.cpu.regs;
      var w := IntToWord(l.value);
      l.cpu.(regs :=
        if opcode == LDA then r.(a := w)
        else if opcode == LDX then r.(x := w)
        else if opcode == LDL then r.(l := w)
        else if opcode == LDB then r.(b := w)
        else if opcode == LDS then r.(s := w)
        else r.(t := w))
    else c
  }

  /**
   * Integer arithmetic on A: ADD, SUB, MUL (the Java `int` result truncated
   * to 24 bits, see WordOfInt32), DIV (signed, truncating, skipped when the
   * divisor is zero), AND, OR, COMP and TIX.
   */
  function ExecArith(c: Cpu, opcode: int, f: Flags, operand: int): (c': Cpu)
    requires c.Valid()
    ensures c'.Valid()
  {
    if opcode == TIX then
      // X is incremented before the operand is loaded, so indirect indexed addressing sees the new X
      var c1 := c.(regs := c.regs.(x := IntToWord(c.regs.x + 1)));
      var l := LoadWord(c1, f, operand);
      var r := l.cpu.regs;
      l.cpu.(regs := r.(sw := r.sw.(cc := SwordToInt(r.x) - SwordToInt(l.value))))
    else if opcode in {ADD, SUB, MUL, DIV, AND, OR, COMP} then
      var l := LoadWord(c, f, operand);
      ArithOn(l.cpu, opcode, l.value)
    else c
  }

  /** The effect of an arithmetic instruction once its operand word `v` has been loaded. */
  function ArithOn(c: Cpu, opcode: int, v: int): (c': Cpu)
    requires c.Valid()
    ensures c'.Valid()
  {
    var r := c.regs;
    if opcode == ADD then c.(regs := r.(a := IntToWord(r.a + v)))
    else if opcode == SUB then c.(regs := r.(a := IntToWord(r.a - v)))
    else if opcode == MUL then c.(regs := r.(a := IntToWord(r.a * v)))
    else if opcode == DIV then
      if SwordToInt(v) == 0 then c
      else c.(regs := r.(a := IntToWord(TruncDiv(SwordToInt(r.a), SwordToInt(v)))))
    else if opcode == AND then c.(regs := r.(a := IntToWord(And32(r.a, v))))
    else if opcode == OR then c.(regs := r.(a := IntToWord(Or32(r.a, v))))
    else if opcode == COMP then c.(regs := r.(sw := r.sw.(cc := SwordToInt(r.a) - SwordToInt(v))))
    else c
  }

  /** Device instructions RD, WD and TD: the device number is loaded as a byte; the bus answers. */
  function ExecDevice(c: Cpu, opcode: int, f: Flags, operand: int, bus: Bus): (c': Cpu)
    requires c.Valid()
    ensures c'.Valid()
  {
    var l := LoadByte(c, f, operand);
    var r := l.cpu.regs;
    if opcode == RD then l.cpu.(regs := r.WithALo(bus.input(l.value)))
    else if opcode == WD then l.cpu
    else if opcode == TD then l.cpu.(regs := r.(sw := r.sw.(cc := if bus.ready(l.value) then -1 else 0)))
    else c
  }

  /** `lps`: SW, PC, A, X, L, B, S and T reloaded from the words at `addr + 6` to `addr + 27` (F is not part of this model). */
  function Lps(c: Cpu, addr: int): (c': Cpu)
    requires c.Valid()
    ensures c'.Valid()
  {
    var m := c.mem;
    c.(regs := c.regs.(sw := Unpack(WordAt(m, addr + SAVED_SW)), pc := IntToAddr(WordAt(m, addr + SAVED_PC)),
                       a := IntToWord(WordAt(m, addr + SAVED_A)), x := IntToWord(WordAt(m, addr + SAVED_X)),
                       l := IntToWord(WordAt(m, addr + SAVED_L)), b := IntToWord(WordAt(m, addr + SAVED_B)),
                       s := IntToWord(WordAt(m, addr + SAVED_S)), t := IntToWord(WordAt(m, addr + SAVED_T))))
  }

  /** `InstructionSICF3F4.execute`. Floating-point instructions and SSK leave the modelled state unchanged. */
  function ExecSicF3F4(c: Cpu, opcode: int, f: Flags, operand: int, bus: Bus): (o: Outcome)
    requires c.Valid()
    ensures o.cpu.Valid()
  {
    if opcode in {STA, STX, STL, STCH, STB, STS, STT, STSW} then Outcome(ExecStore(c, opcode, f, operand), false)
    else if opcode in {JEQ, JGT, JLT, J, RSUB, JSUB} then ExecJump(c, opcode, f, operand)
    else if opcode in {LDA, LDX, LDL, LDCH, LDB, LDS, LDT} then Outcome(ExecLoad(c, opcode, f, operand), false)
    else if opcode in {ADD, SUB, MUL, DIV, AND, OR, COMP, TIX} then Outcome(ExecArith(c, opcode, f, operand), false)
    else if opcode in {RD, WD, TD} then Outcome(ExecDevice(c, opcode, f, operand, bus), false)
    else if opcode == LPS then Outcome(Lps(c, operand), false)
    else if opcode == STI then
      var l := LoadWord(c, f, operand);
      Outcome(l.cpu.(timer := l.value), false)
    else Outcome(c, false)
  }

  /** `execute` of the decoded instruction. Format 1 instructions leave the modelled state unchanged. */
  function Exec(c: Cpu, ins: Instruction, bus: Bus): (o: Outcome)
    requires c.Valid()
    ensures o.cpu.Valid()
  {
    match ins
    case InstructionF1(_) => Outcome(c, false)
    case InstructionF2(opcode, operand) => Outcome(ExecF2(c, opcode, operand), false)
    case InstructionSicF3F4(opcode, f, operand) => ExecSicF3F4(c, opcode, f, operand, bus)
    case InvalidInstruction(_) => Outcome(ReportIllegal(c), false)
  }

  /** A privileged instruction in user mode with PROGRAM interrupts enabled. */
  predicate Blocked(c: Cpu, ins: Instruction) {
    ins.Privileged() && !c.regs.sw.IsSupervisor() && c.regs.sw.IntEnabled(PROGRAM)
  }

  /** The privilege gate of `execute`: a blocked instruction only queues PROGRAM/PRIVILEGED_INSTRUCTION. */
  function Gate(c: Cpu, ins: Instruction, bus: Bus): (o: Outcome)
    requires c.Valid()
    ensures o.cpu.Valid()
  {
    if Blocked(c, ins) then Outcome(c.(pending := c.pending.(program := Some(Interrupt(PROGRAM, PRIVILEGED_INSTRUCTION)))), false)
    else Exec(c, ins, bus)
  }

  /** The timer tick of `execute`: one less, and a TIMER request when it has run out and TIMER is enabled. */
  function Tick(c: Cpu): (c': Cpu) {
    var c1 := c.(timer := Int32(c.timer - 1));
    if c1.timer <= 0 && c1.regs.sw.IntEnabled(TIMER) then c1.(pending := c1.pending.(timer := Some(Interrupt(TIMER, 0))))
    else c1
  }

  /** Triggering one interrupt and clearing its slot. */
  function Deliver(c: Cpu, i: Interrupt): (c': Cpu)
    requires c.Valid()
    ensures c'.Valid()
  {
    var ctx := Trigger(i, c.regs, c.mem);
    c.(regs := ctx.regs, mem := ctx.mem)
  }

  /** `triggerInterrupts`: the pending interrupt of highest priority is delivered and its slot cleared. */
  function Drain(c: Cpu): (c': Cpu)
    requires c.Valid()
    ensures c'.Valid()
  {
    var p := c.pending;
    if p.svc.Some? then Deliver(c, p.svc.value).(pending := p.(svc := None))
    else if p.program.Some? then Deliver(c, p.program.value).(pending := p.(program := None))
    else if p.timer.Some? then Deliver(c, p.timer.value).(pending := p.(timer := None))
    else if p.io.Some? then Deliver(c, p.io.value).(pending := p.(io := None))
    else c
  }

  /** `execute`: one clock cycle. An aborted instruction skips the timer tick and the drain. */
  function Step(c: Cpu, bus: Bus): (o: Outcome)
    requires c.Valid()
    ensures o.cpu.Valid()
  {
    var f := FetchDecode(c);
    var g := Gate(f.cpu, f.ins, bus);
    if g.aborted then g
    else Outcome(Drain(Tick(g.cpu)), false)
  }

  // ---------------------------------------------------------------- properties

  /**
   * Format classification and instruction size: F1 and invalid opcodes take
   * one byte, F2 two, SIC and F3 three, F4 four; the recorded span is the size,
   * except 0 for an invalid opcode, and an invalid instruction is never privileged.
   */
  lemma DecodeSizes(mem: seq<Byte>, r: RegState)
    requires |mem| == MEMORY_SIZE
    ensures var d := DecodeAt(mem, r); var op := ByteAt(mem, r.pc);
      && (IsF1(op) ==> d.ins == InstructionF1(op) && d.fetched == 1 && d.span == 1)
      && (IsF2(op) ==> d.ins.InstructionF2? && d.fetched == 2 && d.span == 2)
      && (IsF34(op / 4 * 4) ==>
            (&& d.ins.InstructionSicF3F4? && d.span == d.fetched
             && (d.fetched == 4 <==> !d.ins.flags.IsSic() && d.ins.flags.IsExtended())
             && (d.fetched != 4 ==> d.fetched == 3)))
      && (!IsF1(op) && !IsF2(op) && !IsF34(op / 4 * 4) ==> d.ins == InvalidInstruction(op) && d.fetched == 1 && d.span == 0 && !d.ins.Privileged())
      && (d.addressingError ==> d.ins.InstructionSicF3F4?)
  {
    FormatsDisjoint(ByteAt(mem, r.pc));
  }

  /**
   * The three addressing errors: F4 with a relative flag, F3 with both
   * relative flags, and indexing with neither simple nor indirect addressing.
   */
  lemma {:induction false} AddressingErrors(mem: seq<Byte>, r: RegState)
    requires |mem| == MEMORY_SIZE
    requires DecodeAt(mem, r).ins.InstructionSicF3F4?
    ensures var d := DecodeAt(mem, r); var f := d.ins.flags;
      d.addressingError <==>
        || (!f.IsSic() && f.IsExtended() && (f.b || f.p))
        || (!f.IsSic() && !f.IsExtended() && f.b && f.p)
        || (f.x && !f.IsSimple() && !f.IsIndirect())
  {
    var d := DecodeAt(mem, r);
    var f := d.ins.flags;
    RelativeKinds(f);
    assert f == FlagsOf(ByteAt(mem, r.pc), ByteAt(mem, r.pc + 1));
  }

  /**
   * `fetchDecode` counts one instruction, advances PC by the bytes fetched
   * (wrapping past the top of memory), records the instruction's span, clears
   * the read and write spans, and on an addressing error queues
   * PROGRAM/ILLEGAL_INSTRUCTION exactly when PROGRAM is enabled. Nothing else
   * changes, and the instruction is returned whether or not the addressing was valid.
   */
  lemma FetchDecodeEffects(c: Cpu)
    requires c.Valid()
    ensures var f := FetchDecode(c); var d := DecodeAt(c.mem, c.regs);
      && f.ins == d.ins
      && f.cpu.count == Int32(c.count + 1)
      && f.cpu.regs == c.regs.(pc := (c.regs.pc + d.fetched) % MEMORY_SIZE)
      && f.cpu.lastAddr == Span(c.regs.pc, d.span)
      && f.cpu.lastRead == NoSpan && f.cpu.lastWrite == NoSpan
      && f.cpu.pending.program == (if d.addressingError && c.regs.sw.IntEnabled(PROGRAM)
                                   then Some(Interrupt(PROGRAM, ILLEGAL_INSTRUCTION)) else c.pending.program)
      && f.cpu == c.(regs := f.cpu.regs, count := f.cpu.count, lastAddr := f.cpu.lastAddr, lastRead := NoSpan,
                     lastWrite := NoSpan, pending := c.pending.(program := f.cpu.pending.program))
  {
  }

  /**
   * Target-address calculation at decode for format 3: a PC-relative operand
   * is the signed 12-bit displacement plus the PC after the instruction; a
   * base-relative one is the displacement plus B; with simple addressing an
   * index adds signed X on top.
   */
  lemma {:induction false} F3Operand(mem: seq<Byte>, r: RegState)
    requires |mem| == MEMORY_SIZE
    requires DecodeAt(mem, r).ins.InstructionSicF3F4?
    ensures var d := DecodeAt(mem, r); var f := d.ins.flags;
      var disp := OperandF3(ByteAt(mem, r.pc + 1), ByteAt(mem, r.pc + 2));
      var index := if f.IsIndexed() && f.IsSimple() then SwordToInt(r.x) else 0;
      && (!f.IsSic() && !f.IsExtended() && f.IsPCRelative() ==>
            d.ins.operand == OperandPCRelative(disp) + (r.pc + 3) % MEMORY_SIZE + index
            && -0x800 <= d.ins.operand - index - (r.pc + 3) % MEMORY_SIZE < 0x800)
      && (!f.IsSic() && !f.IsExtended() && f.IsBaseRelative() ==> d.ins.operand == disp + r.b + index)
      && (!f.IsSic() && f.IsExtended() ==>
            d.ins.operand == OperandF4(ByteAt(mem, r.pc + 1), ByteAt(mem, r.pc + 2), ByteAt(mem, r.pc + 3)) + index)
      && (f.IsSic() ==> d.ins.operand == OperandSic(ByteAt(mem, r.pc + 1), ByteAt(mem, r.pc + 2)) + index)
  {
    var d := DecodeAt(mem, r);
    assert d.ins.flags == FlagsOf(ByteAt(mem, r.pc), ByteAt(mem, r.pc + 1));
  }

  /**
   * Standard SIC supports indexing: an indexed SIC instruction is three
   * bytes, raises no addressing error, and its operand is the 15-bit address
   * plus signed X.
   */
  lemma {:induction false} SicIndexing(mem: seq<Byte>, r: RegState)
    requires |mem| == MEMORY_SIZE
    requires DecodeAt(mem, r).ins.InstructionSicF3F4?
    requires DecodeAt(mem, r).ins.flags.IsSic() && DecodeAt(mem, r).ins.flags.IsIndexed()
    ensures var d := DecodeAt(mem, r);
      && d.fetched == 3 && !d.addressingError
      && d.ins.operand == OperandSic(ByteAt(mem, r.pc + 1), ByteAt(mem, r.pc + 2)) + SwordToInt(r.x)
  {
    F3Operand(mem, r);
    AddressingErrors(mem, r);
  }

  /**
   * `resolveAddr`: without indirection the address is the operand; with it,
   * the raw word at the operand, plus signed X exactly when indexed.
   */
  lemma ResolveAddrCases(c: Cpu, f: Flags, addr: int)
    requires c.Valid()
    ensures !f.IsIndirect() ==> ResolveAddr(c, f, addr) == addr
    ensures f.IsIndirect() && f.IsIndexed() ==> ResolveAddr(c, f, addr) == WordAt(c.mem, addr) + SwordToInt(c.regs.x)
    ensures f.IsIndirect() && !f.IsIndexed() ==> ResolveAddr(c, f, addr) == WordAt(c.mem, addr)
  {
  }

  /** Immediate loads return the operand itself and change nothing, spans included. */
  lemma ImmediateLoads(c: Cpu, f: Flags, operand: int)
    requires c.Valid() && f.IsImmediate()
    ensures LoadWord(c, f, operand) == Load(operand, c)
    ensures LoadByte(c, f, operand) == Load(operand, c)
  {
  }

  /** Other loads read memory at the resolved address, set the read span and clear the write span; nothing else changes. */
  lemma MemoryLoads(c: Cpu, f: Flags, operand: int)
    requires c.Valid() && !f.IsImmediate()
    ensures var addr := ResolveAddr(c, f, operand);
      && LoadWord(c, f, operand) == Load(WordAt(c.mem, addr), c.(lastRead := Span(addr, 3), lastWrite := NoSpan))
      && LoadByte(c, f, operand) == Load(ByteAt(c.mem, addr), c.(lastRead := Span(addr, 1), lastWrite := NoSpan))
  {
  }

  /**
   * A stored word reads back from the resolved address as its low 24 bits,
   * no byte outside its three cells changes, the write span is set and the
   * read span cleared.
   */
  lemma {:induction false} StoreWordEffects(c: Cpu, f: Flags, operand: int, w: int, j: int)
    requires c.Valid()
    ensures var c' := StoreWord(c, f, operand, w); var addr := ResolveAddr(c, f, operand);
      && WordAt(c'.mem, addr) == IntToWord(w)
      && (Slot(j) != Slot(addr) && Slot(j) != Slot(addr + 1) && Slot(j) != Slot(addr + 2) ==> ByteAt(c'.mem, j) == ByteAt(c.mem, j))
      && c'.lastWrite == Span(addr, 3) && c'.lastRead == NoSpan
      && c' == c.(mem := c'.mem, lastWrite := c'.lastWrite, lastRead := NoSpan)
  {
    var addr := ResolveAddr(c, f, operand);
    WordRoundTrip(c.mem, addr, w);
    if Slot(j) != Slot(addr) && Slot(j) != Slot(addr + 1) && Slot(j) != Slot(addr + 2) {
      WordFrame(c.mem, addr, w, j);
    }
  }

  /**
   * A stored byte reads back from the resolved address as the value modulo
   * 256, no other byte changes, the write span covers the one byte and the
   * read span is cleared.
   */
  lemma {:induction false} StoreByteEffects(c: Cpu, f: Flags, operand: int, v: int, j: int)
    requires c.Valid()
    ensures var c' := StoreByte(c, f, operand, v); var addr := ResolveAddr(c, f, operand);
      && ByteAt(c'.mem, addr) == v % 0x100
      && (Slot(j) != Slot(addr) ==> ByteAt(c'.mem, j) == ByteAt(c.mem, j))
      && c'.lastWrite == Span(addr, 1) && c'.lastRead == NoSpan
      && c' == c.(mem := c'.mem, lastWrite := c'.lastWrite, lastRead := NoSpan)
  {
    var addr := ResolveAddr(c, f, operand);
    if Slot(j) != Slot(addr) {
      WithByteFrame(c.mem, addr, v, j);
    }
  }

  /** A privileged instruction in user mode with PROGRAM enabled has no effect beyond queueing PROGRAM/PRIVILEGED_INSTRUCTION. */
  lemma BlockedInstruction(c: Cpu, ins: Instruction, bus: Bus)
    requires c.Valid() && ins.Privileged() && !c.regs.sw.IsSupervisor() && c.regs.sw.IntEnabled(PROGRAM)
    ensures Gate(c, ins, bus) == Outcome(c.(pending := c.pending.(program := Some(Interrupt(PROGRAM, PRIVILEGED_INSTRUCTION)))), false)
  {
  }

  /** With PROGRAM disabled, or in supervisor mode, a privileged instruction executes normally; an invalid one is never blocked. */
  lemma UnblockedInstruction(c: Cpu, ins: Instruction, bus: Bus)
    requires c.Valid()
    requires !c.regs.sw.IntEnabled(PROGRAM) || c.regs.sw.IsSupervisor() || ins.InvalidInstruction?
    ensures Gate(c, ins, bus) == Exec(c, ins, bus)
  {
  }

  /** The tick lowers the timer by exactly one and queues TIMER, code 0, when it is at or below zero and TIMER is enabled. */
  lemma TickEffects(c: Cpu)
    ensures var c' := Tick(c);
      && c'.timer == Int32(c.timer - 1)
      && c'.pending.timer == (if Int32(c.timer - 1) <= 0 && c.regs.sw.IntEnabled(TIMER) then Some(Interrupt(TIMER, 0)) else c.pending.timer)
      && c' == c.(timer := c'.timer, pending := c.pending.(timer := c'.pending.timer))
  {
  }

  function PendingCount(p: Pending): nat {
    (if p.svc.Some? then 1 else 0) + (if p.program.Some? then 1 else 0)
      + (if p.timer.Some? then 1 else 0) + (if p.io.Some? then 1 else 0)
  }

  /** The class of the pending interrupt `triggerInterrupts` serves: SVC before PROGRAM before TIMER before IO. */
  function First(p: Pending): (first: Option<IClass>)
    ensures first.None? <==> PendingCount(p) == 0
    ensures first.Some? ==> SlotOf(p, first.value).Some?
    ensures first == Some(PROGRAM) ==> p.svc.None?
    ensures first == Some(TIMER) ==> p.svc.None? && p.program.None?
    ensures first == Some(IO) ==> p.svc.None? && p.program.None? && p.timer.None?
  {
    if p.svc.Some? then Some(IClass.SVC)
    else if p.program.Some? then Some(PROGRAM)
    else if p.timer.Some? then Some(TIMER)
    else if p.io.Some? then Some(IO)
    else None
  }

  /** The pending slot of a class. */
  function SlotOf(p: Pending, cls: IClass): Option<Interrupt> {
    match cls
    case SVC => p.svc
    case PROGRAM => p.program
    case TIMER => p.timer
    case IO => p.io
  }

  /** With nothing pending the drain changes nothing. */
  lemma DrainIdle(c: Cpu)
    requires c.Valid() && First(c.pending).None?
    ensures Drain(c) == c
  {
  }

  /**
   * The drain serves exactly one pending interrupt, the one of highest
   * priority, and clears only its slot; the others stay pending.
   */
  lemma {:induction false} DrainOne(c: Cpu)
    requires c.Valid() && First(c.pending).Some?
    ensures var c', cls := Drain(c), First(c.pending).value;
      && PendingCount(c'.pending) == PendingCount(c.pending) - 1
      && SlotOf(c'.pending, cls).None?
      && (forall k :: k != cls ==> SlotOf(c'.pending, k) == SlotOf(c.pending, k))
      && (forall k :: k != cls && SlotOf(c.pending, k).Some? ==> Value(k) < Value(cls))
  {
    var p := c.pending;
    if p.svc.Some? {
      assert First(p) == Some(IClass.SVC);
    } else if p.program.Some? {
      assert First(p) == Some(PROGRAM);
    } else if p.timer.Some? {
      assert First(p) == Some(TIMER);
    } else {
      assert First(p) == Some(IO);
    }
  }

  /** What the drain does to registers and memory is triggering the interrupt it serves. */
  lemma {:induction false} DrainDelivers(c: Cpu)
    requires c.Valid() && First(c.pending).Some?
    ensures var c' := Drain(c);
      c' == Deliver(c, SlotOf(c.pending, First(c.pending).value).value).(pending := c'.pending)
  {
    var p := c.pending;
    if p.svc.Some? {
      assert First(p) == Some(IClass.SVC);
    } else if p.program.Some? {
      assert First(p) == Some(PROGRAM);
    } else if p.timer.Some? {
      assert First(p) == Some(TIMER);
    } else {
      assert First(p) == Some(IO);
    }
  }

  /** DIVR by a zero register changes no register and queues PROGRAM/ILLEGAL_INSTRUCTION exactly when PROGRAM is enabled. */
  lemma DivrByZero(c: Cpu, operand: Byte)
    requires c.Valid() && c.regs.Get(R1(operand)) == 0
    ensures var c' := ExecF2(c, DIVR, operand);
      && c'.regs == c.regs
      && c'.pending.program == (if c.regs.sw.IntEnabled(PROGRAM) then Some(Interrupt(PROGRAM, ILLEGAL_INSTRUCTION)) else c.pending.program)
      && c' == c.(pending := c'.pending)
  {
  }

  /** DIV by a word that is zero when read as signed never queues an interrupt and leaves A (indeed every register) unchanged. */
  lemma DivByZero(c: Cpu, f: Flags, operand: int)
    requires c.Valid() && SwordToInt(LoadWord(c, f, operand).value) == 0
    ensures var c' := ExecArith(c, DIV, f, operand);
      c'.regs == c.regs && c'.pending == c.pending && c' == LoadWord(c, f, operand).cpu
  {
  }

  /**
   * JSUB saves the return address (the PC after JSUB) in L, pushes it and
   * jumps; a later RSUB with L and the stack as JSUB left them returns there
   * and restores the stack.
   */
  lemma {:induction false} JsubThenRsub(c: Cpu, f: Flags, operand: int, c2: Cpu, f2: Flags, operand2: int)
    requires c.Valid() && c2.Valid()
    requires var j := ExecJump(c, JSUB, f, operand).cpu;
      c2.regs.l == j.regs.l && c2.callStack == j.callStack
    ensures var j := ExecJump(c, JSUB, f, operand);
      && !j.aborted && j.cpu.regs.l == c.regs.pc
      && j.cpu.callStack == c.callStack + [c.regs.pc]
      && j.cpu.regs.pc == IntToAddr(ResolveAddr(c, f, operand))
    ensures var r := ExecJump(c2, RSUB, f2, operand2);
      !r.aborted && r.cpu.regs.pc == c.regs.pc && r.cpu.callStack == c.callStack
  {
    var j := ExecJump(c, JSUB, f, operand).cpu;
    assert j.callStack[..|j.callStack| - 1] == c.callStack;
  }

  /** Executing an instruction aborts exactly for RSUB on an empty call stack. */
  lemma ExecAborts(c: Cpu, ins: Instruction, bus: Bus)
    requires c.Valid()
    ensures Exec(c, ins, bus).aborted <==> ins.InstructionSicF3F4? && ins.opcode == RSUB && |c.callStack| == 0
  {
  }

  /** A cycle aborts exactly when it runs RSUB on an empty call stack; the aborted cycle skips the tick and the drain. */
  lemma {:induction false} OnlyEmptyRsubAborts(c: Cpu, bus: Bus)
    requires c.Valid()
    ensures var f := FetchDecode(c);
      Step(c, bus).aborted <==>
        !Blocked(f.cpu, f.ins) && f.ins.InstructionSicF3F4? && f.ins.opcode == RSUB && |c.callStack| == 0
    ensures var f := FetchDecode(c);
      Step(c, bus).aborted ==> Step(c, bus).cpu == Gate(f.cpu, f.ins, bus).cpu
  {
    var f := FetchDecode(c);
    assert f.cpu.callStack == c.callStack;
    if !Blocked(f.cpu, f.ins) {
      ExecAborts(f.cpu, f.ins, bus);
    }
  }

  /**
   * LPS from a work area the interrupt save has just filled restores the
   * registers the save captured, with the status word passed through its
   * encoding (CC negated, ICODE masked, see PackUnpack); F is not part of the save.
   */
  lemma {:induction false} LpsRestoresSaved(c: Cpu, r: RegState, cls: IClass)
    requires c.Valid()
    ensures var c' := Lps(c.(mem := Saved(c.mem, r, cls)), WorkArea(cls));
      c'.regs == r.(sw := Unpack(Pack(r.sw)), f := c.regs.f)
  {
    SavedSlots(c.mem, r, cls);
  }

  /** COMP sets CC from a signed comparison of A with the operand word: lower, equal or greater. */
  lemma CompSetsCC(c: Cpu, f: Flags, operand: int)
    requires c.Valid()
    ensures var v := SwordToInt(LoadWord(c, f, operand).value); var c' := ExecArith(c, COMP, f, operand);
      && (c'.regs.sw.IsLower() <==> SwordToInt(c.regs.a) < v)
      && (c'.regs.sw.IsEqual() <==> SwordToInt(c.regs.a) == v)
      && (c'.regs.sw.IsGreater() <==> SwordToInt(c.regs.a) > v)
      && c'.regs == c.regs.(sw := c'.regs.sw) && c'.pending == c.pending && c'.mem == c.mem
  {
  }

  /** COMPR on two integer registers sets CC from their signed comparison; the Java subtraction cannot overflow. */
  lemma {:induction false} ComprSetsCC(c: Cpu, operand: Byte)
    requires c.Valid() && IsWordRegister(R1(operand)) && IsWordRegister(R2(operand))
    ensures var r := c.regs; var c' := ExecF2(c, COMPR, operand);
      && (c'.regs.sw.IsLower() <==> r.Gets(R1(operand)) < r.Gets(R2(operand)))
      && (c'.regs.sw.IsEqual() <==> r.Gets(R1(operand)) == r.Gets(R2(operand)))
      && (c'.regs.sw.IsGreater() <==> r.Gets(R1(operand)) > r.Gets(R2(operand)))
      && c'.regs == r.(sw := c'.regs.sw) && c' == c.(regs := c'.regs)
  {
    var r := c.regs;
    var d := r.Gets(R1(operand)) - r.Gets(R2(operand));
    assert -WORD_LIMIT < d < WORD_LIMIT;
    Int32Small(d);
  }

  /**
   * TIX adds one to X (modulo 2^24), then compares the new X, signed, with
   * the operand word, which is loaded with the new X in place.
   */
  lemma TixSteps(c: Cpu, f: Flags, operand: int)
    requires c.Valid()
    ensures var x' := IntToWord(c.regs.x + 1); var c1 := c.(regs := c.regs.(x := x'));
      var l := LoadWord(c1, f, operand); var c' := ExecArith(c, TIX, f, operand);
      && c'.regs.x == x'
      && (c'.regs.sw.IsLower() <==> SwordToInt(x') < SwordToInt(l.value))
      && (c'.regs.sw.IsEqual() <==> SwordToInt(x') == SwordToInt(l.value))
      && c'.regs == c.regs.(x := x', sw := c'.regs.sw) && c'.pending == c.pending && c'.mem == c.mem
  {
  }

  /**
   * A whole cycle on a privileged instruction in user mode with PROGRAM
   * enabled and no SVC request pending: the instruction has no effect, and the
   * PROGRAM interrupt it raises is delivered in the same cycle. SW and PC are
   * the PROGRAM handler's, read from the work area at 0x130, and the saved PC
   * is the address after the blocked instruction.
   */
  lemma {:induction false} BlockedCycle(c: Cpu, bus: Bus)
    requires c.Valid() && c.pending.svc.None?
    requires var f := FetchDecode(c); Blocked(f.cpu, f.ins)
    ensures var o := Step(c, bus); var f := FetchDecode(c); var area := WorkArea(PROGRAM);
      && !o.aborted
      && o.cpu.regs.sw == Unpack(WordAt(c.mem, area + HANDLER_SW))
      && o.cpu.regs.pc == WordAt(c.mem, area + HANDLER_PC) % MEMORY_SIZE
      && o.cpu.regs == f.cpu.regs.(sw := o.cpu.regs.sw, pc := o.cpu.regs.pc)
      && WordAt(o.cpu.mem, area + SAVED_PC) == f.cpu.regs.pc
      && o.cpu.pending.program.None?
      && o.cpu.callStack == c.callStack
  {
    var f := FetchDecode(c);
    var g := Gate(f.cpu, f.ins, bus);
    BlockedInstruction(f.cpu, f.ins, bus);
    var t := Tick(g.cpu);
    assert First(t.pending) == Some(PROGRAM);
    DrainDelivers(t);
    var i := Interrupt(PROGRAM, PRIVILEGED_INSTRUCTION);
    TriggerLoadsHandler(i, t.regs, t.mem);
    SavedSlots(t.mem, t.regs, PROGRAM);
    assert t.mem == c.mem && t.regs == f.cpu.regs;
  }

  /**
   * A timer that reaches zero on this tick, with TIMER enabled and no SVC or
   * PROGRAM request pending, is delivered by the drain of the same cycle: SW
   * and PC come from the TIMER work area at 0x160 and no request is left in
   * the TIMER slot.
   */
  lemma {:induction false} TimerExpires(c: Cpu)
    requires c.Valid() && c.timer == 1 && c.regs.sw.IntEnabled(TIMER)
    requires c.pending.svc.None? && c.pending.program.None?
    ensures var c' := Drain(Tick(c)); var area := WorkArea(TIMER);
      && c'.timer == 0
      && c'.regs.sw == Unpack(WordAt(c.mem, area + HANDLER_SW))
      && c'.regs.pc == WordAt(c.mem, area + HANDLER_PC) % MEMORY_SIZE
      && c'.pending == c.pending.(timer := None)
  {
    var t := Tick(c);
    assert First(t.pending) == Some(TIMER);
    DrainDelivers(t);
    TriggerLoadsHandler(Interrupt(TIMER, 0), t.regs, t.mem);
  }
}
