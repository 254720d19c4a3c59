/**
 * The simulated machine of Machine.java, updated in place: the register file
 * and memory objects, the timer, the four pending-interrupt slots, the call
 * stack and the statistics. `State()` reads the whole machine as a `Cpu`
 * value, and every method is proved to change it exactly as the function of
 * the same name in MachineSpec does.
 */
module Engine {
  import opened Sicxe
  import opened Memories
  import opened InterruptClasses
  import opened RegisterFile
  import opened Interrupts
  import opened Instructions
  import opened MachineSpec

  class Machine {
    const registers: Registers
    const memory: Memory
    var timer: int
    var svcInt: Option<Interrupt>
    var programInt: Option<Interrupt>
    var timerInt: Option<Interrupt>
    var ioInt: Option<Interrupt>
    var callStack: seq<int>
    var instructionCount: JInt
    var lastExecAddr: Span
    var lastExecRead: Span
    var lastExecWrite: Span

    ghost predicate Valid()
      reads this, memory
    {
      memory.Valid()
    }

    function State(): (c: Cpu)
      requires Valid()
      reads this, registers, memory, memory.data
      ensures c.Valid()
    {
      Cpu(registers.Value(), memory.data[..], timer, Pending(svcInt, programInt, timerInt, ioInt),
          callStack, instructionCount, lastExecAddr, lastExecRead, lastExecWrite)
    }

    /** A machine after power-on: registers reset, memory zeroed, nothing pending. */
    constructor ()
      ensures Valid() && fresh(registers) && fresh(memory) && fresh(memory.data)
      ensures State() == Cpu(Initial, seq(MEMORY_SIZE, _ => 0), 0, Pending(None, None, None, None), [], 0, NoSpan, NoSpan, NoSpan)
    {
      registers := new Registers();
      memory := new Memory();
      timer := 0;
      svcInt, programInt, timerInt, ioInt := None, None, None, None;
      callStack := [];
      instructionCount := 0;
      lastExecAddr, lastExecRead, lastExecWrite := NoSpan, NoSpan, NoSpan;
      new;
      assert memory.data[..] == seq(MEMORY_SIZE, _ => 0);
    }

    // ---------------------------------------------------------------- fetch and decode

    /** `fetchByte`: the byte at PC, read without breakpoint checks, then PC moves on. */
    method FetchByte() returns (b: Byte)
      requires Valid()
      modifies registers
      ensures b == ByteAt(old(memory.data[..]), old(registers.pc))
      ensures registers.Value() == old(registers.Value()).IncPC()
    {
      b := memory.GetByte(registers.pc);
      registers.IncPC();
    }

    /** `invalidAddressing`. */
    method InvalidAddressing()
      requires Valid()
      modifies this
      ensures State() == ReportIllegal(old(State()))
    {
      if registers.sw.IntEnabled(PROGRAM) {
        programInt := Some(Interrupt(PROGRAM, ILLEGAL_INSTRUCTION));
      }
    }

    /** One more byte fetched: PC stands `k + 1` bytes past `pc0`, and the byte is the one `k` bytes past it. */
    method FetchNext(ghost pc0: Addr, ghost k: nat) returns (b: Byte)
      requires Valid() && registers.pc == (pc0 + k) % MEMORY_SIZE
      modifies registers
      ensures b == ByteAt(memory.data[..], pc0 + k)
      ensures registers.Value() == old(registers.Value()).(pc := (pc0 + k + 1) % MEMORY_SIZE)
    {
      b := FetchByte();
      AddMod(pc0 + k, 1, MEMORY_SIZE);
    }

    /**
     * The operand part of the SIC/F3/F4 branch of `fetchDecode`, once the
     * opcode at `pc0` and the flags byte after it have been fetched: fetch the
     * remaining bytes, apply the relative addressing mode and report an
     * invalid one.
     */
    method FetchOperand(ghost pc0: Addr, flags: Flags, op: Byte) returns (operand: int, size: nat)
      requires Valid()
      requires ByteAt(memory.data[..], pc0 + 1) == op
      requires registers.pc == (pc0 + 2) % MEMORY_SIZE
      modifies this, registers
      ensures Valid()
      ensures var o := ReadOperand(memory.data[..], old(registers.Value()).(pc := pc0), flags);
        && operand == o.value && size == o.size
        && registers.Value() == old(registers.Value()).(pc := (pc0 + size) % MEMORY_SIZE)
        && State() == (if o.invalid then ReportIllegal(old(State()).(regs := registers.Value()))
                       else old(State()).(regs := registers.Value()))
    {
      if flags.IsSic() {
        size := 3;
        var b2 := FetchNext(pc0, 2);
        operand := OperandSic(op, b2);
      } else if flags.IsExtended() {
        size := 4;
        var b2 := FetchNext(pc0, 2);
        var b3 := FetchNext(pc0, 3);
        operand := OperandF4(op, b2, b3);
        if flags.IsRelative() {
          InvalidAddressing();
        }
      } else {
        size := 3;
        var b2 := FetchNext(pc0, 2);
        operand := OperandF3(op, b2);
        if flags.IsPCRelative() {
          operand := OperandPCRelative(operand) + registers.pc;
        } else if flags.IsBaseRelative() {
          operand := operand + registers.b;
        } else if !flags.IsAbsolute() {
          // both PC- and base-relative
          InvalidAddressing();
        }
      }
    }

    /** Indexed addressing at decode: simple addressing adds signed X now; any other mode but indirect is invalid. */
    method IndexOperand(flags: Flags, operand: int) returns (indexed: int)
      requires Valid()
      modifies this
      ensures Valid()
      ensures indexed == if flags.IsIndexed() && flags.IsSimple() then operand + SwordToInt(registers.x) else operand
      ensures State() == if IndexingInvalid(flags) then ReportIllegal(old(State())) else old(State())
    {
      indexed := operand;
      if flags.IsIndexed() {
        if flags.IsSimple() {
          indexed := operand + registers.Gets(rX);
        } else if !flags.IsIndirect() {
          // indirect indexing adds X in resolveAddr, after the dereference
          InvalidAddressing();
        }
      }
    }

    /** The SIC/F3/F4 branch of `fetchDecode`, once the opcode byte at `pc0` has been fetched. */
    method DecodeSicF3F4(ghost pc0: Addr, opcode: Byte) returns (ins: Instruction, size: nat)
      requires Valid()
      requires ByteAt(memory.data[..], pc0) == opcode && !IsF1(opcode) && !IsF2(opcode) && IsF34(opcode / 4 * 4)
      requires registers.pc == (pc0 + 1) % MEMORY_SIZE
      modifies this, registers
      ensures Valid()
      ensures var d := DecodeAt(memory.data[..], old(registers.Value()).(pc := pc0));
        && ins == d.ins && size == d.fetched
        && registers.Value() == old(registers.Value()).(pc := (pc0 + size) % MEMORY_SIZE)
        && State() == (if d.addressingError then ReportIllegal(old(State()).(regs := registers.Value()))
                       else old(State()).(regs := registers.Value()))
    {
      ghost var c0 := State();
      var op := FetchNext(pc0, 1);
      var flags := FlagsOf(opcode, op);
      var operand;
      operand, size := FetchOperand(pc0, flags, op);
      ghost var base := c0.(regs := registers.Value());
      ghost var o := ReadOperand(c0.mem, c0.regs.(pc := pc0), flags);
      assert State() == if o.invalid then ReportIllegal(base) else base;
      operand := IndexOperand(flags, operand);
      ins := InstructionSicF3F4(opcode / 4 * 4, flags, operand);
      ghost var d := DecodeAt(c0.mem, c0.regs.(pc := pc0));
      assert memory.data[..] == c0.mem;
      assert d.addressingError == (o.invalid || IndexingInvalid(flags));
      assert State() == if d.addressingError then ReportIllegal(base) else base;
    }

    /**
     * `fetchDecode`: count the instruction, clear the spans, fetch and decode
     * the instruction at PC and record its span.
     */
    method FetchDecode() returns (ins: Instruction)
      requires Valid()
      modifies this, registers
      ensures Valid()
      ensures Fetch(ins, State()) == MachineSpec.FetchDecode(old(State()))
    {
      ghost var c0 := State();
      ghost var d := DecodeAt(c0.mem, c0.regs);
      instructionCount := Int32(instructionCount + 1);
      lastExecWrite, lastExecRead, lastExecAddr := NoSpan, NoSpan, NoSpan;
      lastExecAddr := Span(registers.pc, 0);
      ghost var c1 := State();
      var instructionSize;
      ins, instructionSize := FetchInstruction();
      assert memory.data[..] == c0.mem;
      assert ins == d.ins && instructionSize == d.span;
      assert State() == if d.addressingError then ReportIllegal(c1.(regs := registers.Value())) else c1.(regs := registers.Value());
      lastExecAddr := lastExecAddr.(length := instructionSize);
    }

    /** The format dispatch of `fetchDecode`: the bytes of one instruction fetched from PC on and decoded. */
    method FetchInstruction() returns (ins: Instruction, instructionSize: nat)
      requires Valid()
      modifies this, registers
      ensures Valid()
      ensures var d := DecodeAt(memory.data[..], old(registers.Value()));
        && ins == d.ins && instructionSize == d.span
        && registers.Value() == old(registers.Value()).(pc := (old(registers.pc) + d.fetched) % MEMORY_SIZE)
        && State() == (if d.addressingError then ReportIllegal(old(State()).(regs := registers.Value()))
                       else old(State()).(regs := registers.Value()))
    {
      ghost var pc0 := registers.pc;
      var opcode := FetchNext(pc0, 0);
      if IsF1(opcode) {
        ins := InstructionF1(opcode);
        instructionSize := 1;
      } else if IsF2(opcode) {
        var op := FetchNext(pc0, 1);
        ins := InstructionF2(opcode, op);
        instructionSize := 2;
      } else if IsF34(opcode / 4 * 4) {
        ins, instructionSize := DecodeSicF3F4(pc0, opcode);
      } else {
        ins := InvalidInstruction(opcode);
        instructionSize := 0;
      }
    }

    // ---------------------------------------------------------------- memory operands

    /** `setLastExecRead`. */
    method SetLastExecRead(startAddress: int, spanLength: int)
      requires Valid()
      modifies this
      ensures Valid()
      ensures State() == NoteRead(old(State()), startAddress, spanLength)
    {
      lastExecWrite := NoSpan;
      lastExecRead := Span(startAddress, spanLength);
    }

    /** `setLastExecWrite`. */
    method SetLastExecWrite(startAddress: int, spanLength: int)
      requires Valid()
      modifies this
      ensures Valid()
      ensures State() == NoteWrite(old(State()), startAddress, spanLength)
    {
      lastExecRead := NoSpan;
      lastExecWrite := Span(startAddress, spanLength);
    }

    /** `resolveAddr`. */
    method ResolveAddr(f: Flags, operand: int) returns (addr: int)
      requires Valid()
      ensures addr == MachineSpec.ResolveAddr(State(), f, operand)
    {
      addr := operand;
      if f.IsIndirect() {
        addr := memory.GetWord(addr);
        if f.IsIndexed() {
          addr := addr + registers.Gets(rX);
        }
      }
    }

    /** `loadWord`. */
    method LoadWord(f: Flags, operand: int) returns (v: int)
      requires Valid()
      modifies this
      ensures Valid()
      ensures Load(v, State()) == MachineSpec.LoadWord(old(State()), f, operand)
    {
      if f.IsImmediate() {
        return operand;
      }
      var addr := ResolveAddr(f, operand);
      SetLastExecRead(addr, 3);
      v := memory.GetWord(addr);
    }

    /** `loadByte`. */
    method LoadByte(f: Flags, operand: int) returns (v: int)
      requires Valid()
      modifies this
      ensures Valid()
      ensures Load(v, State()) == MachineSpec.LoadByte(old(State()), f, operand)
    {
      if f.IsImmediate() {
        return operand;
      }
      var addr := ResolveAddr(f, operand);
      SetLastExecRead(addr, 1);
      v := memory.GetByte(addr);
    }

    /** `storeWord`. */
    method StoreWord(f: Flags, operand: int, word: int)
      requires Valid()
      modifies this, memory.data
      ensures Valid()
      ensures State() == MachineSpec.StoreWord(old(State()), f, operand, word)
    {
      var addr := ResolveAddr(f, operand);
      SetLastExecWrite(addr, 3);
      memory.SetWord(addr, word);
    }

    /** `storeByte`. */
    method StoreByte(f: Flags, operand: int, v: int)
      requires Valid()
      modifies this, memory.data
      ensures Valid()
      ensures State() == MachineSpec.StoreByte(old(State()), f, operand, v)
    {
      var addr := ResolveAddr(f, operand);
      SetLastExecWrite(addr, 1);
      memory.SetByte(addr, v);
    }

    // ---------------------------------------------------------------- execution

    /** `InstructionF2.execute`. */
    method ExecuteF2(opcode: int, operand: Byte)
      requires Valid()
      modifies this, registers
      ensures Valid()
      ensures State() == ExecF2(old(State()), opcode, operand)
    {
      if opcode in {ADDR, SUBR, MULR, DIVR} {
        ExecuteF2Arith(opcode, operand);
      } else if opcode in {SHIFTL, SHIFTR} {
        ExecuteF2Shift(opcode, operand);
      } else {
        ExecuteF2Other(opcode, operand);
      }
    }

    /** ADDR, SUBR, MULR and DIVR. */
    method ExecuteF2Arith(opcode: int, operand: Byte)
      requires Valid() && opcode in {ADDR, SUBR, MULR, DIVR}
      modifies this, registers
      ensures Valid()
      ensures State() == ExecF2(old(State()), opcode, operand)
    {
      var o1, o2 := operand / 16, operand % 16;
      if opcode == ADDR {
        registers.Set(o2, Int32(registers.Get(o2) + registers.Get(o1)));
      } else if opcode == SUBR {
        registers.Set(o2, Int32(registers.Get(o2) - registers.Get(o1)));
      } else if opcode == MULR {
        registers.Set(o2, Int32(registers.Get(o2) * registers.Get(o1)));
      } else {
        var divisor := registers.Get(o1);
        if divisor == 0 {
          if registers.sw.IntEnabled(PROGRAM) {
            programInt := Some(Interrupt(PROGRAM, ILLEGAL_INSTRUCTION));
          }
        } else {
          registers.Set(o2, Int32(TruncDiv(registers.Gets(o2), divisor)));
        }
      }
    }

    /** SHIFTL (a 24-bit rotation) and SHIFTR (an arithmetic shift). */
    method ExecuteF2Shift(opcode: int, operand: Byte)
      requires Valid() && opcode in {SHIFTL, SHIFTR}
      modifies registers
      ensures Valid()
      ensures State() == ExecF2(old(State()), opcode, operand)
    {
      if opcode == SHIFTL {
        ShiftLeft(operand);
      } else {
        ShiftRight(operand);
      }
    }

    /** SHIFTL: register R1 rotated left by R2 + 1 places. */
    method ShiftLeft(operand: Byte)
      requires Valid()
      modifies registers
      ensures Valid()
      ensures State() == ExecF2(old(State()), SHIFTL, operand)
    {
      var o1, o2 := operand / 16, operand % 16;
      registers.Set(o1, Or32(Shl32(registers.Get(o1), o2 + 1), Sar32(registers.Get(o1), 24 - o2 - 1)));
    }

    /** SHIFTR: register R1 shifted right by R2 + 1 places, copying the sign. */
    method ShiftRight(operand: Byte)
      requires Valid()
      modifies registers
      ensures Valid()
      ensures State() == ExecF2(old(State()), SHIFTR, operand)
    {
      var o1, o2 := operand / 16, operand % 16;
      registers.Set(o1, Sar32(registers.Gets(o1), o2 + 1));
    }

    /** The other format 2 instructions: COMPR, RMO, CLEAR, TIXR and SVC. */
    method ExecuteF2Other(opcode: int, operand: Byte)
      requires Valid() && opcode !in {ADDR, SUBR, MULR, DIVR, SHIFTL, SHIFTR}
      modifies this, registers
      ensures Valid()
      ensures State() == ExecF2(old(State()), opcode, operand)
    {
      var o1, o2 := operand / 16, operand % 16;
      if opcode == COMPR {
        registers.SetCC(Int32(registers.Gets(o1) - registers.Gets(o2)));
      } else if opcode == RMO {
        registers.Set(o2, registers.Get(o1));
      } else if opcode == CLEAR {
        registers.Set(o1, 0);
      } else if opcode == TIXR {
        registers.SetX(registers.x + 1);
        registers.SetCC(Int32(registers.Gets(rX) - registers.Gets(o1)));
      } else if opcode == Instructions.SVC {
        if registers.sw.IntEnabled(IClass.SVC) {
          svcInt := Some(Interrupt(IClass.SVC, operand));
        }
      }
    }

    /** The store cases of `InstructionSICF3F4.execute`. */
    method ExecuteStore(opcode: int, f: Flags, operand: int)
      requires Valid()
      modifies this, memory.data
      ensures Valid()
      ensures State() == ExecStore(old(State()), opcode, f, operand)
    {
      if opcode == STA {
        StoreWord(f, operand, registers.a);
      } else if opcode == STX {
        StoreWord(f, operand, registers.x);
      } else if opcode == STL {
        StoreWord(f, operand, registers.l);
      } else if opcode == STCH {
        StoreByte(f, operand, registers.a);
      } else if opcode == STB {
        StoreWord(f, operand, registers.b);
      } else if opcode == STS {
        StoreWord(f, operand, registers.s);
      } else if opcode == STT {
        StoreWord(f, operand, registers.t);
      } else if opcode == STSW {
        StoreWord(f, operand, Pack(registers.sw));
      }
    }

    /** The jump cases of `InstructionSICF3F4.execute`; `aborted` when RSUB finds the call stack empty. */
    method ExecuteJump(opcode: int, f: Flags, operand: int) returns (aborted: bool)
      requires Valid()
      modifies this, registers
      ensures Valid()
      ensures Outcome(State(), aborted) == ExecJump(old(State()), opcode, f, operand)
    {
      aborted := false;
      if opcode == JEQ {
        if registers.sw.IsEqual() {
          var addr := ResolveAddr(f, operand);
          registers.SetPC(addr);
        }
      } else if opcode == JGT {
        if registers.sw.IsGreater() {
          var addr := ResolveAddr(f, operand);
          registers.SetPC(addr);
        }
      } else if opcode == JLT {
        if registers.sw.IsLower() {
          var addr := ResolveAddr(f, operand);
          registers.SetPC(addr);
        }
      } else if opcode == J {
        var addr := ResolveAddr(f, operand);
        registers.SetPC(addr);
      } else if opcode == RSUB {
        registers.SetPC(registers.l);
        if |callStack| == 0 {
          aborted := true;
        } else {
          callStack := callStack[..|callStack| - 1];
        }
      } else if opcode == JSUB {
        registers.SetL(registers.pc);
        callStack := callStack + [registers.pc];
        var addr := ResolveAddr(f, operand);
        registers.SetPC(addr);
      }
    }

    /** The load cases of `InstructionSICF3F4.execute`. */
    method ExecuteLoad(opcode: int, f: Flags, operand: int)
      requires Valid()
      modifies this, registers
      ensures Valid()
      ensures State() == ExecLoad(old(State()), opcode, f, operand)
    {
      if opcode == LDCH {
        var v := LoadByte(f, operand);
        registers.SetALo(v);
      } else if opcode in {LDA, LDX, LDL, LDB, LDS, LDT} {
        var v := LoadWord(f, operand);
        if opcode == LDA {
          registers.SetA(v);
        } else if opcode == LDX {
          registers.SetX(v);
        } else if opcode == LDL {
          registers.SetL(v);
        } else if opcode == LDB {
          registers.SetB(v);
        } else if opcode == LDS {
          registers.SetS(v);
        } else {
          registers.SetT(v);
        }
      }
    }

    /** The integer arithmetic cases of `InstructionSICF3F4.execute`. */
    method ExecuteArith(opcode: int, f: Flags, operand: int)
      requires Valid()
      modifies this, registers
      ensures Valid()
      ensures State() == ExecArith(old(State()), opcode, f, operand)
    {
      if opcode == TIX {
        registers.SetX(registers.x + 1);
        var v := LoadWord(f, operand);
        registers.SetCC(registers.Gets(rX) - SwordToInt(v));
      } else if opcode in {ADD, SUB, MUL, DIV, AND, OR, COMP} {
        var v := LoadWord(f, operand);
        ArithOn(opcode, v);
      }
    }

    /** An arithmetic instruction applied to its loaded operand word `v`. */
    method ArithOn(opcode: int, v: int)
      requires Valid()
      modifies registers
      ensures Valid()
      ensures State() == MachineSpec.ArithOn(old(State()), opcode, v)
    {
      if opcode in {ADD, SUB, MUL, DIV} {
        ArithmeticOn(opcode, v);
      } else {
        LogicOn(opcode, v);
      }
    }

    /** ADD, SUB, MUL and DIV on A. */
    method ArithmeticOn(opcode: int, v: int)
      requires Valid() && opcode in {ADD, SUB, MUL, DIV}
      modifies registers
      ensures Valid()
      ensures State() == MachineSpec.ArithOn(old(State()), opcode, v)
    {
      if opcode == ADD {
        registers.SetA(registers.a + v);
      } else if opcode == SUB {
        registers.SetA(registers.a - v);
      } else if opcode == MUL {
        registers.SetA(registers.a * v);
      } else {
        var divisor := SwordToInt(v);
        if divisor != 0 {
          registers.SetA(TruncDiv(registers.Gets(rA), divisor));
        }
      }
    }

    /** AND and OR on A, and COMP. */
    method LogicOn(opcode: int, v: int)
      requires Valid() && opcode !in {ADD, SUB, MUL, DIV}
      modifies registers
      ensures Valid()
      ensures State() == MachineSpec.ArithOn(old(State()), opcode, v)
    {
      if opcode == AND {
        registers.SetA(And32(registers.a, v));
      } else if opcode == OR {
        registers.SetA(Or32(registers.a, v));
      } else if opcode == COMP {
        registers.SetCC(registers.Gets(rA) - SwordToInt(v));
      }
    }

    /** The device cases of `InstructionSICF3F4.execute`, with the bus's answers given. */
    method ExecuteDevice(opcode: int, f: Flags, operand: int, bus: Bus)
      requires Valid()
      modifies this, registers
      ensures Valid()
      ensures State() == ExecDevice(old(State()), opcode, f, operand, bus)
    {
      if opcode !in {RD, WD, TD} {
        return;
      }
      var device := LoadByte(f, operand);
      if opcode == RD {
        registers.SetALo(bus.input(device));
      } else if opcode == TD {
        registers.SetCC(if bus.ready(device) then -1 else 0);
      }
    }

    /** `lps`: reload the registers from the words at `addr + 6` on. */
    method Lps(addr: int)
      requires Valid()
      modifies registers
      ensures Valid()
      ensures State() == MachineSpec.Lps(old(State()), addr)
    {
      registers.SetSW(memory.GetWord(addr + SAVED_SW));
      registers.SetPC(memory.GetWord(addr + SAVED_PC));
      registers.SetA(memory.GetWord(addr + SAVED_A));
      registers.SetX(memory.GetWord(addr + SAVED_X));
      registers.SetL(memory.GetWord(addr + SAVED_L));
      registers.SetB(memory.GetWord(addr + SAVED_B));
      registers.SetS(memory.GetWord(addr + SAVED_S));
      registers.SetT(memory.GetWord(addr + SAVED_T));
    }

    /** `InstructionSICF3F4.execute`. */
    method ExecuteSicF3F4(opcode: int, f: Flags, operand: int, bus: Bus) returns (aborted: bool)
      requires Valid()
      modifies this, registers, memory.data
      ensures Valid()
      ensures Outcome(State(), aborted) == ExecSicF3F4(old(State()), opcode, f, operand, bus)
    {
      aborted := false;
      if opcode in {STA, STX, STL, STCH, STB, STS, STT, STSW} {
        ExecuteStore(opcode, f, operand);
      } else if opcode in {JEQ, JGT, JLT, J, RSUB, JSUB} {
        aborted := ExecuteJump(opcode, f, operand);
      } else if opcode in {LDA, LDX, LDL, LDCH, LDB, LDS, LDT} {
        ExecuteLoad(opcode, f, operand);
      } else if opcode in {ADD, SUB, MUL, DIV, AND, OR, COMP, TIX} {
        ExecuteArith(opcode, f, operand);
      } else if opcode in {RD, WD, TD} {
        ExecuteDevice(opcode, f, operand, bus);
      } else if opcode == LPS {
        Lps(operand);
      } else if opcode == STI {
        timer := LoadWord(f, operand);
      }
    }

    /** `execute` of a decoded instruction. */
    method ExecuteInstruction(ins: Instruction, bus: Bus) returns (aborted: bool)
      requires Valid()
      modifies this, registers, memory.data
      ensures Valid()
      ensures Outcome(State(), aborted) == Exec(old(State()), ins, bus)
    {
      aborted := false;
      match ins
      case InstructionF1(_) =>
      case InstructionF2(opcode, operand) =>
        ExecuteF2(opcode, operand);
      case InstructionSicF3F4(opcode, f, operand) =>
        aborted := ExecuteSicF3F4(opcode, f, operand, bus);
      case InvalidInstruction(_) =>
        if registers.sw.IntEnabled(PROGRAM) {
          programInt := Some(Interrupt(PROGRAM, ILLEGAL_INSTRUCTION));
        }
    }

    // ---------------------------------------------------------------- the cycle

    /** `trigger` of one interrupt on this machine's registers and memory. */
    method Deliver(i: Interrupt)
      requires Valid()
      modifies registers, memory.data
      ensures Valid()
      ensures State() == MachineSpec.Deliver(old(State()), i)
    {
      TriggerInterrupt(i, registers, memory);
    }

    /** `triggerInterrupts`: deliver the pending interrupt of highest priority and clear its slot. */
    method TriggerInterrupts()
      requires Valid()
      modifies this, registers, memory.data
      ensures Valid()
      ensures State() == Drain(old(State()))
    {
      if svcInt.Some? {
        Deliver(svcInt.value);
        svcInt := None;
      } else if programInt.Some? {
        Deliver(programInt.value);
        programInt := None;
      } else if timerInt.Some? {
        Deliver(timerInt.value);
        timerInt := None;
      } else if ioInt.Some? {
        Deliver(ioInt.value);
        ioInt := None;
      }
    }

    /** `execute`: one clock cycle; `aborted` when the instruction ended it early. */
    method Execute(bus: Bus) returns (aborted: bool)
      requires Valid()
      modifies this, registers, memory.data
      ensures Valid()
      ensures Outcome(State(), aborted) == Step(old(State()), bus)
    {
      ghost var f := MachineSpec.FetchDecode(old(State()));
      var instruction := FetchDecode();
      ghost var g := Gate(f.cpu, f.ins, bus);
      aborted := false;
      if instruction.Privileged() && !registers.sw.IsSupervisor() && registers.sw.IntEnabled(PROGRAM) {
        programInt := Some(Interrupt(PROGRAM, PRIVILEGED_INSTRUCTION));
      } else {
        aborted := ExecuteInstruction(instruction, bus);
        if aborted {
          return;
        }
      }
      assert State() == g.cpu;
      ghost var t := Tick(g.cpu);
      timer := Int32(timer - 1);
      if timer <= 0 && registers.sw.IntEnabled(TIMER) {
        timerInt := Some(Interrupt(TIMER, 0));
      }
      assert State() == t;
      TriggerInterrupts();
    }
  }
}
