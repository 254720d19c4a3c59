/**
 * Triggering an interrupt (Interrupt.java): the current registers are saved
 * into the class's work area, then the handler's status word and program
 * counter are loaded from the first two words of the same area.
 *
 * Work-area layout, as offsets from the class's base address:
 *   +0 handler SW, +3 handler PC,
 *   +6 SW, +9 PC, +12 A, +15 X, +18 L, +21 B, +24 S, +27 T, +30 F (6 bytes).
 * The F slot holds the register's host floating-point encoding and is not
 * part of this model: `Saved` leaves its six bytes as they were.
 */
module Interrupts {
  import opened Sicxe
  import opened Memories
  import opened InterruptClasses
  import opened RegisterFile

  const HANDLER_SW: int := 0
  const HANDLER_PC: int := 3
  const SAVED_SW: int := 6
  const SAVED_PC: int := 9
  const SAVED_A: int := 12
  const SAVED_X: int := 15
  const SAVED_L: int := 18
  const SAVED_B: int := 21
  const SAVED_S: int := 24
  const SAVED_T: int := 27
  const SAVED_F: int := 30

  /** The registers `saveRegisters` stores, in the order of their slots from +6 on. */
  function SavedWords(r: RegState): (vs: seq<int>)
    ensures |vs| == 8
  {
    [Pack(r.sw), r.pc, r.a, r.x, r.l, r.b, r.s, r.t]
  }

  /** `saveRegisters`: memory after the register words are written into the class's work area. */
  function Saved(m: seq<Byte>, r: RegState, c: IClass): (m': seq<Byte>)
    requires |m| == MEMORY_SIZE
    ensures |m'| == MEMORY_SIZE
  {
    StoreWords(m, WorkArea(c) + SAVED_SW, SavedWords(r))
  }

  /** Registers and memory together. */
  datatype Context = Context(regs: RegState, mem: seq<Byte>)

  /** `trigger`: save the registers, then load SW and PC from words +0 and +3 of the work area. */
  function Trigger(i: Interrupt, r: RegState, m: seq<Byte>): (ctx: Context)
    requires |m| == MEMORY_SIZE
    ensures |ctx.mem| == MEMORY_SIZE
  {
    var area := WorkArea(i.cls);
    var m' := Saved(m, r, i.cls);
    Context(r.(sw := Unpack(WordAt(m', area + HANDLER_SW)), pc := IntToAddr(WordAt(m', area + HANDLER_PC))), m')
  }

  /** Saving touches only the bytes from +6 up to the end of the T slot (+30); the F slot at +30 is not part of this model. */
  lemma {:induction false} SavedFrame(m: seq<Byte>, r: RegState, c: IClass, j: int)
    requires |m| == MEMORY_SIZE
    requires Slot(j) < WorkArea(c) + SAVED_SW || WorkArea(c) + SAVED_F <= Slot(j)
    ensures ByteAt(Saved(m, r, c), j) == ByteAt(m, j)
  {
    StoreWordsFrame(m, WorkArea(c) + SAVED_SW, SavedWords(r), j);
  }

  /** The handler vector (words +0 and +3) is not overwritten by the save. */
  lemma {:induction false} SavedKeepsVector(m: seq<Byte>, r: RegState, c: IClass)
    requires |m| == MEMORY_SIZE
    ensures WordAt(Saved(m, r, c), WorkArea(c) + HANDLER_SW) == WordAt(m, WorkArea(c) + HANDLER_SW)
    ensures WordAt(Saved(m, r, c), WorkArea(c) + HANDLER_PC) == WordAt(m, WorkArea(c) + HANDLER_PC)
  {
    var area := WorkArea(c);
    SavedFrame(m, r, c, area);
    SavedFrame(m, r, c, area + 1);
    SavedFrame(m, r, c, area + 2);
    SavedFrame(m, r, c, area + 3);
    SavedFrame(m, r, c, area + 4);
    SavedFrame(m, r, c, area + 5);
  }

  /** Each saved word reads back as the register it holds (the registers are already 24-bit words). */
  lemma {:induction false} SavedSlots(m: seq<Byte>, r: RegState, c: IClass)
    requires |m| == MEMORY_SIZE
    ensures var m' := Saved(m, r, c); var area := WorkArea(c);
      && WordAt(m', area + SAVED_SW) == Pack(r.sw)
      && WordAt(m', area + SAVED_PC) == r.pc
      && WordAt(m', area + SAVED_A) == r.a
      && WordAt(m', area + SAVED_X) == r.x
      && WordAt(m', area + SAVED_L) == r.l
      && WordAt(m', area + SAVED_B) == r.b
      && WordAt(m', area + SAVED_S) == r.s
      && WordAt(m', area + SAVED_T) == r.t
  {
    var area, vs := WorkArea(c) + SAVED_SW, SavedWords(r);
    StoreWordsRead(m, area, vs, 0);
    StoreWordsRead(m, area, vs, 1);
    StoreWordsRead(m, area, vs, 2);
    StoreWordsRead(m, area, vs, 3);
    StoreWordsRead(m, area, vs, 4);
    StoreWordsRead(m, area, vs, 5);
    StoreWordsRead(m, area, vs, 6);
    StoreWordsRead(m, area, vs, 7);
  }

  /**
   * After `trigger` the status word and PC are the handler's, taken from the
   * work area as it was before the interrupt; A, X, L, B, S, T and F are
   * unchanged, and the interrupt's own code is never written into SW.
   */
  lemma {:induction false} TriggerLoadsHandler(i: Interrupt, r: RegState, m: seq<Byte>)
    requires |m| == MEMORY_SIZE
    ensures var ctx := Trigger(i, r, m); var area := WorkArea(i.cls);
      && ctx.regs.sw == Unpack(WordAt(m, area + HANDLER_SW))
      && ctx.regs.pc == WordAt(m, area + HANDLER_PC) % MEMORY_SIZE
      && ctx.regs == r.(sw := ctx.regs.sw, pc := ctx.regs.pc)
      && ctx.mem == Saved(m, r, i.cls)
  {
    SavedKeepsVector(m, r, i.cls);
  }

  /** The interrupt code plays no part in triggering. */
  lemma TriggerIgnoresCode(c: IClass, code1: int, code2: int, r: RegState, m: seq<Byte>)
    requires |m| == MEMORY_SIZE
    ensures Trigger(Interrupt(c, code1), r, m) == Trigger(Interrupt(c, code2), r, m)
  {
  }

  /** `saveRegisters`, writing the words in place. */
  method SaveRegisters(i: Interrupt, registers: Registers, memory: Memory)
    requires memory.Valid()
    modifies memory.data
    ensures memory.data[..] == Saved(old(memory.data[..]), registers.Value(), i.cls)
  {
    memory.SetWords(WorkArea(i.cls) + SAVED_SW, SavedWords(registers.Value()));
  }

  /** `trigger`, in place. */
  method TriggerInterrupt(i: Interrupt, registers: Registers, memory: Memory)
    requires memory.Valid()
    modifies registers, memory.data
    ensures Context(registers.Value(), memory.data[..]) == Trigger(i, old(registers.Value()), old(memory.data[..]))
  {
    SaveRegisters(i, registers, memory);
    var addr := WorkArea(i.cls);
    registers.SetSW(memory.GetWord(addr + HANDLER_SW));
    registers.SetPC(memory.GetWord(addr + HANDLER_PC));
  }
}
