/**
 * Instruction formats of SIC/XE: the opcode table (the `Opcode` helper), the
 * addressing flags (the `Flags` helper) and the decoded instruction value
 * (the `Instruction` class hierarchy inside Machine.java).
 *
 * `Opcode` and `Flags` are not part of this model's sources; they are given
 * the minimal definitions below, following the standard SIC/XE encoding:
 * opcodes are multiples of 4, the two low bits of the first byte are the n
 * and i flags, and the high nibble of the second byte holds x, b, p and e.
 */
module Instructions {
  import opened Sicxe

  // Format 1
  const FLOAT: int := 0xC0
  const FIX: int := 0xC4
  const NORM: int := 0xC8
  const SIO: int := 0xF0
  const HIO: int := 0xF4
  const TIO: int := 0xF8
  // Format 2
  const ADDR: int := 0x90
  const SUBR: int := 0x94
  const MULR: int := 0x98
  const DIVR: int := 0x9C
  const COMPR: int := 0xA0
  const SHIFTL: int := 0xA4
  const SHIFTR: int := 0xA8
  const RMO: int := 0xAC
  const SVC: int := 0xB0
  const CLEAR: int := 0xB4
  const TIXR: int := 0xB8
  // SIC, format 3 and format 4
  const LDA: int := 0x00
  const LDX: int := 0x04
  const LDL: int := 0x08
  const STA: int := 0x0C
  const STX: int := 0x10
  const STL: int := 0x14
  const ADD: int := 0x18
  const SUB: int := 0x1C
  const MUL: int := 0x20
  const DIV: int := 0x24
  const COMP: int := 0x28
  const TIX: int := 0x2C
  const JEQ: int := 0x30
  const JGT: int := 0x34
  const JLT: int := 0x38
  const J: int := 0x3C
  const AND: int := 0x40
  const OR: int := 0x44
  const JSUB: int := 0x48
  const RSUB: int := 0x4C
  const LDCH: int := 0x50
  const STCH: int := 0x54
  const ADDF: int := 0x58
  const SUBF: int := 0x5C
  const MULF: int := 0x60
  const DIVF: int := 0x64
  const LDB: int := 0x68
  const LDS: int := 0x6C
  const LDF: int := 0x70
  const LDT: int := 0x74
  const STB: int := 0x78
  const STS: int := 0x7C
  const STF: int := 0x80
  const STT: int := 0x84
  const COMPF: int := 0x88
  const LPS: int := 0xD0
  const STI: int := 0xD4
  const RD: int := 0xD8
  const WD: int := 0xDC
  const TD: int := 0xE0
  const STSW: int := 0xE8
  const SSK: int := 0xEC

  predicate IsF1(op: int) {
    op in {FLOAT, FIX, NORM, SIO, HIO, TIO}
  }

  /** The format 2 opcodes, ADDR to TIXR, fill 0x90 to 0xB8 (see FormatTables). */
  predicate IsF2(op: int) {
    ADDR <= op <= TIXR && op % 4 == 0
  }

  /**
   * The SIC/F3/F4 opcodes: LDA to COMPF fill 0x00 to 0x88, then LPS to TD
   * fill 0xD0 to 0xE0, then STSW and SSK (see FormatTables).
   */
  predicate IsF34(op: int) {
    op % 4 == 0 && (LDA <= op <= COMPF || LPS <= op <= TD || op == STSW || op == SSK)
  }

  /** The range tests above list exactly the opcodes of the two formats. */
  lemma FormatTables(op: int)
    ensures IsF2(op) <==> op in {ADDR, SUBR, MULR, DIVR, COMPR, SHIFTL, SHIFTR, RMO, SVC, CLEAR, TIXR}
    ensures IsF34(op) <==>
      op in {LDA, LDX, LDL, STA, STX, STL, ADD, SUB, MUL, DIV, COMP, TIX, JEQ, JGT, JLT, J,
             AND, OR, JSUB, RSUB, LDCH, STCH, ADDF, SUBF, MULF, DIVF, LDB, LDS, LDF, LDT,
             STB, STS, STF, STT, COMPF, LPS, STI, RD, WD, TD, STSW, SSK}
  {
  }

  /** Input/output and machine-control instructions. */
  predicate IsPrivileged(op: int) {
    op in {SIO, HIO, TIO, LPS, STI, RD, WD, TD, STSW, SSK}
  }

  /** The three format tables are disjoint, so classification does not depend on the order of the tests. */
  lemma FormatsDisjoint(op: int)
    ensures !(IsF1(op) && IsF2(op)) && !(IsF1(op) && IsF34(op)) && !(IsF2(op) && IsF34(op))
  {
  }

  /** Every opcode of the three tables is a multiple of 4 below 0x100. */
  lemma OpcodesAligned(op: int)
    requires IsF1(op) || IsF2(op) || IsF34(op)
    ensures 0 <= op < 0x100 && op % 4 == 0
  {
  }

  /** The addressing flags n, i (low bits of the first byte) and x, b, p, e (high nibble of the second). */
  datatype Flags = Flags(n: bool, i: bool, x: bool, b: bool, p: bool, e: bool) {
    predicate IsSic() { !n && !i }
    predicate IsImmediate() { !n && i }
    predicate IsIndirect() { n && !i }
    /**
     * Simple target-address calculation: n and i both set, or both clear as in
     * standard SIC, whose indexed addressing `fetchDecode` accepts.
     */
    predicate IsSimple() { n == i }
    predicate IsIndexed() { x }
    predicate IsExtended() { e }
    predicate IsPCRelative() { p && !b }
    predicate IsBaseRelative() { b && !p }
    predicate IsAbsolute() { !b && !p }
    /** Some relative flag is set. */
    predicate IsRelative() { b || p }
  }

  /** `new Flags(opcode, op)`: n and i are bits 1 and 0 of the opcode byte, x, b, p and e bits 7 to 4 of the second byte. */
  function FlagsOf(opcode: Byte, second: Byte): Flags
  {
    Flags(opcode / 2 % 2 == 1, opcode % 2 == 1,
          second / 0x80 % 2 == 1, second / 0x40 % 2 == 1, second / 0x20 % 2 == 1, second / 0x10 % 2 == 1)
  }

  /**
   * Exactly one of immediate, indirect and simple addressing holds; standard
   * SIC is the simple kind with n and i clear, and excludes the other two.
   */
  lemma AddressingKinds(f: Flags)
    ensures f.IsImmediate() || f.IsIndirect() || f.IsSimple()
    ensures !(f.IsImmediate() && f.IsIndirect()) && !(f.IsImmediate() && f.IsSimple()) && !(f.IsIndirect() && f.IsSimple())
    ensures f.IsSimple() <==> f.IsSic() || (f.n && f.i)
    ensures f.IsSic() ==> !f.IsImmediate() && !f.IsIndirect()
  {
  }

  /** At most one of the three relative kinds holds; none holds exactly when both b and p are set. */
  lemma RelativeKinds(f: Flags)
    ensures !(f.IsPCRelative() && f.IsBaseRelative()) && !(f.IsPCRelative() && f.IsAbsolute()) && !(f.IsBaseRelative() && f.IsAbsolute())
    ensures (f.IsPCRelative() || f.IsBaseRelative() || f.IsAbsolute()) <==> !(f.b && f.p)
    ensures f.IsRelative() <==> !f.IsAbsolute()
  {
  }

  /** Standard SIC: a 15-bit address from the low seven bits of the second byte and the third byte. */
  function OperandSic(b1: Byte, b2: Byte): (a: int)
    ensures 0 <= a < 0x8000
  {
    (b1 % 0x80) * 0x100 + b2
  }

  /** Format 3: a 12-bit displacement from the low nibble of the second byte and the third byte. */
  function OperandF3(b1: Byte, b2: Byte): (d: int)
    ensures 0 <= d < 0x1000
  {
    (b1 % 0x10) * 0x100 + b2
  }

  /** Format 4: a 20-bit address from the low nibble of the second byte and the next two bytes. */
  function OperandF4(b1: Byte, b2: Byte, b3: Byte): (a: int)
    ensures 0 <= a < MEMORY_SIZE
  {
    (b1 % 0x10) * 0x1_0000 + b2 * 0x100 + b3
  }

  /** A 12-bit displacement read as a signed number. */
  function OperandPCRelative(d: int): (s: int)
    requires 0 <= d < 0x1000
    ensures -0x800 <= s < 0x800
  {
    if d >= 0x800 then d - 0x1000 else d
  }

  /**
   * Where the operand bits come from: SIC takes the second byte without its
   * x flag and the third byte; F3 and F4 take the low nibble of the second
   * byte (below the x, b, p, e flags) and one or two more bytes.
   */
  lemma {:induction false} OperandLayout(b1: Byte, b2: Byte, b3: Byte)
    ensures OperandSic(b1, b2) / 0x100 == b1 % 0x80 && OperandSic(b1, b2) % 0x100 == b2
    ensures OperandF3(b1, b2) / 0x100 == b1 % 0x10 && OperandF3(b1, b2) % 0x100 == b2
    ensures var a := OperandF4(b1, b2, b3);
      a / 0x1_0000 == b1 % 0x10 && a / 0x100 % 0x100 == b2 && a % 0x100 == b3
  {
    DivModOf(OperandSic(b1, b2), 0x100, b1 % 0x80, b2);
    DivModOf(OperandF3(b1, b2), 0x100, b1 % 0x10, b2);
    var a := OperandF4(b1, b2, b3);
    DivModOf(a, 0x1_0000, b1 % 0x10, b2 * 0x100 + b3);
    DivModOf(a, 0x100, (b1 % 0x10) * 0x100 + b2, b3);
    DivModOf((b1 % 0x10) * 0x100 + b2, 0x100, b1 % 0x10, b2);
  }

  /** The signed reading of a 12-bit displacement is congruent to it modulo 2^12. */
  lemma OperandPCRelativeWraps(d: int)
    requires 0 <= d < 0x1000
    ensures (d - OperandPCRelative(d)) % 0x1000 == 0
    ensures OperandPCRelative(d) < 0 <==> d >= 0x800
  {
  }

  /**
   * A decoded instruction. `opcode` of a SIC/F3/F4 instruction has its two
   * flag bits cleared; the invalid instruction keeps the whole byte.
   */
  datatype Instruction =
    | InstructionF1(opcode: int)
    | InstructionF2(opcode: int, operandByte: Byte)
    | InstructionSicF3F4(opcode: int, flags: Flags, operand: int)
    | InvalidInstruction(opcode: int)
  {
    /** `isPrivileged`: looked up in the opcode table, except that an invalid instruction never is. */
    predicate Privileged() {
      match this
      case InvalidInstruction(_) => false
      case _ => IsPrivileged(opcode)
    }
  }
}
