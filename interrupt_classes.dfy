/**
 * The four interrupt classes of SIC/XE, their mask bits and their work
 * areas (the `IClass` enumeration and `getWorkArea` of Interrupt.java).
 */
module InterruptClasses {

  /** Listed from the highest to the lowest priority. */
  datatype IClass = SVC | PROGRAM | TIMER | IO

  /** The bit of the status word's MASK field that enables the class. */
  function Value(c: IClass): int {
    match c
    case SVC => 8
    case PROGRAM => 4
    case TIMER => 2
    case IO => 1
  }

  /** Base address of the class's work area: handler vector followed by the saved context. */
  function WorkArea(c: IClass): int {
    match c
    case SVC => 0x100
    case PROGRAM => 0x130
    case TIMER => 0x160
    case IO => 0x190
  }

  /** Bytes a work area spans: SW and PC of the handler, then the saved context up to the end of F. */
  const WORK_AREA_SIZE: int := 36

  /** An interrupt request: its class and its interrupt code. */
  datatype Interrupt = Interrupt(cls: IClass, icode: int)

  /** Interrupt codes of PROGRAM interrupts raised by the engine. */
  const ILLEGAL_INSTRUCTION: int := 0x00
  const PRIVILEGED_INSTRUCTION: int := 0x01

  /** Each class owns a distinct single bit of the mask. */
  lemma ClassBitsDistinct(c: IClass, d: IClass)
    ensures Value(c) in {1, 2, 4, 8}
    ensures c != d ==> Value(c) != Value(d)
  {
  }

  /** The work areas of two different classes do not overlap. */
  lemma WorkAreasDisjoint(c: IClass, d: IClass)
    requires c != d
    ensures WorkArea(c) + WORK_AREA_SIZE <= WorkArea(d) || WorkArea(d) + WORK_AREA_SIZE <= WorkArea(c)
  {
  }
}
