/**
 * The register file of the SIC/XE machine (Registers.java): the program
 * counter, the six 24-bit integer registers, the F register and the status
 * word with its packed 24-bit encoding.
 *
 * `RegState` is the value of the whole register file; the class `Registers`
 * holds the same state in fields that its methods update in place, and each
 * method's contract states the new value in terms of the old one.
 *
 * F holds a host double in the simulator. Every operation modelled here
 * stores a Java `int` into it, and a double holds any `int` exactly, so F is
 * kept as that integer.
 */
module RegisterFile {
  import opened Sicxe
  import opened InterruptClasses

  // Register numbers used by format-2 instructions and by `get`/`set`.
  const rA: int := 0
  const rX: int := 1
  const rL: int := 2
  const rB: int := 3
  const rS: int := 4
  const rT: int := 5
  const rF: int := 6
  const rPC: int := 8
  const rSW: int := 9

  type Bit = x: int | 0 <= x < 2
  type Nibble = x: int | 0 <= x < 16

  /**
   * The status word. CC keeps whatever integer the last comparison stored;
   * only its sign is meaningful.
   */
  datatype StatusWord = StatusWord(mode: Bit, idle: Bit, id: Nibble, cc: int, mask: Nibble, icode: Byte) {

    predicate IsLower() {
      cc < 0
    }

    predicate IsEqual() {
      cc == 0
    }

    predicate IsGreater() {
      cc > 0
    }

    predicate IsSupervisor() {
      mode == 1
    }

    /**
     * `intEnabled`: the class's own bit of MASK is one. The source writes this
     * as `(MASK & value) > 0`; `value` is that single bit.
     */
    predicate IntEnabled(c: IClass) {
      match c
      case SVC => mask / 8 % 2 == 1
      case PROGRAM => mask / 4 % 2 == 1
      case TIMER => mask / 2 % 2 == 1
      case IO => mask % 2 == 1
    }
  }

  /** The status word after `reset`: supervisor mode, everything else zero. */
  const InitialStatus: StatusWord := StatusWord(1, 0, 0, 0, 0, 0)

  /** The two CC bits of the packed word: 01 for a positive CC, 10 for a negative one. */
  function CcBits(cc: int): int {
    if cc > 0 then 1 else if cc < 0 then 2 else 0
  }

  /** The CC value `setSW` decodes from the two CC bits. */
  function CcOf(bits: int): int {
    if bits == 1 then -1 else if bits == 2 then 1 else 0
  }

  function Sign(v: int): int {
    if v > 0 then 1 else if v < 0 then -1 else 0
  }

  /**
   * `getSW`: MODE, IDLE, ID, CC, MASK and ICODE packed into one word (see
   * PackLayout). The fields occupy disjoint bit ranges, so the source's
   * bitwise ORs are additions here.
   */
  function Pack(sw: StatusWord): Word {
    sw.mode + sw.idle * 2 + sw.id * 4 + CcBits(sw.cc) * 64 + sw.mask * 256 + sw.icode * 65536
  }

  /**
   * The packed status word: MODE in bit 0, IDLE in bit 1, ID in bits 2-5,
   * the CC bits in 6-7, MASK in bits 8-11, bits 12-15 clear, ICODE in bits 16-23.
   */
  lemma {:induction false} PackLayout(sw: StatusWord)
    ensures Pack(sw) % 2 == sw.mode
    ensures Pack(sw) / 2 % 2 == sw.idle
    ensures Pack(sw) / 4 % 16 == sw.id
    ensures Pack(sw) / 64 % 4 == CcBits(sw.cc)
    ensures Pack(sw) / 256 % 16 == sw.mask
    ensures Pack(sw) / 4096 % 16 == 0
    ensures Pack(sw) / 65536 == sw.icode
  {
    var v := Pack(sw);
    var k := CcBits(sw.cc);
    var hi := sw.mask + 256 * sw.icode;              // bits 8 and up
    var mid := sw.id + 16 * k + 64 * hi;             // bits 2 and up
    DivModOf(v, 2, sw.idle + 2 * mid, sw.mode);
    DivModOf(sw.idle + 2 * mid, 2, mid, sw.idle);
    DivModOf(v, 4, mid, sw.mode + 2 * sw.idle);
    DivModOf(mid, 16, k + 4 * hi, sw.id);
    DivModOf(v, 64, k + 4 * hi, sw.mode + 2 * sw.idle + 4 * sw.id);
    DivModOf(k + 4 * hi, 4, hi, k);
    var low8 := sw.mode + 2 * sw.idle + 4 * sw.id + 64 * k;
    DivModOf(v, 256, hi, low8);
    DivModOf(hi, 16, 16 * sw.icode, sw.mask);
    var low12 := low8 + 256 * sw.mask;
    DivModOf(v, 4096, 16 * sw.icode, low12);
    DivModOf(16 * sw.icode, 16, sw.icode, 0);
    DivModOf(v, 65536, sw.icode, low12);
  }

  /** `setSW`: the fields of the status word decoded from a packed value. */
  function Unpack(v: int): StatusWord {
    StatusWord(v % 2, v / 2 % 2, v / 4 % 16, CcOf(v / 64 % 4), v / 256 % 16, v / 65536 / 8 % 2 * 8)
  }

  /**
   * Decoding an encoded status word gives the fields back, except that CC
   * comes back with its sign negated (encode writes 01 for "greater", decode
   * reads 01 as "lower") and only bit 3 of ICODE survives (decode masks with
   * 0x8).
   */
  lemma {:induction false} PackUnpack(sw: StatusWord)
    ensures Unpack(Pack(sw)) == StatusWord(sw.mode, sw.idle, sw.id, -Sign(sw.cc), sw.mask, sw.icode / 8 % 2 * 8)
  {
    PackLayout(sw);
    var v := Pack(sw);
    assert CcOf(CcBits(sw.cc)) == -Sign(sw.cc);
    assert v / 65536 / 8 % 2 * 8 == sw.icode / 8 % 2 * 8;
  }

  /**
   * `intEnabled` as the source writes it, `(MASK & c.value) > 0` on Java
   * ints, agrees with the bit test of StatusWord.IntEnabled.
   */
  lemma IntEnabledIsMaskAnd(sw: StatusWord, c: IClass)
    ensures sw.IntEnabled(c) <==> And32(sw.mask, Value(c)) > 0
  {
    MaskBit(sw.mask, Value(c));
  }

  lemma MaskBit(m: Nibble, v: int)
    requires v in {1, 2, 4, 8}
    ensures (m / v % 2 == 1) <==> And32(m, v) > 0
  {
    var b := m as bv32;
    assert Bits(m) == b;
    assert Bits(v) == v as bv32;
  }

  /** Exactly one of the three condition tests holds. */
  lemma CcTrichotomy(sw: StatusWord)
    ensures (sw.IsLower() && !sw.IsEqual() && !sw.IsGreater())
         || (!sw.IsLower() && sw.IsEqual() && !sw.IsGreater())
         || (!sw.IsLower() && !sw.IsEqual() && sw.IsGreater())
  {
  }

  /** The value of the whole register file. */
  datatype RegState = RegState(pc: Addr, a: Word, x: Word, l: Word, b: Word, s: Word, t: Word, f: JInt, sw: StatusWord) {

    /** `getALo`: the low byte of A. */
    function ALo(): Byte {
      a % 0x100
    }

    /** `setALo`: A with its low byte replaced by the low byte of `v`. */
    function WithALo(v: int): (r: RegState)
      ensures r.a / 0x100 == a / 0x100 && r.ALo() == v % 0x100
      ensures r == this.(a := r.a)
    {
      this.(a := a / 0x100 * 0x100 + v % 0x100)
    }

    /** `incPC`: the program counter moves to the next byte and wraps to 0 past the top of memory. */
    function IncPC(): (r: RegState)
      ensures r.pc == (pc + 1) % MEMORY_SIZE
      ensures r == this.(pc := r.pc)
    {
      this.(pc := if pc + 1 > MAX_ADDRESS then 0 else pc + 1)
    }

    /** `get(idx)`: the unsigned value of a register; 0 for an index that names none. */
    function Get(idx: int): JInt {
      if idx == rA then a
      else if idx == rX then x
      else if idx == rL then l
      else if idx == rB then b
      else if idx == rS then s
      else if idx == rT then t
      else if idx == rF then f
      else if idx == rPC then pc
      else if idx == rSW then Pack(sw)
      else 0
    }

    /** `gets(idx)`: the signed value of an integer register; F, PC and SW as `get` reads them. */
    function Gets(idx: int): JInt {
      if idx == rA then SwordToInt(a)
      else if idx == rX then SwordToInt(x)
      else if idx == rL then SwordToInt(l)
      else if idx == rB then SwordToInt(b)
      else if idx == rS then SwordToInt(s)
      else if idx == rT then SwordToInt(t)
      else if idx == rF then f
      else if idx == rPC then pc
      else if idx == rSW then Pack(sw)
      else 0
    }

    /** `set(idx, value)`: integer registers keep the low 24 bits, PC the low 20 bits, SW is decoded. */
    function Set(idx: int, v: JInt): RegState {
      if idx == rA then this.(a := IntToWord(v))
      else if idx == rX then this.(x := IntToWord(v))
      else if idx == rL then this.(l := IntToWord(v))
      else if idx == rB then this.(b := IntToWord(v))
      else if idx == rS then this.(s := IntToWord(v))
      else if idx == rT then this.(t := IntToWord(v))
      else if idx == rF then this.(f := v)
      else if idx == rPC then this.(pc := IntToAddr(v))
      else if idx == rSW then this.(sw := Unpack(v))
      else this
    }
  }

  /** The register file after `reset`. */
  const Initial: RegState := RegState(0, 0, 0, 0, 0, 0, 0, 0, InitialStatus)

  predicate IsWordRegister(idx: int) {
    0 <= idx <= 5
  }

  predicate IsRegister(idx: int) {
    0 <= idx <= 6 || idx == 8 || idx == 9
  }

  /** Writing an integer register by number stores the value modulo 2^24; both views read it back. */
  lemma SetThenGet(r: RegState, idx: int, v: JInt)
    requires IsWordRegister(idx)
    ensures r.Set(idx, v).Get(idx) == v % WORD_LIMIT
    ensures r.Set(idx, v).Gets(idx) == SwordToInt(v)
  {
  }

  /** Writing one register by number leaves every other register as it was. */
  lemma SetLeavesOthers(r: RegState, i: int, j: int, v: JInt)
    requires i != j
    ensures r.Set(i, v).Get(j) == r.Get(j)
    ensures r.Set(i, v).Gets(j) == r.Gets(j)
  {
  }

  /** An index that names no register reads as 0 and is ignored by `set`. */
  lemma InvalidIndex(r: RegState, idx: int, v: JInt)
    requires !IsRegister(idx)
    ensures r.Set(idx, v) == r
    ensures r.Get(idx) == 0 && r.Gets(idx) == 0
  {
  }

  /** Writing SW with its own encoded value keeps MODE, IDLE, ID and MASK, negates CC and masks ICODE. */
  lemma {:induction false} SetSWOfGetSW(r: RegState)
    ensures var sw := r.Set(rSW, r.Get(rSW)).sw;
      sw == StatusWord(r.sw.mode, r.sw.idle, r.sw.id, -Sign(r.sw.cc), r.sw.mask, r.sw.icode / 8 % 2 * 8)
  {
    PackUnpack(r.sw);
  }

  /** The register file of the simulator, updated in place. */
  class Registers {
    var pc: Addr
    var a: Word
    var x: Word
    var l: Word
    var s: Word
    var t: Word
    var b: Word
    var f: JInt
    var sw: StatusWord

    function Value(): RegState
      reads this
    {
      RegState(pc, a, x, l, b, s, t, f, sw)
    }

    /** `get(idx)`. */
    function Get(idx: int): JInt
      reads this
    {
      Value().Get(idx)
    }

    /** `gets(idx)`. */
    function Gets(idx: int): JInt
      reads this
    {
      Value().Gets(idx)
    }

    constructor ()
      ensures Value() == Initial
    {
      pc, a, x, l, s, t, b, f := 0, 0, 0, 0, 0, 0, 0, 0;
      sw := InitialStatus;
    }

    method SetPC(v: int)
      modifies this
      ensures Value() == old(Value()).(pc := IntToAddr(v))
    {
      pc := IntToAddr(v);
    }

    /** Past MAX_ADDRESS the counter restarts at 0 (the source also logs the overflow). */
    method IncPC()
      modifies this
      ensures Value() == old(Value()).IncPC()
    {
      var next := pc + 1;
      if next > MAX_ADDRESS {
        next := 0;
      }
      pc := next;
    }

    method SetA(v: int)
      modifies this
      ensures Value() == old(Value()).(a := IntToWord(v))
    {
      a := IntToWord(v);
    }

    method SetX(v: int)
      modifies this
      ensures Value() == old(Value()).(x := IntToWord(v))
    {
      x := IntToWord(v);
    }

    method SetL(v: int)
      modifies this
      ensures Value() == old(Value()).(l := IntToWord(v))
    {
      l := IntToWord(v);
    }

    method SetS(v: int)
      modifies this
      ensures Value() == old(Value()).(s := IntToWord(v))
    {
      s := IntToWord(v);
    }

    method SetT(v: int)
      modifies this
      ensures Value() == old(Value()).(t := IntToWord(v))
    {
      t := IntToWord(v);
    }

    method SetB(v: int)
      modifies this
      ensures Value() == old(Value()).(b := IntToWord(v))
    {
      b := IntToWord(v);
    }

    method SetF(v: JInt)
      modifies this
      ensures Value() == old(Value()).(f := v)
    {
      f := v;
    }

    /** Only the low byte of A changes; the upper 16 bits stay. */
    method SetALo(v: int)
      modifies this
      ensures Value() == old(Value()).WithALo(v)
      ensures a / 0x100 == old(a) / 0x100 && a % 0x100 == v % 0x100
    {
      a := a / 0x100 * 0x100 + v % 0x100;
    }

    method SetSW(v: int)
      modifies this
      ensures Value() == old(Value()).(sw := Unpack(v))
    {
      sw := Unpack(v);
    }

    method SetCC(compare: int)
      modifies this
      ensures Value() == old(Value()).(sw := old(sw).(cc := compare))
    {
      sw := sw.(cc := compare);
    }

    /** ICODE keeps the low eight bits of `v`. */
    method SetICODE(v: int)
      modifies this
      ensures Value() == old(Value()).(sw := old(sw).(icode := v % 0x100))
    {
      sw := sw.(icode := v % 0x100);
    }

    /** `set(idx, value)`; an index that names no register changes nothing. */
    method Set(idx: int, v: JInt)
      modifies this
      ensures Value() == old(Value()).Set(idx, v)
      ensures !IsRegister(idx) ==> Value() == old(Value())
    {
      if idx == rA {
        SetA(v);
      } else if idx == rX {
        SetX(v);
      } else if idx == rL {
        SetL(v);
      } else if idx == rB {
        SetB(v);
      } else if idx == rS {
        SetS(v);
      } else if idx == rT {
        SetT(v);
      } else if idx == rF {
        SetF(v);
      } else if idx == rPC {
        SetPC(v);
      } else if idx == rSW {
        SetSW(v);
      }
    }

    /** PC and every integer register become 0; the status word is supervisor mode with the rest zero. */
    method Reset()
      modifies this
      ensures Value() == Initial
      ensures pc == 0 && a == 0 && x == 0 && l == 0 && b == 0 && s == 0 && t == 0 && f == 0
      ensures sw == StatusWord(1, 0, 0, 0, 0, 0)
    {
      pc := 0;
      a, x, l := 0, 0, 0;
      b, s, t := 0, 0, 0;
      f := 0;
      sw := InitialStatus;
    }
  }
}
