/**
 * The register-level part of the virtual file-system device (Fsystem.java):
 * the selected file number, the 24-bit cursor `address` that the three
 * `Address` devices read and write one byte lane at a time, the cursor
 * operations of the `Operation` device, the loops that split a word into
 * its big-endian bytes before it is written to a file, and the search for
 * the first free file number.
 *
 * The host files themselves are not part of this model: whether file `i`
 * exists is a parameter, and the byte buffers the source would write to a
 * file are returned instead.
 */
module Fsystem {
  import opened Sicxe
  import opened RegisterFile

  /** The offset of an `Address` device: 0 selects bits 16-23 of the cursor, 1 bits 8-15, 2 bits 0-7. */
  type Lane = k: int | 0 <= k < 3

  /** `2^((2 - k) * 8)`, the weight of lane `k`. */
  function LaneWeight(k: Lane): int {
    if k == 0 then 0x1_0000 else if k == 1 then 0x100 else 1
  }

  /**
   * `address >> (2 - k) * 8 & 0xff`: Java's arithmetic shift is floor division
   * by the lane's weight, and `& 0xff` the remainder modulo 256.
   */
  function LaneOf(address: int, k: Lane): Byte {
    address / LaneWeight(k) % 0x100
  }

  /** A value split into the bits above 24 and three big-endian byte lanes. */
  lemma {:induction false} Bytes3(v: int, t: int, l0: Byte, l1: Byte, l2: Byte)
    requires v == t * 0x100_0000 + l0 * 0x1_0000 + l1 * 0x100 + l2
    ensures v % 0x100 == l2 && v / 0x100 % 0x100 == l1
    ensures v / 0x100 / 0x100 % 0x100 == l0 && v / 0x1_0000 % 0x100 == l0
    ensures v / 0x100 / 0x100 / 0x100 == t && v / 0x100_0000 == t
    ensures v % 0x100_0000 == l0 * 0x1_0000 + l1 * 0x100 + l2
  {
    DivModOf(v, 0x100, t * 0x1_0000 + l0 * 0x100 + l1, l2);
    DivModOf(v / 0x100, 0x100, t * 0x100 + l0, l1);
    DivModOf(v / 0x100 / 0x100, 0x100, t, l0);
    DivModOf(v, 0x1_0000, t * 0x100 + l0, l1 * 0x100 + l2);
    DivModOf(v / 0x1_0000, 0x100, t, l0);
    DivModOf(v, 0x100_0000, t, l0 * 0x1_0000 + l1 * 0x100 + l2);
  }

  /** Every word is the sum of its three bytes at their weights. */
  lemma {:induction false} WordBytes(w: Word)
    ensures w == w / 0x1_0000 * 0x1_0000 + w / 0x100 % 0x100 * 0x100 + w % 0x100
    ensures w / 0x1_0000 < 0x100
  {
    var q, l2 := w / 0x100, w % 0x100;
    var q2, l1 := q / 0x100, q % 0x100;
    assert w == q2 * 0x1_0000 + l1 * 0x100 + l2;
    DivModOf(w, 0x1_0000, q2, l1 * 0x100 + l2);
  }

  /** Any integer is its bits above 24 plus its three byte lanes, as `Address(0..2).read()` sees them. */
  lemma {:induction false} LaneSplit(a: int)
    ensures a == a / 0x100_0000 * 0x100_0000 + LaneOf(a, 0) * 0x1_0000 + LaneOf(a, 1) * 0x100 + LaneOf(a, 2)
  {
    var t, w := a / 0x100_0000, a % 0x100_0000;
    WordBytes(w);
    var l0, l1, l2 := w / 0x1_0000, w / 0x100 % 0x100, w % 0x100;
    Bytes3(a, t, l0, l1, l2);
  }

  /**
   * `Address(k).write(v)` for a byte `v`: clearing lane `k` and OR-ing in `v`
   * shifted to it is, because the lane and `v` fit in eight bits, the same
   * as subtracting the old lane and adding the new one.
   */
  function WithLane(address: JInt, k: Lane, v: Byte): JInt {
    LaneSplit(address);
    if k == 0 then address + (v - LaneOf(address, 0)) * 0x1_0000
    else if k == 1 then address + (v - LaneOf(address, 1)) * 0x100
    else address + (v - LaneOf(address, 2))
  }

  /** After writing lane `k`, reading it gives the byte written; the other two lanes and the bits above 24 are unchanged. */
  lemma {:induction false} WithLaneLanes(address: JInt, k: Lane, v: Byte)
    ensures LaneOf(WithLane(address, k, v), k) == v
    ensures forall j: Lane :: j != k ==> LaneOf(WithLane(address, k, v), j) == LaneOf(address, j)
    ensures WithLane(address, k, v) / 0x100_0000 == address / 0x100_0000
  {
    LaneSplit(address);
    var t := address / 0x100_0000;
    var l0, l1, l2 := LaneOf(address, 0), LaneOf(address, 1), LaneOf(address, 2);
    var r := WithLane(address, k, v);
    if k == 0 {
      Bytes3(r, t, v, l1, l2);
    } else if k == 1 {
      Bytes3(r, t, l0, v, l2);
    } else {
      Bytes3(r, t, l0, l1, v);
    }
  }

  /** The opcodes of the `Operation` device that move the cursor. */
  const CURSOR_RESET: int := 0x31
  const CURSOR_DEC: int := 0x32
  const CURSOR_BACK: int := 0x33
  const CURSOR_INC: int := 0x34
  const CURSOR_FORWARD: int := 0x35

  predicate IsCursorOp(opcode: int) {
    CURSOR_RESET <= opcode <= CURSOR_FORWARD
  }

  /** The cursor after one of the operations 0x31 to 0x35, with Java `int` wrap-around. */
  function CursorMove(address: JInt, opcode: int): JInt
    requires IsCursorOp(opcode)
  {
    if opcode == CURSOR_RESET then 0
    else if opcode == CURSOR_DEC then Int32(address - 1)
    else if opcode == CURSOR_BACK then Int32(address - 3)
    else if opcode == CURSOR_INC then Int32(address + 1)
    else Int32(address + 3)
  }

  /** Wrapping a Java `int` twice is wrapping it once. */
  lemma {:induction false} Int32Add(v: int, k: int)
    ensures Int32(Int32(v) + k) == Int32(v + k)
  {
    var r := Int32(v);
    var n := (v - r) / INT_LIMIT;
    assert v == r + n * INT_LIMIT;
    AddMod(r + k, n * INT_LIMIT, INT_LIMIT);
    assert (n * INT_LIMIT) % INT_LIMIT == 0;
    AddMod(n * INT_LIMIT, r + k, INT_LIMIT);
  }

  /**
   * Stepping the cursor forward and back by one (0x34 then 0x32) or by a
   * word (0x35 then 0x33), in either order, brings it back where it was,
   * across the wrap-around of a Java `int` too.
   */
  lemma {:induction false} CursorStepsCancel(address: JInt)
    ensures CursorMove(CursorMove(address, CURSOR_INC), CURSOR_DEC) == address
    ensures CursorMove(CursorMove(address, CURSOR_DEC), CURSOR_INC) == address
    ensures CursorMove(CursorMove(address, CURSOR_FORWARD), CURSOR_BACK) == address
    ensures CursorMove(CursorMove(address, CURSOR_BACK), CURSOR_FORWARD) == address
  {
    Int32Add(address + 1, -1);
    Int32Add(address - 1, 1);
    Int32Add(address + 3, -3);
    Int32Add(address - 3, 3);
    Int32Small(address);
  }

  /** The three bytes of a word, most significant first. */
  function BigEndian(w: Word): (bs: seq<Byte>)
    ensures |bs| == 3
  {
    WordBytes(w);
    [w / 0x1_0000, w / 0x100 % 0x100, w % 0x100]
  }

  /** The value of a big-endian byte string: each byte shifted in below the ones before it. */
  function Join(bs: seq<Byte>): int
    decreases |bs|
  {
    if bs == [] then 0 else Join(bs[..|bs| - 1]) * 0x100 + bs[|bs| - 1]
  }

  lemma Join3(b0: Byte, b1: Byte, b2: Byte)
    ensures Join([b0, b1, b2]) == b0 * 0x1_0000 + b1 * 0x100 + b2
  {
    assert [b0][..0] == [];
    assert Join([b0]) == b0;
    assert [b0, b1][..1] == [b0];
    assert Join([b0, b1]) == b0 * 0x100 + b1;
    assert [b0, b1, b2][..2] == [b0, b1];
  }

  /** Joining the bytes of a word gives the word back. */
  lemma {:induction false} JoinBigEndian(w: Word)
    ensures Join(BigEndian(w)) == w
  {
    var bs := BigEndian(w);
    Join3(bs[0], bs[1], bs[2]);
    WordBytes(w);
  }

  /** Splitting the word that three bytes make gives the bytes back. */
  lemma {:induction false} BigEndianJoin(b0: Byte, b1: Byte, b2: Byte)
    ensures 0 <= Join([b0, b1, b2]) < WORD_LIMIT
    ensures BigEndian(Join([b0, b1, b2])) == [b0, b1, b2]
  {
    Join3(b0, b1, b2);
    Bytes3(b0 * 0x1_0000 + b1 * 0x100 + b2, 0, b0, b1, b2);
  }

  /** `v` shifted right arithmetically by `8 * n` bits, as `s >>= 8` does `n` times. */
  function Shr8(v: int, n: nat): int {
    if n == 0 then v else Shr8(v, n - 1) / 0x100
  }

  /** The bytes the split loop takes from `v` are the big-endian bytes of its low 24 bits. */
  lemma {:induction false} SplitLanes(v: int)
    ensures [Shr8(v, 2) % 0x100, Shr8(v, 1) % 0x100, Shr8(v, 0) % 0x100] == BigEndian(IntToWord(v))
  {
    var w := IntToWord(v);
    WordBytes(w);
    assert v == v / WORD_LIMIT * WORD_LIMIT + w;
    Bytes3(v, v / WORD_LIMIT, w / 0x1_0000, w / 0x100 % 0x100, w % 0x100);
    assert Shr8(v, 1) == v / 0x100;
    assert Shr8(v, 2) == v / 0x100 / 0x100;
  }

  /**
   * The split loop of operations 0x03 and 0x22: `buf[at + i] = (byte)(s &
   * 0xff); s >>= 8` for `i` from 2 down to 0 writes the big-endian bytes of
   * the low 24 bits of `v` and touches nothing else.
   */
  method SplitInto(buf: array<Byte>, at: nat, v: int)
    requires at + 3 <= buf.Length
    modifies buf
    ensures buf[at..at + 3] == BigEndian(IntToWord(v))
    ensures forall j :: 0 <= j < buf.Length && !(at <= j < at + 3) ==> buf[j] == old(buf[j])
  {
    var s := v;
    var i := 2;
    while i >= 0
      invariant -1 <= i <= 2
      invariant s == Shr8(v, 2 - i)
      invariant forall j :: at + i < j <= at + 2 ==> buf[j] == Shr8(v, at + 2 - j) % 0x100
      invariant forall j :: 0 <= j < buf.Length && !(at + i < j <= at + 2) ==> buf[j] == old(buf[j])
      decreases i + 1
    {
      buf[at + i] := s % 0x100;
      s := s / 0x100;
      i := i - 1;
    }
    SplitLanes(v);
    assert buf[at..at + 3] == [Shr8(v, 2) % 0x100, Shr8(v, 1) % 0x100, Shr8(v, 0) % 0x100];
  }

  /** The first file number at or above `from` whose file does not exist, or 0x100 if every one up to 0xFF exists. */
  function FirstFree(fileExists: int -> bool, from: nat): (r: nat)
    requires from <= 0x100
    ensures from <= r <= 0x100
    ensures r < 0x100 ==> !fileExists(r)
    ensures forall j :: from <= j < r ==> fileExists(j)
    decreases 0x100 - from
  {
    if from == 0x100 then 0x100
    else if !fileExists(from) then from
    else FirstFree(fileExists, from + 1)
  }

  /** The Java `int` a (signed) Java `byte` widens to. */
  function SignedByte(b: Byte): int {
    if b < 0x80 then b else b - 0x100
  }

  /**
   * The join loop of operations 0x01 and 0x12 as written: `a <<= 8; a |=
   * buf[i]` on Java `byte`s, which widen with their sign.
   */
  function JoinAsWritten(bs: seq<Byte>): JInt
    decreases |bs|
  {
    if bs == [] then 0 else Or32(Shl32(JoinAsWritten(bs[..|bs| - 1]), 8), SignedByte(bs[|bs| - 1]))
  }

  /**
   * The word 0x008000, written to a file by operation 0x03, comes back from
   * operation 0x01 as 0xFF8000: its middle byte 0x80 widens to 0xFFFFFF80
   * and the ones fill every bit above it.
   */
  lemma SignExtendedRead()
    ensures BigEndian(0x8000) == [0x00, 0x80, 0x00]
    ensures IntToWord(JoinAsWritten([0x00, 0x80, 0x00])) == 0xFF_8000
    ensures Join([0x00, 0x80, 0x00]) == 0x8000
  {
    Join3(0x00, 0x80, 0x00);
    JoinAsWrittenSteps(0x00, 0x80, 0x00);
    BigEndianJoin(0x00, 0x80, 0x00);
  }

  /** Appending a byte is one step of the join loop as written. */
  lemma JoinAsWrittenSnoc(bs: seq<Byte>, b: Byte)
    ensures JoinAsWritten(bs + [b]) == Or32(Shl32(JoinAsWritten(bs), 8), SignedByte(b))
  {
    assert (bs + [b])[..|bs|] == bs;
  }

  /** The three steps of the join loop as written on the bytes 00 80 00. */
  lemma JoinAsWrittenSteps(b0: Byte, b1: Byte, b2: Byte)
    requires b0 == 0x00 && b1 == 0x80 && b2 == 0x00
    ensures JoinAsWritten([b0, b1, b2]) == -0x8000
  {
    assert [] + [b0] == [b0];
    assert [b0] + [b1] == [b0, b1];
    assert [b0, b1] + [b2] == [b0, b1, b2];
    JoinAsWrittenSnoc([], b0);
    JoinStep1();
    JoinAsWrittenSnoc([b0], b1);
    JoinStep2();
    JoinAsWrittenSnoc([b0, b1], b2);
    JoinStep3();
  }

  lemma JoinStep1()
    ensures Or32(Shl32(0, 8), SignedByte(0x00)) == 0
  {
    assert Shl32(0, 8) == 0;
    assert Bits(0) | Bits(0) == 0;
  }

  lemma JoinStep2()
    ensures Or32(Shl32(0, 8), SignedByte(0x80)) == -0x80
  {
    assert Shl32(0, 8) == 0;
    assert Bits(0) == 0;
    assert Bits(-0x80) == 0xFFFF_FF80 by { assert -0x80 % INT_LIMIT == 0xFFFF_FF80; }
    assert Bits(0) | Bits(-0x80) == 0xFFFF_FF80;
    assert (0xFFFF_FF80 as bv32) as int == 0xFFFF_FF80;
  }

  lemma JoinStep3()
    ensures Or32(Shl32(-0x80, 8), SignedByte(0x00)) == -0x8000
  {
    ShiftedByte();
    assert SignedByte(0x00) == 0;
    OrNegative();
  }

  lemma ShiftedByte()
    ensures Shl32(-0x80, 8) == -0x8000
  {
    Pow2Of8();
    Int32Small(-0x8000);
    assert -0x80 * Pow2(8) == -0x8000;
  }

  lemma OrNegative()
    ensures Or32(-0x8000, 0) == -0x8000
  {
    assert Bits(0) == 0;
    assert Bits(-0x8000) == 0xFFFF_8000 by { assert -0x8000 % INT_LIMIT == 0xFFFF_8000; }
    assert Bits(-0x8000) | Bits(0) == 0xFFFF_8000;
    assert (0xFFFF_8000 as bv32) as int == 0xFFFF_8000;
  }

  lemma Pow2Of8()
    ensures Pow2(8) == 0x100
  {
    assert Pow2(2) == 4;
    assert Pow2(4) == 16;
    assert Pow2(6) == 64;
  }

  /** The virtual file system's device state (static fields of Fsystem.java). */
  class FileSystem {
    /** The number of the selected file. */
    var targetFile: JInt
    /** The cursor: a byte position within the selected file. */
    var address: JInt

    constructor ()
      ensures targetFile == 0 && address == 0
    {
      targetFile := 0;
      address := 0;
    }

    /** `File.read()`. */
    function FileRead(): JInt
      reads this
    {
      targetFile
    }

    /** `File.write(v)`: select file `v`; reading the `File` device then gives `v`. */
    method FileWrite(v: JInt)
      modifies this
      ensures targetFile == v && address == old(address)
      ensures FileRead() == v
    {
      targetFile := v;
    }

    /** `Address(k).read()`. */
    function AddressRead(k: Lane): Byte
      reads this
    {
      LaneOf(address, k)
    }

    /**
     * `Address(k).write(v)` of the byte `v` that WD sends: lane `k` of the
     * cursor becomes `v`, the other lanes and the selected file stay.
     */
    method AddressWrite(k: Lane, v: Byte)
      modifies this
      ensures address == WithLane(old(address), k, v) && targetFile == old(targetFile)
      ensures AddressRead(k) == v
      ensures forall j: Lane :: j != k ==> AddressRead(j) == old(AddressRead(j))
    {
      WithLaneLanes(address, k, v);
      address := WithLane(address, k, v);
    }

    /** The cursor cases 0x31 to 0x35 of `Operation.write`: reset, or move by one byte or one word. */
    method MoveCursor(opcode: int)
      requires IsCursorOp(opcode)
      modifies this
      ensures address == CursorMove(old(address), opcode) && targetFile == old(targetFile)
      ensures opcode == CURSOR_RESET ==> address == 0
      ensures opcode == CURSOR_INC && old(address) < 0x7FFF_FFFF ==> address == old(address) + 1
    {
      if opcode == CURSOR_RESET {
        address := 0;
      } else if opcode == CURSOR_DEC {
        address := Int32(address - 1);
      } else if opcode == CURSOR_BACK {
        address := Int32(address - 3);
      } else if opcode == CURSOR_INC {
        address := Int32(address + 1);
      } else {
        address := Int32(address + 3);
      }
    }

    /**
     * Operation 0x03 (write a word): the three bytes written are S split
     * big-endian, at file position `address + 8`; the cursor then moves past
     * them.
     */
    method WriteWord(registers: Registers) returns (position: JInt, buf: array<Byte>)
      modifies this
      ensures fresh(buf) && buf.Length == 3 && buf[..] == BigEndian(registers.s)
      ensures position == Int32(old(address) + 8)
      ensures address == Int32(old(address) + 3) && targetFile == old(targetFile)
    {
      buf := new Byte[3];
      SplitInto(buf, 0, registers.s);
      assert buf[..] == buf[0..3];
      position := Int32(address + 8);
      address := Int32(address + 3);
    }

    /**
     * Operation 0x22 (rename): the six name bytes written at file position 2
     * are the low 24 bits of the cursor and then S, each split big-endian.
     */
    method NameBytes(registers: Registers) returns (buf: array<Byte>)
      ensures fresh(buf) && buf.Length == 6
      ensures buf[..3] == BigEndian(IntToWord(address)) && buf[3..] == BigEndian(registers.s)
    {
      buf := new Byte[6];
      SplitInto(buf, 0, address);
      SplitInto(buf, 3, registers.s);
      assert buf[..3] == buf[0..3] && buf[3..] == buf[3..6];
    }

    /**
     * Operation 0x30: A becomes the first file number, 0 to 0xFF, whose file
     * does not exist, or 0x100 when all of them do.
     */
    method FindFreeFile(registers: Registers, fileExists: int -> bool)
      modifies registers
      ensures registers.Value() == old(registers.Value()).(a := FirstFree(fileExists, 0))
    {
      registers.SetA(0x100);
      var i := 0;
      while i < 0x100
        invariant 0 <= i <= 0x100
        invariant forall j :: 0 <= j < i ==> fileExists(j)
        invariant registers.Value() == old(registers.Value()).(a := 0x100)
      {
        if !fileExists(i) {
          registers.SetA(i);
          break;
        }
        i := i + 1;
      }
    }
  }

  /** The join loop of operations 0x01 and 0x12, as written (see JoinAsWritten). */
  method ReadWordAsWritten(buf: array<Byte>) returns (a: JInt)
    ensures a == JoinAsWritten(buf[..])
  {
    a := 0;
    var i := 0;
    while i < buf.Length
      invariant 0 <= i <= buf.Length
      invariant a == JoinAsWritten(buf[..i])
    {
      assert buf[..i + 1][..i] == buf[..i];
      a := Or32(Shl32(a, 8), SignedByte(buf[i]));
      i := i + 1;
    }
    assert buf[..i] == buf[..];
  }

  /**
   * The join loop with the bytes read unsigned (`a |= buf[i] & 0xff`): three
   * bytes that operation 0x03 wrote read back as the word they came from.
   */
  method ReadWord(buf: array<Byte>) returns (a: int)
    ensures a == Join(buf[..])
    ensures buf.Length == 3 ==> 0 <= a < WORD_LIMIT && BigEndian(a) == buf[..]
  {
    a := 0;
    var i := 0;
    while i < buf.Length
      invariant 0 <= i <= buf.Length
      invariant a == Join(buf[..i])
    {
      assert buf[..i + 1][..i] == buf[..i];
      a := a * 0x100 + buf[i];
      i := i + 1;
    }
    assert buf[..i] == buf[..];
    if buf.Length == 3 {
      assert buf[..] == [buf[0], buf[1], buf[2]];
      BigEndianJoin(buf[0], buf[1], buf[2]);
    }
  }
}
