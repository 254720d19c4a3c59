/**
 * The machine's memory: 2^20 bytes, words stored big-endian in three
 * consecutive bytes. Every byte address is reduced modulo the memory size,
 * so an access never falls outside the store and never touches a byte other
 * than the ones it names.
 */
module Memories {
  import opened Sicxe

  /** The array index a byte address refers to. */
  function Slot(addr: int): (i: nat)
    ensures i < MEMORY_SIZE
    ensures (addr - i) % MEMORY_SIZE == 0
    ensures 0 <= addr < MEMORY_SIZE ==> i == addr
  {
    addr % MEMORY_SIZE
  }

  function ByteAt(m: seq<Byte>, addr: int): Byte
    requires |m| == MEMORY_SIZE
  {
    m[Slot(addr)]
  }

  /** The big-endian word held by the bytes at `addr`, `addr + 1`, `addr + 2`. */
  function WordAt(m: seq<Byte>, addr: int): Word
    requires |m| == MEMORY_SIZE
  {
    ByteAt(m, addr) * 0x1_0000 + ByteAt(m, addr + 1) * 0x100 + ByteAt(m, addr + 2)
  }

  /** Memory after storing the low eight bits of `v` at `addr`. */
  function WithByte(m: seq<Byte>, addr: int, v: int): (m': seq<Byte>)
    requires |m| == MEMORY_SIZE
    ensures |m'| == MEMORY_SIZE
    ensures ByteAt(m', addr) == v % 0x100
  {
    m[Slot(addr) := v % 0x100]
  }

  /** Storing a byte changes no other cell. */
  lemma WithByteFrame(m: seq<Byte>, addr: int, v: int, j: int)
    requires |m| == MEMORY_SIZE && Slot(j) != Slot(addr)
    ensures ByteAt(WithByte(m, addr, v), j) == ByteAt(m, j)
  {
  }

  /** Memory after storing the low 24 bits of `v` as a big-endian word at `addr`. */
  function WithWord(m: seq<Byte>, addr: int, v: int): (m': seq<Byte>)
    requires |m| == MEMORY_SIZE
    ensures |m'| == MEMORY_SIZE
  {
    var w := IntToWord(v);
    WithByte(WithByte(WithByte(m, addr, w / 0x1_0000), addr + 1, w / 0x100), addr + 2, w)
  }

  /** The three bytes of a word are three different memory cells, even across the top of memory. */
  lemma WordSlotsDistinct(addr: int)
    ensures Slot(addr) != Slot(addr + 1) && Slot(addr + 1) != Slot(addr + 2) && Slot(addr) != Slot(addr + 2)
  {
  }

  /** A stored word reads back as its low 24 bits. */
  lemma {:induction false} WordRoundTrip(m: seq<Byte>, addr: int, v: int)
    requires |m| == MEMORY_SIZE
    ensures WordAt(WithWord(m, addr, v), addr) == IntToWord(v)
  {
    WordSlotsDistinct(addr);
    var w := IntToWord(v);
    var m1 := WithByte(m, addr, w / 0x1_0000);
    var m2 := WithByte(m1, addr + 1, w / 0x100);
    var m' := WithWord(m, addr, v);
    WithByteFrame(m1, addr + 1, w / 0x100, addr);
    WithByteFrame(m2, addr + 2, w, addr);
    WithByteFrame(m2, addr + 2, w, addr + 1);
    assert ByteAt(m', addr) == w / 0x1_0000 % 0x100;
    assert ByteAt(m', addr + 1) == w / 0x100 % 0x100;
    assert ByteAt(m', addr + 2) == w % 0x100;
  }

  /** Storing a word changes no byte outside its three cells. */
  lemma {:induction false} WordFrame(m: seq<Byte>, addr: int, v: int, j: int)
    requires |m| == MEMORY_SIZE
    requires Slot(j) != Slot(addr) && Slot(j) != Slot(addr + 1) && Slot(j) != Slot(addr + 2)
    ensures ByteAt(WithWord(m, addr, v), j) == ByteAt(m, j)
  {
    var w := IntToWord(v);
    var m1 := WithByte(m, addr, w / 0x1_0000);
    var m2 := WithByte(m1, addr + 1, w / 0x100);
    WithByteFrame(m, addr, w / 0x1_0000, j);
    WithByteFrame(m1, addr + 1, w / 0x100, j);
    WithByteFrame(m2, addr + 2, w, j);
  }

  /** A store to one word leaves every word that does not overlap it unchanged. */
  lemma {:induction false} WordFrameWord(m: seq<Byte>, addr: int, v: int, other: int)
    requires |m| == MEMORY_SIZE
    requires 0 <= addr <= MEMORY_SIZE - 3 && 0 <= other <= MEMORY_SIZE - 3
    requires addr + 3 <= other || other + 3 <= addr
    ensures WordAt(WithWord(m, addr, v), other) == WordAt(m, other)
  {
    WordFrame(m, addr, v, other);
    WordFrame(m, addr, v, other + 1);
    WordFrame(m, addr, v, other + 2);
  }

  /** Memory after storing the words `vs` one after the other from `addr` on. */
  function StoreWords(m: seq<Byte>, addr: int, vs: seq<int>): (m': seq<Byte>)
    requires |m| == MEMORY_SIZE
    ensures |m'| == MEMORY_SIZE
    decreases |vs|
  {
    if vs == [] then m else StoreWords(WithWord(m, addr, vs[0]), addr + 3, vs[1..])
  }

  /** Peeling the `k`-th store off the front of the rest of a run. */
  lemma StoreWordsStep(m: seq<Byte>, addr: int, vs: seq<int>, k: int)
    requires |m| == MEMORY_SIZE
    requires 0 <= k < |vs|
    ensures StoreWords(m, addr, vs[k..]) == StoreWords(WithWord(m, addr, vs[k]), addr + 3, vs[k + 1..])
  {
    assert vs[k..][1..] == vs[k + 1..];
  }

  /** A run of word stores that does not wrap around changes no byte outside the run. */
  lemma {:induction false} StoreWordsFrame(m: seq<Byte>, addr: int, vs: seq<int>, j: int)
    requires |m| == MEMORY_SIZE
    requires 0 <= addr && addr + 3 * |vs| <= MEMORY_SIZE
    requires Slot(j) < addr || addr + 3 * |vs| <= Slot(j)
    ensures ByteAt(StoreWords(m, addr, vs), j) == ByteAt(m, j)
    decreases |vs|
  {
    if vs != [] {
      WordFrame(m, addr, vs[0], j);
      StoreWordsFrame(WithWord(m, addr, vs[0]), addr + 3, vs[1..], j);
    }
  }

  /** The `k`-th word of a run reads back as the low 24 bits of the `k`-th value. */
  lemma {:induction false} StoreWordsRead(m: seq<Byte>, addr: int, vs: seq<int>, k: int)
    requires |m| == MEMORY_SIZE
    requires 0 <= addr && addr + 3 * |vs| <= MEMORY_SIZE
    requires 0 <= k < |vs|
    ensures WordAt(StoreWords(m, addr, vs), addr + 3 * k) == IntToWord(vs[k])
    decreases |vs|
  {
    var m' := WithWord(m, addr, vs[0]);
    if k == 0 {
      WordRoundTrip(m, addr, vs[0]);
      StoreWordsFrame(m', addr + 3, vs[1..], addr);
      StoreWordsFrame(m', addr + 3, vs[1..], addr + 1);
      StoreWordsFrame(m', addr + 3, vs[1..], addr + 2);
    } else {
      StoreWordsRead(m', addr + 3, vs[1..], k - 1);
      assert addr + 3 + 3 * (k - 1) == addr + 3 * k;
    }
  }

  /** The byte store of the simulator (the `Memory` helper, not part of this model). */
  class Memory {
    var data: array<Byte>

    ghost predicate Valid()
      reads this
    {
      data.Length == MEMORY_SIZE
    }

    constructor ()
      ensures Valid() && fresh(data)
      ensures forall i :: 0 <= i < MEMORY_SIZE ==> data[i] == 0
    {
      data := new Byte[MEMORY_SIZE](_ => 0);
    }

    function GetByte(addr: int): (b: Byte)
      requires Valid()
      reads this, data
      ensures b == ByteAt(data[..], addr)
    {
      data[Slot(addr)]
    }

    function GetWord(addr: int): (w: Word)
      requires Valid()
      reads this, data
      ensures w == WordAt(data[..], addr)
    {
      GetByte(addr) * 0x1_0000 + GetByte(addr + 1) * 0x100 + GetByte(addr + 2)
    }

    method SetByte(addr: int, v: int)
      requires Valid()
      modifies data
      ensures data[..] == WithByte(old(data[..]), addr, v)
    {
      data[Slot(addr)] := v % 0x100;
    }

    method SetWord(addr: int, v: int)
      requires Valid()
      modifies data
      ensures data[..] == WithWord(old(data[..]), addr, v)
    {
      var w := IntToWord(v);
      SetByte(addr, w / 0x1_0000);
      SetByte(addr + 1, w / 0x100);
      SetByte(addr + 2, w);
    }

    /** Stores the words `vs` one after the other from `addr` on. */
    method SetWords(addr: int, vs: seq<int>)
      requires Valid()
      modifies data
      ensures data[..] == StoreWords(old(data[..]), addr, vs)
      decreases |vs|
    {
      if vs != [] {
        SetWord(addr, vs[0]);
        SetWords(addr + 3, vs[1..]);
      }
    }
  }
}
