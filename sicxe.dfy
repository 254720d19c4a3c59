/**
 * Numeric conversions of the SIC/XE machine (the `SICXE` helper of the
 * simulator) and the Java `int` operations the engine relies on.
 *
 * A SIC/XE word is 24 bits, an address 20 bits. The simulator stores every
 * register in a Java `int` (32-bit two's complement), so this module also
 * spells out Java's wrap-around, its truncating division and its bitwise
 * operators, which differ from Dafny's unbounded, Euclidean arithmetic.
 */
module Sicxe {

  const WORD_LIMIT: int := 0x100_0000      // 2^24
  const SIGN_LIMIT: int := 0x80_0000       // 2^23
  const MEMORY_SIZE: int := 0x10_0000      // 2^20 bytes of memory
  const MAX_ADDRESS: int := 0xF_FFFF       // MEMORY_SIZE - 1
  const INT_LIMIT: int := 0x1_0000_0000    // 2^32
  const INT_SIGN: int := 0x8000_0000       // 2^31

  type Byte = x: int | 0 <= x < 0x100
  type Word = x: int | 0 <= x < 0x100_0000
  type Addr = x: int | 0 <= x <= 0xF_FFFF
  /** The values of a Java `int`. */
  type JInt = x: int | -0x8000_0000 <= x < 0x8000_0000

  datatype Option<T> = None | Some(value: T)

  /** `SICXE.intToWord`: keep the low 24 bits (masking, never saturating). */
  function IntToWord(v: int): (w: Word)
    ensures (v - w) % WORD_LIMIT == 0
    ensures 0 <= v < WORD_LIMIT ==> w == v
  {
    v % WORD_LIMIT
  }

  /** `SICXE.swordToInt`: the two's-complement reading of the low 24 bits. */
  function SwordToInt(v: int): (s: int)
    ensures -SIGN_LIMIT <= s < SIGN_LIMIT
    ensures (v - s) % WORD_LIMIT == 0
  {
    var w := v % WORD_LIMIT;
    if w >= SIGN_LIMIT then w - WORD_LIMIT else w
  }

  /** `SICXE.intToAddr`: keep the low 20 bits. */
  function IntToAddr(v: int): (a: Addr)
    ensures (v - a) % MEMORY_SIZE == 0
    ensures 0 <= v < MEMORY_SIZE ==> a == v
  {
    v % MEMORY_SIZE
  }

  /** The value a Java `int` expression yields: the result wrapped into 32 bits. */
  function Int32(v: int): (r: JInt)
    ensures (v - r) % INT_LIMIT == 0
  {
    var m := v % INT_LIMIT;
    if m >= INT_SIGN then m - INT_LIMIT else m
  }

  /** A value already in the range of a Java `int` is not changed by the wrap-around. */
  lemma Int32Small(v: int)
    requires -INT_SIGN <= v < INT_SIGN
    ensures Int32(v) == v
  {
  }

  function Abs(v: int): int {
    if v < 0 then -v else v
  }

  /** Java's `a / b` on integers: the quotient rounded toward zero (see TruncDivSpec). */
  function TruncDiv(a: int, b: int): int
    requires b != 0
  {
    if (a < 0) == (b < 0) then Abs(a) / Abs(b) else -(Abs(a) / Abs(b))
  }

  /**
   * TruncDiv is Java's division: the remainder `a - q * b` is smaller than
   * the divisor in magnitude and is zero or has the sign of the dividend.
   */
  lemma TruncDivSpec(a: int, b: int)
    requires b != 0
    ensures var q := TruncDiv(a, b);
      -Abs(b) < a - q * b < Abs(b) && (a - q * b == 0 || (a - q * b < 0 <==> a < 0))
  {
    var n, d := Abs(a), Abs(b);
    var q0, r0 := n / d, n % d;
    assert n == q0 * d + r0 && 0 <= r0 < d;
    var q := TruncDiv(a, b);
    if (a < 0) == (b < 0) {
      if b < 0 {
        assert a - q * b == -r0 by { assert q * b == -(q0 * d); }
      } else {
        assert a - q * b == r0 by { assert q * b == q0 * d; }
      }
    } else {
      if b < 0 {
        assert a - q * b == r0 by { assert q * b == q0 * d; }
      } else {
        assert a - q * b == -r0 by { assert q * b == -(q0 * d); }
      }
    }
  }

  function Pow2(k: nat): (p: nat)
    ensures p >= 1
  {
    if k == 0 then 1 else 2 * Pow2(k - 1)
  }

  /** The 32 bits of a Java `int`. */
  function Bits(v: int): bv32 {
    (v % INT_LIMIT) as bv32
  }

  /** The Java `int` whose bits are `b`. */
  function FromBits(b: bv32): JInt {
    var u := b as int;
    if u >= INT_SIGN then u - INT_LIMIT else u
  }

  /** Java `x & y`. */
  function And32(x: int, y: int): JInt {
    FromBits(Bits(x) & Bits(y))
  }

  /** Java `x | y`. */
  function Or32(x: int, y: int): JInt {
    FromBits(Bits(x) | Bits(y))
  }

  /** Java `x << k` for a shift distance below 32: multiplication by 2^k, wrapped to 32 bits. */
  function Shl32(x: int, k: nat): JInt
    requires k < 32
  {
    Int32(x * Pow2(k))
  }

  /** Java `x >> k` (arithmetic shift) on an `int`, for a shift distance below 32. */
  function Sar32(x: JInt, k: nat): (r: JInt)
    requires k < 32
  {
    DivShrinks(x, Pow2(k));
    x / Pow2(k)
  }

  /** Floor division by a positive number moves a value toward zero, never past it. */
  lemma {:induction false} DivShrinks(x: int, p: int)
    requires p >= 1
    ensures x >= 0 ==> 0 <= x / p <= x
    ensures x < 0 ==> x <= x / p < 0
  {
    var q, r := x / p, x % p;
    assert x == q * p + r && 0 <= r < p;
    if q >= 1 {
      assert q * p >= q by { MulAtLeast(p, q); }
      assert q * p >= p by { MulAtLeast(q, p); }
    } else if q <= -1 {
      assert -q * p >= p by { MulAtLeast(-q, p); }
      if p >= 2 {
        assert -q * (p - 1) >= p - 1 by { MulAtLeast(-q, p - 1); }
        assert x - q == q * (p - 1) + r;
      }
    }
  }

  /** Integer division and remainder are determined by any decomposition `x == q * d + r` with `0 <= r < d`. */
  lemma DivModOf(x: int, d: int, q: int, r: int)
    requires d > 0 && 0 <= r < d && x == q * d + r
    ensures x / d == q && x % d == r
  {
    var q', r' := x / d, x % d;
    assert x == q' * d + r' && 0 <= r' < d;
    var e := q - q';
    assert e * d == q * d - q' * d;
    assert e * d == r' - r;
    if e > 0 {
      MulAtLeast(e, d);
    } else if e < 0 {
      MulAtLeast(-e, d);
    }
  }

  lemma MulAtLeast(e: int, d: int)
    requires e >= 1 && d > 0
    ensures e * d >= d
  {
    assert e * d == (e - 1) * d + d;
  }

  /** Adding to a value already reduced modulo `d` gives the same remainder as adding to the value itself. */
  lemma {:induction false} AddMod(x: int, k: int, d: int)
    requires d > 0
    ensures (x % d + k) % d == (x + k) % d
  {
    var q, r := x / d, x % d;
    var q2, r2 := (r + k) / d, (r + k) % d;
    assert x + k == (q + q2) * d + r2 by {
      assert x == q * d + r;
      assert r + k == q2 * d + r2;
    }
    DivModOf(x + k, d, q + q2, r2);
  }

  /** Truncation to a word forgets whatever a Java `int` overflow changed. */
  lemma WordOfInt32(v: int)
    ensures IntToWord(Int32(v)) == IntToWord(v)
  {
    var r := Int32(v);
    var k := (v - r) / INT_LIMIT;
    assert v == r + INT_LIMIT * k;
    var q, w := r / WORD_LIMIT, r % WORD_LIMIT;
    assert v == (q + 256 * k) * WORD_LIMIT + w by {
      assert r == q * WORD_LIMIT + w;
      assert INT_LIMIT * k == 256 * k * WORD_LIMIT;
    }
    DivModOf(v, WORD_LIMIT, q + 256 * k, w);
  }

  /** Reading a word as signed and truncating it again gives the word back. */
  lemma SignedWordRoundTrip(w: Word)
    ensures IntToWord(SwordToInt(w)) == w
    ensures SwordToInt(w) == (if w < SIGN_LIMIT then w else w - WORD_LIMIT)
  {
  }

  /** A value already in the signed 24-bit range is read back unchanged. */
  lemma WordSignedRoundTrip(s: int)
    requires -SIGN_LIMIT <= s < SIGN_LIMIT
    ensures SwordToInt(IntToWord(s)) == s
  {
  }
}
