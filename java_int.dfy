/** Java's 32-bit `int` and 8-bit `byte` arithmetic, written out over unbounded integers:
    two's complement wrap-around, `<<` with its shift distance masked to five bits,
    and bitwise `|`. */
module JavaInt {

  const TWO_31: int := 0x8000_0000
  const TWO_32: int := 0x1_0000_0000

  /** The values of a Java `int`. */
  type Int = x: int | -0x8000_0000 <= x < 0x8000_0000

  /** The unsigned value `0xff & b` of a Java `byte`. */
  type byte = b: int | 0 <= b < 256

  function Pow2(k: nat): (p: nat)
    ensures p >= 1
  {
    if k == 0 then 1 else 2 * Pow2(k - 1)
  }

  /** The 32 bits of a Java `int`, read as an unsigned number. */
  function Bits(x: int): (u: nat)
    ensures u < TWO_32
  {
    x % TWO_32
  }

  /** The Java `int` whose bits are the low 32 bits of `u` (what a narrowing to `int` keeps). */
  function Wrap(u: int): (x: Int)
    ensures Bits(x) == Bits(u)
  {
    var b := u % TWO_32;
    if b < TWO_31 then b else b - TWO_32
  }

  /** `u` doubled `k` times, that is `u * 2^k` (see `ShiftUpIsProduct`). */
  function ShiftUp(u: nat, k: nat): nat {
    if k == 0 then u else 2 * ShiftUp(u, k - 1)
  }

  /** Java `x << k`: only the low five bits of the distance count. */
  function Shl(x: Int, k: int): Int {
    Wrap(ShiftUp(Bits(x), k % 32))
  }

  /** The low `n` bits of the bitwise or of `a` and `b`. */
  function OrBits(a: nat, b: nat, n: nat): nat {
    if n == 0 then 0
    else 2 * OrBits(a / 2, b / 2, n - 1) + (if a % 2 == 1 || b % 2 == 1 then 1 else 0)
  }

  /** Java `x | y`. */
  function Or(x: Int, y: Int): Int {
    Wrap(OrBits(Bits(x), Bits(y), 32))
  }

  /** Java `(byte) x`, seen through `0xff &`: the low eight bits. */
  function ToByte(x: Int): byte {
    Bits(x) % 256
  }

  lemma WrapSmall(u: int)
    requires 0 <= u < TWO_31
    ensures Wrap(u) == u && Bits(u) == u
  {
  }

  lemma {:induction false} Pow2Add(j: nat, k: nat)
    ensures Pow2(j + k) == Pow2(j) * Pow2(k)
    decreases j
  {
    if j > 0 {
      Pow2Add(j - 1, k);
      assert Pow2(j) * Pow2(k) == 2 * (Pow2(j - 1) * Pow2(k));
    }
  }

  lemma Pow2Values()
    ensures Pow2(4) == 16 && Pow2(8) == 256 && Pow2(16) == 0x1_0000
    ensures Pow2(24) == 0x100_0000 && Pow2(32) == TWO_32
  {
    assert Pow2(8) == 256;
    Pow2Add(8, 8);
    Pow2Add(16, 8);
    Pow2Add(24, 8);
  }

  lemma {:induction false} ShiftUpIsProduct(u: nat, k: nat)
    ensures ShiftUp(u, k) == u * Pow2(k)
  {
    if k > 0 {
      ShiftUpIsProduct(u, k - 1);
      assert u * Pow2(k) == 2 * (u * Pow2(k - 1));
    }
  }

  /** Shifting a small non-negative `int` left by `k < 32` multiplies it by `2^k`;
      the product is passed in as `xp` so that the proof stays linear. */
  lemma ShlExact(x: Int, k: nat, xp: int)
    requires 0 <= x && k < 32 && xp == x * Pow2(k) && 0 <= xp < TWO_31
    ensures Shl(x, k) == xp
  {
    WrapSmall(x);
    assert k % 32 == k;
    ShiftUpIsProduct(x, k);
    WrapSmall(xp);
  }

  /** Or-ing bits that do not overlap is addition: the high part is a multiple of
      2^m and the low part is below 2^m. */
  lemma {:induction false} OrBitsDisjoint(q: nat, b: nat, m: nat, n: nat)
    requires b < Pow2(m) && m <= n && q * Pow2(m) + b < Pow2(n)
    ensures OrBits(q * Pow2(m), b, n) == q * Pow2(m) + b
    decreases n
  {
    var a := q * Pow2(m);
    if n == 0 {
      assert q * Pow2(m) >= 0;
    } else if m == 0 {
      assert b == 0 && a == q;
      OrBitsDisjoint(q / 2, 0, 0, n - 1);
    } else {
      assert Pow2(m) == 2 * Pow2(m - 1);
      assert a == 2 * (q * Pow2(m - 1));
      assert a / 2 == q * Pow2(m - 1) && a % 2 == 0;
      OrBitsDisjoint(q, b / 2, m - 1, n - 1);
    }
  }

  /** The packing step `v << 8 | c` of a small `v` and an 8-bit `c` is `v * 256 + c`. */
  lemma ShiftOrByte(v: Int, c: Int)
    requires 0 <= v < 0x80_0000 && 0 <= c < 256
    ensures Or(Shl(v, 8), c) == v * 256 + c
  {
    Pow2Values();
    var shifted := v * 256;
    ShlExact(v, 8, shifted);
    WrapSmall(shifted);
    WrapSmall(c);
    OrBitsDisjoint(v, c, 8, 32);
    var sum := shifted + c;
    assert OrBits(Bits(shifted), Bits(c), 32) == sum;
    WrapSmall(sum);
  }

  /** `(byte) (hi << 4 | lo)` for two nibbles is `hi * 16 + lo`. */
  lemma NibblesToByte(hi: Int, lo: Int)
    requires 0 <= hi < 16 && 0 <= lo < 16
    ensures ToByte(Or(Shl(hi, 4), lo)) == hi * 16 + lo
  {
    Pow2Values();
    var shifted := hi * 16;
    ShlExact(hi, 4, shifted);
    WrapSmall(shifted);
    WrapSmall(lo);
    OrBitsDisjoint(hi, lo, 4, 32);
    var sum := shifted + lo;
    assert OrBits(Bits(shifted), Bits(lo), 32) == sum;
    WrapSmall(sum);
    assert Or(Shl(hi, 4), lo) == sum;
    ToByteSmall(sum);
  }

  lemma ToByteSmall(x: Int)
    requires 0 <= x < 256
    ensures ToByte(x) == x
  {
    WrapSmall(x);
  }
}
