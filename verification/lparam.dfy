/** The packed coordinate word of a mouse window message: `y<<16 | x`
    computed on Go's 64-bit `int` and passed on as a `uintptr`. */
module LParam {
  import opened Win32

  function Pow2(n: nat): (p: nat)
    ensures p >= 1
  {
    if n == 0 then 1 else 2 * Pow2(n - 1)
  }

  lemma {:induction false} Pow2Add(a: nat, b: nat)
    ensures Pow2(a + b) == Pow2(a) * Pow2(b)
  {
    if a > 0 {
      Pow2Add(a - 1, b);
    }
  }

  lemma Pow2Values()
    ensures Pow2(16) == 0x1_0000 && Pow2(64) == TWO_64
  {
    assert Pow2(4) == 16;
    Pow2Add(4, 4);
    Pow2Add(8, 8);
    Pow2Add(16, 16);
    Pow2Add(32, 32);
  }

  /** Bitwise or of the low n bits of a and b. */
  function BitOr(a: nat, b: nat, n: nat): (r: nat)
    ensures r < Pow2(n)
  {
    if n == 0 then 0
    else (if a % 2 == 1 || b % 2 == 1 then 1 else 0) + 2 * BitOr(a / 2, b / 2, n - 1)
  }

  /** `uintptr(y<<16 | x)` on 64-bit two's complement values: the shift
      keeps the low 64 bits of y * 65536, the or combines the bit patterns. */
  function PackLParam(x: Int64, y: Int64): (lParam: Uintptr)
    ensures 0 <= x < 0x1_0000 ==> lParam == ToUintptr(y * 0x1_0000) + x
  {
    Pow2Values();
    ShiftedOr(x, y);
    BitOr(ToUintptr(y * 0x1_0000), ToUintptr(x), 64)
  }

  /** `uintptr(y<<16)` has its low 16 bits clear, whatever the sign of y, so
      a 16-bit x or-ed into it is added. */
  lemma ShiftedOr(x: int, y: int)
    ensures 0 <= x < 0x1_0000 ==>
      BitOr(ToUintptr(y * 0x1_0000), x, 64) == ToUintptr(y * 0x1_0000) + x
  {
    if 0 <= x < 0x1_0000 {
      Pow2Values();
      var v := y * 0x1_0000;
      var k := v / TWO_64;
      var t := y - 0x1_0000_0000_0000 * k;
      assert ToUintptr(v) == v - TWO_64 * k;
      assert ToUintptr(v) == t * Pow2(16);
      BitOrDisjoint(t, x, 16, 64);
    }
  }

  /** Or-ing only zero bits leaves a value unchanged. */
  lemma {:induction false} BitOrZero(a: nat, n: nat)
    requires a < Pow2(n)
    ensures BitOr(a, 0, n) == a
  {
    if n > 0 {
      BitOrZero(a / 2, n - 1);
    }
  }

  /** Or-ing a value into the k zero bits at the bottom of another is adding. */
  lemma {:induction false} BitOrDisjoint(t: nat, b: nat, k: nat, n: nat)
    requires k <= n
    requires t * Pow2(k) < Pow2(n)
    requires b < Pow2(k)
    ensures BitOr(t * Pow2(k), b, n) == t * Pow2(k) + b
  {
    var a := t * Pow2(k);
    if k == 0 {
      BitOrZero(a, n);
    } else {
      assert a == 2 * (t * Pow2(k - 1));
      assert a / 2 == t * Pow2(k - 1) && a % 2 == 0;
      BitOrDisjoint(t, b / 2, k - 1, n - 1);
    }
  }

  /** For a point with a 16-bit x and a y below 2^48, the word is
      y * 65536 + x. */
  lemma PackLParamArithmetic(x: Int64, y: Int64)
    requires 0 <= x < 0x1_0000
    requires 0 <= y < 0x1_0000_0000_0000
    ensures PackLParam(x, y) == y * 0x1_0000 + x
  {
  }

  /** The window procedure reads x back from the low word of lParam and y
      from the high word, for any point with 16-bit coordinates. */
  lemma PackLParamRoundTrip(x: Int64, y: Int64)
    requires 0 <= x < 0x1_0000 && 0 <= y < 0x1_0000
    ensures PackLParam(x, y) % 0x1_0000 == x
    ensures PackLParam(x, y) / 0x1_0000 == y
  {
    PackLParamArithmetic(x, y);
    WordSplit(PackLParam(x, y), x, y);
  }

  lemma WordSplit(p: int, lo: int, hi: int)
    requires 0 <= lo < 0x1_0000 && p == hi * 0x1_0000 + lo
    ensures p % 0x1_0000 == lo && p / 0x1_0000 == hi
  {
  }

  /** x = 10, y = 20 packs to 1310730. */
  lemma PackLParamExample()
    ensures PackLParam(10, 20) == 1310730
  {
    PackLParamArithmetic(10, 20);
  }
}
