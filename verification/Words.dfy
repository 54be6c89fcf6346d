/** Machine words of the i386 target: 32-bit `u_int` with wrap-around, 16-bit digits, and the
    bit operators `|`, `&`, `<<`, `>>` that libc/quad/quad.h and qdivrem.c build on.
    Bit operators are defined bit by bit; the lemmas below turn the uses the code makes of
    them into arithmetic.
 */
module Words {

  const B: nat := 0x1_0000                          // digit base, 1 << HALF_BITS
  const W32: nat := 0x1_0000_0000                   // u_int
  const W64: nat := 0x1_0000_0000_0000_0000         // u_quad_t

  type Digit = d: nat | d < B
  type U32 = x: nat | x < W32
  type U64 = x: nat | x < W64
  type I64 = x: int | -(W64 / 2) <= x < W64 / 2

  function Wrap32(x: int): U32 {
    x % W32
  }

  function Wrap64(x: int): U64 {
    x % W64
  }

  /** Two's-complement reading of a 64-bit pattern. */
  function ToSigned(x: U64): I64 {
    if x < W64 / 2 then x else x - W64
  }

  function Pow2(k: nat): (p: nat)
    ensures p >= 1
  {
    if k == 0 then 1 else 2 * Pow2(k - 1)
  }

  lemma {:induction false} Pow2Add(i: nat, j: nat)
    ensures Pow2(i + j) == Pow2(i) * Pow2(j)
  {
    if i > 0 {
      Pow2Add(i - 1, j);
    }
  }

  lemma {:induction false} Pow2Sixteen()
    ensures Pow2(16) == B
  {
    assert Pow2(4) == 16;
    Pow2Add(4, 4);
    Pow2Add(8, 8);
  }

  /** x >> k */
  function Shr(x: nat, k: nat): (r: nat)
    ensures r == x / Pow2(k) && r <= x
  {
    DivModFacts(x, Pow2(k));
    x / Pow2(k)
  }

  lemma {:induction false} DivModFacts(x: nat, d: nat)
    requires d > 0
    ensures x == (x / d) * d + x % d
    ensures 0 <= x / d <= x && 0 <= x % d < d
  {
    if x / d > x {
      MulMono(x + 1, x / d, d);
      MulMono(1, d, x + 1);
    }
  }

  lemma {:induction false} MulMono(a: int, b: int, c: int)
    requires a <= b && c >= 0
    ensures a * c <= b * c
  {
  }

  /** The `|` operator, bit by bit. */
  function Or(a: nat, b: nat): nat {
    if a == 0 && b == 0 then 0
    else 2 * Or(a / 2, b / 2) + (if a % 2 == 1 || b % 2 == 1 then 1 else 0)
  }

  /** The `&` operator, bit by bit. */
  function And(a: nat, b: nat): nat {
    if a == 0 && b == 0 then 0
    else 2 * And(a / 2, b / 2) + (if a % 2 == 1 && b % 2 == 1 then 1 else 0)
  }

  lemma {:induction false} OrZero(a: nat)
    ensures Or(a, 0) == a
  {
    if a > 0 {
      OrZero(a / 2);
    }
  }

  /** Bits that do not overlap are joined by `|` exactly as by `+`. */
  lemma {:induction false} OrDisjoint(hi: nat, lo: nat, k: nat)
    requires lo < Pow2(k)
    ensures Or(hi * Pow2(k), lo) == hi * Pow2(k) + lo
  {
    if k == 0 {
      OrZero(hi);
    } else {
      var h := hi * Pow2(k - 1);
      assert hi * Pow2(k) == 2 * h;
      OrDisjoint(hi, lo / 2, k - 1);
    }
  }

  /** The low k bits of x, and what is above them. */
  function Low(x: nat, k: nat): nat {
    if k == 0 then 0 else 2 * Low(x / 2, k - 1) + x % 2
  }

  function High(x: nat, k: nat): nat {
    if k == 0 then x else High(x / 2, k - 1)
  }

  lemma {:induction false} HighLow(x: nat, k: nat)
    ensures x == High(x, k) * Pow2(k) + Low(x, k) && Low(x, k) < Pow2(k)
  {
    if k > 0 {
      HighLow(x / 2, k - 1);
      OneBitMore(x, High(x / 2, k - 1), Pow2(k - 1), Low(x / 2, k - 1));
    }
  }

  lemma {:induction false} OneBitMore(x: nat, h: nat, p: nat, l: nat)
    requires x / 2 == h * p + l && l < p
    ensures x == h * (2 * p) + (2 * l + x % 2) && 2 * l + x % 2 < 2 * p
  {
    MulAssoc(2, h, p);
    assert x == 2 * (x / 2) + x % 2;
  }

  /** `x & (2^k - 1)` keeps the low k bits. */
  lemma {:induction false} AndMask(x: nat, k: nat)
    ensures And(x, Pow2(k) - 1) == Low(x, k)
  {
    if k == 0 {
      AndZero(x);
    } else {
      AndMask(x / 2, k - 1);
      AndOddMask(x, Pow2(k - 1));
    }
  }

  lemma {:induction false} AndOddMask(x: nat, p: nat)
    requires p > 0
    ensures And(x, 2 * p - 1) == 2 * And(x / 2, p - 1) + x % 2
  {
    var m := 2 * p - 1;
    assert m / 2 == p - 1 && m % 2 == 1;
  }

  lemma {:induction false} MaskSixteen(x: nat)
    ensures And(x, B - 1) == x % B
  {
    AndMask(x, 16);
    HighLow(x, 16);
    Pow2Sixteen();
    DivModUnique(x, B, High(x, 16), Low(x, 16));
  }

  lemma {:induction false} AndZero(a: nat)
    ensures And(a, 0) == 0
  {
    if a > 0 {
      AndZero(a / 2);
    }
  }

  lemma {:induction false} DivModUnique(x: int, d: int, q: int, r: int)
    requires d > 0 && 0 <= r < d && x == q * d + r
    ensures x / d == q && x % d == r
  {
    var k := x / d - q;
    assert k * d == r - x % d by {
      assert x == (x / d) * d + x % d;
      MulDistributes(x / d, q, d);
    }
    if k >= 1 {
      MulAtLeast(k, d);
    } else if k <= -1 {
      MulAtLeast(-k, d);
    }
  }

  lemma {:induction false} SmallMod(x: nat, m: nat)
    requires x < m
    ensures x % m == x
  {
    DivModUnique(x, m, 0, x);
  }

  lemma {:induction false} MulDistributes(a: int, b: int, c: int)
    ensures (a - b) * c == a * c - b * c
    ensures (a + b) * c == a * c + b * c
  {
  }

  lemma {:induction false} MulAssoc(a: int, b: int, c: int)
    ensures (a * b) * c == a * (b * c)
  {
  }

  lemma {:induction false} MulAtLeast(k: int, d: int)
    requires k >= 1 && d >= 0
    ensures k * d >= d
  {
  }

  // The macros of quad.h:70-72 and qdivrem.c:11, in arithmetic; the lemmas after them say that
  // this is what the bit operators of the source compute.

  function HHalf(x: U32): Digit {
    x / B
  }

  function LHalf(x: U32): Digit {
    x % B
  }

  function LHup(x: U32): U32 {
    (x % B) * B
  }

  function Combine(a: U32, b: Digit): U32 {
    (a % B) * B + b
  }

  lemma {:induction false} CombineDigits(a: Digit, b: Digit)
    ensures Combine(a, b) == a * B + b
  {
    SmallMod(a, B);
  }

  lemma {:induction false} HalvesAreMasks(x: U32)
    ensures LHalf(x) == And(x, B - 1)
    ensures LHup(x) == Wrap32(x * B)
  {
    MaskSixteen(x);
    DivModUnique(x * B, W32, x / B, (x % B) * B);
  }

  lemma {:induction false} CombineIsOr(a: U32, b: Digit)
    ensures Combine(a, b) == Or(Wrap32(a * B), b)
  {
    HalvesAreMasks(a);
    Pow2Sixteen();
    OrDisjoint(a % B, b, 16);
  }

  // ---- bytes of a 32-bit word, least significant first ----

  type Byte = x: nat | x < 256

  function ByteOf(w: U32, k: nat): Byte
    requires k < 4
  {
    if k == 0 then w % 256 else if k == 1 then w / 0x100 % 256 else if k == 2 then w / 0x1_0000 % 256
       else w / 0x100_0000
  }

  function Join(b0: Byte, b1: Byte, b2: Byte, b3: Byte): U32 {
    b0 + 0x100 * b1 + 0x1_0000 * b2 + 0x100_0000 * b3
  }

  lemma {:induction false} JoinBytes(w: U32)
    ensures Join(ByteOf(w, 0), ByteOf(w, 1), ByteOf(w, 2), ByteOf(w, 3)) == w
  {
    var a := w / 0x100;
    var b := a / 0x100;
    assert w / 0x1_0000 == b && w / 0x100_0000 == b / 0x100;
    assert w == 0x100 * a + w % 0x100 && a == 0x100 * b + a % 0x100 && b == 0x100 * (b / 0x100) + b % 0x100;
  }

  function Min(a: int, b: int): int {
    if a < b then a else b
  }

  function Max(a: int, b: int): int {
    if a < b then b else a
  }
}
