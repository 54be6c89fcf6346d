/** Signed 64-bit division and remainder (libc/quad/divdi3.c, moddi3.c) over the unsigned
    division, and signed multiplication (libc/quad/muldi3.c). */
module QuadSigned {
  import opened Words
  import QDivRem

  function Abs(x: int): nat {
    if x < 0 then -x else x
  }

  /** Section 6.5.5 of ISO C99: (a/b)*b + a%b equals a and the quotient is rounded toward zero,
      so the remainder is smaller than b in size and has the sign of a. */
  ghost predicate Truncates(a: int, b: int, q: int, r: int) {
    a == q * b + r && Abs(r) < Abs(b) && (r != 0 ==> (r < 0 <==> a < 0))
  }

  lemma {:induction false} TruncatedUnique(a: int, b: int, q: int, r: int, q': int, r': int)
    requires Truncates(a, b, q, r) && Truncates(a, b, q', r')
    ensures q == q' && r == r'
  {
    MulDistributes(q, q', b);
    assert (q - q') * b == r' - r;
    assert Abs(r' - r) < Abs(b);
    if q != q' {
      MultipleIsLarge(q - q', b);
    }
  }

  lemma {:induction false} MultipleIsLarge(k: int, b: int)
    requires k != 0
    ensures Abs(k * b) >= Abs(b)
  {
    MulMono(1, Abs(k), Abs(b));
    assert Abs(k) * Abs(b) == Abs(k * b);
  }

  /** if (neg) x = -x */
  function Negated(neg: bool, x: int): int {
    if neg then -x else x
  }

  lemma {:induction false} SignedFromMagnitudes(a: int, b: int, m: nat, n: nat)
    requires b != 0 && m == Abs(a) / Abs(b) && n == Abs(a) % Abs(b)
    ensures Truncates(a, b, Negated((a < 0) != (b < 0), m), Negated(a < 0, n))
  {
    DivModFacts(Abs(a), Abs(b));
    MulSigns(m, b);
  }

  lemma {:induction false} MulSigns(x: int, y: int)
    ensures (-x) * y == -(x * y) && x * (-y) == -(x * y) && (-x) * (-y) == x * y
  {
  }

  /** The magnitude the code computes as ua = a; if (a < 0) ua = -ua (64-bit unsigned). */
  method Magnitude(a: I64) returns (ua: U64)
    ensures ua == Abs(a)
  {
    ua := Wrap64(a);
    if a < 0 {
      ua := Wrap64(-(ua as int));
    }
  }

  /** __divdi3. The quotient is the truncated one except for the single overflowing pair. */
  method Div(a: I64, b: I64) returns (q: I64)
    requires b != 0
    ensures (exists r :: Truncates(a, b, q, r)) <==> !(a == -(W64 / 2) && b == -1)
    ensures a == -(W64 / 2) && b == -1 ==> q == -(W64 / 2)
  {
    var neg := false;
    var ua := Magnitude(a);
    if a < 0 {
      neg := !neg;
    }
    var ub := Magnitude(b);
    if b < 0 {
      neg := !neg;
    }
    var uq, ur := QDivRem.DivRem(ua, ub);
    SignedFromMagnitudes(a, b, uq, ur);
    QuotientFits(a, b, uq);
    ghost var exact, rest := Negated(neg, uq), Negated(a < 0, ur);
    assert Truncates(a, b, exact, rest);
    SignedResult(neg, uq);
    if neg {
      uq := Wrap64(-(uq as int));
    }
    q := ToSigned(uq);
    if a == -(W64 / 2) && b == -1 {
      forall r | Truncates(a, b, q, r)
        ensures false
      {
        TruncatedUnique(a, b, q, r, exact, rest);
      }
    } else {
      assert q == exact;
    }
  }

  lemma {:induction false} QuotientFits(a: I64, b: I64, m: nat)
    requires b != 0 && m == Abs(a) / Abs(b)
    ensures m <= W64 / 2
    ensures m == W64 / 2 <==> a == -(W64 / 2) && Abs(b) == 1
  {
    DivModFacts(Abs(a), Abs(b));
    if Abs(b) >= 2 && m == W64 / 2 {
      MulMono(2, Abs(b), m);
    }
  }

  /** __moddi3. */
  method Mod(a: I64, b: I64) returns (r: I64)
    requires b != 0
    ensures exists q :: Truncates(a, b, q, r)
  {
    var neg := a < 0;
    var ua := Magnitude(a);
    var ub := Magnitude(b);
    var uq, ur := QDivRem.DivRem(ua, ub);
    SignedFromMagnitudes(a, b, uq, ur);
    DivModFacts(ua, ub);
    hide Truncates, Wrap64, ToSigned;
    SignedResult(neg, ur);
    ghost var exact := Negated(neg != (b < 0), uq);
    if neg {
      ur := Wrap64(-(ur as int));
    }
    r := ToSigned(ur);
    assert Truncates(a, b, exact, r);
  }

  /** Negating an unsigned word and reading it as signed gives the signed value. */
  lemma {:induction false} SignedResult(neg: bool, x: U64)
    ensures x < W64 / 2 ==> ToSigned(if neg then Wrap64(-(x as int)) else x) == Negated(neg, x)
    ensures x == W64 / 2 ==> ToSigned(if neg then Wrap64(-(x as int)) else x) == -(W64 / 2)
  {
    var y: int := x;
    if y != 0 {
      DivModUnique(-y, W64, -1, W64 - y);
    }
  }

  // ---- multiplication (muldi3.c) ----

  /** 32-bit pair arithmetic: adding y to the low word and x to the high word, with the carry the
      code detects by comparing the new low word with the old one, adds x * 2^32 + y mod 2^64. */
  lemma {:induction false} AddPair(h: U32, l: U32, x: U32, y: U32, l': U32, h': U32)
    requires l' == Wrap32(l + y)
    requires h' == Wrap32(h + (x + if l' < l then 1 else 0))
    ensures h' * W32 + l' == Wrap64((h * W32 + l) + (x * W32 + y))
  {
  }

  lemma {:induction false} SubPair(h: U32, l: U32, x: U32, y: U32, l': U32, h': U32)
    requires l' == Wrap32(l as int - y as int)
    requires h' == Wrap32(h as int - (x + if l' > l then 1 else 0))
    ensures h' * W32 + l' == Wrap64((h * W32 + l) as int - (x * W32 + y))
  {
  }

  lemma {:induction false} HalvesOf(x: U32)
    ensures x == HHalf(x) * B + LHalf(x)
  {
  }

  lemma {:induction false} ProductBelow(u: U32, v: U32)
    ensures 0 <= u * v < W64
  {
    MulMono(0, u, v);
    MulMono(u, W32 - 1, v);
  }

  lemma {:induction false} HalfShift(x: U32)
    ensures HHalf(x) * W32 + LHup(x) == x * B
  {
  }

  lemma {:induction false} Wrap64Adds(x: int, y: int)
    ensures Wrap64(Wrap64(x) + y) == Wrap64(x + y)
    ensures Wrap64(Wrap64(x) as int - y) == Wrap64(x - y)
  {
    var k, w: int := x / W64, Wrap64(x);
    DivModUnique(x + y, W64, k + (w + y) / W64, (w + y) % W64);
    DivModUnique(x - y, W64, k + (w - y) / W64, (w - y) % W64);
  }

  /** The three-product identity of Knuth section 4.3.3, for any word size n. */
  lemma {:induction false} ThreeProducts(n: int, u1: int, u0: int, v1: int, v0: int)
    ensures (u1 * n + u0) * (v1 * n + v0)
         == (u1 * v1) * (n * n) + ((u1 * v1) + (u1 - u0) * (v0 - v1) + (u0 * v0)) * n + (u0 * v0)
  {
    assert (u1 - u0) * (v0 - v1) == u1 * v0 - u1 * v1 - u0 * v0 + u0 * v1;
    calc {
      (u1 * n + u0) * (v1 * n + v0);
      { MulDistributes(u1 * n, u0, v1 * n + v0); }
      (u1 * n) * (v1 * n + v0) + u0 * (v1 * n + v0);
      (u1 * n) * (v1 * n) + (u1 * n) * v0 + u0 * (v1 * n) + u0 * v0;
      (u1 * v1) * (n * n) + (u1 * v0) * n + (u0 * v1) * n + u0 * v0;
    }
  }

  lemma {:induction false} SignedProduct(ud: U32, vd: U32, u1: int, u0: int, v1: int, v0: int, neg: bool)
    requires ud == Abs(u1 - u0) && vd == Abs(v0 - v1)
    requires neg == ((u1 < u0) != (v0 < v1))
    ensures Negated(neg, ud * vd) == (u1 - u0) * (v0 - v1)
  {
    MulSigns(u1 - u0, v0 - v1);
  }

  /** __lmulq (muldi3.c:155-219): 32 by 32 bits, from four 16-bit halves and wrapping words. */
  method LMulQ(u: U32, v: U32) returns (prod: U64)
    ensures prod == u * v
  {
    HalvesOf(u);
    HalvesOf(v);
    hide Wrap32, HHalf, LHalf;
    var u1, u0, v1, v0: U32 := HHalf(u), LHalf(u), HHalf(v), LHalf(v);
    ThreeProducts(B, u1, u0, v1, v0);
    ProductBelow(u, v);
    QDivRem.ProductFits(u0, v0);
    var low := Wrap32(u0 * v0);
    if u1 == 0 && v1 == 0 {
      return low;
    }
    var neg, udiff, vdiff;
    if u1 >= u0 {
      udiff, neg := u1 - u0, false;
    } else {
      udiff, neg := u0 - u1, true;
    }
    if v0 >= v1 {
      vdiff := v0 - v1;
    } else {
      vdiff, neg := v1 - v0, !neg;
    }
    SignedProduct(udiff, vdiff, u1, u0, v1, v0, neg);
    QDivRem.ProductFits(udiff, vdiff);
    QDivRem.ProductFits(u1, v1);
    var mid := Wrap32(udiff * vdiff);
    var high := Wrap32(u1 * v1);
    prod := AssembleProduct(high, mid, low, neg, u * v);
  }

  /** muldi3.c:190-218: (high << 32) + (high << 16) +- (mid << 16) + (low << 16) + low, as a pair
      of words with hand-made carries. */
  method AssembleProduct(high: U32, mid: U32, low: U32, neg: bool, ghost exact: nat) returns (prod: U64)
    requires exact == high * W32 + (high + Negated(neg, mid) + low) * B + low
    requires exact < W64 && high <= (B - 1) * (B - 1)
    ensures prod == exact
  {
    hide Wrap32, Wrap64, HHalf, LHup;
    HalfShift(mid);
    HalfShift(low);
    FirstWords(high);
    var prodh, prodl: U32 := Wrap32(high + HHalf(high)), LHup(high);
    ghost var x0 := high * W32 + high * B;
    var was := prodl;
    ghost var h := prodh;
    if neg {
      prodl := Wrap32(prodl as int - LHup(mid) as int);
      prodh := Wrap32(prodh as int - (HHalf(mid) + if prodl > was then 1 else 0));
      SubPair(h, was, HHalf(mid), LHup(mid), prodl, prodh);
    } else {
      prodl := Wrap32(prodl + LHup(mid));
      prodh := Wrap32(prodh + (HHalf(mid) + if prodl < was then 1 else 0));
      AddPair(h, was, HHalf(mid), LHup(mid), prodl, prodh);
    }
    ghost var x1 := x0 + Negated(neg, mid) * B;
    assert prodh * W32 + prodl == Wrap64(x1);
    was, h := prodl, prodh;
    prodl := Wrap32(prodl + LHup(low));
    prodh := Wrap32(prodh + (HHalf(low) + if prodl < was then 1 else 0));
    AddPair(h, was, HHalf(low), LHup(low), prodl, prodh);
    Wrap64Adds(x1, low * B);
    ghost var x2 := x1 + low * B;
    assert prodh * W32 + prodl == Wrap64(x2);
    was, h := prodl, prodh;
    prodl := Wrap32(prodl + low);
    CarrySymmetric(was, low, prodl);
    if prodl < low {
      prodh := Wrap32(prodh + 1);
    } else {
      WrapNoop(prodh);
    }
    AddPair(h, was, 0, low, prodl, prodh);
    Wrap64Adds(x2, low);
    WrapNoop64(exact);
    prod := prodh * W32 + prodl;
  }

  lemma {:induction false} FirstWords(high: U32)
    requires high <= (B - 1) * (B - 1)
    ensures Wrap32(high + HHalf(high)) * W32 + LHup(high) == high * W32 + high * B
  {
    SmallMod(high + HHalf(high), W32);
  }

  lemma {:induction false} CarrySymmetric(l: U32, y: U32, l': U32)
    requires l' == Wrap32(l + y)
    ensures l' < l <==> l' < y
  {
  }

  lemma {:induction false} WrapNoop(x: U32)
    ensures Wrap32(x + 0) == x
  {
    SmallMod(x, W32);
  }

  lemma {:induction false} WrapNoop64(x: nat)
    requires x < W64
    ensures Wrap64(x) == x
  {
    SmallMod(x, W64);
  }

  /** __muldi3 (muldi3.c:62-136). */
  method Mul(a: I64, b: I64) returns (r: I64)
    ensures r == ToSigned(Wrap64(a * b))
  {
    var negall := a < 0;
    var u := Magnitude(a);
    if b < 0 {
      negall := !negall;
    }
    var v := Magnitude(b);
    var prod := MulMagnitudes(u, v);
    assert a * b == Negated(negall, Abs(a) * Abs(b));
    NegateWrapped(Abs(a) * Abs(b));
    r := ToSigned(if negall then Wrap64(-(prod as int)) else prod);
  }

  lemma {:induction false} NegateWrapped(x: int)
    ensures Wrap64(-(Wrap64(x) as int)) == Wrap64(-x)
  {
  }

  method MulMagnitudes(u: U64, v: U64) returns (prod: U64)
    ensures prod == Wrap64(u * v)
  {
    var u1, u0, v1, v0: U32 := u / W32, u % W32, v / W32, v % W32;
    ThreeProducts(W32, u1, u0, v1, v0);
    var low := LMulQ(u0, v0);
    if u1 == 0 && v1 == 0 {
      return low;
    }
    var negmid, udiff, vdiff;
    if u1 >= u0 {
      negmid, udiff := false, u1 - u0;
    } else {
      negmid, udiff := true, u0 - u1;
    }
    if v0 >= v1 {
      vdiff := v0 - v1;
    } else {
      vdiff, negmid := v1 - v0, !negmid;
    }
    SignedProduct(udiff, vdiff, u1, u0, v1, v0, negmid);
    var mid := Wrap32(udiff * vdiff);
    var high := Wrap32(u1 * v1);
    var h := Wrap32(high + (if negmid then Wrap32(-(mid as int)) else mid) + low % W32 + low / W32);
    prod := h * W32 + low % W32;
    WordsAssemble(u1 * v1, udiff * vdiff, negmid, low, h, u * v);
  }

  lemma {:induction false} WordsAssemble(high: int, mid: int, neg: bool, low: U64, h: U32, uv: int)
    requires uv == high * (W32 * W32) + (high + Negated(neg, mid) + low) * W32 + low
    requires h == Wrap32(Wrap32(high) + (if neg then Wrap32(-(Wrap32(mid) as int))
                                         else Wrap32(mid)) + low % W32 + low / W32)
    ensures h * W32 + low % W32 == Wrap64(uv)
  {
    hide Wrap32;
    var hk, mk, m: int := high / W32, mid / W32, Wrap32(mid);
    var e := if neg && m > 0 then 1 else 0;
    var sum := Wrap32(high) + Negated(neg, m) + e * W32 + low % W32 + low / W32;
    WrapSplit(high);
    WrapSplit(mid);
    WrapSplit(sum);
    NegativeWraps(Wrap32(mid));
    DivModFacts(low, W32);
    var k := high + hk + Negated(neg, mk) + low / W32 - e + sum / W32;
    AssembleSum(high, hk, Wrap32(high), Negated(neg, mid), Negated(neg, mk), Negated(neg, m), low, low / W32, low % W32,
                e, sum / W32, h);
    DivModUnique(uv, W64, k, h * W32 + low % W32);
  }

  lemma {:induction false} WrapSplit(x: int)
    ensures x == x / W32 * W32 + Wrap32(x)
  {
  }

  lemma {:induction false} NegativeWraps(m: int)
    requires 0 <= m < W32
    ensures Wrap32(-m) == if m > 0 then W32 - m else 0
  {
    DivModUnique(-m, W32, if m > 0 then -1 else 0, if m > 0 then W32 - m else 0);
  }

  lemma {:induction false} AssembleSum(high: int, hk: int, hr: int, mid: int, mk: int, mr: int, low: int, lk: int,
                                       lr: int, e: int, sk: int, h: int)
    requires high == hk * W32 + hr && mid == mk * W32 + mr && low == lk * W32 + lr
    requires hr + mr + e * W32 + lr + lk == sk * W32 + h
    ensures high * (W32 * W32) + (high + mid + low) * W32 + low == (high + hk + mk + lk - e + sk) * W64 + (h * W32 + lr)
  {
  }
}
