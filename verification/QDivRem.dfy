/** Numbers written as base-B digits, most significant first, as in the digit arrays of
    libc/quad/qdivrem.c. */
module Digits {
  import opened Words

  function PowB(k: nat): (p: nat)
    ensures p >= 1
  {
    if k == 0 then 1 else B * PowB(k - 1)
  }

  function Val(s: seq<Digit>): nat {
    if s == [] then 0 else Val(s[..|s| - 1]) * B + s[|s| - 1]
  }

  lemma {:induction false} ValConcat(a: seq<Digit>, b: seq<Digit>)
    ensures Val(a + b) == Val(a) * PowB(|b|) + Val(b)
  {
    if b == [] {
      assert a + b == a;
    } else {
      var b' := b[..|b| - 1];
      assert (a + b)[..|a + b| - 1] == a + b';
      ValConcat(a, b');
      Regroup(Val(a), PowB(|b'|), Val(b'), b[|b| - 1]);
    }
  }

  lemma {:induction false} Regroup(x: int, p: int, y: int, d: int)
    ensures (x * p + y) * B + d == x * (B * p) + (y * B + d)
  {
    calc {
      (x * p + y) * B;
      (x * p) * B + y * B;
      x * (B * p) + y * B;
    }
  }

  lemma {:induction false} ValSplit(s: seq<Digit>, k: nat)
    requires k <= |s|
    ensures Val(s) == Val(s[..k]) * PowB(|s| - k) + Val(s[k..])
  {
    assert s == s[..k] + s[k..];
    ValConcat(s[..k], s[k..]);
  }

  lemma {:induction false} ValCons(d: Digit, s: seq<Digit>)
    ensures Val([d] + s) == d * PowB(|s|) + Val(s)
  {
    ValConcat([d], s);
    assert [d][..0] == [];
    assert Val([d]) == d;
  }

  lemma {:induction false} ValBound(s: seq<Digit>)
    ensures Val(s) < PowB(|s|)
  {
    if s != [] {
      ValBound(s[..|s| - 1]);
    }
  }

  lemma {:induction false} PowBAdd(i: nat, j: nat)
    ensures PowB(i + j) == PowB(i) * PowB(j)
  {
    if i > 0 {
      PowBAdd(i - 1, j);
      MulAssoc(B, PowB(i - 1), PowB(j));
    }
  }

  lemma {:induction false} ValZeros(s: seq<Digit>)
    requires forall i :: 0 <= i < |s| ==> s[i] == 0
    ensures Val(s) == 0
  {
    if s != [] {
      ValZeros(s[..|s| - 1]);
    }
  }

  /** A number below B^k has nothing but zeros above its last k digits. */
  lemma {:induction false} SmallHasZeros(s: seq<Digit>, k: nat)
    requires k <= |s| && Val(s) < PowB(k)
    ensures forall i :: 0 <= i < |s| - k ==> s[i] == 0
    decreases |s|
  {
    if |s| > k {
      ValSplit(s, 1);
      assert s == [s[0]] + s[1..];
      ValCons(s[0], s[1..]);
      if s[0] > 0 {
        MulAtLeast(s[0], PowB(|s| - 1));
        PowBAdd(|s| - 1 - k, k);
        MulAtLeast(PowB(|s| - 1 - k), PowB(k));
        assert false;
      }
      SmallHasZeros(s[1..], k);
      assert forall i :: 1 <= i < |s| - k ==> s[i] == s[1..][i - 1];
    }
  }

  // ---- shifting digit strings (qdivrem.c:262-271 and 238-245) ----

  function ShlSeq(s: seq<Digit>, sh: nat): (r: seq<Digit>)
    requires 0 < sh < 16
    ensures |r| == |s|
  {
    seq(|s|, i requires 0 <= i < |s| => ShlDigit(s[i], if i + 1 < |s| then s[i + 1] else 0, sh))
  }

  function ShlDigit(hi: Digit, lo: Digit, sh: nat): Digit
    requires 0 < sh < 16
  {
    ShlDigitFits(hi, lo, sh);
    (hi * Pow2(sh)) % B + Shr(lo, 16 - sh)
  }

  lemma {:induction false} ShlDigitFits(hi: Digit, lo: Digit, sh: nat)
    requires 0 < sh < 16
    ensures (hi * Pow2(sh)) % B + Shr(lo, 16 - sh) < B
    ensures Or((hi * Pow2(sh)) % B, Shr(lo, 16 - sh)) == (hi * Pow2(sh)) % B + Shr(lo, 16 - sh)
  {
    var x, y := (hi * Pow2(sh)) % B, Shr(lo, 16 - sh);
    assert x == (hi % Pow2(16 - sh)) * Pow2(sh) && x + (Pow2(sh) - 1) < B by {
      ShlDigitParts(hi, sh);
    }
    assert 0 <= y < Pow2(sh) by {
      ShlDigitParts(lo, sh);
    }
    OrDisjoint(hi % Pow2(16 - sh), y, sh);
  }

  /** ShlDigit is LHALF(hi << sh) | (lo >> (HALF_BITS - sh)): the two parts share no bit. */
  lemma {:induction false} ShlDigitIsOr(hi: Digit, lo: Digit, sh: nat)
    requires 0 < sh < 16
    ensures ShlDigit(hi, lo, sh) == Or((hi * Pow2(sh)) % B, Shr(lo, 16 - sh))
  {
    ShlDigitFits(hi, lo, sh);
  }

  lemma {:induction false} ShlDigitParts(x: Digit, sh: nat)
    requires 0 < sh < 16
    ensures Pow2(sh) * Pow2(16 - sh) == B
    ensures x * Pow2(sh) == (Shr(x, 16 - sh)) * B + (x * Pow2(sh)) % B
    ensures (x * Pow2(sh)) % B == (x % Pow2(16 - sh)) * Pow2(sh)
    ensures Shr(x, 16 - sh) < Pow2(sh)
    ensures (x % Pow2(16 - sh)) * Pow2(sh) + (Pow2(sh) - 1) < B
  {
    Pow2Add(sh, 16 - sh);
    Pow2Sixteen();
    DigitParts(x, Pow2(sh), Pow2(16 - sh));
  }

  lemma {:induction false} DigitParts(x: Digit, a: nat, c: nat)
    requires a > 0 && c > 0 && a * c == B
    ensures x * a == (x / c) * B + (x * a) % B
    ensures (x * a) % B == (x % c) * a
    ensures x / c < a
    ensures (x % c) * a + (a - 1) < B
  {
    var q, r := x / c, x % c;
    assert x == q * c + r;
    assert q < a by {
      if q >= a {
        MulMono(a, q, c);
      }
    }
    assert r * a + a <= B by {
      MulMono(r + 1, c, a);
      MulDistributes(r, 1, a);
    }
    assert x * a == q * B + r * a by {
      MulDistributes(q * c, r, a);
      MulAssoc(q, c, a);
    }
    DivModUnique(x * a, B, q, r * a);
  }

  /** Shifting left by sh multiplies by 2^sh, dropping what leaves the leading digit. */
  lemma {:induction false} ShlValue(s: seq<Digit>, sh: nat)
    requires 0 < sh < 16 && |s| > 0
    ensures Val(ShlSeq(s, sh)) + (Shr(s[0], 16 - sh)) * PowB(|s|) == Val(s) * Pow2(sh)
  {
    var r, a, t := ShlSeq(s, sh), Pow2(sh), s[1..];
    ShlDigitParts(s[0], sh);
    assert s == [s[0]] + t && r == [r[0]] + ShlSeq(t, sh);
    ValCons(s[0], t);
    ValCons(r[0], ShlSeq(t, sh));
    if |s| == 1 {
      assert t == [] && ShlSeq(t, sh) == [] && Val([]) == 0 && PowB(0) == 1 && PowB(1) == B;
      assert r[0] == (s[0] * a) % B;
    } else {
      ShlValue(t, sh);
      assert r[0] == (s[0] * a) % B + Shr(t[0], 16 - sh) && PowB(|s|) == B * PowB(|t|);
      hide Val, ShlSeq, Pow2, PowB, Shr;
      ShlArithmetic(Val(ShlSeq(t, sh)), Shr(t[0], 16 - sh), PowB(|t|), Val(t), a,
                    s[0], Shr(s[0], 16 - sh), (s[0] * a) % B);
    }
  }

  lemma {:induction false} ShlArithmetic(tail: int, c: int, p: int, t: int, a: int, s0: int, hi: int, lo: int)
    requires tail + c * p == t * a && s0 * a == hi * B + lo
    ensures (lo + c) * p + tail + hi * (B * p) == (s0 * p + t) * a
  {
    MulDistributes(lo, c, p);
    MulAssoc(hi, B, p);
    MulDistributes(hi * B, lo, p);
    MulAssoc(s0, a, p);
    MulAssoc(s0, p, a);
    MulDistributes(s0 * p, t, a);
  }

  lemma {:induction false} ShrDigitParts(y: Digit, d: nat)
    requires 0 < d < 16
    ensures Pow2(d) * Pow2(16 - d) == B
    ensures (y * Pow2(16 - d)) % B == (y % Pow2(d)) * Pow2(16 - d)
  {
    hide Pow2;
    Pow2Add(d, 16 - d);
    Pow2Sixteen();
    DigitParts(y, Pow2(16 - d), Pow2(d));
  }

  function ShrDigit(left: Digit, x: Digit, d: nat): Digit
    requires 0 < d < 16
  {
    ShlDigitFits(left, x, 16 - d);
    Shr(x, d) + (left * Pow2(16 - d)) % B
  }

  /** ShrDigit is (u[i] >> d) | LHALF(u[i - 1] << (HALF_BITS - d)). */
  lemma {:induction false} ShrDigitIsOr(left: Digit, x: Digit, d: nat)
    requires 0 < d < 16
    ensures ShrDigit(left, x, d) == Or(Shr(x, d), (left * Pow2(16 - d)) % B)
  {
    ShlDigitFits(left, x, 16 - d);
    OrCommutes(Shr(x, d), (left * Pow2(16 - d)) % B);
  }

  lemma {:induction false} OrCommutes(a: nat, b: nat)
    ensures Or(a, b) == Or(b, a)
  {
    if a != 0 || b != 0 {
      OrCommutes(a / 2, b / 2);
    }
  }

  function ShrSeq(s: seq<Digit>, d: nat): (r: seq<Digit>)
    requires 0 < d < 16
    ensures |r| == |s|
  {
    seq(|s|, i requires 0 <= i < |s| => ShrDigit(if i > 0 then s[i - 1] else 0, s[i], d))
  }

  /** Shifting right by d divides by 2^d. */
  lemma {:induction false} ShrValue(s: seq<Digit>, d: nat)
    requires 0 < d < 16 && |s| > 0
    ensures Val(ShrSeq(s, d)) * Pow2(d) + s[|s| - 1] % Pow2(d) == Val(s)
  {
    var r, s', a := ShrSeq(s, d), s[..|s| - 1], Pow2(d);
    var x, last := s[|s| - 1], r[|s| - 1];
    assert r[..|s| - 1] == ShrSeq(s', d);
    assert Val(r) == Val(ShrSeq(s', d)) * B + last && Val(s) == Val(s') * B + x;
    DivModFacts(x, a);
    if |s| == 1 {
      assert last == x / a;
    } else {
      var y := s'[|s'| - 1];
      ShrDigitParts(y, d);
      assert last == x / a + (y % a) * Pow2(16 - d);
      ShrValue(s', d);
      hide Val, ShrSeq, Pow2;
      ShrArithmetic(Val(ShrSeq(s', d)), y % a, Pow2(16 - d), a, x / a, x % a);
    }
  }

  lemma {:induction false} ShrArithmetic(v: int, m: int, c: int, a: int, xq: int, xr: int)
    requires a * c == B
    ensures (v * B + (xq + m * c)) * a + xr == (v * a + m) * B + (xq * a + xr)
  {
    MulDistributes(v * B, xq + m * c, a);
    MulDistributes(xq, m * c, a);
    MulAssoc(m, c, a);
    MulAssoc(v, B, a);
    MulAssoc(v, a, B);
  }
}

/** Knuth's Algorithm D as coded in libc/quad/qdivrem.c: 64-bit unsigned division on four
    16-bit digits held in arrays, with every intermediate wrapped to 32 bits. */
module QDivRem {
  import opened Words
  import opened Digits

  // ---- D3: the trial digit ----

  /** The leading two digits of the divisor and three of the dividend give a trial digit that
      is never too small and at most one too large. `w` is the weight of the digits the trial
      does not look at. */
  lemma {:induction false} TrialDigitOffByAtMostOne(u: nat, v: nat, w: nat, u2: nat, v2: nat)
    requires w > 0 && u2 == u / w && v2 == v / w
    requires v2 >= (B / 2) * B && u < v * B
    ensures u / v <= Min(B - 1, u2 / v2) <= u / v + 1
  {
    var q, t := u / v, Min(B - 1, u2 / v2);
    assert q < B by {
      if q >= B {
        MulMono(B, q, v);
      }
    }
    NotTooSmall(u, v, w, u2, v2);
    assert t * v2 <= u2 by {
      MulMono(t, u2 / v2, v2);
    }
    NotTooLarge(u, v, w, u2, v2, t);
  }

  lemma {:induction false} NotTooSmall(u: nat, v: nat, w: nat, u2: nat, v2: nat)
    requires w > 0 && u2 == u / w && v2 == v / w && v2 > 0
    ensures u / v <= u2 / v2
  {
    var q := u / v;
    // q * v2 * w <= q * v <= u < (u2 + 1) * w
    assert v2 * w <= v;
    MulMono(v2 * w, v, q);
    MulAssoc(q, v2, w);
    assert (q * v2) * w <= q * v <= u;
    assert u < (u2 + 1) * w by {
      MulDistributes(u2, 1, w);
    }
    assert q * v2 <= u2 by {
      if q * v2 >= u2 + 1 {
        MulMono(u2 + 1, q * v2, w);
      }
    }
    MulDistributes(u2 / v2, 1, v2);
    if q >= u2 / v2 + 1 {
      MulMono(u2 / v2 + 1, q, v2);
    }
  }

  lemma {:induction false} NotTooLarge(u: nat, v: nat, w: nat, u2: nat, v2: nat, t: nat)
    requires w > 0 && u2 == u / w && v2 == v / w
    requires v2 >= (B / 2) * B && t < B && t * v2 <= u2
    ensures v > 0 && t <= u / v + 1
  {
    DivModFacts(u, w);
    DivModFacts(v, w);
    MulMono(B, v2, w);
    MulMono(1, w, B);
    assert v >= B * w >= B;
    TimesBelow(u, v, w, u2, v2, t);
    DivModFacts(u, v);
    MulDistributes(u / v, 2, v);
    if t >= u / v + 2 {
      MulMono(u / v + 2, t, v);
    }
  }

  lemma {:induction false} TimesBelow(u: nat, v: nat, w: nat, u2: nat, v2: nat, t: nat)
    requires v <= v2 * w + w && u2 * w <= u && t * v2 <= u2 && t < B && B * w <= v
    ensures t * v <= u + v
  {
    // t * v <= t * (v2 * w + w) <= u2 * w + t * w <= u + v
    MulMono(v, v2 * w + w, t);
    MulDistributes(v2 * w, w, t);
    MulAssoc(t, v2, w);
    MulMono(t * v2, u2, w);
    MulMono(t, B, w);
  }

  /** What the correction loop knows about a guess: it is not below the best digit, and rhat is
      the rest of the two-digit division that goes with it. */
  ghost predicate Guess(num: nat, den: nat, top: nat, v1: nat, qhat: nat, rhat: nat)
    requires den > 0
  {
    top == qhat * v1 + rhat && qhat <= B && qhat >= Min(B - 1, num / den)
  }

  /** D3 (qdivrem.c:174-195). The `goto qhat_too_big` enters the correction loop at its body. */
  method TrialDigit(uj0: Digit, uj1: Digit, uj2: Digit, v1: Digit, v2: Digit) returns (qhat: U32)
    requires v1 >= B / 2 && uj0 <= v1
    ensures qhat == Min(B - 1, ((uj0 * B + uj1) * B + uj2) / (v1 * B + v2))
  {
    hide Guess, Settled, Min, Combine;
    ghost var num, den, top := (uj0 * B + uj1) * B + uj2, v1 * B + v2, uj0 * B + uj1;
    var rhat: U32;
    var tooBig: bool;
    FirstGuess(uj0, uj1, uj2, v1, v2);
    if uj0 == v1 {
      qhat, rhat, tooBig := B, uj1, true;
    } else {
      var nn := Combine(uj0, uj1);
      CombineDigits(uj0, uj1);
      qhat, rhat := nn / v1, nn % v1;
      tooBig := ExceedsRest(v2, qhat, rhat, uj2);
    }
    while tooBig
      invariant Guess(num, den, top, v1, qhat, rhat)
      invariant tooBig ==> rhat < B && (qhat == B || !Settled(v2, qhat, rhat, uj2))
      invariant !tooBig ==> qhat < B && Settled(v2, qhat, rhat, uj2)
      decreases qhat
    {
      TooBigMeansAbove(num, den, top, qhat, rhat, uj2, v1, v2);
      qhat := qhat - 1;
      rhat := rhat + v1;
      if rhat >= B {
        LargeRestSettles(v2, qhat, rhat, uj2);
        break;
      }
      tooBig := ExceedsRest(v2, qhat, rhat, uj2);
    }
    SettledMeansBelow(num, den, top, qhat, rhat, uj2, v1, v2);
  }

  /** The guess no longer overshoots on the first two digits of v and three of u. */
  ghost predicate Settled(v2: nat, qhat: nat, rhat: nat, uj2: nat) {
    v2 * qhat <= rhat * B + uj2
  }

  /** The loop test v2 * qhat > COMBINE(rhat, u[j+2]) in 32 bits. */
  predicate ExceedsRest(v2: Digit, qhat: U32, rhat: U32, uj2: Digit): (r: bool)
    requires qhat < B && rhat < B
    ensures r == !Settled(v2, qhat, rhat, uj2)
  {
    hide Wrap32, Combine;
    ProductFits(v2, qhat);
    CombineDigits(rhat, uj2);
    Wrap32(v2 * qhat) > Combine(rhat, uj2)
  }

  lemma {:induction false} LargeRestSettles(v2: Digit, qhat: nat, rhat: nat, uj2: Digit)
    requires qhat < B <= rhat
    ensures Settled(v2, qhat, rhat, uj2)
  {
    ProductFits(v2, qhat);
  }

  lemma {:induction false} FirstGuess(uj0: Digit, uj1: Digit, uj2: Digit, v1: Digit, v2: Digit)
    requires 0 < v1 && uj0 <= v1
    ensures var num, den, top := (uj0 * B + uj1) * B + uj2, v1 * B + v2, uj0 * B + uj1;
            if uj0 == v1 then Guess(num, den, top, v1, B, uj1)
            else 0 <= top / v1 < B && 0 <= top % v1 < B && Guess(num, den, top, v1, top / v1, top % v1)
  {
    var num, den, top := (uj0 * B + uj1) * B + uj2, v1 * B + v2, uj0 * B + uj1;
    if uj0 < v1 {
      MulMono(uj0 + 1, v1, B);
      DivModFacts(top, v1);
      if top / v1 >= B {
        MulMono(B, top / v1, v1);
      }
      DivModUnique(num, B, top, uj2);
      DivModUnique(den, B, v1, v2);
      NotTooSmall(num, den, B, top, v1);
    }
  }

  lemma {:induction false} ProductFits(a: Digit, b: nat)
    requires b < B
    ensures a * b <= (B - 1) * (B - 1)
    ensures Wrap32(a * b) == a * b
  {
    MulMono(a, B - 1, b);
    MulMono(b, B - 1, B - 1);
    var p := a * b;
    assert 0 <= p <= 0xfffe_0001;
    SmallMod(p, W32);
  }

  lemma {:induction false} GuessTimesDivisor(top: int, qhat: int, rhat: int, uj2: int, v1: int, v2: int)
    requires top == qhat * v1 + rhat
    ensures qhat * (v1 * B + v2) - (top * B + uj2) == v2 * qhat - (rhat * B + uj2)
  {
    MulDistributes(v1 * B, v2, qhat);
    MulAssoc(qhat, v1, B);
  }

  lemma {:induction false} TooBigMeansAbove(num: nat, den: nat, top: nat, qhat: nat, rhat: nat, uj2: Digit, v1: Digit,
                                            v2: Digit)
    requires num == top * B + uj2 && den == v1 * B + v2 && v1 > 0
    requires Guess(num, den, top, v1, qhat, rhat)
    requires qhat == B || !Settled(v2, qhat, rhat, uj2)
    ensures qhat >= 1 && Guess(num, den, top, v1, qhat - 1, rhat + v1)
  {
    MulDistributes(qhat, 1, v1);
    DivModFacts(num, den);
    if qhat != B {
      assert qhat != 0;
      GuessTimesDivisor(top, qhat, rhat, uj2, v1, v2);
      if num / den >= qhat {
        MulMono(qhat, num / den, den);
      }
    }
  }

  lemma {:induction false} SettledMeansBelow(num: nat, den: nat, top: nat, qhat: nat, rhat: nat, uj2: Digit, v1: Digit,
                                             v2: Digit)
    requires num == top * B + uj2 && den == v1 * B + v2 && v1 > 0
    requires Guess(num, den, top, v1, qhat, rhat) && qhat < B && Settled(v2, qhat, rhat, uj2)
    ensures qhat == Min(B - 1, num / den)
  {
    GuessTimesDivisor(top, qhat, rhat, uj2, v1, v2);
    assert qhat * den <= num;
    DivModFacts(num, den);
    MulDistributes(num / den, 1, den);
    if num / den < qhat {
      MulMono(num / den + 1, qhat, den);
    }
  }

  // ---- D4-D6: multiply, subtract, add back ----

  /** The borrow to take from the next digit (qdivrem.c:206). */
  function Borrow(t: U32): Digit {
    if HHalf(t) == 0 then 0 else B - HHalf(t)
  }

  lemma {:induction false} BorrowIsMasked(t: U32)
    ensures Borrow(t) == And(B - HHalf(t), B - 1)
  {
    MaskSixteen(B - HHalf(t));
    if HHalf(t) != 0 {
      SmallMod(B - HHalf(t), B);
    }
  }

  /** One digit of D4: in 32 bits, u - v * qhat - t leaves LHALF and the borrow above, and
      nothing is lost to the wrap. */
  lemma {:induction false} BorrowIsExact(u: Digit, v: Digit, qhat: nat, t: Digit)
    requires qhat < B
    ensures var x := Wrap32(u - v * qhat - t); u - v * qhat - t == LHalf(x) - Borrow(x) * B
  {
    ProductFits(v, qhat);
    SplitWrapped(u - v * qhat - t);
  }

  lemma {:induction false} SplitWrapped(y: int)
    requires -(B - 1) * B <= y < B
    ensures y == LHalf(Wrap32(y)) - Borrow(Wrap32(y)) * B
  {
    if y < 0 {
      assert Wrap32(y) == y + W32;
    }
  }

  // D4 digit by digit from the right: the digits of u - qhat * v and the borrow left over.

  function SubBorrow(u: seq<Digit>, v: seq<Digit>, qhat: nat): Digit
    requires |u| == |v|
    decreases |u|, 1
  {
    if u == [] then 0 else Borrow(SubWord(u, v, qhat))
  }

  function SubWord(u: seq<Digit>, v: seq<Digit>, qhat: nat): U32
    requires |u| == |v| > 0
    decreases |u|, 0
  {
    Wrap32(u[0] - v[0] * qhat - SubBorrow(u[1..], v[1..], qhat))
  }

  function SubDigits(u: seq<Digit>, v: seq<Digit>, qhat: nat): (r: seq<Digit>)
    requires |u| == |v|
    ensures |r| == |u|
  {
    if u == [] then [] else [LHalf(SubWord(u, v, qhat))] + SubDigits(u[1..], v[1..], qhat)
  }

  lemma {:induction false} SubDigitsValue(u: seq<Digit>, v: seq<Digit>, qhat: nat)
    requires |u| == |v| && qhat < B
    ensures Val(SubDigits(u, v, qhat)) == Val(u) - qhat * Val(v) + SubBorrow(u, v, qhat) * PowB(|u|)
  {
    if u != [] {
      SubDigitsValue(u[1..], v[1..], qhat);
      var tail, t := SubDigits(u[1..], v[1..], qhat), SubBorrow(u[1..], v[1..], qhat);
      var x := SubWord(u, v, qhat);
      BorrowIsExact(u[0], v[0], qhat, t);
      assert u == [u[0]] + u[1..] && v == [v[0]] + v[1..];
      ValCons(LHalf(x), tail);
      ValCons(u[0], u[1..]);
      ValCons(v[0], v[1..]);
      SubtractArithmetic(Val(tail), Val(u[1..]), Val(v[1..]), PowB(|tail|), qhat, u[0], v[0], t, LHalf(x), Borrow(x));
    }
  }

  lemma {:induction false} SubtractArithmetic(now: int, was: int, vv: int, p: nat, qhat: nat, u: int, v: int, t: int,
                                              lo: int, borrow: int)
    requires now == was - qhat * vv + t * p
    requires u - v * qhat - t == lo - borrow * B
    ensures lo * p + now == (u * p + was) - qhat * (v * p + vv) + borrow * (B * p)
  {
    assert lo == u - v * qhat - t + borrow * B;
    calc {
      lo * p;
      { MulDistributes(u - v * qhat - t, borrow * B, p);
        MulDistributes(u - v * qhat, t, p);
        MulDistributes(u, v * qhat, p); }
      u * p - (v * qhat) * p - t * p + (borrow * B) * p;
      { MulAssoc(borrow, B, p); MulAssoc(qhat, v, p); }
      u * p - qhat * (v * p) - t * p + borrow * (B * p);
    }
    MulDistributes(v * p, vv, qhat);
  }

  /** The loop of D4 (qdivrem.c:203-207): u[1..n] -= qhat * v[1..n], returning the borrow.
      `uo` and `vo` are the indices of u[j] and v[0]. */
  method SubtractDigits(us: array<Digit>, uo: nat, vs: array<Digit>, vo: nat, n: nat, qhat: U32)
    returns (t: U32)
    requires us != vs && uo + n < us.Length && vo + n < vs.Length && qhat < B
    modifies us
    ensures forall k :: 0 <= k < us.Length && !(uo < k <= uo + n) ==> us[k] == old(us[k])
    ensures us[uo + 1..uo + n + 1] == SubDigits(old(us[uo + 1..uo + n + 1]), vs[vo + 1..vo + n + 1], qhat)
    ensures t == SubBorrow(old(us[uo + 1..uo + n + 1]), vs[vo + 1..vo + n + 1], qhat)
  {
    hide Wrap32, LHalf, HHalf;
    ghost var u, v := us[uo + 1..uo + n + 1], vs[vo + 1..vo + n + 1];
    t := 0;
    var i := n;
    while i > 0
      invariant 0 <= i <= n && t < B
      invariant forall k :: 0 <= k < us.Length && !(uo + i < k <= uo + n) ==> us[k] == old(us[k])
      invariant t == SubBorrow(u[i..], v[i..], qhat)
      invariant us[uo + i + 1..uo + n + 1] == SubDigits(u[i..], v[i..], qhat)
    {
      ghost var tail, u', v' := us[uo + i + 1..uo + n + 1], u[i - 1..], v[i - 1..];
      assert u'[1..] == u[i..] && v'[1..] == v[i..] && u'[0] == us[i + uo] && v'[0] == vs[vo + i];
      t := Wrap32(us[i + uo] as int - vs[vo + i] * qhat - t as int);
      assert t == SubWord(u', v', qhat);
      us[i + uo] := LHalf(t);
      assert us[uo + i..uo + n + 1] == [LHalf(t)] + tail;
      t := Borrow(t);
      i := i - 1;
    }
  }

  lemma {:induction false} SubLeading(u: seq<Digit>, v: seq<Digit>, qhat: nat)
    requires |u| == |v| + 1
    ensures var x := Wrap32(u[0] - SubBorrow(u[1..], v, qhat));
            SubDigits(u, [0] + v, qhat) == [LHalf(x)] + SubDigits(u[1..], v, qhat)
            && SubBorrow(u, [0] + v, qhat) == Borrow(x)
  {
    assert ([0] + v)[1..] == v && ([0] + v)[0] * qhat == 0;
  }

  /** D4 (qdivrem.c:203-210): u[0..n] -= qhat * v[1..n], returning whether a borrow remained. */
  method MultiplySubtract(us: array<Digit>, uo: nat, vs: array<Digit>, vo: nat, n: nat, qhat: U32)
    returns (borrowed: bool)
    requires us != vs && uo + n < us.Length && vo + n < vs.Length && qhat < B
    modifies us
    ensures forall k :: 0 <= k < us.Length && !(uo <= k <= uo + n) ==> us[k] == old(us[k])
    ensures us[uo..uo + n + 1] == SubDigits(old(us[uo..uo + n + 1]), [0] + vs[vo + 1..vo + n + 1], qhat)
    ensures borrowed == (SubBorrow(old(us[uo..uo + n + 1]), [0] + vs[vo + 1..vo + n + 1], qhat) != 0)
  {
    hide LHalf, Wrap32, SubDigits;
    ghost var u, v := us[uo..uo + n + 1], vs[vo + 1..vo + n + 1];
    SubLeading(u, v, qhat);
    assert u[1..] == us[uo + 1..uo + n + 1];
    var t := SubtractDigits(us, uo, vs, vo, n, qhat);
    ghost var tail := us[uo + 1..uo + n + 1];
    t := Wrap32(us[uo] as int - t as int);
    us[uo] := LHalf(t);
    borrowed := HHalf(t) != 0;
    assert us[uo..uo + n + 1] == [LHalf(t)] + tail;
  }

  // D6 digit by digit from the right: the digits of u + v and the carry.

  function AddCarry(u: seq<Digit>, v: seq<Digit>): Digit
    requires |u| == |v|
    decreases |u|, 1
  {
    if u == [] then 0 else HHalf(AddWord(u, v))
  }

  function AddWord(u: seq<Digit>, v: seq<Digit>): U32
    requires |u| == |v| > 0
    decreases |u|, 0
  {
    AddCarry(u[1..], v[1..]) + u[0] + v[0]
  }

  function AddDigits(u: seq<Digit>, v: seq<Digit>): (r: seq<Digit>)
    requires |u| == |v|
    ensures |r| == |u|
  {
    if u == [] then [] else [LHalf(AddWord(u, v))] + AddDigits(u[1..], v[1..])
  }

  lemma {:induction false} AddDigitsValue(u: seq<Digit>, v: seq<Digit>)
    requires |u| == |v|
    ensures Val(AddDigits(u, v)) + AddCarry(u, v) * PowB(|u|) == Val(u) + Val(v)
  {
    if u != [] {
      AddDigitsValue(u[1..], v[1..]);
      var tail, t, x := AddDigits(u[1..], v[1..]), AddCarry(u[1..], v[1..]), AddWord(u, v);
      assert u == [u[0]] + u[1..] && v == [v[0]] + v[1..];
      ValCons(LHalf(x), tail);
      ValCons(u[0], u[1..]);
      ValCons(v[0], v[1..]);
      AddArithmetic(Val(tail), Val(u[1..]), Val(v[1..]), PowB(|tail|), u[0], v[0], t, LHalf(x), HHalf(x));
    }
  }

  lemma {:induction false} AddArithmetic(now: int, was: int, vv: int, p: nat, u: int, v: int, t: int, lo: int,
                                         carry: int)
    requires now + t * p == was + vv
    requires u + v + t == lo + carry * B
    ensures lo * p + now + carry * (B * p) == (u * p + was) + (v * p + vv)
  {
    calc {
      lo * p + carry * (B * p);
      { MulAssoc(carry, B, p); MulDistributes(lo, carry * B, p); }
      (u + v + t) * p;
      { MulDistributes(u + v, t, p); MulDistributes(u, v, p); }
      u * p + v * p + t * p;
    }
  }

  /** The loop of D6 (qdivrem.c:221-225): u[1..n] += v[1..n], returning the carry. */
  method AddDigitsBack(us: array<Digit>, uo: nat, vs: array<Digit>, vo: nat, n: nat) returns (t: U32)
    requires us != vs && uo + n < us.Length && vo + n < vs.Length
    modifies us
    ensures forall k :: 0 <= k < us.Length && !(uo < k <= uo + n) ==> us[k] == old(us[k])
    ensures us[uo + 1..uo + n + 1] == AddDigits(old(us[uo + 1..uo + n + 1]), vs[vo + 1..vo + n + 1])
    ensures t == AddCarry(old(us[uo + 1..uo + n + 1]), vs[vo + 1..vo + n + 1])
  {
    hide LHalf, HHalf;
    ghost var u, v := us[uo + 1..uo + n + 1], vs[vo + 1..vo + n + 1];
    t := 0;
    var i := n;
    while i > 0
      invariant 0 <= i <= n && t < B
      invariant forall k :: 0 <= k < us.Length && !(uo + i < k <= uo + n) ==> us[k] == old(us[k])
      invariant t == AddCarry(u[i..], v[i..])
      invariant us[uo + i + 1..uo + n + 1] == AddDigits(u[i..], v[i..])
    {
      ghost var tail, u', v' := us[uo + i + 1..uo + n + 1], u[i - 1..], v[i - 1..];
      assert u'[1..] == u[i..] && v'[1..] == v[i..] && u'[0] == us[i + uo] && v'[0] == vs[vo + i];
      t := Wrap32(t + us[i + uo] + vs[vo + i]);
      assert t == AddWord(u', v');
      us[i + uo] := LHalf(t);
      assert us[uo + i..uo + n + 1] == [LHalf(t)] + tail;
      t := HHalf(t);
      i := i - 1;
    }
  }

  lemma {:induction false} AddLeading(u: seq<Digit>, v: seq<Digit>)
    requires |u| == |v| + 1
    ensures AddDigits(u, [0] + v) == [LHalf(u[0] + AddCarry(u[1..], v))] + AddDigits(u[1..], v)
  {
    hide LHalf, HHalf;
    assert ([0] + v)[1..] == v;
  }

  /** D6 (qdivrem.c:221-227): u[0..n] += v[1..n], dropping the final carry. */
  method AddBack(us: array<Digit>, uo: nat, vs: array<Digit>, vo: nat, n: nat)
    requires us != vs && uo + n < us.Length && vo + n < vs.Length
    modifies us
    ensures forall k :: 0 <= k < us.Length && !(uo <= k <= uo + n) ==> us[k] == old(us[k])
    ensures us[uo..uo + n + 1] == AddDigits(old(us[uo..uo + n + 1]), [0] + vs[vo + 1..vo + n + 1])
  {
    ghost var u, v := us[uo..uo + n + 1], vs[vo + 1..vo + n + 1];
    AddLeading(u, v);
    assert u[1..] == us[uo + 1..uo + n + 1];
    var t := AddDigitsBack(us, uo, vs, vo, n);
    ghost var tail := us[uo + 1..uo + n + 1];
    us[uo] := LHalf(us[uo] + t);
    assert us[uo..uo + n + 1] == [us[uo]] + tail;
  }

  // ---- one quotient digit ----

  lemma {:induction false} LeadingDigits(s: seq<Digit>, k: nat)
    requires 2 <= k <= 3 && k <= |s|
    ensures Val(s) / PowB(|s| - k) == if k == 2 then s[0] * B + s[1] else (s[0] * B + s[1]) * B + s[2]
  {
    ValSplit(s, k);
    ValBound(s[k..]);
    DivModUnique(Val(s), PowB(|s| - k), Val(s[..k]), Val(s[k..]));
    var a := s[..k];
    assert a[..k - 1][..k - 2] == s[..k - 2] && a[..k - 1] == s[..k - 1];
    assert Val(a) == Val(s[..k - 1]) * B + s[k - 1];
    assert Val(s[..k - 1]) == Val(s[..k - 2]) * B + s[k - 2];
    if k == 3 {
      assert s[..1][..0] == [];
      assert Val(s[..1]) == s[0];
    }
  }

  lemma {:induction false} LeadingDigitBounded(u: seq<Digit>, v: seq<Digit>)
    requires |u| == |v| + 1 && |v| > 0 && Val(u) < Val(v) * B
    ensures u[0] <= v[0]
  {
    assert u == [u[0]] + u[1..] && v == [v[0]] + v[1..];
    ValCons(u[0], u[1..]);
    ValCons(v[0], v[1..]);
    ValBound(v[1..]);
    LeadingDigitArithmetic(u[0], Val(u[1..]), v[0], Val(v[1..]), PowB(|v| - 1));
  }

  lemma {:induction false} LeadingDigitArithmetic(u0: nat, ut: nat, v0: nat, vt: nat, p: nat)
    requires vt < p && u0 * (B * p) + ut < (v0 * p + vt) * B
    ensures u0 <= v0
  {
    MulDistributes(v0, 1, p);
    MulMono(v0 * p + vt, (v0 + 1) * p, B);
    MulAssoc(v0 + 1, p, B);
    assert (v0 * p + vt) * B <= (v0 + 1) * (B * p);
    if u0 >= v0 + 1 {
      MulMono(v0 + 1, u0, B * p);
    }
  }

  /** After D4 the borrow tells whether the trial digit was one too large; one add-back then
      restores the remainder. */
  lemma {:induction false} CorrectionIsExact(u: nat, v: nat, q: nat, p: nat, sub: nat, t: nat)
    requires 0 < v < p && u / v <= q <= u / v + 1
    requires sub < p && sub == u - q * v + t * p
    ensures t == 0 ==> q == u / v && sub == u % v
    ensures t != 0 ==> q == u / v + 1 && t == 1 && sub + v == u % v + p
  {
    DivModFacts(u, v);
    MulDistributes(u / v, 1, v);
    if q == u / v {
      if t >= 1 {
        MulMono(1, t, p);
      }
    } else {
      assert q * v == u - u % v + v;
      if t == 0 {
      } else if t >= 2 {
        MulMono(2, t, p);
      }
    }
  }

  lemma {:induction false} TrialIsClose(u: seq<Digit>, v: seq<Digit>, qhat: nat)
    requires |u| == |v| + 1 && |v| >= 2 && v[0] >= B / 2 && Val(u) < Val(v) * B
    requires qhat == Min(B - 1, ((u[0] * B + u[1]) * B + u[2]) / (v[0] * B + v[1]))
    ensures 0 < Val(v) < PowB(|u|) && Val(u) / Val(v) <= qhat <= Val(u) / Val(v) + 1
  {
    LeadingDigits(u, 3);
    LeadingDigits(v, 2);
    var w := PowB(|v| - 2);
    TrialDigitOffByAtMostOne(Val(u), Val(v), w, Val(u) / w, Val(v) / w);
    ValBound(v);
  }

  lemma {:induction false} AfterSubtract(u: seq<Digit>, v: seq<Digit>, v0: seq<Digit>, qhat: nat)
    requires |u| == |v| + 1 && qhat < B && v0 == [0] + v
    requires 0 < Val(v) < PowB(|u|) && Val(u) / Val(v) <= qhat <= Val(u) / Val(v) + 1
    ensures SubBorrow(u, v0, qhat) == 0 ==>
              qhat == Val(u) / Val(v) && Val(SubDigits(u, v0, qhat)) == Val(u) % Val(v)
    ensures SubBorrow(u, v0, qhat) != 0 ==>
              qhat == Val(u) / Val(v) + 1 && qhat >= 1
              && Val(AddDigits(SubDigits(u, v0, qhat), v0)) == Val(u) % Val(v)
  {
    var sub, t := SubDigits(u, v0, qhat), SubBorrow(u, v0, qhat);
    ValCons(0, v);
    SubDigitsValue(u, v0, qhat);
    ValBound(sub);
    CorrectionIsExact(Val(u), Val(v), qhat, PowB(|u|), Val(sub), t);
    if t != 0 {
      AfterAddBack(sub, v0, Val(u), Val(v));
    }
  }

  lemma {:induction false} AfterAddBack(sub: seq<Digit>, v0: seq<Digit>, u: nat, v: nat)
    requires |sub| == |v0| && 0 < v < PowB(|sub|) && Val(v0) == v
    requires Val(sub) + v == u % v + PowB(|sub|)
    ensures Val(AddDigits(sub, v0)) == u % v && u / v >= 0
  {
    DivModFacts(u, v);
    AddDigitsValue(sub, v0);
    ValBound(AddDigits(sub, v0));
    CarryIsDropped(Val(AddDigits(sub, v0)), AddCarry(sub, v0), PowB(|sub|), u % v);
  }

  /** D3 to D6 for one j: the quotient digit, with the remainder left in u[j..j+n]. */
  method DivideDigit(us: array<Digit>, uo: nat, vs: array<Digit>, vo: nat, n: nat) returns (qhat: U32)
    requires us != vs && n >= 2 && uo + n < us.Length && vo + n < vs.Length
    requires vs[vo + 1] >= B / 2
    requires Val(us[uo..uo + n + 1]) < Val(vs[vo + 1..vo + n + 1]) * B
    modifies us
    ensures forall k :: 0 <= k < us.Length && !(uo <= k <= uo + n) ==> us[k] == old(us[k])
    ensures Val(vs[vo + 1..vo + n + 1]) > 0 && qhat < B
    ensures qhat == old(Val(us[uo..uo + n + 1])) / Val(vs[vo + 1..vo + n + 1])
    ensures Val(us[uo..uo + n + 1]) == old(Val(us[uo..uo + n + 1])) % Val(vs[vo + 1..vo + n + 1])
  {
    ghost var u, v := us[uo..uo + n + 1], vs[vo + 1..vo + n + 1];
    LeadingDigitBounded(u, v);
    qhat := TrialDigit(us[uo + 0], us[uo + 1], us[uo + 2], vs[vo + 1], vs[vo + 2]);
    TrialIsClose(u, v, qhat);
    AfterSubtract(u, v, [0] + v, qhat);
    var borrowed := MultiplySubtract(us, uo, vs, vo, n, qhat);
    if borrowed {
      qhat := qhat - 1;
      AddBack(us, uo, vs, vo, n);
    }
  }

  lemma {:induction false} CarryIsDropped(x: nat, c: nat, p: nat, r: nat)
    requires x < p && r < p && x + c * p == r + p
    ensures x == r
  {
    if c == 0 {
    } else if c >= 2 {
      MulMono(2, c, p);
    }
  }

  // ---- D2 to D7: all quotient digits ----

  lemma {:induction false} ZerosAbove(u: seq<Digit>, j: nat, k: nat)
    requires j <= k <= |u|
    requires forall i :: 0 <= i < j ==> u[i] == 0
    ensures Val(u[..k]) == Val(u[j..k])
  {
    assert u[..k][..j] == u[..j] && u[..k][j..] == u[j..k];
    ValSplit(u[..k], j);
    ValZeros(u[..j]);
  }

  /** Before step j the part of the dividend to be divided is below v * B. */
  lemma {:induction false} NextSegmentFits(u: seq<Digit>, j: nat, n: nat, v: nat)
    requires j + n < |u| && Val(u[..j + n]) < v < PowB(n)
    ensures forall i :: 0 <= i < j ==> u[i] == 0
    ensures Val(u[j..j + n + 1]) < v * B
  {
    SmallHasZeros(u[..j + n], n);
    assert forall i :: 0 <= i < j ==> u[i] == u[..j + n][i];
    ZerosAbove(u, j, j + n);
    var seg := u[j..j + n + 1];
    assert seg[..n] == u[j..j + n];
    assert Val(seg) == Val(seg[..n]) * B + seg[n];
  }

  /** The invariant of the outer loop: what has been divided off, and what is left. */
  ghost predicate Divided(whole: nat, v: nat, q: nat, u: seq<Digit>, j: nat, n: nat)
    requires j + n <= |u|
  {
    whole == q * (v * PowB(|u| - n - j)) + Val(u) && Val(u[..j + n]) < v
  }

  lemma {:induction false} DividedStart(u: seq<Digit>, v: nat, n: nat)
    requires n <= |u| && Val(u[..n]) < v
    ensures Divided(Val(u), v, Val([]), u, 0, n)
  {
  }

  lemma {:induction false} DividedEnd(whole: nat, v: nat, q: nat, u: seq<Digit>, j: nat, n: nat)
    requires j + n == |u|
    requires Divided(whole, v, q, u, j, n)
    ensures whole == q * v + Val(u) && Val(u) < v
  {
    assert u[..|u|] == u && PowB(0) == 1;
  }

  lemma {:induction false} DigitStep(whole: nat, v: nat, q: nat, u: seq<Digit>, u': seq<Digit>, j: nat, n: nat, d: nat)
    requires |u| == |u'| && j + n < |u| && 0 < v < PowB(n)
    requires Divided(whole, v, q, u, j, n)
    requires forall k :: 0 <= k < |u| && !(j <= k <= j + n) ==> u'[k] == u[k]
    requires d == Val(u[j..j + n + 1]) / v && Val(u'[j..j + n + 1]) == Val(u[j..j + n + 1]) % v
    ensures Divided(whole, v, q * B + d, u', j + 1, n)
  {
    NextSegmentFits(u, j, n, v);
    var e := j + n + 1;
    ZerosAbove(u, j, e);
    ZerosAbove(u', j, e);
    ValSplit(u, e);
    ValSplit(u', e);
    assert u[e..] == u'[e..];
    var seg := Val(u[j..e]);
    DivModFacts(seg, v);
    StepArithmetic(whole, v, q, PowB(|u| - e), seg, d, seg % v, Val(u[e..]));
    assert u'[..(j + 1) + n] == u'[..e];
  }

  lemma {:induction false} StepArithmetic(whole: int, v: int, q: int, p: int, seg: int, d: int, r: int, rest: int)
    requires whole == q * (v * (B * p)) + (seg * p + rest) && seg == d * v + r
    ensures whole == (q * B + d) * (v * p) + (r * p + rest)
  {
    calc {
      q * (v * (B * p)) + seg * p;
      { MulDistributes(d * v, r, p); MulAssoc(d, v, p); }
      q * (v * (B * p)) + d * (v * p) + r * p;
      { MulAssoc(v, B, p); MulAssoc(B, v, p); MulAssoc(q, B, v * p); }
      (q * B) * (v * p) + d * (v * p) + r * p;
      { MulDistributes(q * B, d, v * p); }
      (q * B + d) * (v * p) + r * p;
    }
  }

  lemma {:induction false} ValPush(s: seq<Digit>, d: Digit)
    ensures Val(s + [d]) == Val(s) * B + d
  {
    assert (s + [d])[..|s|] == s;
  }

  lemma {:induction false} SliceOfSuffix(s: seq<Digit>, o: nat, i: nat, j: nat)
    requires i <= j && o + j <= |s|
    ensures s[o..][i..j] == s[o + i..o + j]
  {
  }

  /** One pass of the loop body, on the whole dividend u[0..m+n] (which ends its array). */
  method DivideAt(us: array<Digit>, uo: nat, vs: array<Digit>, vo: nat, n: nat, j: nat, ghost whole: nat, ghost q: nat)
    returns (qhat: U32)
    requires us != vs && n >= 2 && uo + j + n < us.Length && vo + n + 1 == vs.Length
    requires vs[vo + 1] >= B / 2
    requires Divided(whole, Val(vs[vo + 1..]), q, us[uo..], j, n)
    modifies us
    ensures us[..uo] == old(us[..uo]) && qhat < B
    ensures Divided(whole, Val(vs[vo + 1..]), q * B + qhat, us[uo..], j + 1, n)
  {
    hide Val, PowB;
    ghost var u, v := us[uo..], Val(vs[vo + 1..]);
    ValBound(vs[vo + 1..]);
    NextSegmentFits(u, j, n, v);
    SliceOfSuffix(us[..], uo, j, j + n + 1);
    assert us[..][uo..] == u && vs[vo + 1..vo + n + 1] == vs[vo + 1..];
    qhat := DivideDigit(us, uo + j, vs, vo, n);
    SliceOfSuffix(us[..], uo, j, j + n + 1);
    assert us[..][uo..] == us[uo..];
    DigitStep(whole, v, q, u, us[uo..], j, n, qhat);
  }

  /** The loop on j (qdivrem.c:159-231): u[0..m+n] is divided by v[1..n]; the quotient goes to
      q[0..m] and the remainder stays in u. All three end their arrays. */
  method LongDivide(us: array<Digit>, uo: nat, vs: array<Digit>, vo: nat, qs: array<Digit>, qo: nat, m: nat, n: nat)
    requires us != vs && us != qs && vs != qs
    requires n >= 2 && uo + m + n + 1 == us.Length && vo + n + 1 == vs.Length && qo + m + 1 == qs.Length
    requires vs[vo + 1] >= B / 2
    requires Val(us[uo..uo + n]) < Val(vs[vo + 1..])
    modifies us, qs
    ensures us[..uo] == old(us[..uo]) && qs[..qo] == old(qs[..qo])
    ensures old(Val(us[uo..])) == Val(qs[qo..]) * Val(vs[vo + 1..]) + Val(us[uo..])
    ensures Val(us[uo..]) < Val(vs[vo + 1..])
  {
    hide Val, Divided;
    ghost var whole, v := Val(us[uo..]), Val(vs[vo + 1..]);
    assert us[uo..][..n] == us[uo..uo + n] && qs[qo..qo + 0] == [];
    DividedStart(us[uo..], v, n);
    var j := 0;
    while j <= m
      invariant 0 <= j <= m + 1
      invariant us[..uo] == old(us[..uo]) && qs[..qo] == old(qs[..qo])
      invariant Divided(whole, v, Val(qs[qo..qo + j]), us[uo..], j, n)
    {
      ghost var q := qs[qo..qo + j];
      var qhat := DivideAt(us, uo, vs, vo, n, j, whole, Val(q));
      qs[qo + j] := qhat;
      assert qs[qo..qo + j + 1] == q + [qhat];
      ValPush(q, qhat);
      j := j + 1;
    }
    assert qs[qo..qo + j] == qs[qo..];
    DividedEnd(whole, v, Val(qs[qo..]), us[uo..], j, n);
  }

  // ---- D1 and the final unshift ----

  /** qdivrem.c:262-271, for p[0..len] at the end of its array. */
  method ShiftLeft(p: array<Digit>, o: nat, len: nat, sh: nat)
    requires o + len + 1 == p.Length && 0 < sh < 16
    modifies p
    ensures p[..o] == old(p[..o]) && p[o..] == ShlSeq(old(p[o..]), sh)
  {
    ghost var was := p[o..];
    ghost var goal := ShlSeq(was, sh);
    var i := 0;
    while i < len
      invariant 0 <= i <= len
      invariant p[..o] == old(p[..o])
      invariant forall k :: o <= k < o + i ==> p[k] == goal[k - o]
      invariant forall k :: o + i <= k < p.Length ==> p[k] == was[k - o]
    {
      assert p[o + i] == was[i] && p[o + i + 1] == was[i + 1];
      p[o + i] := ShlDigit(p[o + i], p[o + i + 1], sh);
      assert p[o + i] == goal[i];
      i := i + 1;
    }
    assert p[o + i] == was[i];
    p[o + i] := ShlDigit(p[o + i], 0, sh);
    assert p[o + i] == goal[i];
  }

  lemma {:induction false} DoubleShift(v1: nat, d: nat)
    ensures v1 * Pow2(d + 1) == 2 * (v1 * Pow2(d))
  {
    MulAssoc(2, v1, Pow2(d));
  }

  lemma {:induction false} ShiftBelowDigitSize(v1: nat, d: nat)
    requires v1 > 0 && v1 * Pow2(d) < B
    ensures d < 16
  {
    if d >= 16 {
      Pow2Add(16, d - 16);
      Pow2Sixteen();
      MulMono(1, Pow2(d - 16), B);
      MulMono(1, v1, Pow2(d));
    }
  }

  /** D1 (qdivrem.c:145-149): how far to shift so that the leading divisor digit is at least B/2. */
  method NormalizingShift(v1: Digit) returns (d: nat)
    requires v1 > 0
    ensures d < 16 && B / 2 <= v1 * Pow2(d) < B
  {
    d := 0;
    var t: U32 := v1;
    while t < B / 2
      invariant 0 < t == v1 * Pow2(d) < B
      decreases B - t
    {
      DoubleShift(v1, d);
      t := 2 * t;
      d := d + 1;
    }
    ShiftBelowDigitSize(v1, d);
  }

  /** A number with leading digit s[0] does not overflow when s[0] << sh fits a digit. */
  lemma {:induction false} ShlNoOverflow(s: seq<Digit>, sh: nat)
    requires 0 < sh < 16 && |s| > 0 && s[0] * Pow2(sh) < B
    ensures Val(ShlSeq(s, sh)) == Val(s) * Pow2(sh)
    ensures ShlSeq(s, sh)[0] >= s[0] * Pow2(sh)
  {
    ShlValue(s, sh);
    ShlDigitParts(s[0], sh);
    NothingFallsOut(s[0] * Pow2(sh), Shr(s[0], 16 - sh), (s[0] * Pow2(sh)) % B, PowB(|s|));
  }

  lemma {:induction false} NothingFallsOut(x: nat, h: nat, r: nat, p: nat)
    requires x == h * B + r && x < B
    ensures h * p == 0 && r == x
  {
    if h >= 1 {
      MulMono(1, h, B);
    }
  }

  /** qdivrem.c:240-244: u[0..m+n] >>= d, where u[0..m] are zero. */
  method ShiftRight(us: array<Digit>, uo: nat, m: nat, n: nat, d: nat)
    requires uo + m + n + 1 == us.Length && 0 < d < 16
    requires forall k :: uo <= k <= uo + m ==> us[k] == 0
    modifies us
    ensures us[..uo] == old(us[..uo]) && us[uo..] == ShrSeq(old(us[uo..]), d)
  {
    ghost var was := us[..];
    var i := m + n;
    while i > m
      invariant m <= i <= m + n
      invariant us[..uo] == was[..uo]
      invariant forall k :: uo <= k <= uo + i ==> us[k] == was[k]
      invariant forall k :: uo + i < k < us.Length ==> us[k] == ShrDigit(was[k - 1], was[k], d)
    {
      us[uo + i] := ShrDigit(us[uo + i - 1], us[uo + i], d);
      i := i - 1;
    }
    us[uo + i] := 0;
    ShrAssembled(us[..], was, uo, m, d);
    assert us[uo..] == us[..][uo..] && old(us[uo..]) == was[uo..];
  }

  lemma {:induction false} ShrAssembled(now: seq<Digit>, was: seq<Digit>, o: nat, m: nat, d: nat)
    requires |now| == |was| && o + m < |was| && 0 < d < 16
    requires forall k :: o <= k <= o + m ==> now[k] == 0 == was[k]
    requires forall k :: o + m < k < |was| ==> now[k] == ShrDigit(was[k - 1], was[k], d)
    ensures now[o..] == ShrSeq(was[o..], d)
  {
    var s := was[o..];
    forall k | 0 <= k < |s|
      ensures now[o..][k] == ShrSeq(s, d)[k]
    {
      if k <= m {
        ShrOfZero(s, k, d);
      } else {
        assert s[k] == was[o + k] && s[k - 1] == was[o + k - 1];
      }
    }
  }

  lemma {:induction false} ShrOfZero(s: seq<Digit>, k: nat, d: nat)
    requires 0 < d < 16 && k < |s| && s[k] == 0 && (k > 0 ==> s[k - 1] == 0)
    ensures ShrSeq(s, d)[k] == 0
  {
    assert 0 * Pow2(16 - d) == 0;
    DivModUnique(0, Pow2(d), 0, 0);
  }

  /** The leading n digits of the shifted dividend are below the shifted divisor. */
  lemma {:induction false} LeadBelow(s: seq<Digit>, u: nat, v: nat, a: nat, n: nat)
    requires 1 <= n < |s| && a >= 1
    requires Val(s) == u * a && u < PowB(|s| - 1) && v >= PowB(n - 1)
    ensures Val(s[..n]) < v * a
  {
    var p := PowB(|s| - n);
    ValSplit(s, n);
    PowBAdd(n - 1, |s| - n);
    LeadArithmetic(Val(s[..n]), p, Val(s[n..]), u, v, a, PowB(n - 1));
  }

  lemma {:induction false} LeadArithmetic(x: nat, p: nat, rest: nat, u: nat, v: nat, a: nat, b: nat)
    requires x * p + rest == u * a && u < b * p && v >= b && a >= 1
    ensures x < v * a
  {
    MulMono(u + 1, b * p, a);
    MulDistributes(u, 1, a);
    assert u * a < (b * p) * a;
    if x >= v * a {
      MulMono(b, v, a);
      MulMono(b * a, x, p);
      assert (b * a) * p == (b * p) * a by {
        MulAssoc(b, a, p);
        MulAssoc(b, p, a);
      }
    }
  }

  /** Dividing both numbers scaled by a divides the numbers, and scales the remainder. */
  lemma {:induction false} Unscale(u: nat, v: nat, a: nat, q: nat, r: nat)
    requires v > 0 && a >= 1 && u * a == q * (v * a) + r && r < v * a
    ensures q == u / v && r == (u % v) * a
  {
    var r0 := u - q * v;
    assert r0 * a == r by {
      MulDistributes(u, q * v, a);
      MulAssoc(q, v, a);
    }
    assert 0 <= r0 < v by {
      if r0 < 0 {
        MulMono(r0, -1, a);
      }
      if r0 >= v {
        MulMono(v, r0, a);
      }
    }
    DivModUnique(u, v, q, r0);
  }

  lemma {:induction false} Unshifted(now: nat, low: nat, r: nat, a: nat)
    requires now * a + low == r * a && low < a
    ensures now == r
  {
    DivModUnique(r * a, a, now, low);
    DivModUnique(r * a, a, r, 0);
  }

  lemma {:induction false} LeadingDigitBound(s: seq<Digit>)
    requires |s| > 0 && s[0] > 0
    ensures Val(s) >= PowB(|s| - 1)
  {
    assert s == [s[0]] + s[1..];
    ValCons(s[0], s[1..]);
    MulMono(1, s[0], PowB(|s| - 1));
  }

  lemma {:induction false} ZeroLeadBound(s: seq<Digit>)
    requires |s| > 0 && s[0] == 0
    ensures Val(s) < PowB(|s| - 1)
  {
    assert s == [s[0]] + s[1..];
    ValCons(s[0], s[1..]);
    ValBound(s[1..]);
  }

  /** qdivrem.c:145-154: both numbers are scaled by the power of two d that normalizes v[1]. */
  method Normalize(us: array<Digit>, uo: nat, vs: array<Digit>, vo: nat, m: nat, n: nat) returns (d: nat)
    requires us != vs && n >= 2 && uo + m + n + 1 == us.Length && vo + n + 1 == vs.Length
    requires us[uo] == 0 && vs[vo + 1] != 0
    modifies us, vs
    ensures d < 16 && us[..uo] == old(us[..uo])
    ensures Val(us[uo..]) == old(Val(us[uo..])) * Pow2(d)
    ensures Val(vs[vo + 1..]) == old(Val(vs[vo + 1..])) * Pow2(d)
    ensures vs[vo + 1] >= B / 2
  {
    d := NormalizingShift(vs[vo + 1]);
    assert d == 0 ==> Pow2(d) == 1;
    hide Val, Pow2;
    if d > 0 {
      ShlNoOverflow(us[uo..], d);
      ShlNoOverflow(vs[vo + 1..], d);
      ghost var v := vs[vo + 1..];
      ShiftLeft(us, uo, m + n, d);
      ShiftLeft(vs, vo + 1, n - 1, d);
      assert vs[vo + 1] == ShlSeq(v, d)[0];
    }
  }

  /** qdivrem.c:238-245: the remainder is shifted back down. */
  method Unnormalize(us: array<Digit>, uo: nat, m: nat, n: nat, d: nat, ghost r: nat)
    requires uo + m + n + 1 == us.Length && d < 16
    requires Val(us[uo..]) == r * Pow2(d) && Val(us[uo..]) < PowB(n)
    modifies us
    ensures us[..uo] == old(us[..uo]) && Val(us[uo..]) == r
  {
    assert Pow2(0) == 1;
    hide Val, PowB, Pow2;
    if d > 0 {
      ghost var s := us[uo..];
      SmallHasZeros(s, n);
      assert forall k :: uo <= k <= uo + m ==> us[k] == s[k - uo];
      ShrValue(s, d);
      ShiftRight(us, uo, m, n, d);
      DivModFacts(s[|s| - 1], Pow2(d));
      Unshifted(Val(us[uo..]), s[|s| - 1] % Pow2(d), r, Pow2(d));
    }
  }

  /** Algorithm D proper (qdivrem.c:139-250), once the leading zero digits are skipped. */
  method AlgorithmD(us: array<Digit>, uo: nat, vs: array<Digit>, vo: nat, qs: array<Digit>, qo: nat, m: nat, n: nat)
    requires us != vs && us != qs && vs != qs
    requires n >= 2 && uo + m + n + 1 == us.Length && vo + n + 1 == vs.Length && qo + m + 1 == qs.Length
    requires us[uo] == 0 && vs[vo + 1] != 0 && Val(vs[vo + 1..]) > 0
    modifies us, vs, qs
    ensures us[..uo] == old(us[..uo]) && qs[..qo] == old(qs[..qo])
    ensures Val(qs[qo..]) == old(Val(us[uo..]) / Val(vs[vo + 1..]))
    ensures Val(us[uo..]) == old(Val(us[uo..]) % Val(vs[vo + 1..]))
  {
    hide Val, PowB, Pow2;
    ghost var u, v := Val(us[uo..]), Val(vs[vo + 1..]);
    ZeroLeadBound(us[uo..]);
    LeadingDigitBound(vs[vo + 1..]);
    var d := Normalize(us, uo, vs, vo, m, n);
    LeadBelow(us[uo..], u, v, Pow2(d), n);
    assert us[uo..][..n] == us[uo..uo + n];
    LongDivide(us, uo, vs, vo, qs, qo, m, n);
    Unscale(u, v, Pow2(d), Val(qs[qo..]), Val(us[uo..]));
    ValBound(vs[vo + 1..]);
    Unnormalize(us, uo, m, n, d, u % v);
  }

  // ---- the whole division ----

  /** A quad seen through `union uu` as four digits (qdivrem.c:80-90). */
  function QuadDigits(x: U64): (r: seq<Digit>)
    ensures |r| == 4
  {
    var h, l: U32 := x / W32, x % W32;
    [HHalf(h), LHalf(h), HHalf(l), LHalf(l)]
  }

  /** Four digits put back together through `union uu` (qdivrem.c:247-253). */
  function JoinDigits(a: Digit, b: Digit, c: Digit, d: Digit): U64 {
    Combine(a, b) * W32 + Combine(c, d)
  }

  lemma {:induction false} JoinIs(a: Digit, b: Digit, c: Digit, d: Digit)
    ensures JoinDigits(a, b, c, d) == (a * B + b) * W32 + (c * B + d)
  {
  }

  lemma {:induction false} JoinValue(s: seq<Digit>)
    requires |s| == 4
    ensures JoinDigits(s[0], s[1], s[2], s[3]) == Val(s)
  {
    assert s[..3][..2] == s[..2] && s[..2][..1] == s[..1] && s[..1][..0] == [];
    assert Val(s[..1]) == s[0];
    assert Val(s[..2]) == s[0] * B + s[1];
    assert Val(s[..3]) == (s[0] * B + s[1]) * B + s[2];
  }

  lemma {:induction false} QuadValue(x: U64)
    ensures Val(QuadDigits(x)) == x
  {
    var s := QuadDigits(x);
    JoinValue(s);
  }

  /** One of the four unrolled steps on lines 106-112: q = rbj / t, and rbj % t goes on. */
  method SchoolStep(r: nat, u: Digit, t: U32) returns (q: Digit, r': U32)
    requires r < t < B
    ensures r * B + u == q * t + r' && r' < t
  {
    var rbj := Combine(r, u);
    DivModFacts(rbj, t);
    if rbj / t >= B {
      MulMono(B, rbj / t, t);
    }
    q := rbj / t;
    r' := rbj % t;
  }

  /** The one-digit divisor (qdivrem.c:105-120): four hardware divisions, digit by digit. */
  method DivideByDigit(u1: Digit, u2: Digit, u3: Digit, u4: Digit, t: U32) returns (q: U64, r: U64)
    requires 0 < t < B
    ensures q == Val([u1, u2, u3, u4]) / t && r == Val([u1, u2, u3, u4]) % t
  {
    var q1, r1 := SchoolStep(0, u1, t);
    var q2, r2 := SchoolStep(r1, u2, t);
    var q3, r3 := SchoolStep(r2, u3, t);
    var q4, r4 := SchoolStep(r3, u4, t);
    q, r := JoinDigits(q1, q2, q3, q4), r4;
    JoinValue([u1, u2, u3, u4]);
    JoinIs(u1, u2, u3, u4);
    JoinIs(q1, q2, q3, q4);
    SchoolDivision(u1, u2, u3, u4, t, q1, q2, q3, q4, r1, r2, r3, r4);
    DivModUnique(Val([u1, u2, u3, u4]), t, q, r);
  }

  lemma {:induction false} SchoolDivision(u1: int, u2: int, u3: int, u4: int, t: int, q1: int, q2: int, q3: int,
                                          q4: int, r1: int, r2: int, r3: int, r4: int)
    requires u1 == q1 * t + r1 && r1 * B + u2 == q2 * t + r2
    requires r2 * B + u3 == q3 * t + r3 && r3 * B + u4 == q4 * t + r4
    ensures (u1 * B + u2) * W32 + (u3 * B + u4) == ((q1 * B + q2) * W32 + (q3 * B + q4)) * t + r4
  {
    assert u1 * B + u2 == (q1 * B + q2) * t + r2 by {
      MulDistributes(q1 * B, q2, t);
      MulAssoc(B, q1, t);
    }
    assert r2 * W32 + (u3 * B + u4) == (q3 * B + q4) * t + r4 by {
      MulDistributes(q3 * B, q4, t);
      MulAssoc(B, q3, t);
    }
    MulDistributes((q1 * B + q2) * W32, q3 * B + q4, t);
    MulAssoc(W32, q1 * B + q2, t);
  }

  lemma {:induction false} LeadingZerosDropped(s: seq<Digit>, o: nat)
    requires o <= |s| && forall k :: 0 <= k < o ==> s[k] == 0
    ensures Val(s[o..]) == Val(s)
  {
    ValSplit(s, o);
    ValZeros(s[..o]);
  }

  /** A dividend at least as large as the divisor has at least as many digits. */
  lemma {:induction false} DividendIsLongEnough(u: seq<Digit>, uo: nat, v: seq<Digit>, n: nat)
    requires |u| == 5 && |v| == n >= 1 && uo + n == 4
    requires v[0] > 0 && Val(v) <= Val(u)
    requires forall k :: 0 <= k <= uo ==> u[k] == 0
    ensures u[uo + 1] != 0
  {
    LeadingDigitBound(v);
    LeadingZerosDropped(u, uo + 1);
    if u[uo + 1] == 0 {
      ZeroLeadBound(u[uo + 1..]);
    }
  }

  /** qdivrem.c:92-131: skip leading zero digits of v, then of u, and clear the quotient digits
      above the first one Algorithm D will compute. */
  method SkipDivisorZeros(vs: array<Digit>) returns (vo: nat, n: nat)
    requires vs.Length == 5 && Val(vs[1..]) > 0
    ensures 1 <= n <= 4 && (n == 1 ==> vo == 2) && (n > 1 ==> vo == 4 - n && vs[vo + 1] != 0)
    ensures n == 1 ==> Val(vs[1..]) == vs[vo + 2]
    ensures n > 1 ==> Val(vs[vo + 1..]) == Val(vs[1..])
  {
    vo, n := 0, 4;
    while vs[vo + 1] == 0
      invariant 2 <= n <= 4 && vo == 4 - n
      invariant forall k :: 1 <= k <= vo ==> vs[k] == 0
      decreases n
    {
      n := n - 1;
      if n == 1 {
        LeadingZerosDropped(vs[1..], 3);
        assert vs[1..][3..] == [vs[4]];
        ValCons(vs[4], []);
        assert [vs[4]] + [] == [vs[4]];
        return;
      }
      vo := vo + 1;
    }
    LeadingZerosDropped(vs[1..], vo);
    assert vs[1..][vo..] == vs[vo + 1..];
  }

  method SkipDividendZeros(us: array<Digit>, ghost v: seq<Digit>, n: nat) returns (uo: nat, m: nat)
    requires us.Length == 5 && us[0] == 0 && 2 <= n <= 4
    requires |v| == n && v[0] > 0 && Val(v) <= Val(us[..])
    ensures uo + m + n == 4 && (forall k :: 0 <= k <= uo ==> us[k] == 0)
    ensures Val(us[uo..]) == Val(us[..])
  {
    uo, m := 0, 4 - n;
    while us[uo + 1] == 0
      invariant uo + m + n == 4 && forall k :: 0 <= k <= uo ==> us[k] == 0
      decreases m
    {
      if m == 0 {
        DividendIsLongEnough(us[..], uo, v, n);
        assert false;
      }
      uo := uo + 1;
      m := m - 1;
    }
    LeadingZerosDropped(us[..], uo);
    assert us[..][uo..] == us[uo..];
  }

  method ClearDigits(qs: array<Digit>, k: nat)
    requires k <= qs.Length
    modifies qs
    ensures forall i :: 0 <= i < k ==> qs[i] == 0
  {
    var i := k;
    while i > 0
      invariant 0 <= i <= k
      invariant forall h :: i <= h < k ==> qs[h] == 0
    {
      i := i - 1;
      qs[i] := 0;
    }
  }

  /** qdivrem.c:80-90: the four digits of a quad. */
  method Unpack(a: array<Digit>, x: U64)
    requires a.Length == 5
    modifies a
    ensures a[0] == old(a[0]) && Val(a[1..]) == x
  {
    var d := QuadDigits(x);
    QuadValue(x);
    a[1], a[2], a[3], a[4] := d[0], d[1], d[2], d[3];
    assert a[1..] == d;
  }

  /** __qdivrem (qdivrem.c:31-255). A zero divisor traps in the division on line 46. */
  method DivRem(uq: U64, vq: U64) returns (q: U64, r: U64)
    requires vq != 0
    ensures q == uq / vq && r == uq % vq
  {
    if uq < vq {
      DivModUnique(uq, vq, 0, uq);
      return 0, uq;
    }
    hide Val;
    var us, vs, qs := new Digit[5], new Digit[5], new Digit[5];
    us[0] := 0;
    Unpack(us, uq);
    Unpack(vs, vq);
    assert us[..] == [0] + us[1..];
    ValCons(0, us[1..]);
    var vo, n := SkipDivisorZeros(vs);
    if n == 1 {
      assert us[1..] == [us[1], us[2], us[3], us[4]];
      q, r := DivideByDigit(us[1], us[2], us[3], us[4], vs[vo + 2]);
    } else {
      q, r := DivideLong(us, vs, qs, vo, n, uq, vq);
    }
  }

  method DivideLong(us: array<Digit>, vs: array<Digit>, qs: array<Digit>, vo: nat, n: nat, ghost uq: U64, ghost vq: U64)
    returns (q: U64, r: U64)
    requires us != vs && us != qs && vs != qs && us.Length == vs.Length == qs.Length == 5
    requires us[0] == 0 && vo + n == 4 && n >= 2 && vs[vo + 1] != 0
    requires 0 < vq <= uq && Val(us[..]) == uq && Val(vs[vo + 1..]) == vq
    modifies us, vs, qs
    ensures q == uq / vq && r == uq % vq
  {
    hide Val, PowB;
    ValBound(vs[vo + 1..]);
    var uo, m := SkipDividendZeros(us, vs[vo + 1..], n);
    ClearDigits(qs, 4 - m);
    ghost var was, zeros := us[..uo], qs[..4 - m];
    AlgorithmD(us, uo, vs, vo, qs, 4 - m, m, n);
    assert forall k :: 0 <= k < uo ==> us[k] == was[k];
    assert forall k :: 0 <= k < 4 - m ==> qs[k] == zeros[k];
    if uo == 0 {
      PowBAdd(n, 4 - n);
      MulMono(1, PowB(4 - n), PowB(n));
      DivModFacts(uq, vq);
      SmallHasZeros(us[0..], 4);
    }
    r := JoinTail(us, uo);
    q := JoinTail(qs, 4 - m);
  }

  /** Reading a whole result out of its array: everything above index o is zero. */
  method JoinTail(a: array<Digit>, o: nat) returns (x: U64)
    requires a.Length == 5 && o < 5
    requires forall k :: 1 <= k < o ==> a[k] == 0
    requires o == 0 ==> a[0] == 0
    ensures x == Val(a[o..])
  {
    x := JoinDigits(a[1], a[2], a[3], a[4]);
    JoinValue(a[1..]);
    if o == 0 {
      assert a[0..] == [0] + a[1..];
      ValCons(0, a[1..]);
    } else {
      LeadingZerosDropped(a[1..], o - 1);
      assert a[1..][o - 1..] == a[o..];
    }
  }
}
