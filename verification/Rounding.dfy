/** Round to nearest even at 24 significant bits (section 4.3.1 of IEEE 754-2019, with an unbounded
exponent range, then flushed or overflowed) as a property of exact values, and the code's
rounding steps against it. */
module Rounding {
  import opened Dyadic
  import opened Fp32

  // ---------------------------------------------------------------- nearest, ties to even

  predicate Times(r: nat, m: nat, q: nat) {
    r == m * Pow2(q)
  }

  /** r has at most 24 significant bits. */
  ghost predicate Rep24(r: nat) {
    exists m: nat, q: nat :: Times(r, m, q) && m < 2 * HIDDEN
  }

  /** r's 24-bit significand is even. */
  ghost predicate Even24(r: nat) {
    exists m: nat, q: nat :: Times(r, m, q) && HIDDEN <= m < 2 * HIDDEN && m % 2 == 0
  }

  function Dist(v: int, r: int): nat {
    if v < r then r - v else v - r
  }

  ghost predicate NearestEven(v: nat, r: nat) {
    && Rep24(r)
    && (forall y: nat :: Rep24(y) ==> Dist(v, r) <= Dist(v, y))
    && (forall y: nat :: Rep24(y) && y != r && Dist(v, y) == Dist(v, r) ==> Even24(r))
  }

  function Rne24(v: nat): nat {
    var top := TopBit(v);
    if top <= 23 then v else Shl(RoundShift(v, top - 23), top - 23)
  }

  lemma {:induction false} BigTop(v: nat)
    requires v > 0
    ensures v < 2 * HIDDEN <==> TopBit(v) <= 23
    ensures TopBit(v) > 23 ==> v >= 2 * HIDDEN
  {
    TopBitBounds(v);
    Pow2Values();
    Pow2Order(TopBit(v), 23);
    Pow2Order(24, TopBit(v));
  }

  /** The grid of 24-bit numbers has no point strictly between a 2^q and (a + 1) 2^q. */
  lemma {:induction false} NothingBetween(a: nat, q: nat, y: nat)
    requires HIDDEN <= a && Rep24(y)
    ensures y <= a * Pow2(q) || y >= (a + 1) * Pow2(q)
  {
    var m: nat, k: nat :| Times(y, m, k) && m < 2 * HIDDEN;
    if k >= q {
      Pow2Add(k - q, q);
      var c := m * Pow2(k - q);
      assert y == c * Pow2(q) by { Associate(m, Pow2(k - q), Pow2(q)); }
      if c <= a { MulBetween(c, a, a + 1, Pow2(q)); } else { MulBetween(a + 1, c, c + 1, Pow2(q)); }
    } else {
      Pow2Order(k, q);
      MulUp(m, 2 * HIDDEN, Pow2(k));
      MulUp(HIDDEN, a, Pow2(q));
      MulUp(2 * Pow2(k), Pow2(q), HIDDEN);
      assert (2 * HIDDEN) * Pow2(k) == HIDDEN * (2 * Pow2(k));
    }
  }

  /** The normalized quotient of a value of more than 24 bits. */
  lemma {:induction false} TopQuotient(v: nat) returns (q: nat, a: nat, rem: nat)
    requires v >= 2 * HIDDEN
    ensures q == TopBit(v) - 23 && q >= 1 && v == a * Pow2(q) + rem && rem < Pow2(q) && HIDDEN <= a < 2 * HIDDEN
  {
    BigTop(v);
    TopBitBounds(v);
    q := TopBit(v) - 23;
    a, rem := Divide(v, Pow2(q));
    Pow2Values();
    Pow2Add(23, q);
    assert HIDDEN * Pow2(q) <= v < 2 * (HIDDEN * Pow2(q));
    if a < HIDDEN { MulUp(a + 1, HIDDEN, Pow2(q)); SumTimes(a, 1, Pow2(q)); }
    if a >= 2 * HIDDEN { MulUp(2 * HIDDEN, a, Pow2(q)); DoubleProduct(HIDDEN, Pow2(q)); }
  }

  lemma {:induction false} EvenOrCarry(m: nat, q: nat)
    requires HIDDEN <= m <= 2 * HIDDEN && m % 2 == 0
    ensures Even24(m * Pow2(q)) && Rep24(m * Pow2(q))
  {
    if m == 2 * HIDDEN {
      assert Pow2(q + 1) == 2 * Pow2(q);
      Associate(HIDDEN, 2, Pow2(q));
      assert Times(m * Pow2(q), HIDDEN, q + 1);
    } else {
      assert Times(m * Pow2(q), m, q);
    }
  }

  lemma {:induction false} CloserSide(a: nat, q: nat, rem: nat, v: nat, m: nat, y: nat)
    requires v == a * Pow2(q) + rem && rem < Pow2(q) && HIDDEN <= a && q >= 1 && Rep24(y)
    requires m == if rem > Pow2(q - 1) || (rem == Pow2(q - 1) && a % 2 == 1) then a + 1 else a
    ensures Dist(v, m * Pow2(q)) <= Dist(v, y)
    ensures y != m * Pow2(q) && Dist(v, y) == Dist(v, m * Pow2(q)) ==> m % 2 == 0
  {
    NothingBetween(a, q, y);
    assert Pow2(q) == 2 * Pow2(q - 1);
    SumTimes(a, 1, Pow2(q));
  }

  /** Rne24 is rounding to nearest, ties to even. */
  lemma {:induction false} RneIsNearestEven(v: nat)
    ensures NearestEven(v, Rne24(v))
  {
    if v > 0 { BigTop(v); }
    if v < 2 * HIDDEN {
      assert Times(v, v, 0);
    } else {
      var q, a, rem := TopQuotient(v);
      RoundForm(v, q, a, rem);
      var m := RoundShift(v, q);
      assert Rne24(v) == m * Pow2(q);
      if m == 2 * HIDDEN { EvenOrCarry(m, q); } else { assert Times(m * Pow2(q), m, q); }
      forall y: nat | Rep24(y)
        ensures Dist(v, m * Pow2(q)) <= Dist(v, y)
        ensures y != m * Pow2(q) && Dist(v, y) == Dist(v, m * Pow2(q)) ==> Even24(m * Pow2(q))
      {
        CloserSide(a, q, rem, v, m, y);
        if m % 2 == 0 { EvenOrCarry(m, q); }
      }
    }
  }

  lemma {:induction false} NormalFormIsUnique(m: nat, q: nat, k: nat, j: nat)
    requires HIDDEN <= m < 2 * HIDDEN && HIDDEN <= k < 2 * HIDDEN && m * Pow2(q) == k * Pow2(j)
    ensures m == k
  {
    Pow2Values();
    TopBitIs(m, 23);
    TopBitIs(k, 23);
    TopBitScale(m, q);
    TopBitScale(k, j);
    CompareScaled(m, k, Pow2(q));
  }

  /** No even number above an even number m 2^q is the next one up. */
  lemma {:induction false} NextIsOdd(m: nat, q: nat, s: nat)
    requires HIDDEN <= m < 2 * HIDDEN && m % 2 == 0 && s == (m + 1) * Pow2(q)
    ensures !Even24(s)
  {
    if Even24(s) {
      var k: nat, j: nat :| Times(s, k, j) && HIDDEN <= k < 2 * HIDDEN && k % 2 == 0;
      NormalFormIsUnique(m + 1, q, k, j);
    }
  }

  lemma {:induction false} TieGoesOneWay(v: nat, r: nat, s: nat)
    requires NearestEven(v, r) && NearestEven(v, s)
    ensures r >= s
  {
    hide Pow2, Rep24;
    if r < s {
      assert Rep24(s) && Rep24(r);
      assert Dist(v, r) == Dist(v, s);
      var m: nat, q: nat :| Times(r, m, q) && HIDDEN <= m < 2 * HIDDEN && m % 2 == 0;
      hide Even24;
      var y: nat := (m + 1) * Pow2(q);
      assert r < y by { SumTimes(m, 1, Pow2(q)); }
      assert y <= s by { NothingBetween(m, q, s); }
      NextStepIsRep(m, q);
      assert Dist(v, s) <= Dist(v, y);
      NextIsOdd(m, q, s);
    }
  }

  lemma {:induction false} NextStepIsRep(m: nat, q: nat)
    requires HIDDEN <= m < 2 * HIDDEN && m % 2 == 0
    ensures (m + 1) * Pow2(q) >= 0 && Rep24((m + 1) * Pow2(q))
  {
    assert Times((m + 1) * Pow2(q), m + 1, q);
  }

  /** Nearest-even picks one number. */
  lemma {:induction false} NearestEvenIsUnique(v: nat, r: nat)
    ensures NearestEven(v, r) <==> r == Rne24(v)
  {
    RneIsNearestEven(v);
    if NearestEven(v, r) {
      TieGoesOneWay(v, r, Rne24(v));
      TieGoesOneWay(v, Rne24(v), r);
    }
  }

  // ---------------------------------------------------------------- bits of a rounded value

  /** The 24-bit significand of a number of at most 24 significant bits. */
  function Significand(r: nat): nat {
    var top := TopBit(r);
    if top > 23 then r / Pow2(top - 23) else Shl(r, 23 - top)
  }

  /** Biased binary32 exponent of r in units of 2^-(149 + u). */
  function Exponent(r: nat, u: int): int {
    TopBit(r) - 22 - u
  }

  /** Bits of the magnitude v in units of 2^-(149 + u): rounded to nearest even with an unbounded
      exponent, then flushed or overflowed. */
  function RoundedBits(s: int, v: nat, u: int): U32
    requires 0 <= s <= 1
  {
    var r := Rne24(v);
    if v == 0 then Zero(s) else Pack(s, Exponent(r, u), Significand(r))
  }

  /** The rounded significand before its carry is taken out, as the code has it. */
  function Rounded(v: nat): nat {
    var top := TopBit(v);
    if top > 23 then RoundShift(v, top - 23) else Shl(v, 23 - top)
  }

  lemma {:induction false} RoundedRange(v: nat)
    requires v > 0
    ensures HIDDEN <= Rounded(v) <= 2 * HIDDEN
    ensures TopBit(v) <= 23 ==> Rounded(v) < 2 * HIDDEN
  {
    var top := TopBit(v);
    BigTop(v);
    TopBitBounds(v);
    Pow2Values();
    if top > 23 {
      var q, a, rem := TopQuotient(v);
      RoundForm(v, q, a, rem);
    } else {
      Pow2Add(top, 23 - top);
      MulBetween(Pow2(top), v, 2 * Pow2(top), Pow2(23 - top));
      DoubleProduct(Pow2(top), Pow2(23 - top));
    }
  }

  /** Top bit and significand of m 2^q. */
  lemma {:induction false} PartsOf(m: nat, q: nat)
    requires HIDDEN <= m < 2 * HIDDEN
    ensures Shl(m, q) > 0 && TopBit(Shl(m, q)) == 23 + q && Significand(Shl(m, q)) == m
  {
    hide TopBit;
    Pow2Values();
    hide Pow2;
    TopBitIs(m, 23);
    TopBitScale(m, q);
    if q > 0 {
      QuotientIs(m * Pow2(q), Pow2(q), m, 0);
    } else {
      ShlZero(m);
    }
  }

  lemma {:induction false} ShlZero(m: nat)
    ensures Shl(m, 0) == m
  {
  }

  lemma {:induction false} ShlNext(m: nat, q: nat)
    ensures Shl(2 * m, q) == Shl(m, q + 1)
  {
    Associate(m, 2, Pow2(q));
  }

  /** Top bit and significand of the rounded value, with the carry taken out. */
  lemma {:induction false} RoundedParts(v: nat)
    requires v > 0
    ensures var r, m := Rne24(v), Rounded(v);
            && (m < 2 * HIDDEN ==> TopBit(r) == TopBit(v) && Significand(r) == m)
            && (m == 2 * HIDDEN ==> TopBit(r) == TopBit(v) + 1 && Significand(r) == HIDDEN)
  {
    hide RoundShift, TopBit, Significand, Shl;
    var top, m := TopBit(v), Rounded(v);
    RoundedRange(v);
    if top > 23 {
      if m < 2 * HIDDEN {
        PartsOf(m, top - 23);
      } else {
        ShlNext(HIDDEN, top - 23);
        PartsOf(HIDDEN, top - 22);
      }
    } else {
      SmallSignificand(v);
    }
  }

  lemma {:induction false} SmallSignificand(v: nat)
    requires TopBit(v) <= 23
    ensures Rne24(v) == v && Significand(v) == Rounded(v)
  {
  }

  /** What PackCarry makes of the rounded significand is the rounded value. */
  lemma {:induction false} CarryIsRounding(s: int, v: nat, u: int)
    requires 0 <= s <= 1 && v > 0
    ensures PackCarry(s, TopBit(v) - 22 - u, Rounded(v)) == RoundedBits(s, v, u)
  {
    hide RoundShift, TopBit, Significand, Shl, Pack, Rounded, Rne24;
    RoundedParts(v);
    RoundedRange(v);
  }

  /** A finer unit changes nothing. */
  lemma {:induction false} RoundedScale(v: nat, k: nat)
    requires v > 0
    ensures Rounded(Shl(v, k)) == Rounded(v) && Shl(v, k) > 0 && TopBit(Shl(v, k)) == TopBit(v) + k
  {
    hide RoundShift;
    var top := TopBit(v);
    TopBitScale(v, k);
    if top > 23 {
      RoundShiftScale(v, top - 23, k);
    } else if top + k > 23 {
      Pow2Add(23 - top, top + k - 23);
      Associate(v, Pow2(23 - top), Pow2(top + k - 23));
      RoundShiftExact(Shl(v, 23 - top), top + k - 23);
    } else {
      Pow2Add(k, 23 - top - k);
      Associate(v, Pow2(k), Pow2(23 - top - k));
    }
  }

  lemma {:induction false} BitsScale(s: int, v: nat, k: nat, u: int)
    requires 0 <= s <= 1
    ensures RoundedBits(s, Shl(v, k), u) == RoundedBits(s, v, u - k)
  {
    hide Rounded, Pack, RoundedBits;
    if v == 0 {
      assert RoundedBits(s, 0, u) == RoundedBits(s, 0, u - k) by { ZeroBits(s, u); ZeroBits(s, u - k); }
    } else {
      RoundedScale(v, k);
      CarryIsRounding(s, v, u - k);
      CarryIsRounding(s, Shl(v, k), u);
    }
  }

  lemma {:induction false} ZeroBits(s: int, u: int)
    requires 0 <= s <= 1
    ensures RoundedBits(s, 0, u) == Zero(s)
  {
  }
}
