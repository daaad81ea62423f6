/** Results in the normal range are nearest to the exact value, and the integer conversions. */
module FpConvert {
  import opened Dyadic
  import opened Fp32
  import opened Rounding
  import opened FpExact

  // ---------------------------------------------------------------- value of a rounded result

  predicate Normal(v: nat, u: int) {
    1 <= Exponent(Rne24(v), u) <= 254
  }

  function Pos(u: int): nat {
    if u > 0 then u else 0
  }

  lemma {:induction false} SignificandRange(v: nat)
    requires v > 0
    ensures HIDDEN <= Significand(Rne24(v)) < 2 * HIDDEN
  {
    hide Significand, Rounded, Rne24;
    RoundedParts(v);
    RoundedRange(v);
  }

  lemma {:induction false} FieldsOf(s: int, e: int, m: nat)
    requires 0 <= s <= 1 && 1 <= e <= 254 && HIDDEN <= m < 2 * HIDDEN
    ensures var x := Unpack(Pack(s, e, m)); x.s == s && x.e == e && x.mant == m && !x.zero && !x.nan && !x.inf
  {
    var b := Pack(s, e, m);
    QuotientIs(b, HIDDEN, s * 256 + e, m - HIDDEN);
    QuotientIs(s * 256 + e, 256, s, e);
    QuotientIs(b, SIGN, s, b - s * SIGN);
  }

  /** The significand and top bit of the rounded value give it back. */
  lemma {:induction false} SignificandTimes(v: nat)
    requires v > 0
    ensures var r := Rne24(v); var top := TopBit(r);
            && (top >= 23 ==> Shl(Significand(r), top - 23) == r)
            && (top < 23 ==> Significand(r) == Shl(r, 23 - top))
  {
    hide RoundShift, TopBit, Shl;
    var top := TopBit(v);
    RoundedRange(v);
    ShlZero(v);
    if top > 23 {
      var m := RoundShift(v, top - 23);
      if m < 2 * HIDDEN {
        PartsOf(m, top - 23);
      } else {
        ShlNext(HIDDEN, top - 23);
        PartsOf(HIDDEN, top - 22);
      }
    }
  }

  lemma {:induction false} ShlTwice(m: nat, j: nat, k: nat)
    ensures Shl(Shl(m, j), k) == Shl(m, j + k)
  {
    Pow2Add(j, k);
    Associate(m, Pow2(j), Pow2(k));
  }

  /** A result in the normal range has exactly the value nearest-even picks. */
  lemma {:induction false} NormalResult(s: int, v: nat, u: int)
    requires 0 <= s <= 1 && v > 0 && Normal(v, u)
    ensures var b := RoundedBits(s, v, u);
            && Finite(b) && Unpack(b).s == s
            && Shl(Magnitude(b), Pos(u)) == Shl(Rne24(v), Pos(-u))
  {
    hide RoundShift, TopBit, Shl, Significand, Rne24, Unpack, Pack;
    SignificandRange(v);
    SignificandTimes(v);
    var r := Rne24(v);
    var e, m, top := Exponent(r, u), Significand(r), TopBit(r);
    FieldsOf(s, e, m);
    ShlTwice(m, e - 1, Pos(u));
    if top >= 23 {
      ShlTwice(m, top - 23, Pos(-u));
    } else {
      ShlTwice(r, 23 - top, e - 1);
      ShlZero(Shl(m, e - 1));
    }
  }

  /** A finite sum whose rounded value is in the normal range is a nearest one, ties to even. */
  lemma {:induction false} AddIsNearest(a: U32, b: U32)
    requires Finite(a) && Finite(b)
    ensures var v := Value(a) + Value(b);
            v != 0 && Normal(Abs(v), 0) ==>
              && Finite(Add(a, b)) && Unpack(Add(a, b)).s == SignOf(v)
              && NearestEven(Abs(v), Abs(Value(Add(a, b))))
  {
    hide Add, RoundedBits, Normal, NearestEven, Rne24, Shl, Unpack;
    var v := Value(a) + Value(b);
    AddIsExactlyRounded(a, b);
    if v != 0 && Normal(Abs(v), 0) {
      NormalResult(SignOf(v), Abs(v), 0);
      ShlZero(Magnitude(Add(a, b)));
      ShlZero(Rne24(Abs(v)));
      RneIsNearestEven(Abs(v));
    }
  }

  /** A finite product whose rounded value is in the normal range is a nearest one, ties to even. */
  lemma {:induction false} MulIsNearest(a: U32, b: U32)
    requires Finite(a) && Finite(b)
    ensures var v := Abs(Value(a) * Value(b));
            v != 0 && Normal(v, 149) ==>
              Finite(Mul(a, b)) && NearestEven(v, Shl(Abs(Value(Mul(a, b))), 149))
  {
    hide Mul, RoundedBits, Normal, NearestEven, Rne24, Shl, Unpack;
    var v := Abs(Value(a) * Value(b));
    MulIsExactlyRounded(a, b);
    if v != 0 && Normal(v, 149) {
      NormalResult(if Unpack(a).s == Unpack(b).s then 0 else 1, v, 149);
      ShlZero(Rne24(v));
      RneIsNearestEven(v);
    }
  }

  // ---------------------------------------------------------------- integers to binary32

  predicate Int32(i: int) {
    -0x8000_0000 <= i < 0x8000_0000
  }

  lemma {:induction false} FromIntRounds(i: int)
    ensures FromInt(i) == RoundedBits(SignOf(i), Abs(i), -149)
  {
    hide RoundShift, TopBit, Shl, PackCarry, RoundedBits;
    if i != 0 { CarryIsRounding(SignOf(i), Abs(i), -149); } else { ZeroBits(0, -149); }
  }

  lemma {:induction false} IntIsNormal(v: nat)
    requires 0 < v <= 0x8000_0000
    ensures Normal(v, -149)
  {
    hide Rounded, Significand, Rne24;
    RoundedParts(v);
    RoundedRange(v);
    TopBitBounds(v);
    Pow2Values();
    Pow2Order(32, TopBit(v));
    assert Pow2(32) == 2 * Pow2(31);
  }

  /** An int32 becomes the binary32 number nearest to it, ties to even. */
  lemma {:induction false} FromIntIsNearest(i: int)
    requires Int32(i)
    ensures Finite(FromInt(i)) && NearestEven(Abs(i), Rne24(Abs(i)))
    ensures Value(FromInt(i)) == if i < 0 then -(Rne24(Abs(i)) * Pow2(149)) else Rne24(Abs(i)) * Pow2(149)
  {
    hide RoundedBits, Normal, NearestEven, Rne24, Pow2, Unpack;
    RneIsNearestEven(Abs(i));
    FromIntRounds(i);
    if i != 0 {
      IntIsNormal(Abs(i));
      NormalResult(SignOf(i), Abs(i), -149);
      ShlZero(Magnitude(FromInt(i)));
    } else {
      ZeroIsZero();
    }
  }

  lemma {:induction false} ZeroIsZero()
    ensures Finite(0) && Value(0) == 0 && FromInt(0) == 0 && Rne24(0) == 0
  {
  }

  // ---------------------------------------------------------------- binary32 to integers

  function Int(i: int): int {
    i * Pow2(149)
  }

  /** i is an integer nearest to the exact value V (in units of 2^-149), even on a tie. */
  ghost predicate NearestInt(V: int, i: int) {
    && (forall j :: Dist(V, Int(i)) <= Dist(V, Int(j)))
    && (forall j :: j != i && Dist(V, Int(j)) == Dist(V, Int(i)) ==> i % 2 == 0)
  }

  /** i is the largest integer at or below V. */
  predicate FloorInt(V: int, i: int) {
    Int(i) <= V < Int(i + 1)
  }

  /** Rounding at the integer position. */
  lemma {:induction false} RoundShiftIsNearest(v: nat)
    ensures NearestInt(v, RoundShift(v, 149))
  {
    var p, h := Pow2(149), Pow2(148);
    assert p == 2 * h;
    hide Pow2;
    var q, r := Divide(v, p);
    RoundForm(v, 149, q, r);
    var i := RoundShift(v, 149);
    forall j: int
      ensures Dist(v, Int(i)) <= Dist(v, Int(j))
      ensures j != i && Dist(v, Int(j)) == Dist(v, Int(i)) ==> i % 2 == 0
    {
      NearestStep(v, p, h, q, r, i, j);
    }
  }

  lemma {:induction false} Mirrored(V: int, j: int)
    ensures Dist(-V, Int(-j)) == Dist(V, Int(j))
  {
    hide Pow2;
    SumTimes(0, j, Pow2(149));
  }

  lemma {:induction false} NearestMirror(V: int, i: int)
    requires NearestInt(V, i)
    ensures NearestInt(-V, -i)
  {
    hide Int, Dist;
    Mirrored(V, i);
    forall j: int
      ensures Dist(-V, Int(-i)) <= Dist(-V, Int(j))
      ensures j != -i && Dist(-V, Int(j)) == Dist(-V, Int(-i)) ==> (-i) % 2 == 0
    {
      Mirrored(V, -j);
    }
  }

  lemma {:induction false} NearestStep(v: nat, p: int, h: int, q: nat, r: nat, i: nat, j: int)
    requires h > 0 && p == 2 * h && v == q * p + r && r < p
    requires i == if r > h || (r == h && q % 2 == 1) then q + 1 else q
    ensures Dist(v, i * p) <= Dist(v, j * p)
    ensures j != i && Dist(v, j * p) == Dist(v, i * p) ==> i % 2 == 0
  {
    SumTimes(q, 1, p);
    if j <= q { MulUp(j, q, p); } else { MulUp(q + 1, j, p); }
    if j < q { MulUp(j, q - 1, p); SumTimes(q, 1, p); }
    if j > q + 1 { MulUp(q + 2, j, p); SumTimes(q, 2, p); }
  }

  /** NearestInt picks one integer. */
  lemma {:induction false} NearestIntIsUnique(V: int, i: int, j: int)
    requires NearestInt(V, i) && NearestInt(V, j)
    ensures i >= j
  {
    if i < j {
      hide Pow2;
      assert Dist(V, Int(i)) == Dist(V, Int(j));
      var n := i + 1;
      assert Dist(V, Int(i)) <= Dist(V, Int(n));
      SumTimes(i, 1, Pow2(149));
      MulUp(i + 2, j, Pow2(149));
      SumTimes(i, 2, Pow2(149));
    }
  }

  /** The integer the code rounds to before it saturates. */
  function Nearest(V: int): int {
    var m: int := RoundShift(Abs(V), 149);
    if V < 0 then -m else m
  }

  lemma {:induction false} NearestIsNearest(V: int)
    ensures NearestInt(V, Nearest(V))
  {
    hide RoundShift, NearestInt;
    RoundShiftIsNearest(Abs(V));
    if V < 0 { NearestMirror(-V, Nearest(-V)); }
  }

  /** An operand of at least 2^23 is an integer, and one of 2^31 or more is outside int32. */
  lemma {:induction false} WideOperand(x: Unpacked)
    requires HIDDEN <= x.mant < 2 * HIDDEN && x.e >= 150
    ensures Shl(x.mant, x.e - 1) == Shl(x.mant, x.e - 150) * Pow2(149)
    ensures x.e >= 158 ==> Shl(x.mant, x.e - 150) >= 0x8000_0000
  {
    hide Pow2;
    ShlTwice(x.mant, x.e - 150, 149);
    if x.e >= 158 {
      Pow2Order(8, x.e - 150);
      Pow2Values();
      MulUp(HIDDEN, x.mant, Pow2(x.e - 150));
    }
  }

  /** Below 2^23 the part after the binary point is shifted out; a shift is capped at 62 places. */
  lemma {:induction false} NarrowOperand(x: Unpacked)
    requires HIDDEN <= x.mant < 2 * HIDDEN && 1 <= x.e < 150
    ensures var sh := if 150 - x.e < 62 then 150 - x.e else 62;
            RoundShift(x.mant, sh) == RoundShift(Shl(x.mant, x.e - 1), 149)
  {
    hide Pow2, RoundShift;
    RoundShiftScale(x.mant, 150 - x.e, x.e - 1);
    if 150 - x.e > 62 {
      ShiftedOut(x.mant, 62);
      ShiftedOut(x.mant, 150 - x.e);
    }
  }

  lemma {:induction false} ShiftedOut(m: nat, k: nat)
    requires 0 < m < 2 * HIDDEN && k >= 62
    ensures RoundShift(m, k) == 0 && m / Pow2(k) == 0 && m % Pow2(k) == m
  {
    hide Pow2;
    Pow2Values();
    Pow2Order(25, k);
    Pow2Order(25, k - 1);
    RoundForm(m, k, 0, m);
    QuotientIs(m, Pow2(k), 0, m);
  }

  predicate Int32Range(lo: int, hi: int) {
    -0x8000_0000 <= lo && hi < 0x8000_0000
  }

  /** Conversion in nearest-even mode is the nearest integer, saturated to [lo, hi]. */
  lemma {:induction false} ToIntIsNearest(a: U32, lo: int, hi: int)
    requires Finite(a) && Int32Range(lo, hi)
    ensures ToInt(a, lo, hi, Rne) == Clip(Nearest(Value(a)), lo, hi)
    ensures NearestInt(Value(a), Nearest(Value(a)))
  {
    hide Pow2, RoundShift, NearestInt, Shl;
    NearestIsNearest(Value(a));
    var x := Unpack(a);
    if x.zero {
      RoundShiftExact(0, 149);
    } else {
      ShlPositive(x.mant, x.e - 1);
      if x.e >= 150 {
        WideOperand(x);
        RoundShiftExact(Shl(x.mant, x.e - 150), 149);
      } else {
        NarrowOperand(x);
      }
    }
  }

  lemma {:induction false} FloorOf(v: int, q: int, p: int, r: int)
    requires p > 0 && v == q * p + r && 0 <= r < p
    ensures q * p <= v < (q + 1) * p
    ensures var i := if r == 0 then -q else -q - 1; i * p <= -v < (i + 1) * p
  {
    SumTimes(q, 1, p);
    SumTimes(0, q, p);
    SumTimes(0, q + 1, p);
    if r == 0 { SumTimes(-q, 1, p); }
  }

  lemma {:induction false} CappedShift(m: nat, k: nat, neg: bool)
    requires 0 < m < 2 * HIDDEN
    ensures Floored(m, if k < 62 then k else 62, neg) == Floored(m, k, neg)
  {
    hide Pow2;
    if k > 62 { ShiftedOut(m, 62); ShiftedOut(m, k); }
  }

  /** The floor of +-m 2^(e-150) from the quotient of m by 2^(150-e). */
  lemma {:induction false} FloorParts(x: Unpacked, neg: bool)
    requires HIDDEN <= x.mant < 2 * HIDDEN && 1 <= x.e < 150
    ensures var v: int := Shl(x.mant, x.e - 1);
            FloorInt(if neg then -v else v, Floored(x.mant, if 150 - x.e < 62 then 150 - x.e else 62, neg))
  {
    hide Pow2;
    var k := 150 - x.e;
    CappedShift(x.mant, k, neg);
    var q, r := Divide(x.mant, Pow2(k));
    Pow2Add(k, x.e - 1);
    var c := Pow2(x.e - 1);
    Distribute(q, Pow2(k), r, c);
    MulBetween(0, r, Pow2(k), c);
    if r > 0 { MulGap(r, c); }
    FloorOf(Shl(x.mant, x.e - 1), q, Pow2(149), r * c);
  }

  /** The integer the code floors to before it saturates. */
  function FloorOfOperand(x: Unpacked): int {
    var neg := x.s == 1;
    if x.zero then 0
    else if x.e >= 150 then (var m: int := Shl(x.mant, x.e - 150); if neg then -m else m)
    else if x.e >= 1 then Floored(x.mant, if 150 - x.e < 62 then 150 - x.e else 62, neg)
    else 0
  }

  lemma {:induction false} OperandFloor(a: U32)
    requires Finite(a)
    ensures FloorInt(Value(a), FloorOfOperand(Unpack(a)))
  {
    hide Pow2, Shl, Floored;
    var x := Unpack(a);
    if !x.zero {
      if x.e >= 150 {
        WideOperand(x);
        FloorOf(Shl(x.mant, x.e - 1), Shl(x.mant, x.e - 150), Pow2(149), 0);
      } else {
        FloorParts(x, x.s == 1);
      }
    }
  }

  /** Conversion in floor mode is the floor, saturated to [lo, hi]. */
  lemma {:induction false} ToIntIsFloor(a: U32, lo: int, hi: int) returns (i: int)
    requires Finite(a) && Int32Range(lo, hi)
    ensures FloorInt(Value(a), i) && ToInt(a, lo, hi, Floor) == Clip(i, lo, hi)
  {
    hide Pow2, Shl, Floored, FloorInt;
    var x := Unpack(a);
    OperandFloor(a);
    if !x.zero && x.e >= 150 { WideOperand(x); }
    i := FloorOfOperand(x);
  }

  /** Outside the finite operands: a NaN gives 0, an infinity saturates. */
  lemma {:induction false} ToIntSpecial(a: U32, lo: int, hi: int, mode: Mode)
    requires !Finite(a) && lo <= hi
    ensures ToInt(a, lo, hi, mode) == if Unpack(a).nan then 0 else if Unpack(a).s == 1 then lo else hi
  {
  }

  lemma {:induction false} SmallIntIsExact(v: nat)
    requires v <= 0x100_0000
    ensures Rne24(v) == v
  {
    Pow2Values();
    if v == 0x100_0000 {
      TopBitIs(v, 24);
      RoundShiftExact(HIDDEN, 1);
    } else if v > 0 {
      BigTop(v);
    }
  }

  /** Integers up to 2^24 in magnitude survive the round trip in both modes. */
  lemma {:induction false} RoundTrip(i: int, lo: int, hi: int, mode: Mode)
    requires -0x100_0000 <= i <= 0x100_0000 && Int32Range(lo, hi) && lo <= i <= hi
    ensures ToInt(FromInt(i), lo, hi, mode) == i
  {
    hide Pow2, RoundShift, Rne24, NearestInt, ToInt, FromInt, Finite, Value;
    FromIntIsNearest(i);
    SmallIntIsExact(Abs(i));
    var a, p := FromInt(i), Pow2(149);
    SumTimes(0, Abs(i), p);
    assert Value(a) == i * p;
    if mode == Rne {
      ToIntIsNearest(a, lo, hi);
      RoundShiftExact(Abs(i), 149);
      SumTimes(0, i, p);
      MulGap(i, p);
    } else {
      var k := ToIntIsFloor(a, lo, hi);
      if k < i { MulUp(k + 1, i, p); }
      if k > i { MulUp(i + 1, k, p); SumTimes(i, 1, p); }
    }
  }
}
