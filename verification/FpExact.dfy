/** The vector engine's addition, multiplication and conversions are the exact rational results
    rounded to nearest even. */
module FpExact {
  import opened Dyadic
  import opened Fp32
  import opened Rounding

  predicate Finite(b: U32) {
    var x := Unpack(b);
    !x.nan && !x.inf
  }

  /** Magnitude of a finite operand in units of 2^-149, after flush to zero. */
  function Magnitude(b: U32): nat {
    var x := Unpack(b);
    if x.zero then 0 else Shl(x.mant, x.e - 1)
  }

  /** Exact value of a finite operand in units of 2^-149. */
  function Value(b: U32): int
    requires Finite(b)
  {
    var m: int := Magnitude(b);
    if Unpack(b).s == 1 then -m else m
  }

  function SignOf(v: int): int {
    if v < 0 then 1 else 0
  }

  function Abs(v: int): nat {
    if v < 0 then -v else v
  }

  // ---------------------------------------------------------------- addition

  /** The shift is capped at 60 places, and a shift past the last bit leaves the sticky bit alone. */
  lemma {:induction false} CapLosesNothing(v: nat, d: nat)
    requires v < Pow2(28)
    ensures Jam(v, if d < 60 then d else 60) == Jam(v, d)
  {
    hide Jam, Pow2;
    if d > 60 {
      Pow2Order(28, 60);
      Pow2Order(60, d);
      if v > 0 {
        JamAllLost(v, 60);
        JamAllLost(v, d);
      } else {
        JamForm(0, 60, 0, 0);
        JamForm(0, d, 0, 0);
      }
    }
  }

  /** Three guard bits, the last one sticky, round as all the bits would: n is the exact sum, a and
      r its part above and below the kept bits, and only a sum without lost bits may need a long
      left shift. */
  lemma {:induction false} GuardBitsDecide(n: nat, d: nat, a: nat, r: nat)
    requires n == a * Pow2(d) + r && r < Pow2(d) && a > 0
    requires TopBit(a) <= 27 && (TopBit(a) < 25 ==> r == 0)
    ensures var sum := Jam(n, d); var top := TopBit(sum);
            && sum > 0 && n > 0 && TopBit(n) == top + d && top == TopBit(a)
            && RoundShift(if top > 26 then Jam(sum, top - 26) else Shl(sum, 26 - top), 3) == Rounded(n)
  {
    hide Jam, RoundShift, TopBit, Pow2;
    JamTop(n, d, a, r);
    var sum := Jam(n, d);
    var top := TopBit(a);
    if top == 27 {
      JamAgain(n, d);
      JamRounds(n, d + 1, 3);
    } else if top == 26 {
      ShlZero(sum);
      JamRounds(n, d, 3);
    } else if top == 25 {
      RoundShiftScale(sum, 2, 1);
      JamRounds(n, d, 2);
    } else {
      JamForm(n, d, a, 0);
      RoundedScale(a, d);
      ShortSum(a, top);
    }
  }

  lemma {:induction false} ShortSum(a: nat, top: nat)
    requires a > 0 && top == TopBit(a) && top <= 24
    ensures RoundShift(Shl(a, 26 - top), 3) == Rounded(a)
  {
    hide RoundShift, TopBit, Pow2;
    if top == 24 {
      RoundShiftScale(a, 1, 2);
    } else {
      Pow2Add(23 - top, 3);
      Associate(a, Pow2(23 - top), Pow2(3));
      RoundShiftExact(Shl(a, 23 - top), 3);
    }
  }

  /** Exact sum or difference of the aligned significands, in units an eighth of y's last place. */
  function Aligned(mx: nat, my: nat, d: nat, same: bool): int {
    if same then Shl(8 * mx, d) + 8 * my else Shl(8 * mx, d) - 8 * my
  }

  lemma {:induction false} SumIsJammed(mx: nat, my: nat, d: nat, same: bool)
    requires my < 2 * HIDDEN && Aligned(mx, my, d, same) >= 0
    ensures var small := Jam(my * 8, if d < 60 then d else 60);
            Jam(Aligned(mx, my, d, same), d) == if same then mx * 8 + small else mx * 8 - small
  {
    hide Jam, Pow2;
    CapLosesNothing(8 * my, d) by { Pow2Values(); }
    if same {
      JamShifted(8 * mx, 8 * my, d);
    } else {
      JamTaken(8 * mx, 8 * my, d);
    }
  }

  /** The kept part of a nonzero aligned sum: at most 28 bits, and 26 or 27 when bits are lost. */
  lemma {:induction false} KeptPart(mx: nat, my: nat, d: nat, same: bool) returns (a: nat, r: nat)
    requires HIDDEN <= mx < 2 * HIDDEN && HIDDEN <= my < 2 * HIDDEN && (d == 0 ==> mx >= my)
    ensures var n := Aligned(mx, my, d, same);
            && n >= 0 && n == a * Pow2(d) + r && r < Pow2(d) && (n > 0 ==> a > 0)
            && (a > 0 ==> TopBit(a) <= 27 && (TopBit(a) < 25 ==> r == 0))
  {
    hide TopBit;
    var n, p := Aligned(mx, my, d, same), Pow2(d);
    AlignedBounds(mx, my, d, same);
    a, r := Divide(n, p);
    if d >= 4 {
      Pow2Order(4, d);
      Pow2Values();
      hide Pow2;
      assert n < 0x1000_0000 * p && n >= 0x200_0000 * p;
      QuotientBetween(n, p, a, r, 0x200_0000, 0x1000_0000);
      TopBetween(a);
    } else {
      Pow2Values();
      assert Pow2(0) == 1;
      SmallShift(mx, my, d, same, n, a, r);
    }
  }

  lemma {:induction false} AlignedBounds(mx: nat, my: nat, d: nat, same: bool)
    requires HIDDEN <= mx < 2 * HIDDEN && HIDDEN <= my < 2 * HIDDEN && (d == 0 ==> mx >= my)
    ensures var n, p := Aligned(mx, my, d, same), Pow2(d);
            0 <= n < 0x1000_0000 * p && (d >= 4 ==> n >= 0x200_0000 * p)
  {
    var p := Pow2(d);
    Pow2Order(0, d);
    Pow2Order(1, d);
    Pow2Order(4, d);
    Pow2Values();
    hide Pow2;
    var w := mx * p;
    Associate(8, mx, p);
    MulUp(HIDDEN, mx, p);
    MulUp(mx, 2 * HIDDEN - 1, p);
    assert HIDDEN * p <= w <= 2 * HIDDEN * p - p;
    assert d == 0 ==> w == mx;
  }

  lemma {:induction false} TopBetween(a: nat)
    requires 0 < a < 0x1000_0000
    ensures TopBit(a) <= 27 && (a >= 0x200_0000 ==> TopBit(a) >= 25)
  {
    TopBitBounds(a);
    Pow2Values();
    Pow2Order(28, TopBit(a));
    Pow2Order(TopBit(a), 25);
  }

  /** Shifts of up to three places lose nothing. */
  lemma {:induction false} SmallShift(mx: nat, my: nat, d: nat, same: bool, n: nat, a: nat, r: nat)
    requires d < 4 && n == Aligned(mx, my, d, same) && n == a * Pow2(d) + r && r < Pow2(d)
    requires n < 0x1000_0000 * Pow2(d)
    ensures r == 0 && (n > 0 ==> a > 0) && (a > 0 ==> TopBit(a) <= 27)
  {
    hide TopBit, Pow2;
    var p, c := Pow2(d), Pow2(3 - d);
    Pow2Add(d, 3 - d);
    Pow2Values();
    assert p * c == 8;
    var w := if same then 8 * mx + c * my else 8 * mx - c * my;
    SumTimes(8 * mx, c * my, p);
    Commute(c * my, p);
    Associate(p, c, my);
    QuotientIs(n, p, w, 0);
    QuotientIs(n, p, a, r);
    QuotientBetween(n, p, a, r, 0, 0x1000_0000);
    if a > 0 { TopBetween(a); }
  }

  /** AddAligned rounds the exact sum of the magnitudes, and an exact cancellation gives +0. */
  lemma {:induction false} AlignedSumIsExact(x: Unpacked, y: Unpacked)
    requires 0 <= x.s <= 1 && 0 <= y.s <= 1 && 1 <= y.e <= x.e
    requires HIDDEN <= x.mant < 2 * HIDDEN && HIDDEN <= y.mant < 2 * HIDDEN && (x.e == y.e ==> x.mant >= y.mant)
    ensures var big, small := Shl(x.mant, x.e - 1), Shl(y.mant, y.e - 1);
            big >= small &&
            AddAligned(x, y) == if x.s == y.s then RoundedBits(x.s, big + small, 0)
                                else if big == small then Zero(0) else RoundedBits(x.s, big - small, 0)
  {
    hide Jam, RoundShift, TopBit, Pow2, Rounded, RoundedBits, Aligned, PackCarry;
    var d, same := x.e - y.e, x.s == y.s;
    var a, r := KeptPart(x.mant, y.mant, d, same);
    var n: nat := Aligned(x.mant, y.mant, d, same);
    SumIsJammed(x.mant, y.mant, d, same);
    EighthsOf(x.mant, y.mant, d, same, y.e);
    AlignedBounds(x.mant, y.mant, d, false);
    EighthsOf(x.mant, y.mant, d, false, y.e);
    hide Shl;
    if n == 0 {
      JamForm(0, d, 0, 0);
    } else {
      GuardBitsDecide(n, d, a, r);
      CarryIsRounding(x.s, n, 4 - y.e);
      UnitsAgree(x.s, x.mant, y.mant, d, same, y.e);
    }
  }

  /** Exact sum or difference of the two magnitudes, in units of 2^-149. */
  function Exact(mx: nat, my: nat, d: nat, same: bool, ey: int): int
    requires ey >= 1
  {
    var big, small := Shl(mx, d + ey - 1), Shl(my, ey - 1);
    if same then big + small else big - small
  }

  lemma {:induction false} ScaleEighths(mx: int, my: int, p: int, q: int, same: bool)
    ensures (if same then (8 * mx) * p + 8 * my else (8 * mx) * p - 8 * my) * q
         == 8 * (if same then mx * (p * q) + my * q else mx * (p * q) - my * q)
  {
    Associate(mx, p, q);
    Associate(8, mx, p);
    Associate(8, mx * p, q);
    Associate(8, my, q);
    SumTimes(8 * (mx * p), 8 * my, q);
  }

  /** n eighths of y's last place are the exact sum of the two magnitudes. */
  lemma {:induction false} EighthsOf(mx: nat, my: nat, d: nat, same: bool, ey: int)
    requires ey >= 1 && Aligned(mx, my, d, same) >= 0
    ensures var n, v := Aligned(mx, my, d, same), Exact(mx, my, d, same, ey);
            n * Pow2(ey - 1) == 8 * v && v >= 0 && (n == 0 <==> v == 0)
  {
    hide Pow2;
    var p, q := Pow2(d), Pow2(ey - 1);
    Pow2Add(d, ey - 1);
    ScaleEighths(mx, my, p, q, same);
    var n := Aligned(mx, my, d, same);
    if n > 0 { MulGap(n, q); }
  }

  lemma {:induction false} UnitsAgree(s: int, mx: nat, my: nat, d: nat, same: bool, ey: int)
    requires 0 <= s <= 1 && ey >= 1 && Aligned(mx, my, d, same) >= 0
    ensures var n, v := Aligned(mx, my, d, same), Exact(mx, my, d, same, ey);
            v >= 0 && RoundedBits(s, n, 4 - ey) == RoundedBits(s, v, 0)
  {
    hide RoundedBits, Aligned, Exact;
    EighthsOf(mx, my, d, same, ey);
    Pow2Values();
    hide Pow2;
    var n, v: nat := Aligned(mx, my, d, same), Exact(mx, my, d, same, ey);
    BitsScale(s, n, ey - 1, 3);
    BitsScale(s, v, 3, 3);
    assert Shl(v, 3) == Shl(n, ey - 1);
  }

  /** A 24-bit significand scaled by 2^n packs unrounded, flushed or overflowed by its exponent. */
  lemma {:induction false} NormalBits(s: int, e: int, m: nat, n: int)
    requires 0 <= s <= 1 && 1 <= e && HIDDEN <= m < 2 * HIDDEN
    ensures Pack(s, e + n, m) == RoundedBits(s, Shl(m, e - 1), -n)
  {
    hide RoundedBits, Pack;
    Pow2Values();
    hide Pow2, TopBit;
    TopBitIs(m, 23);
    CarryIsRounding(s, m, 1 - e - n);
    ShlZero(m);
    BitsScale(s, m, e - 1, -n);
  }

  lemma {:induction false} ShlPositive(m: nat, k: nat)
    requires m > 0
    ensures Shl(m, k) > 0
  {
    MulGap(m, Pow2(k));
  }

  /** The sum of two finite operands is the exact sum, rounded to nearest even at 24 bits, then
      flushed or overflowed; a zero sum is +0 unless both operands are -0. */
  lemma {:induction false} AddIsExactlyRounded(a: U32, b: U32)
    requires Finite(a) && Finite(b)
    ensures var v := Value(a) + Value(b);
            Add(a, b) == if v == 0 then (if Unpack(a).s == 1 && Unpack(b).s == 1 then Zero(1) else Zero(0))
                         else RoundedBits(SignOf(v), Abs(v), 0)
  {
    hide AddAligned, RoundedBits, Pack, Shl;
    var x, y := Unpack(a), Unpack(b);
    if !x.zero { ShlPositive(x.mant, x.e - 1); NormalBits(x.s, x.e, x.mant, 0); }
    if !y.zero { ShlPositive(y.mant, y.e - 1); NormalBits(y.s, y.e, y.mant, 0); }
    if !x.zero && !y.zero {
      if SwapNeeded(x, y) { AlignedSumIsExact(y, x); } else { AlignedSumIsExact(x, y); }
    }
  }

  // ---------------------------------------------------------------- multiplication

  lemma {:induction false} ProductBounds(mx: nat, my: nat)
    requires HIDDEN <= mx < 2 * HIDDEN && HIDDEN <= my < 2 * HIDDEN
    ensures Pow2(46) <= mx * my < 4 * Pow2(46) && Pow2(47) == 2 * Pow2(46)
  {
    Pow2Values();
    Pow2Add(23, 23);
    assert Pow2(47) == 2 * Pow2(46);
    hide Pow2;
    MulUp(HIDDEN, mx, my);
    MulUp(mx, 2 * HIDDEN - 1, my);
  }

  lemma {:induction false} RoundedProduct(s: int, mx: nat, my: nat, e: int)
    requires 0 <= s <= 1 && HIDDEN <= mx < 2 * HIDDEN && HIDDEN <= my < 2 * HIDDEN
    ensures mx * my > 0
    ensures var hi := if mx * my >= Pow2(47) then 1 else 0;
            PackCarry(s, e - 127 + hi, RoundShift(mx * my, 23 + hi)) == RoundedBits(s, mx * my, 151 - e)
  {
    hide Pow2, TopBit, RoundShift, PackCarry, RoundedBits;
    ProductBounds(mx, my);
    var p: nat := mx * my;
    var hi := if p >= Pow2(47) then 1 else 0;
    TopBitIs(p, 46 + hi);
    CarryIsRounding(s, p, 151 - e);
  }

  lemma {:induction false} ProductUnits(mx: nat, my: nat, j: nat, k: nat)
    ensures mx * my >= 0 && Shl(mx, j) * Shl(my, k) == Shl(mx * my, j + k)
  {
    hide Pow2;
    Pow2Add(j, k);
    Rearrange(mx, Pow2(j), my, Pow2(k));
  }

  lemma {:induction false} Rearrange(a: int, p: int, b: int, q: int)
    ensures (a * p) * (b * q) == (a * b) * (p * q)
  {
    Associate(a * p, b, q);
    assert (a * p) * b == (a * b) * p;
    Associate(a * b, p, q);
  }

  /** The product of two finite operands is the exact product, rounded to nearest even at 24 bits,
      then flushed or overflowed; its sign is always the product of the signs. */
  lemma {:induction false} MulIsExactlyRounded(a: U32, b: U32)
    requires Finite(a) && Finite(b)
    ensures Mul(a, b) == RoundedBits(if Unpack(a).s == Unpack(b).s then 0 else 1, Abs(Value(a) * Value(b)), 149)
  {
    hide Pow2, RoundShift, PackCarry, RoundedBits, Shl;
    var x, y := Unpack(a), Unpack(b);
    var s := if x.s == y.s then 0 else 1;
    ZeroBits(s, 149);
    AbsOfProduct(Value(a), Value(b));
    if !x.zero && !y.zero {
      RoundedProduct(s, x.mant, y.mant, x.e + y.e);
      ProductUnits(x.mant, y.mant, x.e - 1, y.e - 1);
      BitsScale(s, x.mant * y.mant, x.e + y.e - 2, 149);
    }
  }

  lemma {:induction false} AbsOfProduct(v: int, w: int)
    ensures Abs(v * w) == Abs(v) * Abs(w)
  {
    if v >= 0 { MulUp(0, v, Abs(w)); } else { MulUp(0, -v, Abs(w)); }
  }

  /** Scaling by 2^n is exact up to flush and overflow. */
  lemma {:induction false} LdexpIsExact(a: U32, n: int)
    requires Finite(a)
    ensures Ldexp(a, n) == RoundedBits(Unpack(a).s, Magnitude(a), -n)
  {
    hide RoundedBits, Pack, Shl;
    var x := Unpack(a);
    if x.zero {
      ZeroBits(x.s, -n);
    } else {
      NormalBits(x.s, x.e, x.mant, n);
    }
  }

  // ---------------------------------------------------------------- infinities and NaN

  /** Outside the finite operands: a NaN, inf - inf or 0 * inf gives the canonical NaN, and an
      infinity otherwise wins. */
  lemma {:induction false} SpecialOperands(a: U32, b: U32)
    requires !Finite(a) || !Finite(b)
    ensures var x, y := Unpack(a), Unpack(b);
            && (Add(a, b) == if x.nan || y.nan || (x.inf && y.inf && x.s != y.s) then QNAN
                             else Inf(if x.inf then x.s else y.s))
            && (Mul(a, b) == if x.nan || y.nan || x.zero || y.zero then QNAN
                             else Inf(if x.s == y.s then 0 else 1))
  {
  }

  lemma {:induction false} AddCommutes(a: U32, b: U32)
    ensures Add(a, b) == Add(b, a)
  {
    hide Add, RoundedBits, Value;
    if Finite(a) && Finite(b) {
      AddIsExactlyRounded(a, b);
      AddIsExactlyRounded(b, a);
    } else {
      SpecialOperands(a, b);
      SpecialOperands(b, a);
    }
  }

  lemma {:induction false} NegFlipsSign(a: U32)
    ensures Unpack(Neg(a)) == Unpack(a).(s := 1 - Unpack(a).s)
  {
    var q, r := a / HIDDEN, a % HIDDEN;
    var k := if a >= SIGN then -256 else 256;
    QuotientIs(Neg(a), HIDDEN, q + k, r);
    assert (q + k) % 256 == q % 256;
  }

  lemma {:induction false} NegIsExact(a: U32)
    ensures Finite(Neg(a)) <==> Finite(a)
    ensures Finite(a) ==> Value(Neg(a)) == -Value(a)
  {
    hide Unpack, Neg, Shl;
    NegFlipsSign(a);
    var x := Unpack(a);
    assert x.s == 0 || x.s == 1;
  }

  /** Subtraction of finite operands: the rounded exact difference, and x - x is +0. */
  lemma {:induction false} SubIsExactlyRounded(a: U32, b: U32)
    requires Finite(a) && Finite(b)
    ensures var v := Value(a) - Value(b);
            && (v != 0 ==> Sub(a, b) == RoundedBits(SignOf(v), Abs(v), 0))
            && Sub(a, a) == Zero(0)
  {
    hide Add, RoundedBits, Value;
    NegIsExact(a);
    NegIsExact(b);
    AddIsExactlyRounded(a, Neg(b));
    AddIsExactlyRounded(a, Neg(a));
  }
}
