/** The bits of every result of finite operands, in numbers: sign, exponent and fraction below, in and above
    the normal range (llm/fp32.py, _pack). */
module FpBits {
  import opened Dyadic
  import opened Fp32
  import opened Rounding
  import opened FpExact
  import opened FpConvert

  /** What bits stand for (section 3.4 of IEEE 754-2019), subnormals read as zeros: the sign in bit 31, eight
      bits of exponent, 23 bits of fraction; in units of 2^-149. */
  lemma {:induction false} ValueOfBits(b: U32)
    ensures var e, f := b / 0x80_0000 % 256, b % 0x80_0000;
            && (Finite(b) <==> e < 255)
            && (Unpack(b).nan <==> e == 255 && f != 0)
            && (Finite(b) ==>
                 Value(b) == if e == 0 then 0
                             else if b < 0x8000_0000 then (0x80_0000 + f) * Pow2(e - 1)
                             else -((0x80_0000 + f) * Pow2(e - 1)))
  {
    hide Pow2;
    SignOfBits(b);
  }

  lemma {:induction false} SignOfBits(b: U32)
    ensures Unpack(b).s == if b < 0x8000_0000 then 0 else 1
  {
  }

  /** r < 2^k. */
  predicate Below(r: nat, k: int) {
    if k >= 0 then r < Pow2(k) else r == 0
  }

  lemma {:induction false} BelowIsTopBit(r: nat, k: int)
    requires r > 0
    ensures Below(r, k) <==> TopBit(r) < k
  {
    TopBitBounds(r);
    hide TopBit;
    if k >= 0 {
      Pow2Order(k, TopBit(r));
      Pow2Order(TopBit(r), k);
      hide Pow2;
    }
  }

  /** b is a normal number, r in units of 2^-(149 + u) with a sign. */
  predicate Holds(b: U32, negative: bool, r: nat, u: int) {
    var e, f := b / 0x80_0000 % 256, b % 0x80_0000;
    && (negative <==> b >= 0x8000_0000) && 1 <= e <= 254
    && Shl(Shl(0x80_0000 + f, e - 1), Pos(u)) == Shl(r, Pos(-u))
  }

  /** b is the result r, in units of 2^-(149 + u): a zero of its sign below 2^-126, an infinity of its sign
      from 2^128 on, and the number itself in between. */
  predicate IsResult(b: U32, negative: bool, r: nat, u: int) {
    var sign := if negative then 0x8000_0000 else 0;
    && (Below(r, 23 + u) ==> b == sign)
    && (!Below(r, 277 + u) ==> b == sign + 0x7F80_0000)
    && (!Below(r, 23 + u) && Below(r, 277 + u) ==> Holds(b, negative, r, u))
  }

  lemma {:induction false} BelowGrows(r: nat, k: int, j: int)
    requires k <= j && Below(r, k)
    ensures Below(r, j)
  {
    if k >= 0 { Pow2Order(k, j); }
  }

  lemma {:induction false} ZeroIsBelow(k: int)
    ensures Below(0, k)
  {
  }

  lemma {:induction false} PackBelow(s: int, e: int, m: nat)
    requires 0 <= s <= 1
    ensures e < 1 ==> Pack(s, e, m) == if s == 1 then 0x8000_0000 else 0
    ensures e > 254 ==> Pack(s, e, m) == if s == 1 then 0xFF80_0000 else 0x7F80_0000
  {
  }

  lemma {:induction false} HoldsIs(b: U32, s: int, r: nat, u: int)
    requires Finite(b) && Unpack(b).s == s && !Unpack(b).zero && Shl(Magnitude(b), Pos(u)) == Shl(r, Pos(-u))
    ensures Holds(b, s == 1, r, u)
  {
    hide Shl;
  }

  lemma {:induction false} RoundedIsPositive(v: nat)
    requires v > 0
    ensures Rne24(v) > 0
  {
    hide Rne24, Significand, TopBit, Pow2;
    SignificandRange(v);
    SignificandTimes(v);
    ZeroSignificand();
  }

  lemma {:induction false} ZeroSignificand()
    ensures TopBit(0) == 0 && Significand(0) == 0
  {
  }

  lemma {:induction false} RoundedBitsAre(s: int, v: nat, u: int)
    requires 0 <= s <= 1
    ensures IsResult(RoundedBits(s, v, u), s == 1, Rne24(v), u)
  {
    hide Pow2, TopBit, Significand, Shl, Unpack, Holds, Below, Pack;
    if v == 0 {
      hide RoundedBits;
      ZeroIsBelow(23 + u);
      ZeroIsBelow(277 + u);
      ZeroBits(s, u);
      RoundedZero();
    } else {
      hide Rne24;
      RoundedIsPositive(v);
      var r := Rne24(v);
      BelowIsTopBit(r, 23 + u);
      BelowIsTopBit(r, 277 + u);
      PackBelow(s, Exponent(r, u), Significand(r));
      if 1 <= Exponent(r, u) <= 254 {
        NormalResult(s, v, u);
        NotZero(s, v, u);
        HoldsIs(RoundedBits(s, v, u), s, r, u);
      }
    }
  }

  lemma {:induction false} RoundedZero()
    ensures Rne24(0) == 0
  {
  }

  lemma {:induction false} NotZero(s: int, v: nat, u: int)
    requires 0 <= s <= 1 && v > 0 && Normal(v, u)
    ensures !Unpack(RoundedBits(s, v, u)).zero
  {
    hide Pow2, TopBit, Significand, Shl, Rne24, Unpack, Pack;
    SignificandRange(v);
    FieldsOf(s, Exponent(Rne24(v), u), Significand(Rne24(v)));
  }

  // ---------------------------------------------------------------- the operations

  /** The sum: the exact one rounded to 24 bits, ties to even, and from that the bits. */
  lemma {:induction false} AddBits(a: U32, b: U32)
    requires Finite(a) && Finite(b)
    ensures var v := Value(a) + Value(b);
            if v == 0 then Add(a, b) == if a >= 0x8000_0000 && b >= 0x8000_0000 then 0x8000_0000 else 0
            else IsResult(Add(a, b), v < 0, Rne24(Abs(v)), 0)
  {
    hide Add, RoundedBits, IsResult, Value, Rne24;
    var v := Value(a) + Value(b);
    AddIsExactlyRounded(a, b);
    RoundedBitsAre(SignOf(v), Abs(v), 0);
  }

  lemma {:induction false} NegBits(b: U32)
    ensures Neg(b) >= 0x8000_0000 <==> b < 0x8000_0000
  {
  }

  lemma {:induction false} SubBits(a: U32, b: U32)
    requires Finite(a) && Finite(b)
    ensures var v := Value(a) - Value(b);
            if v == 0 then Sub(a, b) == if a >= 0x8000_0000 && b < 0x8000_0000 then 0x8000_0000 else 0
            else IsResult(Sub(a, b), v < 0, Rne24(Abs(v)), 0)
  {
    hide Add, IsResult, Value, Rne24, Neg;
    NegIsExact(b);
    NegBits(b);
    AddBits(a, Neg(b));
  }

  /** The product, in units of 2^-298. */
  lemma {:induction false} MulBits(a: U32, b: U32)
    requires Finite(a) && Finite(b)
    ensures IsResult(Mul(a, b), a >= 0x8000_0000 <==> b < 0x8000_0000, Rne24(Abs(Value(a) * Value(b))), 149)
  {
    hide Mul, RoundedBits, IsResult, Value, Rne24;
    MulIsExactlyRounded(a, b);
    RoundedBitsAre(if Unpack(a).s == Unpack(b).s then 0 else 1, Abs(Value(a) * Value(b)), 149);
  }

  /** a 2^n, in units of 2^(n - 149): 24 bits already. */
  lemma {:induction false} LdexpBits(a: U32, n: int)
    requires Finite(a)
    ensures IsResult(Ldexp(a, n), a >= 0x8000_0000, Abs(Value(a)), -n)
  {
    hide Ldexp, RoundedBits, IsResult, Rne24, Shl;
    LdexpIsExact(a, n);
    RoundedBitsAre(Unpack(a).s, Magnitude(a), -n);
    MagnitudeIsRounded(a);
  }

  lemma {:induction false} MagnitudeIsRounded(a: U32)
    requires Finite(a)
    ensures Rne24(Magnitude(a)) == Magnitude(a)
  {
    hide Rne24, RoundShift, TopBit, Shl;
    var x := Unpack(a);
    if x.zero {
      RoundedZero();
    } else {
      NormalIsRounded(x.mant, x.e - 1);
    }
  }

  /** A 24-bit number is what it rounds to. */
  lemma {:induction false} NormalIsRounded(m: nat, q: nat)
    requires HIDDEN <= m < 2 * HIDDEN
    ensures Rne24(Shl(m, q)) == Shl(m, q)
  {
    hide RoundShift, TopBit;
    PartsOf(m, q);
    RoundShiftExact(m, q);
  }

  /** NaN and infinite operands. */
  lemma {:induction false} SpecialBits(a: U32, b: U32)
    requires !Finite(a) || !Finite(b)
    ensures var nan := Unpack(a).nan || Unpack(b).nan;
            var opposite := a >= 0x8000_0000 <==> b < 0x8000_0000;
            && (Add(a, b) == if nan || (!Finite(a) && !Finite(b) && opposite) then 0x7FC0_0000
                             else if (if Finite(a) then b else a) >= 0x8000_0000 then 0xFF80_0000 else 0x7F80_0000)
            && (Mul(a, b) == if nan || (Finite(a) && Value(a) == 0) || (Finite(b) && Value(b) == 0) then 0x7FC0_0000
                             else if opposite then 0xFF80_0000 else 0x7F80_0000)
            && (forall n :: !Finite(a) ==> Ldexp(a, n) == if Unpack(a).nan then 0x7FC0_0000 else a)
  {
    hide Add, Mul, Shl;
    SpecialOperands(a, b);
    if Finite(a) && !Unpack(a).zero { ShlPositive(Unpack(a).mant, Unpack(a).e - 1); }
    if Finite(b) && !Unpack(b).zero { ShlPositive(Unpack(b).mant, Unpack(b).e - 1); }
  }
}
