/** Powers of two, shifts with rounding, and sticky shifts on unbounded integers. */
module Dyadic {

  function Pow2(n: nat): (p: int)
    ensures p > 0
  {
    if n == 0 then 1 else 2 * Pow2(n - 1)
  }

  lemma {:induction false} Pow2Add(a: nat, b: nat)
    ensures Pow2(a + b) == Pow2(a) * Pow2(b)
  {
    if a > 0 {
      Pow2Add(a - 1, b);
      DoubleProduct(Pow2(a - 1), Pow2(b));
    }
  }

  lemma {:induction false} Pow2Order(a: nat, b: nat)
    ensures a <= b ==> Pow2(a) <= Pow2(b)
    ensures a < b ==> 2 * Pow2(a) <= Pow2(b)
    decreases b
  {
    if a < b { Pow2Order(a, b - 1); }
  }

  lemma {:induction false} Pow2Values()
    ensures Pow2(1) == 2 && Pow2(2) == 4 && Pow2(3) == 8 && Pow2(4) == 16
    ensures Pow2(7) == 128 && Pow2(8) == 256
    ensures Pow2(22) == 0x40_0000 && Pow2(23) == 0x80_0000 && Pow2(24) == 0x100_0000 && Pow2(25) == 0x200_0000
    ensures Pow2(26) == 0x400_0000 && Pow2(27) == 0x800_0000 && Pow2(28) == 0x1000_0000 && Pow2(31) == 0x8000_0000
  {
    assert Pow2(4) == 16;
    assert Pow2(8) == 256;
    Pow2Add(8, 8);
    Pow2Add(16, 6);
    Pow2Add(6, 2);
    assert Pow2(6) == 64 && Pow2(16) == 0x1_0000;
    assert Pow2(22) == 0x40_0000;
    assert Pow2(23) == 2 * Pow2(22) && Pow2(24) == 2 * Pow2(23) && Pow2(25) == 2 * Pow2(24);
    assert Pow2(26) == 2 * Pow2(25) && Pow2(27) == 2 * Pow2(26) && Pow2(28) == 2 * Pow2(27);
    Pow2Add(28, 3);
  }

  // ---------------------------------------------------------------- division by a power of two

  lemma {:induction false} MulGap(k: int, p: int)
    requires p > 0
    ensures k >= 1 ==> k * p >= p
    ensures k <= -1 ==> k * p <= -p
  {
  }

  /** v / p and v % p are the only quotient and remainder. */
  lemma {:induction false} QuotientIs(v: int, p: int, q: int, r: int)
    requires p > 0 && v == q * p + r && 0 <= r < p
    ensures v / p == q && v % p == r
  {
    var q', r' := v / p, v % p;
    assert v == q' * p + r';
    assert (q' - q) * p == r - r';
    MulGap(q' - q, p);
  }

  lemma {:induction false} Divide(v: nat, p: int) returns (q: nat, r: nat)
    requires p > 0
    ensures v == q * p + r && r < p && q == v / p && r == v % p
  {
    q, r := v / p, v % p;
  }

  lemma {:induction false} MulAtLeast(k: int, p: int)
    requires k >= 1 && p > 0
    ensures k * p >= p
  {
  }

  lemma {:induction false} Associate(a: int, b: int, c: int)
    ensures a * (b * c) == (a * b) * c
  {
  }

  lemma {:induction false} MulUp(a: int, b: int, p: int)
    requires a <= b && p >= 0
    ensures a * p <= b * p
  {
    assert (b - a) * p >= 0;
    SumTimes(b, a, p);
  }

  lemma {:induction false} QuotientBetween(n: int, p: int, a: int, r: int, lo: int, hi: int)
    requires p > 0 && n == a * p + r && 0 <= r < p && lo * p <= n < hi * p
    ensures lo <= a < hi
  {
    if a < lo { MulUp(a + 1, lo, p); SumTimes(a, 1, p); }
    if a >= hi { MulUp(hi, a, p); }
  }

  // ---------------------------------------------------------------- the top bit

  /** Position of the top set bit of v (0 for v = 0, as the code clips v to 1). */
  function TopBit(v: nat): nat {
    if v <= 1 then 0 else 1 + TopBit(v / 2)
  }

  lemma {:induction false} TopBitBounds(v: nat)
    requires v > 0
    ensures Pow2(TopBit(v)) <= v < 2 * Pow2(TopBit(v))
  {
    if v > 1 { TopBitBounds(v / 2); }
  }

  lemma {:induction false} TopBitIs(v: nat, t: nat)
    requires Pow2(t) <= v < 2 * Pow2(t)
    ensures TopBit(v) == t
  {
    TopBitBounds(v);
    Pow2Order(t, TopBit(v));
    Pow2Order(TopBit(v), t);
  }

  lemma {:induction false} DoubleProduct(a: int, b: int)
    ensures (2 * a) * b == 2 * (a * b)
  {
  }

  lemma {:induction false} TopBitScale(v: nat, k: nat)
    requires v > 0
    ensures v * Pow2(k) > 0 && TopBit(v * Pow2(k)) == TopBit(v) + k
  {
    TopBitBounds(v);
    var t := TopBit(v);
    Pow2Add(t, k);
    MulBetween(Pow2(t), v, 2 * Pow2(t), Pow2(k));
    DoubleProduct(Pow2(t), Pow2(k));
    TopBitIs(v * Pow2(k), t + k);
  }

  lemma {:induction false} MulBetween(a: int, v: int, b: int, p: int)
    requires a <= v < b && p > 0
    ensures a * p <= v * p < b * p
  {
    MulAtLeast(b - v, p);
    assert (b - v) * p == b * p - v * p;
    assert (v - a) * p >= 0;
    assert (v - a) * p == v * p - a * p;
  }

  // ---------------------------------------------------------------- rounding shift

  /** v >> sh rounded to nearest, ties to even. */
  function RoundShift(v: nat, sh: nat): nat {
    var q, rem, half := v / Pow2(sh), v % Pow2(sh), if sh > 0 then Pow2(sh - 1) else 0;
    if sh > 0 && (rem > half || (rem == half && q % 2 == 1)) then q + 1 else q
  }

  lemma {:induction false} RoundForm(v: nat, sh: nat, q: nat, rem: nat)
    requires v == q * Pow2(sh) + rem && rem < Pow2(sh)
    ensures sh == 0 ==> RoundShift(v, sh) == q
    ensures sh > 0 ==>
              RoundShift(v, sh) == if rem > Pow2(sh - 1) || (rem == Pow2(sh - 1) && q % 2 == 1) then q + 1 else q
  {
    QuotientIs(v, Pow2(sh), q, rem);
  }

  lemma {:induction false} RoundShiftZero(v: nat)
    ensures RoundShift(v, 0) == v
  {
  }

  /** Shifting a multiple rounds nothing away. */
  lemma {:induction false} RoundShiftExact(v: nat, sh: nat)
    ensures v * Pow2(sh) >= 0 && RoundShift(v * Pow2(sh), sh) == v
  {
    QuotientIs(v * Pow2(sh), Pow2(sh), v, 0);
  }

  /** The same value in a finer unit rounds alike. */
  lemma {:induction false} RoundShiftScale(v: nat, sh: nat, k: nat)
    ensures v * Pow2(k) >= 0 && RoundShift(v * Pow2(k), sh + k) == RoundShift(v, sh)
  {
    hide RoundShift;
    var p, c := Pow2(sh), Pow2(k);
    var q, r := Divide(v, p);
    Pow2Add(sh, k);
    Distribute(q, p, r, c);
    MulBetween(0, r, p, c);
    RoundForm(v, sh, q, r);
    RoundForm(v * c, sh + k, q, r * c);
    if sh > 0 {
      Pow2Add(sh - 1, k);
      CompareScaled(r, Pow2(sh - 1), c);
    }
  }

  lemma {:induction false} Distribute(q: int, p: int, r: int, c: int)
    ensures (q * p + r) * c == q * (p * c) + r * c
  {
  }

  lemma {:induction false} CompareScaled(a: int, b: int, c: int)
    requires c > 0
    ensures a * c > b * c <==> a > b
    ensures a * c == b * c <==> a == b
  {
    if a > b { MulBetween(b, b, a, c); }
    if a < b { MulBetween(a, a, b, c); }
  }

  // ---------------------------------------------------------------- sticky shift

  /** v >> sh with every lost bit folded into the last one. */
  function Jam(v: nat, sh: nat): nat {
    var q := v / Pow2(sh);
    if v % Pow2(sh) != 0 && q % 2 == 0 then q + 1 else q
  }

  lemma {:induction false} JamForm(v: nat, d: nat, a: nat, r: nat)
    requires v == a * Pow2(d) + r && r < Pow2(d)
    ensures Jam(v, d) == if r != 0 && a % 2 == 0 then a + 1 else a
  {
    QuotientIs(v, Pow2(d), a, r);
  }

  /** Two bits below the rounding position are enough for the sticky bit to decide as the lost
      bits would. */
  lemma {:induction false} JamRounds(v: nat, d: nat, k: nat)
    requires k >= 2
    ensures RoundShift(Jam(v, d), k) == RoundShift(v, d + k)
  {
    hide RoundShift, Jam;
    var p, c, h := Pow2(d), Pow2(k), Pow2(k - 1);
    assert c == 2 * h && h == 2 * Pow2(k - 2);
    hide Pow2;
    var a, r := Divide(v, p);
    var q, e := Divide(a, c);
    var f := if r != 0 && e % 2 == 0 then e + 1 else e;
    JamForm(v, d, a, r);
    JamSplit(a, c, h, q, e, r != 0);
    RoundForm(Jam(v, d), k, q, f);
    Pow2Add(d, k);
    Pow2Add(d, k - 1);
    Commute(p, c);
    Commute(p, h);
    Regroup(v, a, p, r, q, c, e);
    RemainderFits(e, c, p, r);
    RoundForm(v, d + k, q, e * p + r);
    HalfDecides(e, h, p, r);
  }

  lemma {:induction false} Commute(a: int, b: int)
    ensures a * b == b * a
  {
  }

  lemma {:induction false} Regroup(v: int, a: int, p: int, r: int, q: int, c: int, e: int)
    requires v == a * p + r && a == q * c + e
    ensures v == q * (p * c) + (e * p + r)
  {
    assert (q * c + e) * p == q * (p * c) + e * p;
  }

  lemma {:induction false} RemainderFits(e: int, c: int, p: int, r: int)
    requires 0 <= e < c && 0 <= r < p
    ensures 0 <= e * p + r < p * c
  {
    assert (c - e) * p >= p by { MulAtLeast(c - e, p); }
    assert (c - e) * p == c * p - e * p;
    assert e * p >= 0;
  }

  lemma {:induction false} JamSplit(a: nat, c: int, h: int, q: int, e: int, lost: bool)
    requires c == 2 * h && h > 0 && a == q * c + e && 0 <= e < c
    ensures var f := if lost && e % 2 == 0 then e + 1 else e;
            (if lost && a % 2 == 0 then a + 1 else a) == q * c + f && f < c
  {
    assert q * c == 2 * (q * h) by { DoubleProduct(h, q); Commute(q, c); Commute(h, q); }
  }

  /** With lost bits the remainder is above or below the half, never at it. */
  lemma {:induction false} HalfDecides(e: int, h: int, p: int, r: int)
    requires p > 0 && 0 <= r < p && e >= 0 && h % 2 == 0
    ensures var f := if r != 0 && e % 2 == 0 then e + 1 else e;
            && (e * p + r > h * p <==> f > h)
            && (e * p + r == h * p <==> f == h)
  {
    if e > h {
      assert (e - h) * p >= p by { MulAtLeast(e - h, p); }
      assert (e - h) * p == e * p - h * p;
    }
    if e < h {
      assert (h - e) * p >= p by { MulAtLeast(h - e, p); }
      assert (h - e) * p == h * p - e * p;
    }
  }

  lemma {:induction false} JamZero(v: nat)
    ensures Jam(v, 0) == v
  {
  }

  /** Jamming twice is jamming once by the sum. */
  lemma {:induction false} JamAgain(v: nat, d: nat)
    ensures Jam(v, d + 1) == Jam(Jam(v, d), 1)
  {
    hide Jam;
    var p := Pow2(d);
    assert Pow2(d + 1) == 2 * p && Pow2(1) == 2;
    hide Pow2;
    var a, r := Divide(v, p);
    var q, e := Divide(a, 2);
    var f := if r != 0 && e % 2 == 0 then e + 1 else e;
    JamForm(v, d, a, r);
    JamSplit(a, 2, 1, q, e, r != 0);
    JamForm(Jam(v, d), 1, q, f);
    Regroup(v, a, p, r, q, 2, e);
    RemainderFits(e, 2, p, r);
    Commute(p, 2);
    JamForm(v, d + 1, q, e * p + r);
    assert e == 0 || e == 1;
  }

  lemma {:induction false} SumTimes(a: int, b: int, p: int)
    ensures (a + b) * p == a * p + b * p && (a - b) * p == a * p - b * p
  {
  }

  lemma {:induction false} Parity(x: int, a: int)
    requires x % 2 == 0
    ensures (x + a) % 2 == a % 2 && (x - a) % 2 == a % 2 && (x - a - 1) % 2 == 1 - a % 2
  {
  }

  /** An even number of units added to or taken from a jammed value is jammed with it. */
  lemma {:induction false} JamShifted(x: nat, y: nat, d: nat)
    requires x % 2 == 0
    ensures x * Pow2(d) >= 0 && Jam(x * Pow2(d) + y, d) == x + Jam(y, d)
  {
    hide Jam, Pow2;
    var p := Pow2(d);
    var a, r := Divide(y, p);
    SumTimes(x, a, p);
    MulBetween(0, x, x + 1, p);
    JamForm(y, d, a, r);
    Parity(x, a);
    JamForm(x * p + y, d, x + a, r);
  }

  lemma {:induction false} JamTaken(x: nat, y: nat, d: nat)
    requires x % 2 == 0 && y <= x * Pow2(d)
    ensures Jam(x * Pow2(d) - y, d) == x - Jam(y, d)
  {
    hide Jam, Pow2;
    var p := Pow2(d);
    var a, r := Divide(y, p);
    SumTimes(x, a, p);
    SumTimes(x - a, 1, p);
    MulGap(x - a, p);
    Parity(x, a);
    JamForm(y, d, a, r);
    if r == 0 {
      JamForm(x * p - y, d, x - a, 0);
    } else {
      MulGap(x - a - 1, p);
      JamForm(x * p - y, d, x - a - 1, p - r);
    }
  }

  /** Past the last bit every shift leaves only the sticky bit. */
  lemma {:induction false} JamAllLost(v: nat, d: nat)
    requires 0 < v < Pow2(d)
    ensures Jam(v, d) == 1
  {
    JamForm(v, d, 0, v);
  }

  lemma {:induction false} Sandwich(a: int, v: int, t: int, p: int, r: int)
    requires p > 0 && t <= a < 2 * t && v == a * p + r && 0 <= r < p
    ensures t * p <= v < 2 * (t * p)
  {
    SumTimes(a, t, p);
    SumTimes(2 * t, a + 1, p);
    SumTimes(a, 1, p);
    DoubleProduct(t, p);
    MulBetween(t, a, a + 1, p);
    MulBetween(a + 1, 2 * t, 2 * t + 1, p);
  }

  lemma {:induction false} TopBitOfOdd(a: nat)
    requires a > 0 && a % 2 == 0
    ensures TopBit(a + 1) == TopBit(a)
  {
    assert (a + 1) / 2 == a / 2;
  }

  lemma {:induction false} JamTop(v: nat, d: nat, a: nat, r: nat)
    requires v == a * Pow2(d) + r && r < Pow2(d) && a > 0
    ensures Jam(v, d) > 0 && TopBit(Jam(v, d)) == TopBit(a)
    ensures v > 0 && TopBit(v) == TopBit(a) + d
  {
    hide Jam, Pow2, TopBit;
    JamForm(v, d, a, r);
    if a % 2 == 0 { TopBitOfOdd(a); }
    TopBitBounds(a);
    Sandwich(a, v, Pow2(TopBit(a)), Pow2(d), r);
    Pow2Add(TopBit(a), d);
    TopBitIs(v, TopBit(a) + d);
  }

  // ---------------------------------------------------------------- multiples of eight

  lemma {:induction false} Eights(x: int, y: int)
    requires x % 8 == 0
    ensures (x * y) % 8 == 0 && (y * x) % 8 == 0
  {
    Associate(8, x / 8, y);
    QuotientIs(x * y, 8, x / 8 * y, 0);
  }

  lemma {:induction false} EightsSum(x: nat, y: nat)
    requires x % 8 == 0 && y % 8 == 0
    ensures (x + y) % 8 == 0
  {
  }
}
