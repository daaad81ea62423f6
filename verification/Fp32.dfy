/** Bit-exact binary32 arithmetic of the vector engine (llm/fp32.py), one lane at a time. */
module Fp32 {
  import opened Dyadic

  const QNAN := 0x7FC0_0000
  const SIGN := 0x8000_0000
  const EXP_ONES := 0x7F80_0000
  const HIDDEN := 0x80_0000      // the significand's leading one, 2^23

  type U32 = b: int | 0 <= b < 0x1_0000_0000

  datatype Unpacked = Unpacked(s: int, e: int, mant: nat, nan: bool, inf: bool, zero: bool)

  /** Sign, biased exponent, 24-bit significand; a subnormal is a zero. */
  function Unpack(b: U32): (u: Unpacked)
    ensures 0 <= u.s <= 1 && 0 <= u.e <= 255
    ensures u.mant == 0 <==> u.zero
    ensures !u.zero ==> HIDDEN <= u.mant < 2 * HIDDEN
    ensures u.zero <==> u.e == 0
    ensures u.nan || u.inf <==> u.e == 255
    ensures !(u.nan && u.inf)
  {
    var s, e, m := b / SIGN, b / HIDDEN % 256, b % HIDDEN;
    Unpacked(s, e, if e == 0 then 0 else m + HIDDEN, e == 255 && m != 0, e == 255 && m == 0, e == 0)
  }

  function Inf(s: int): U32
    requires 0 <= s <= 1
  {
    s * SIGN + EXP_ONES
  }

  function Zero(s: int): U32
    requires 0 <= s <= 1
  {
    s * SIGN
  }

  /** Sign, unbounded biased exponent and significand to bits, flushed below the normal range and
      infinite above it. */
  function Pack(s: int, e: int, mant: nat): U32
    requires 0 <= s <= 1
  {
    if e > 254 then Inf(s)
    else if e < 1 then Zero(s)
    else s * SIGN + e * HIDDEN + mant % HIDDEN
  }

  /** A rounded significand of 2^24 carries into the exponent. */
  function PackCarry(s: int, e: int, mant: nat): U32
    requires 0 <= s <= 1
  {
    if mant >= 2 * HIDDEN then Pack(s, e + 1, mant / 2) else Pack(s, e, mant)
  }

  predicate SwapNeeded(x: Unpacked, y: Unpacked) {
    y.e > x.e || (y.e == x.e && y.mant > x.mant)
  }

  /** v << k. */
  function Shl(v: nat, k: nat): nat {
    v * Pow2(k)
  }

  /** The sum of two finite nonzero operands, x the larger in magnitude: three guard bits, the last
      one sticky. */
  function AddAligned(x: Unpacked, y: Unpacked): U32
    requires 0 <= x.s <= 1 && x.e >= y.e && x.mant >= HIDDEN && (x.e == y.e ==> x.mant >= y.mant)
    requires y.mant < 2 * HIDDEN
  {
    var d := if x.e - y.e < 60 then x.e - y.e else 60;
    var big, small := x.mant * 8, Jam(y.mant * 8, d);
    var sum := if x.s == y.s then big + small else big - small;
    if sum <= 0 then Zero(0)
    else
      var top := TopBit(sum);
      var e := x.e + (top - 26);
      var aligned := if top > 26 then Jam(sum, top - 26) else Shl(sum, 26 - top);
      PackCarry(x.s, e, RoundShift(aligned, 3))
  }

  function Add(a: U32, b: U32): U32 {
    var x, y := Unpack(a), Unpack(b);
    if x.nan || y.nan then QNAN
    else if x.inf && y.inf then (if x.s == y.s then a else QNAN)
    else if y.inf then Inf(y.s)
    else if x.inf then Inf(x.s)
    else if x.zero && y.zero then Zero(if x.s == 1 && y.s == 1 then 1 else 0)
    else if x.zero then Pack(y.s, y.e, y.mant)
    else if y.zero then Pack(x.s, x.e, x.mant)
    else if SwapNeeded(x, y) then AddAligned(y, x) else AddAligned(x, y)
  }

  function Neg(a: U32): U32 {
    if a >= SIGN then a - SIGN else a + SIGN
  }

  function Sub(a: U32, b: U32): U32 {
    Add(a, Neg(b))
  }

  function Mul(a: U32, b: U32): U32 {
    var x, y := Unpack(a), Unpack(b);
    var s := if x.s == y.s then 0 else 1;
    if x.nan || y.nan then QNAN
    else if x.inf || y.inf then (if x.zero || y.zero then QNAN else Inf(s))
    else if x.zero || y.zero then Zero(s)
    else
      var p := x.mant * y.mant;
      var hi := if p >= Pow2(47) then 1 else 0;
      PackCarry(s, x.e + y.e - 127 + hi, RoundShift(p, 23 + hi))
  }

  /** a * 2^n. */
  function Ldexp(a: U32, n: int): U32 {
    var x := Unpack(a);
    if x.nan then QNAN
    else if x.zero then Zero(x.s)
    else if x.inf then a
    else Pack(x.s, x.e + n, x.mant)
  }

  /** int32 to binary32. */
  function FromInt(i: int): U32 {
    var v := if i < 0 then -i else i;
    if v == 0 then 0
    else
      var top := TopBit(v);
      PackCarry(if i < 0 then 1 else 0, 127 + top,
                if top > 23 then RoundShift(v, top - 23) else Shl(v, 23 - top))
  }

  datatype Mode = Rne | Floor

  function Clip(v: int, lo: int, hi: int): int {
    if v < lo then (if lo < hi then lo else hi) else if v > hi then hi else v
  }

  /** Floor of m 2^-sh, or of its negative. */
  function Floored(m: nat, sh: nat, neg: bool): int {
    var q: int := m / Pow2(sh);
    if !neg then q else if q * Pow2(sh) == m then -q else -q - 1
  }

  /** binary32 to integer, rounded and saturated to [lo, hi]; a NaN gives 0. */
  function ToInt(a: U32, lo: int, hi: int, mode: Mode): int {
    var x := Unpack(a);
    var ex := x.e - 150;
    if x.nan then 0
    else if x.zero then Clip(0, lo, hi)
    else if ex >= 8 || x.inf then Clip(if x.s == 1 then lo else hi, lo, hi)
    else if ex >= 0 then
      var mag: int := Shl(x.mant, ex);
      Clip(if x.s == 1 then -mag else mag, lo, hi)
    else
      var sh := if -ex < 62 then -ex else 62;
      match mode
      case Rne =>
        var mag: int := RoundShift(x.mant, sh);
        Clip(if x.s == 1 then -mag else mag, lo, hi)
      case Floor =>
        Clip(Floored(x.mant, sh, x.s == 1), lo, hi)
  }
}
