/** The vector engine's multiplication is one rounded product (its * 1.0 + 0.0 stage rounds nothing
    further), and the chunk sizes the generator accepts fit the banks. */
module LinearScale {
  import opened Dyadic
  import opened Fp32
  import opened FpExact
  import opened FpConvert
  import opened LinearList
  import opened SimOps
  import opened LinearMeaning
  import opened LoopMachine
  import opened LinearLoop
  import opened LinearRun

  const UNIT: U32 := 0x3F80_0000    // 1.0

  /** A -0 becomes +0. */
  function Unsigned(f: U32): U32 {
    if f == SIGN then 0 else f
  }

  /** What an operation returns: the canonical NaN, an infinity, a zero or a normal number. */
  predicate Canonical(f: U32) {
    var x := Unpack(f);
    (x.nan ==> f == QNAN) && (x.inf ==> f == Inf(x.s)) && (x.zero ==> f == Zero(x.s))
  }

  lemma {:induction false} PackIsCanonical(s: int, e: int, m: nat)
    requires 0 <= s <= 1
    ensures Canonical(Pack(s, e, m))
  {
    var r := m % HIDDEN;
    if 1 <= e <= 254 { assert Unpack(Pack(s, e, m)).e == e; }
  }

  lemma {:induction false} CarryIsCanonical(s: int, e: int, m: nat)
    requires 0 <= s <= 1
    ensures Canonical(PackCarry(s, e, m))
  {
    hide Canonical, Pack;
    PackIsCanonical(s, e + 1, m / 2);
    PackIsCanonical(s, e, m);
  }

  lemma {:induction false} Specials(s: int)
    requires 0 <= s <= 1
    ensures Canonical(Zero(s)) && Canonical(Inf(s)) && Canonical(QNAN)
  {
  }

  lemma {:induction false} MulCases(a: U32, b: U32) returns (s: int, e: int, m: nat)
    ensures 0 <= s <= 1
    ensures Mul(a, b) == QNAN || Mul(a, b) == Inf(s) || Mul(a, b) == Zero(s) || Mul(a, b) == PackCarry(s, e, m)
  {
    hide RoundShift, Pow2, PackCarry, Unpack, Zero, Inf;
    var x, y := Unpack(a), Unpack(b);
    var p: nat := x.mant * y.mant;
    var hi := if p >= Pow2(47) then 1 else 0;
    s := if x.s == y.s then 0 else 1;
    e, m := x.e + y.e - 127 + hi, RoundShift(p, 23 + hi);
  }

  lemma {:induction false} MulIsCanonical(a: U32, b: U32)
    ensures Canonical(Mul(a, b))
  {
    hide *;
    var s, e, m := MulCases(a, b);
    Specials(s);
    CarryIsCanonical(s, e, m);
  }

  /** Packing the parts of a normal number gives it back. */
  lemma {:induction false} PackUnpacks(f: U32)
    requires Finite(f) && !Unpack(f).zero
    ensures var x := Unpack(f); Pack(x.s, x.e, x.mant) == f
  {
  }

  lemma {:induction false} TimesOne(f: U32)
    requires Canonical(f)
    ensures Mul(f, UNIT) == f
  {
    var x := Unpack(f);
    assert Unpack(UNIT) == Unpacked(0, 127, HIDDEN, false, false, false);
    if Finite(f) && !x.zero {
      Pow2Values();
      RoundShiftExact(x.mant, 23);
      Pow2Add(24, 23);
      MulUp(x.mant, 2 * HIDDEN, Pow2(23));
      PackUnpacks(f);
    }
  }

  lemma {:induction false} PlusZero(f: U32)
    requires Canonical(f)
    ensures Add(f, 0) == Unsigned(f)
  {
    var x := Unpack(f);
    assert Unpack(0) == Unpacked(0, 0, 0, false, false, true);
    if Finite(f) && !x.zero { PackUnpacks(f); }
  }

  /** The engine's a * b * 1.0 + 0.0 is the product rounded once, a -0 made +0. */
  lemma {:induction false} VeMulIsMul(a: U32, b: U32)
    ensures VeMul(a, b) == Unsigned(Mul(a, b))
  {
    MulIsCanonical(a, b);
    TimesOne(Mul(a, b));
    PlusZero(Mul(a, b));
  }

  /** A dot product as an output: converted, scaled by s_w, then by s_x, each step rounded once. */
  function Dequantized(dot: int, sw: U32, sx: U32): U32 {
    Unsigned(Mul(Unsigned(Mul(FromInt(dot), sw)), sx))
  }

  lemma {:induction false} OutputIs(c: Layer, m: Mem, X: Matrix, W: Matrix, b: nat, t: nat, x: nat)
    requires c.d > 0 && Packed(c, m.ddr, W) && Strip(c, m, X) && c.k <= 0x1_0000
    requires b < c.rows && t < Tiles(c) && x < c.d
    ensures Ref(c, m, b, t, x)
         == Dequantized(RowDot(X, W, b, t * c.d + x, c.k), Cell(m.ddr, SAddr(c, t) + 4 * x),
           Lane(m.acc, c.sx + b, x))
  {
    hide Packed, Strip, RefDot, RowDot, VeMul, Mul, FromInt, SAddr, Cell, Lane, Tiles, S32, Unsigned;
    PackedDot(c, m, X, W, b, t, x, c.k);
    SmallEntries(c, m, X, W, b, t, x);
    DotIsSmall(X, W, b, t * c.d + x, c.k);
    Int32IsExact(RefDot(c, m, b, t, x, c.k));
    var y := FromInt(RowDot(X, W, b, t * c.d + x, c.k));
    VeMulIsMul(y, Cell(m.ddr, SAddr(c, t) + 4 * x));
    VeMulIsMul(VeMul(y, Cell(m.ddr, SAddr(c, t) + 4 * x)), Lane(m.acc, c.sx + b, x));
  }

  predicate Int8(v: int) {
    -128 <= v <= 127
  }

  /** The first n elements of row b of X and of row o of W. */
  ghost predicate SmallRows(X: Matrix, W: Matrix, b: nat, o: nat, n: nat) {
    forall q: nat :: q < n ==> Int8(X(b, q)) && Int8(W(o, q))
  }

  lemma {:induction false} SmallEntries(c: Layer, m: Mem, X: Matrix, W: Matrix, b: nat, t: nat, x: nat)
    requires c.d > 0 && Packed(c, m.ddr, W) && Strip(c, m, X) && b < c.rows && t < Tiles(c) && x < c.d
    ensures SmallRows(X, W, b, t * c.d + x, c.k)
  {
    hide Tiles, Packed, Strip;
    var o := t * c.d + x;
    forall q: nat | q < c.k ensures Int8(X(b, q)) && Int8(W(o, q)) {
      PackedEntries(c, m, X, W, b, t, x, q);
    }
  }

  /** A dot product of int8 values grows by at most 2^14 a term. */
  lemma {:induction false} DotIsSmall(X: Matrix, W: Matrix, b: nat, o: nat, n: nat)
    requires SmallRows(X, W, b, o, n)
    ensures -0x4000 * n <= RowDot(X, W, b, o, n) <= 0x4000 * n
  {
    if n > 0 {
      DotIsSmall(X, W, b, o, n - 1);
      ProductIsSmall(X(b, n - 1), W(o, n - 1));
    }
  }

  lemma {:induction false} ProductIsSmall(a: int, b: int)
    requires -128 <= a <= 127 && -128 <= b <= 127
    ensures -0x4000 <= a * b <= 0x4000
  {
    if a >= 0 && b >= 0 { MulUp(a, 128, b); }
    else if a >= 0 { MulUp(a, 128, -b); }
    else if b >= 0 { MulUp(-a, 128, b); }
    else { MulUp(-a, 128, -b); }
  }

  /** Tiles per chunk that linear accepts (compile_layer.py:122-126) leave room in a bank and its
      scratch. */
  lemma {:induction false} AcceptedSizesFit(c: Layer)
    requires c.k > 0 && c.nc <= c.sb / c.k && c.nc <= c.cb / 4 / (c.d + 1 + c.rows)
    ensures WordsOf(c) <= c.sb && Scratch(c) <= c.cb / 4
  {
    MulUp(c.nc, c.sb / c.k, c.k);
    MulUp(c.nc, c.cb / 4 / (c.d + 1 + c.rows), c.d + 1 + c.rows);
    SumTimes(c.d + 1, c.rows, c.nc);
    SumTimes(c.d, 1, c.nc);
  }

  // ---------------------------------------------------------------- the layer

  /** Output t D + x of row b in memory r is the dequantized dot product of row b of X with that row of W. */
  predicate OutputRight(c: Layer, m0: Mem, r: Mem, X: Matrix, W: Matrix, b: nat, t: nat, x: nat)
    requires c.d > 0
  {
    OutAt(c, r, b, t, x)
    == Dequantized(RowDot(X, W, b, t * c.d + x, c.k), Cell(m0.ddr, SAddr(c, t) + 4 * x), Lane(m0.acc, c.sx + b, x))
  }

  /** Local addresses are 16-bit words, so no dot product leaves int32. */
  lemma {:induction false} InputsFit(c: Layer, m: Mem)
    requires Fits(c, m) && |m.spadB| <= 0x1_0000
    ensures c.d > 0 && c.k <= 0x1_0000
  {
    MulUp(1, c.nc, c.k);
  }

  /** The unrolled list leaves every output exact up to the three roundings of its dequantization. */
  lemma {:induction false} UnrolledIsExact(c: Layer, m0: Mem, X: Matrix, W: Matrix, params: Params, b: nat, t: nat,
                                           x: nat)
    requires Accepted(c) && Fits(c, m0) && |m0.spadB| <= 0x1_0000 && Packed(c, m0.ddr, W) && Strip(c, m0, X)
    requires b < c.rows && t < Tiles(c) && x < c.d
    requires c.preloaded ==> HasWeights(c, m0, m0, Bank(c, 0), 0)
    ensures AllCommands(Unrolled(c))
    ensures OutputRight(c, m0, PerformAll(m0, c.d, Effects(Unrolled(c), params)), X, W, b, t, x)
  {
    InputsFit(c, m0);
    UnrolledComputes(c, m0, params, b, t, x);
    OutputIs(c, m0, X, W, b, t, x);
  }

  /** So does the looped list, run by the interpreter. */
  lemma {:induction false} LoopedIsExact(c: Layer, m0: Mem, X: Matrix, W: Matrix, params: Params, b: nat, t: nat,
                                         x: nat)
    returns (n: nat)
    requires Accepted(c) && InOrder(c) && c.out.ToDdr? && Pairs(c) < COUNT
    requires c.pW != c.pF && c.pW < |params| && c.pF < |params|
    requires Fits(c, m0) && |m0.spadB| <= 0x1_0000 && Packed(c, m0.ddr, W) && Strip(c, m0, X)
    requires b < c.rows && t < Tiles(c) && x < c.d
    requires c.preloaded ==> HasWeights(c, m0, m0, Bank(c, 0), 0)
    ensures c.d > 0
    ensures var s := Steps(Looped(c), State(0, params, [], []), n);
            && s.Some? && s.value.pc == |Looped(c)|
            && OutputRight(c, m0, PerformAll(m0, c.d, s.value.trace), X, W, b, t, x)
  {
    InputsFit(c, m0);
    n := LoopedComputes(c, m0, params, b, t, x);
    OutputIs(c, m0, X, W, b, t, x);
  }
}
