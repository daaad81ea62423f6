/** The whole matrix product list: after every strip its rows of C are in DDR. */
module GemmRun {
  import opened Options
  import opened Dyadic
  import opened MatrixMachine
  import opened GemmList
  import opened MatrixSteps
  import opened GemmMeaning

  // ---------------------------------------------------------------- the products of a strip

  /** The products an EX sums are those of the row and the column. */
  lemma {:induction false} DotIs(g: Gemm, m0: Mem, m: Mem, s: nat, r: nat, t: nat, x: nat, n: nat)
    requires g.d > 0 && HasStrip(g, m0, m, s) && HasB(g, m0, m) && r < g.d && t < g.nt && x < g.d && n <= g.K()
    ensures Dot(m, g.d, ABank(g, s), r, BWord(g, t), x, n) == RowSum(g, m0, Pair(s, g.d, r), Pair(t, g.d, x), n)
  {
    hide BWord, ABank, AEl, BEl;
    if n > 0 {
      var q := n - 1;
      DotIs(g, m0, m, s, r, t, x, q);
      assert StripAt(m.a, g.d, ABank(g, s), r, q) == AEl(g, m0, Pair(s, g.d, r), q);
      assert BAt(g, m, t, q, x) == BEl(g, m0, q, Pair(t, g.d, x));
    }
  }

  /** EX of nb tiles from tile t0 on, whose weights are at word b. */
  function Part(g: Gemm, s: nat, b: nat, t0: nat, nb: nat): Cmd {
    Ex(ABank(g, s), b, CBank(g, s) + t0, g.kt, g.bias.Some?, nb, g.K(), 1, g.nt)
  }

  /** What a product needs: the strip, its bias, B. */
  ghost predicate Loaded(g: Gemm, m0: Mem, m: Mem, s: nat)
    requires g.d > 0
  {
    HasStrip(g, m0, m, s) && HasBias(g, m0, m, s) && HasB(g, m0, m)
  }

  lemma {:induction false} ProductIs(g: Gemm, m0: Mem, m: Mem, m': Mem, s: nat, op: Cmd, t0: nat, r: nat, t: nat,
                                     x: nat)
    requires g.d > 0 && Loaded(g, m0, m, s) && r < g.d && t0 <= t < g.nt && x < g.d
    requires op.Ex? && op.c == CBank(g, s) + t0 && op.a == ABank(g, s) && op.kt == g.kt && op.adds == g.bias.Some?
             && op.crow == g.nt
    requires op.b + (t - t0) * op.bstep == BWord(g, t)
    requires m'.a == m.a && m'.b == m.b && CAt(g, m', s, r, t, x) == CAt(g, m, s, r, t, x)
    ensures Product(m', g.d, op, r, t - t0, x) == Expected(g, m0, Pair(s, g.d, r), Pair(t, g.d, x))
  {
    hide Dot, BWord, ABank, CBank, RowSum, Pair, HasStrip, HasB, AEl, BEl, BiasEl;
    DotIs(g, m0, m, s, r, t, x, g.K());
    DotSame(m, m', g.d, op.a, r, BWord(g, t), x, g.K());
    PairIs(r, g.nt, t);
    PairIs(r, g.nt, t - t0);
    assert CWord(op, r, t - t0) == CBank(g, s) + Pair(r, g.nt, t);
    assert g.bias.Some? ==> CAt(g, m, s, r, t, x) == BiasEl(g, m0, Pair(s, g.d, r), Pair(t, g.d, x));
    assert g.bias.None? ==> BiasEl(g, m0, Pair(s, g.d, r), Pair(t, g.d, x)) == 0
      by { NoBias(g, m0, Pair(s, g.d, r), Pair(t, g.d, x)); }
  }

  lemma {:induction false} NoBias(g: Gemm, m: Mem, i: int, j: int)
    ensures g.bias.None? ==> BiasEl(g, m, i, j) == 0
  {
  }

  lemma {:induction false} DotSame(m: Mem, m': Mem, d: nat, a: int, i: int, b: int, x: int, n: nat)
    requires d > 0 && m'.a == m.a && m'.b == m.b
    ensures Dot(m', d, a, i, b, x, n) == Dot(m, d, a, i, b, x, n)
  {
    if n > 0 { DotSame(m, m', d, a, i, b, x, n - 1); }
  }

  /** One EX: its tiles are right, the tiles before t0 are as before. */
  lemma {:induction false} PartDone(g: Gemm, m0: Mem, m: Mem, m': Mem, s: nat, b: nat, t0: nat, nb: nat, r: nat,
                                    t: nat, x: nat)
    requires g.d > 0 && Loaded(g, m0, m, s) && r < g.d && t < g.nt && x < g.d && t0 + nb <= g.nt
    requires t0 <= t < t0 + nb ==> b + (t - t0) * g.K() == BWord(g, t)
    requires m'.a == m.a && m'.b == m.b && (t >= t0 ==> CAt(g, m', s, r, t, x) == CAt(g, m, s, r, t, x))
    ensures var after := Perform(m', g.d, Part(g, s, b, t0, nb));
            && after == m'.(acc := after.acc)
            && CAt(g, after, s, r, t, x) == if t0 <= t < t0 + nb then Expected(g, m0, Pair(s, g.d, r), Pair(t, g.d, x))
                                            else CAt(g, m', s, r, t, x)
  {
    var op := Part(g, s, b, t0, nb);
    PairIs(r, g.nt, t);
    if t0 <= t {
      PairIs(r, g.nt, t - t0);
      TilesDone(m', g.d, op, nb, r, t - t0, x);
      if t < t0 + nb { ProductIs(g, m0, m, m', s, op, t0, r, t, x); }
    } else {
      forall i: nat, u: nat | i < g.d && u < nb ensures CBank(g, s) + Pair(r, g.nt, t) != CWord(op, i, u) {
        PairsDiffer(r, t, i, t0 + u, g.nt);
        PairIs(i, g.nt, u);
        PairIs(i, g.nt, t0 + u);
      }
      TilesKeep(m', g.d, op, nb, CBank(g, s) + Pair(r, g.nt, t), x);
    }
    hide ExTiles, Pair, Expected, Loaded, BWord, CBank, Product;
  }

  function AfterCompute(g: Gemm, m: Mem, s: nat): Mem
    requires g.d > 0
  {
    Run(m, g.d, Compute(g, s))
  }

  lemma {:induction false} ComputeIs(g: Gemm, m: Mem, s: nat)
    requires g.d > 0
    ensures AfterCompute(g, m, s)
         == if g.IsSplit() then Perform(Perform(m, g.d, Part(g, s, 0, 0, g.Nt0())), g.d,
           Part(g, s, g.sbank, g.Nt0(), g.Nt1()))
            else Perform(m, g.d, Part(g, s, 0, 0, g.nt))
  {
    hide Perform;
    var first := Part(g, s, 0, 0, if g.IsSplit() then g.Nt0() else g.nt);
    assert Run(m, g.d, []) == m;
    RunNext(m, g.d, [], first);
    assert [] + [first] == [first];
    if g.IsSplit() {
      var second := Part(g, s, g.sbank, g.Nt0(), g.Nt1());
      RunNext(m, g.d, [first], second);
      assert [first] + [second] == Compute(g, s);
    }
  }

  /** The products of a strip. */
  lemma {:induction false} StripComputed(g: Gemm, m0: Mem, m: Mem, s: nat)
    requires g.d > 0 && Loaded(g, m0, m, s)
    ensures var r := AfterCompute(g, m, s); r == m.(acc := r.acc) && HasC(g, m0, r, s)
  {
    ComputeIs(g, m, s);
    var after := AfterCompute(g, m, s);
    hide AfterCompute, Perform, Loaded, Pair, Part;
    PartOnlyAcc(g, m, s, 0, 0, g.nt);
    PartOnlyAcc(g, m, s, 0, 0, g.Nt0());
    PartOnlyAcc(g, Perform(m, g.d, Part(g, s, 0, 0, g.Nt0())), s, g.sbank, g.Nt0(), g.Nt1());
    forall r: nat, t: nat, x: nat | r < g.d && t < g.nt && x < g.d
      ensures CAt(g, after, s, r, t, x) == Expected(g, m0, Pair(s, g.d, r), Pair(t, g.d, x))
    {
      if g.IsSplit() {
        BothParts(g, m0, m, s, r, t, x);
      } else {
        PartDone(g, m0, m, m, s, 0, 0, g.nt, r, t, x);
      }
    }
  }

  lemma {:induction false} PartOnlyAcc(g: Gemm, m: Mem, s: nat, b: nat, t0: nat, nb: nat)
    requires g.d > 0
    ensures var r := Perform(m, g.d, Part(g, s, b, t0, nb)); r == m.(acc := r.acc)
  {
    hide ExTiles;
  }

  lemma {:induction false} BothParts(g: Gemm, m0: Mem, m: Mem, s: nat, r: nat, t: nat, x: nat)
    requires g.d > 0 && Loaded(g, m0, m, s) && g.IsSplit() && r < g.d && t < g.nt && x < g.d
    ensures CAt(g, Perform(Perform(m, g.d, Part(g, s, 0, 0, g.Nt0())), g.d, Part(g, s, g.sbank, g.Nt0(), g.Nt1())), s,
            r, t, x)
         == Expected(g, m0, Pair(s, g.d, r), Pair(t, g.d, x))
  {
    var n0, n1 := g.Nt0(), g.Nt1();
    assert n0 + n1 == g.nt;
    assert t < n0 ==> BWord(g, t) == t * g.K();
    assert t >= n0 ==> BWord(g, t) == g.sbank + (t - n0) * g.K();
    PartOnlyAcc(g, m, s, 0, 0, n0);
    hide Perform, Loaded, Pair, Part, BWord, CAt, Expected, Gemm.Nt0, Gemm.Nt1, Gemm.IsSplit;
    PartDone(g, m0, m, m, s, 0, 0, n0, r, t, x);
    PartDone(g, m0, m, Perform(m, g.d, Part(g, s, 0, 0, n0)), s, g.sbank, n0, n1, r, t, x);
  }

  // ---------------------------------------------------------------- the store of a strip

  /** Byte o of row r of a strip's C. */
  function CByte(g: Gemm, s: nat, r: int, o: int): int {
    Store(g, s).ddr + Pair(r, 4 * g.N(), o)
  }

  lemma {:induction false} OffsetParts(d: nat, t: nat, x: nat, j: nat)
    requires d > 0 && x < d && j < 4
    ensures var o := 4 * Pair(t, d, x) + j; o / (4 * d) == t && o % (4 * d) / 4 == x && o % 4 == j
  {
    var o := 4 * Pair(t, d, x) + j;
    assert o == t * (4 * d) + (4 * x + j) by { Associate(4, t, d); Associate(t, 4, d); }
    QuotientIs(o, 4 * d, t, 4 * x + j);
  }

  lemma {:induction false} ByteStored(g: Gemm, m: Mem, s: nat, r: nat, t: nat, x: nat, j: nat)
    requires Fits(g) && r < g.d && t < g.nt && x < g.d && j < 4
    ensures Perform(m, g.d, Store(g, s)).ddr(CByte(g, s, r, 4 * Pair(t, g.d, x) + j))
            == ByteOf(CAt(g, m, s, r, t, x), j)
  {
    var op, o := Store(g, s), 4 * Pair(t, g.d, x) + j;
    ColumnOfTile(g, t, x);
    WordsOfRow(g);
    OffsetParts(g.d, t, x, j);
    RowsStored(m, g.d, op, g.d, r, o);
    PairIs(r, g.nt, t);
    hide StRows, ByteOf, Pair, Fits;
  }

  /** The store writes inside the rows of its own strip. */
  lemma {:induction false} StoreElsewhere(g: Gemm, m: Mem, s: nat, a: int)
    requires Fits(g) && (a < Store(g, s).ddr || a >= Store(g, s).ddr + g.d * (4 * g.N()))
    ensures Perform(m, g.d, Store(g, s)).ddr(a) == m.ddr(a)
  {
    StoreKeeps(m, g.d, Store(g, s), g.d, a);
  }

  lemma {:induction false} ElementAddress(g: Gemm, s: nat, r: nat, j: int, k: int)
    ensures g.c + 4 * Pair(Pair(s, g.d, r), g.N(), j) + k == CByte(g, s, r, 4 * j + k)
  {
    Regroup4(s, g.d, g.N(), r, j);
  }

  function ElementAt(g: Gemm, s: nat, r: nat, t: nat, x: nat): int {
    g.c + 4 * Pair(Pair(s, g.d, r), g.N(), Pair(t, g.d, x))
  }

  lemma {:induction false} ElementByte(g: Gemm, m: Mem, s: nat, r: nat, t: nat, x: nat, j: nat)
    requires Fits(g) && r < g.d && t < g.nt && x < g.d && j < 4
    ensures Perform(m, g.d, Store(g, s)).ddr(ElementAt(g, s, r, t, x) + j) == ByteOf(CAt(g, m, s, r, t, x), j)
  {
    ByteStored(g, m, s, r, t, x, j);
    ElementAddress(g, s, r, Pair(t, g.d, x), j);
    hide Perform, Pair, CByte, CAt, ByteOf, Store;
  }

  /** Elements of the strip stored. */
  lemma {:induction false} ElementStored(g: Gemm, m: Mem, s: nat, r: nat, t: nat, x: nat)
    requires Fits(g) && r < g.d && t < g.nt && x < g.d && 0 <= CAt(g, m, s, r, t, x) < M32
    ensures CEl(g, Perform(m, g.d, Store(g, s)), Pair(s, g.d, r), Pair(t, g.d, x)) == CAt(g, m, s, r, t, x)
  {
    hide Perform, Pair, CAt, Fits, ByteOf, Word32, Store;
    ElementByte(g, m, s, r, t, x, 0);
    ElementByte(g, m, s, r, t, x, 1);
    ElementByte(g, m, s, r, t, x, 2);
    ElementByte(g, m, s, r, t, x, 3);
    BytesOfWord(Perform(m, g.d, Store(g, s)).ddr, ElementAt(g, s, r, t, x), CAt(g, m, s, r, t, x));
  }

  lemma {:induction false} ElementIs(g: Gemm, m: Mem, i: int, j: int)
    ensures CEl(g, m, i, j) == Word32(m.ddr, g.c + 4 * Pair(i, g.N(), j))
  {
  }

  /** Elements of earlier strips. */
  lemma {:induction false} ElementKept(g: Gemm, m: Mem, s: nat, h: nat, r: nat, j: nat)
    requires Fits(g) && h < s && r < g.d && j < g.N()
    ensures CEl(g, Perform(m, g.d, Store(g, s)), Pair(h, g.d, r), j) == CEl(g, m, Pair(h, g.d, r), j)
  {
    hide *;
    var a := g.c + 4 * Pair(Pair(h, g.d, r), g.N(), j);
    RowBefore(g, s, h, r, j);
    Sizes(g);
    ElementIs(g, m, Pair(h, g.d, r), j);
    ElementIs(g, Perform(m, g.d, Store(g, s)), Pair(h, g.d, r), j);
    StoreElsewhere(g, m, s, a);
    StoreElsewhere(g, m, s, a + 1);
    StoreElsewhere(g, m, s, a + 2);
    StoreElsewhere(g, m, s, a + 3);
    SameWord(Perform(m, g.d, Store(g, s)).ddr, m.ddr, a);
  }

  lemma {:induction false} RowBefore(g: Gemm, s: nat, h: nat, r: nat, j: nat)
    requires h < s && r < g.d && j < g.N()
    ensures g.c + 4 * Pair(Pair(h, g.d, r), g.N(), j) + 4 <= Store(g, s).ddr
  {
    PairBelow(h, g.d, r, s);
    FourTimes(Pair(h, g.d, r), g.N(), j, s * g.d);
  }

  lemma {:induction false} StoreInC(g: Gemm, s: nat)
    requires s < g.mt
    ensures g.c <= Store(g, s).ddr && Store(g, s).ddr + g.d * (4 * g.N()) <= g.c + CBytes(g)
  {
    MulUp(s + 1, g.mt, g.d);
    MulUp((s + 1) * g.d, g.mt * g.d, 4 * g.N());
    Distribute(s, g.d, g.d, 4 * g.N());
    Associate(s, g.d, 4 * g.N());
  }

  /** The store of a computed strip. */
  lemma {:induction false} StripStored(g: Gemm, m0: Mem, m: Mem, s: nat)
    requires Fits(g) && s < g.mt && HasC(g, m0, m, s) && Done(g, m0, m, s) && OnlyC(g, m0, m)
    ensures g.d > 0
    ensures var r := Perform(m, g.d, Store(g, s)); r == m.(ddr := r.ddr) && Done(g, m0, r, s + 1) && OnlyC(g, m0, r)
  {
    var r := Perform(m, g.d, Store(g, s));
    StoreInC(g, s);
    StoreOnlyDdr(g, m, s);
    hide Perform, Pair, Store, Fits, CEl, CAt, Expected;
    forall a | !InC(g, a) ensures r.ddr(a) == m0.ddr(a) { StoreElsewhere(g, m, s, a); }
    forall h: nat, i: nat, t: nat, x: nat | h < s + 1 && i < g.d && t < g.nt && x < g.d
      ensures CEl(g, r, Pair(h, g.d, i), Pair(t, g.d, x)) == Expected(g, m0, Pair(h, g.d, i), Pair(t, g.d, x))
    {
      if h == s {
        ElementStored(g, m, s, i, t, x);
      } else {
        ColumnOfTile(g, t, x);
        ElementKept(g, m, s, h, i, Pair(t, g.d, x));
      }
    }
  }

  lemma {:induction false} StoreOnlyDdr(g: Gemm, m: Mem, s: nat)
    requires g.d > 0
    ensures var r := Perform(m, g.d, Store(g, s)); r == m.(ddr := r.ddr)
  {
    hide StRows;
  }

  // ---------------------------------------------------------------- the list

  /** Between two strips: B is resident, the strips so far are done, and the next one is loaded if it is
      the first or was prefetched. */
  ghost predicate Ready(g: Gemm, m0: Mem, m: Mem, s: nat)
    requires g.d > 0
  {
    && HasB(g, m0, m) && OnlyC(g, m0, m) && Done(g, m0, m, s)
    && (s < g.mt && (s == 0 || g.prefetch) ==> HasStrip(g, m0, m, s) && HasBias(g, m0, m, s))
  }

  function Loads(g: Gemm, s: nat): seq<Cmd> {
    if s != 0 && !g.prefetch then LoadStrip(g, s) else []
  }

  function Ahead(g: Gemm, s: nat): seq<Cmd> {
    if g.prefetch && s + 1 < g.mt then LoadStrip(g, s + 1) else []
  }

  lemma {:induction false} TurnIs(g: Gemm, m: Mem, s: nat)
    requires g.d > 0
    ensures Run(m, g.d, StripList(g, s))
         == Perform(Run(AfterCompute(g, Run(m, g.d, Loads(g, s)), s), g.d, Ahead(g, s)), g.d, Store(g, s))
  {
    hide LoadStrip, Compute, Store, Perform;
    var xs, ys, zs := Loads(g, s), Compute(g, s), Ahead(g, s);
    RunNext(m, g.d, (xs + ys) + zs, Store(g, s));
    RunBoth(m, g.d, xs + ys, zs);
    RunBoth(m, g.d, xs, ys);
    assert StripList(g, s) == (xs + ys) + zs + [Store(g, s)];
  }

  /** The loads before a strip, if any. */
  lemma {:induction false} LoadsDone(g: Gemm, m0: Mem, m: Mem, s: nat)
    requires Fits(g) && s < g.mt && g.d > 0 && Ready(g, m0, m, s)
    ensures var r := Run(m, g.d, Loads(g, s)); r.ddr == m.ddr && Loaded(g, m0, r, s)
  {
    hide HasStrip, HasBias, HasB, Done, OnlyC, LoadStrip, Fits;
    if s != 0 && !g.prefetch {
      StripLoads(g, m0, m, s);
      SameB(g, m0, m, Run(m, g.d, LoadStrip(g, s)));
    }
  }

  /** The prefetch of the next strip, if any, leaves this one's C words alone. */
  lemma {:induction false} AheadDone(g: Gemm, m0: Mem, m: Mem, s: nat)
    requires Fits(g) && s < g.mt && g.d > 0 && OnlyC(g, m0, m) && HasC(g, m0, m, s) && HasB(g, m0, m)
    ensures var r := Run(m, g.d, Ahead(g, s));
            && r.ddr == m.ddr && HasC(g, m0, r, s) && HasB(g, m0, r)
            && (g.prefetch && s + 1 < g.mt ==> HasStrip(g, m0, r, s + 1) && HasBias(g, m0, r, s + 1))
  {
    hide HasStrip, HasBias, HasC, HasB, OnlyC, LoadStrip, Fits, KeepsC;
    if g.prefetch && s + 1 < g.mt {
      var r := Run(m, g.d, LoadStrip(g, s + 1));
      StripLoads(g, m0, m, s + 1);
      SameB(g, m0, m, r);
      assert KeepsC(g, m, r, s);
      KeptC(g, m0, m, r, s);
    }
  }

  lemma {:induction false} SameDdr(g: Gemm, m0: Mem, m: Mem, m1: Mem, n: nat)
    requires OnlyC(g, m0, m) && Done(g, m0, m, n) && m1.ddr == m.ddr
    ensures OnlyC(g, m0, m1) && Done(g, m0, m1, n)
  {
    hide Expected;
    forall s: nat, r: nat, t: nat, x: nat | s < n && r < g.d && t < g.nt && x < g.d
      ensures CEl(g, m1, Pair(s, g.d, r), Pair(t, g.d, x)) == Expected(g, m0, Pair(s, g.d, r), Pair(t, g.d, x))
    {
      assert CEl(g, m, Pair(s, g.d, r), Pair(t, g.d, x)) == Expected(g, m0, Pair(s, g.d, r), Pair(t, g.d, x));
    }
  }

  /** One strip. */
  lemma {:induction false} TurnDone(g: Gemm, m0: Mem, m: Mem, s: nat)
    requires Fits(g) && s < g.mt && g.d > 0 && Ready(g, m0, m, s)
    ensures Ready(g, m0, Run(m, g.d, StripList(g, s)), s + 1)
  {
    hide Fits, OnlyC, HasStrip, HasBias, HasB, HasC, Done, Perform, Run, AfterCompute, Loads, Ahead, Store, StripList;
    TurnIs(g, m, s);
    var m1 := Run(m, g.d, Loads(g, s));
    LoadsDone(g, m0, m, s);
    var m2 := AfterCompute(g, m1, s);
    StripComputed(g, m0, m1, s);
    SameB(g, m0, m1, m2);
    SameDdr(g, m0, m, m2, s);
    var m3 := Run(m2, g.d, Ahead(g, s));
    AheadDone(g, m0, m2, s);
    SameDdr(g, m0, m2, m3, s);
    StripStored(g, m0, m3, s);
    var m4 := Perform(m3, g.d, Store(g, s));
    SameB(g, m0, m3, m4);
    if s + 1 < g.mt && g.prefetch {
      SameA(g, m0, m3, m4, s + 1);
      SameAcc(g, m0, m3, m4, s + 1);
    }
  }

  /** Resident B and the first strip. */
  lemma {:induction false} HeadDone(g: Gemm, m0: Mem)
    requires Fits(g) && g.mt > 0
    ensures g.d > 0 && Ready(g, m0, Run(m0, g.d, Head(g)), 0)
  {
    Sizes(g);
    hide Fits, OnlyC, HasStrip, HasBias, HasB, Perform, LoadStrip;
    var first := LoadB(g, 0, if g.IsSplit() then g.Nt0() else g.nt, 0);
    var m1 := Perform(m0, g.d, first);
    NothingChanged(g, m0, m1, first);
    var m2 := Run(m1, g.d, LoadStrip(g, 0));
    StripLoads(g, m0, m1, 0);
    RunOne(m0, g.d, first);
    RunBoth(m0, g.d, [first], LoadStrip(g, 0));
    OnlyCAlso(g, m0, m1, m2);
    if g.IsSplit() {
      var second := LoadB(g, g.Nt0(), g.Nt1(), g.sbank);
      var m3 := Perform(m2, g.d, second);
      RunNext(m0, g.d, [first] + LoadStrip(g, 0), second);
      assert Head(g) == [first] + LoadStrip(g, 0) + [second];
      BothHalves(g, m0, m0, m2);
      NothingChanged(g, m0, m3, second);
      OnlyLdB(g, m2, second);
      OnlyCAlso(g, m0, m2, m3);
      SameA(g, m0, m2, m3, 0);
      SameAcc(g, m0, m2, m3, 0);
      NoneDone(g, m0, m3);
    } else {
      WholeB(g, m0, m0);
      SameB(g, m0, m1, m2);
      assert Head(g) == [first] + LoadStrip(g, 0);
      NoneDone(g, m0, m2);
    }
  }

  lemma {:induction false} OnlyLdB(g: Gemm, m: Mem, x: Cmd)
    requires g.d > 0 && x.LdB?
    ensures var r := Perform(m, g.d, x); r == m.(b := r.b)
  {
    hide Interleaved;
  }

  lemma {:induction false} NothingChanged(g: Gemm, m0: Mem, m1: Mem, x: Cmd)
    requires g.d > 0 && x.LdB?
    ensures m1 == Perform(m0, g.d, x) ==> OnlyC(g, m0, m1)
    ensures OnlyC(g, m0, m0)
  {
    OnlyLdB(g, m0, x);
  }

  lemma {:induction false} NoneDone(g: Gemm, m0: Mem, m: Mem)
    ensures Done(g, m0, m, 0)
  {
  }

  lemma {:induction false} StripsDone(g: Gemm, m0: Mem, m: Mem, n: nat)
    requires Fits(g) && n <= g.mt && g.d > 0 && Ready(g, m0, m, 0)
    ensures Ready(g, m0, Run(m, g.d, Strips(g, n)), n)
  {
    hide Ready, StripList;
    if n > 0 {
      StripsDone(g, m0, m, n - 1);
      TurnDone(g, m0, Run(m, g.d, Strips(g, n - 1)), n - 1);
      RunBoth(m, g.d, Strips(g, n - 1), StripList(g, n - 1));
    }
  }

  /** For every size that fits and every choice of prefetch and of the B split: the list leaves in C the
      product of A and B, plus the bias, modulo 2^32, and no other byte of DDR has changed. */
  lemma {:induction false} ListMultiplies(g: Gemm, m0: Mem, i: nat, j: nat)
    requires Fits(g) && g.mt > 0 && i < g.M() && j < g.N()
    ensures g.d > 0
    ensures var r := Run(m0, g.d, ListOf(g));
            CEl(g, r, i, j) == Expected(g, m0, i, j) && OnlyC(g, m0, r)
  {
    hide Expected, CEl, Run, Head, Strips, Fits, OnlyC, HasB, HasStrip, HasBias;
    HeadDone(g, m0);
    StripsDone(g, m0, Run(m0, g.d, Head(g)), g.mt);
    RunBoth(m0, g.d, Head(g), Strips(g, g.mt));
    var s, r := Divide(i, g.d);
    var t, x := Divide(j, g.d);
    QuotientBetween(i, g.d, s, r, 0, g.mt);
    QuotientBetween(j, g.d, t, x, 0, g.nt);
    assert CEl(g, Run(m0, g.d, ListOf(g)), Pair(s, g.d, r), Pair(t, g.d, x))
        == Expected(g, m0, Pair(s, g.d, r), Pair(t, g.d, x));
    PairIs(s, g.d, r);
    PairIs(t, g.d, x);
  }
}
