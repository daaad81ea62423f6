/** The list of a matrix product computes C = A B (+ bias) modulo 2^32 for every choice of prefetch and
    of the B split, and changes no other byte of DDR. */
module GemmMeaning {
  import opened Options
  import opened Dyadic
  import opened MatrixMachine
  import opened GemmList
  import opened MatrixSteps

  // ---------------------------------------------------------------- the matrices in DDR

  /** Element (i, q) of A, (q, j) of B, int8; (i, j) of the bias and of C, 32 bits. */
  function AEl(g: Gemm, m: Mem, i: int, q: int): int {
    S8(m.ddr(g.a + Pair(i, g.K(), q)))
  }

  function BEl(g: Gemm, m: Mem, q: int, j: int): int {
    S8(m.ddr(g.b + Pair(q, g.N(), j)))
  }

  function Element32(g: Gemm, m: Mem, base: int, i: int, j: int): int {
    Word32(m.ddr, base + 4 * Pair(i, g.N(), j))
  }

  /** The first n products of row i of A and column j of B. */
  function RowSum(g: Gemm, m: Mem, i: int, j: int, n: nat): int {
    if n == 0 then 0 else RowSum(g, m, i, j, n - 1) + AEl(g, m, i, n - 1) * BEl(g, m, n - 1, j)
  }

  function BiasEl(g: Gemm, m: Mem, i: int, j: int): int {
    match g.bias
    case None => 0
    case Some(base) => Element32(g, m, base, i, j)
  }

  function Expected(g: Gemm, m: Mem, i: int, j: int): (v: int)
    ensures 0 <= v < M32
  {
    (BiasEl(g, m, i, j) + RowSum(g, m, i, j, g.K())) % M32
  }

  function CEl(g: Gemm, m: Mem, i: int, j: int): int {
    Element32(g, m, g.c, i, j)
  }

  // ---------------------------------------------------------------- what must fit

  predicate Apart(a: int, n: int, b: int, k: int) {
    a + n <= b || b + k <= a
  }

  /** K fits a SPAD bank, N an ACC bank and B a SPAD; C is apart from A, B and the bias. */
  predicate Fits(g: Gemm) {
    && g.d > 0 && g.nt > 0 && g.kt > 0
    && g.K() <= g.sbank && g.N() <= g.cbank && g.nt * g.K() <= 2 * g.sbank
    && Apart(g.c, CBytes(g), g.a, g.M() * g.K()) && Apart(g.c, CBytes(g), g.b, g.K() * g.N())
    && (g.bias.Some? ==> Apart(g.c, CBytes(g), g.bias.value, CBytes(g)))
  }

  function CBytes(g: Gemm): nat {
    g.M() * (4 * g.N())
  }

  predicate InC(g: Gemm, a: int) {
    g.c <= a < g.c + CBytes(g)
  }

  /** Only C has changed. */
  ghost predicate OnlyC(g: Gemm, m0: Mem, m: Mem) {
    forall a :: !InC(g, a) ==> m.ddr(a) == m0.ddr(a)
  }

  lemma {:induction false} Sizes(g: Gemm)
    requires Fits(g)
    ensures g.d > 0 && g.nt > 0 && g.kt > 0 && g.K() > 0 && g.N() > 0
  {
    MulUp(1, g.nt, g.d);
    MulUp(1, g.kt, g.d);
  }

  /** Row r of strip s is a row of A. */
  lemma {:induction false} RowOfStrip(g: Gemm, s: nat, r: nat)
    requires s < g.mt && r < g.d
    ensures 0 <= Pair(s, g.d, r) < g.M()
  {
    PairBelow(s, g.d, r, g.mt);
  }

  lemma {:induction false} ColumnOfTile(g: Gemm, t: nat, x: nat)
    requires t < g.nt && x < g.d
    ensures 0 <= Pair(t, g.d, x) < g.N()
  {
    PairBelow(t, g.d, x, g.nt);
  }

  lemma {:induction false} AUnchanged(g: Gemm, m0: Mem, m: Mem, i: nat, q: nat)
    requires Fits(g) && OnlyC(g, m0, m) && i < g.M() && q < g.K()
    ensures m.ddr(g.a + Pair(i, g.K(), q)) == m0.ddr(g.a + Pair(i, g.K(), q))
  {
    PairBelow(i, g.K(), q, g.M());
    hide Pair, CBytes;
    assert !InC(g, g.a + Pair(i, g.K(), q));
  }

  lemma {:induction false} BUnchanged(g: Gemm, m0: Mem, m: Mem, q: nat, j: nat)
    requires Fits(g) && OnlyC(g, m0, m) && q < g.K() && j < g.N()
    ensures BEl(g, m, q, j) == BEl(g, m0, q, j)
  {
    PairBelow(q, g.N(), j, g.K());
    hide Pair, CBytes;
    assert !InC(g, g.b + Pair(q, g.N(), j));
  }

  lemma {:induction false} FourTimes(i: int, n: int, j: int, k: int)
    requires 0 <= i < k && 0 <= j < n
    ensures 0 <= 4 * Pair(i, n, j) && 4 * Pair(i, n, j) + 4 <= k * (4 * n)
  {
    PairBelow(i, n, j, k);
    assert k * (4 * n) == 4 * (k * n);
  }

  lemma {:induction false} BiasUnchanged(g: Gemm, m0: Mem, m: Mem, i: nat, j: nat)
    requires Fits(g) && OnlyC(g, m0, m) && i < g.M() && j < g.N()
    ensures BiasEl(g, m, i, j) == BiasEl(g, m0, i, j)
  {
    FourTimes(i, g.N(), j, g.M());
    hide Pair;
    if g.bias.Some? {
      var a := g.bias.value + 4 * Pair(i, g.N(), j);
      hide Word32;
      SameWord(m.ddr, m0.ddr, a) by {
        assert !InC(g, a) && !InC(g, a + 1) && !InC(g, a + 2) && !InC(g, a + 3);
      }
    }
  }

  lemma {:induction false} SameWord(f: int -> int, h: int -> int, a: int)
    requires f(a) == h(a) && f(a + 1) == h(a + 1) && f(a + 2) == h(a + 2) && f(a + 3) == h(a + 3)
    ensures Word32(f, a) == Word32(h, a)
  {
  }

  // ---------------------------------------------------------------- what the memories hold

  /** SPAD_A bank of strip s holds its rows of A. */
  predicate HasStrip(g: Gemm, m0: Mem, m: Mem, s: nat)
    requires g.d > 0
  {
    forall r: nat, q: nat :: r < g.d && q < g.K() ==>
      StripAt(m.a, g.d, ABank(g, s), r, q) == AEl(g, m0, Pair(s, g.d, r), q)
  }

  /** First word of tile t of B. */
  function BWord(g: Gemm, t: int): int {
    if g.IsSplit() && t >= g.Nt0() then g.sbank + (t - g.Nt0()) * g.K() else t * g.K()
  }

  function BAt(g: Gemm, m: Mem, t: int, q: int, x: int): int {
    m.b(BWord(g, t) + q, x)
  }

  predicate HasB(g: Gemm, m0: Mem, m: Mem) {
    forall t: nat, q: nat, x: nat :: t < g.nt && q < g.K() && x < g.d ==>
      BAt(g, m, t, q, x) == BEl(g, m0, q, Pair(t, g.d, x))
  }

  /** Lane x of tile t of row r of the C words of strip s. */
  function CAt(g: Gemm, m: Mem, s: nat, r: int, t: int, x: int): int {
    m.acc(CBank(g, s) + Pair(r, g.nt, t), x)
  }

  predicate HasBias(g: Gemm, m0: Mem, m: Mem, s: nat) {
    g.bias.Some? ==>
      forall r: nat, t: nat, x: nat :: r < g.d && t < g.nt && x < g.d ==>
        CAt(g, m, s, r, t, x) == BiasEl(g, m0, Pair(s, g.d, r), Pair(t, g.d, x))
  }

  predicate HasC(g: Gemm, m0: Mem, m: Mem, s: nat) {
    forall r: nat, t: nat, x: nat :: r < g.d && t < g.nt && x < g.d ==>
      CAt(g, m, s, r, t, x) == Expected(g, m0, Pair(s, g.d, r), Pair(t, g.d, x))
  }

  /** The C words of strip s are as before. */
  predicate KeepsC(g: Gemm, m: Mem, m': Mem, s: nat) {
    forall r: nat, t: nat, x: nat :: r < g.d && t < g.nt && x < g.d ==> CAt(g, m', s, r, t, x) == CAt(g, m, s, r, t, x)
  }

  /** The rows of the first n strips are in DDR. */
  predicate Done(g: Gemm, m0: Mem, m: Mem, n: nat) {
    forall s: nat, r: nat, t: nat, x: nat :: s < n && r < g.d && t < g.nt && x < g.d ==>
      CEl(g, m, Pair(s, g.d, r), Pair(t, g.d, x)) == Expected(g, m0, Pair(s, g.d, r), Pair(t, g.d, x))
  }

  // ---------------------------------------------------------------- loads

  function LoadA(g: Gemm, s: nat): Cmd {
    LdA(g.a + s * g.d * g.K(), ABank(g, s), g.d, g.K(), g.K())
  }

  lemma {:induction false} Regroup3(s: int, d: int, k: int, r: int, q: int)
    ensures s * d * k + Pair(r, k, q) == Pair(Pair(s, d, r), k, q)
  {
    Distribute(s, d, r, k);
    Associate(s, d, k);
  }

  lemma {:induction false} LoadAIs(g: Gemm, m: Mem, s: nat)
    requires Fits(g)
    ensures g.d > 0
    ensures Perform(m, g.d, LoadA(g, s))
         == m.(a := Interleaved(m.a, m.ddr, g.d, g.a + s * g.d * g.K(), ABank(g, s), g.d, g.K(), g.K()))
  {
    hide Interleaved;
  }

  lemma {:induction false} AElementLoaded(g: Gemm, m0: Mem, m: Mem, s: nat, r: nat, q: nat)
    requires Fits(g) && OnlyC(g, m0, m) && s < g.mt && r < g.d && q < g.K()
    ensures StripAt(Perform(m, g.d, LoadA(g, s)).a, g.d, ABank(g, s), r, q) == AEl(g, m0, Pair(s, g.d, r), q)
  {
    LoadAIs(g, m, s);
    KIs(g);
    hide Fits, OnlyC, Perform, LoadA, Interleaved, StripAt, Pair, ABank, Gemm.K, S8;
    StripLoaded(m.a, m.ddr, g.d, g.a + s * g.d * g.K(), ABank(g, s), g.kt, r, q);
    Regroup3(s, g.d, g.K(), r, q);
    RowOfStrip(g, s, r);
    AUnchanged(g, m0, m, Pair(s, g.d, r), q);
  }

  lemma {:induction false} KIs(g: Gemm)
    ensures g.K() == g.kt * g.d
  {
  }

  /** The LD of a strip of A. */
  lemma {:induction false} ALoaded(g: Gemm, m0: Mem, m: Mem, s: nat)
    requires Fits(g) && OnlyC(g, m0, m) && s < g.mt
    ensures var r := Perform(m, g.d, LoadA(g, s)); r == m.(a := r.a) && HasStrip(g, m0, r, s)
  {
    hide Fits, OnlyC, Perform, LoadA, Interleaved, StripAt, Pair, ABank, AEl, Gemm.K;
    LoadAIs(g, m, s);
    forall r: nat, q: nat | r < g.d && q < g.K()
      ensures StripAt(Perform(m, g.d, LoadA(g, s)).a, g.d, ABank(g, s), r, q) == AEl(g, m0, Pair(s, g.d, r), q)
    {
      AElementLoaded(g, m0, m, s, r, q);
    }
  }

  function LoadBias(g: Gemm, s: nat): Cmd
    requires g.bias.Some?
  {
    LdAcc(g.bias.value + s * g.d * (4 * g.N()), CBank(g, s), g.d, 4 * g.N(), 4 * g.N())
  }

  lemma {:induction false} Regroup4(s: int, d: int, n: int, r: int, j: int)
    ensures s * d * (4 * n) + r * (4 * n) + 4 * j == 4 * Pair(Pair(s, d, r), n, j)
  {
    Distribute(s, d, r, n);
    Associate(s, d, 4 * n);
    Associate(s, d, n);
  }

  lemma {:induction false} WordsOfRow(g: Gemm)
    requires g.d > 0
    ensures 4 * g.N() / (4 * g.d) == g.nt
  {
    QuotientIs(4 * g.N(), 4 * g.d, g.nt, 0);
  }

  function BiasFrom(g: Gemm, s: nat): nat
    requires g.bias.Some?
  {
    g.bias.value + s * g.d * (4 * g.N())
  }

  lemma {:induction false} BiasLoadIs(g: Gemm, m: Mem, s: nat)
    requires Fits(g) && g.bias.Some?
    ensures g.d > 0 && g.nt > 0
    ensures Perform(m, g.d, LoadBias(g, s))
         == m.(acc := Rowwise(m.acc, m.ddr, g.d, BiasFrom(g, s), CBank(g, s), g.d, g.nt, 4 * g.N()))
  {
    WordsOfRow(g);
    hide Rowwise;
  }

  lemma {:induction false} BiasWordLoaded(g: Gemm, m0: Mem, m: Mem, s: nat, r: nat, t: nat, x: nat)
    requires Fits(g) && OnlyC(g, m0, m) && s < g.mt && g.bias.Some? && r < g.d && t < g.nt && x < g.d
    ensures CAt(g, Perform(m, g.d, LoadBias(g, s)), s, r, t, x) == BiasEl(g, m0, Pair(s, g.d, r), Pair(t, g.d, x))
  {
    BiasLoadIs(g, m, s);
    RowsLoaded(m.acc, m.ddr, g.d, BiasFrom(g, s), CBank(g, s), g.d, g.nt, 4 * g.N(), r, t, x);
    Regroup4(s, g.d, g.N(), r, Pair(t, g.d, x));
    RowOfStrip(g, s, r);
    ColumnOfTile(g, t, x);
    BiasUnchanged(g, m0, m, Pair(s, g.d, r), Pair(t, g.d, x));
    hide Rowwise, Word32, Perform, LoadBias, Pair, OnlyC, Fits, CBank;
  }

  /** The LD of a strip's bias rows. */
  lemma {:induction false} BiasLoaded(g: Gemm, m0: Mem, m: Mem, s: nat)
    requires Fits(g) && OnlyC(g, m0, m) && s < g.mt && g.bias.Some?
    ensures var r := Perform(m, g.d, LoadBias(g, s)); r == m.(acc := r.acc) && HasBias(g, m0, r, s)
  {
    BiasLoadIs(g, m, s);
    hide CAt, BiasEl, Pair, Perform, LoadBias, Fits, OnlyC, Rowwise;
    forall r: nat, t: nat, x: nat | r < g.d && t < g.nt && x < g.d
      ensures CAt(g, Perform(m, g.d, LoadBias(g, s)), s, r, t, x) == BiasEl(g, m0, Pair(s, g.d, r), Pair(t, g.d, x))
    {
      BiasWordLoaded(g, m0, m, s, r, t, x);
    }
  }

  lemma {:induction false} CWordInStrip(g: Gemm, r: nat, t: nat)
    requires r < g.d && t < g.nt
    ensures 0 <= Pair(r, g.nt, t) < g.N()
  {
    PairBelow(r, g.nt, t, g.d);
    assert g.d * g.nt == g.N();
  }

  /** It leaves the C words in the other ACC bank alone. */
  lemma {:induction false} BiasKeepsOther(g: Gemm, m: Mem, s: nat, h: nat)
    requires Fits(g) && g.bias.Some? && s % 2 != h % 2
    ensures KeepsC(g, m, Perform(m, g.d, LoadBias(g, s)), h)
  {
    BiasLoadIs(g, m, s);
    assert g.d * g.nt == g.N() <= g.cbank;
    hide Perform, LoadBias, Rowwise, Pair, Fits;
    forall r: nat, t: nat, x: nat | r < g.d && t < g.nt && x < g.d
      ensures CAt(g, Perform(m, g.d, LoadBias(g, s)), h, r, t, x) == CAt(g, m, h, r, t, x)
    {
      CWordInStrip(g, r, t);
      RowwiseKeeps(m.acc, m.ddr, g.d, BiasFrom(g, s), CBank(g, s), g.d, g.nt, 4 * g.N(),
        CBank(g, h) + Pair(r, g.nt, t), x);
    }
  }

  /** The loads of a strip. */
  lemma {:induction false} StripLoads(g: Gemm, m0: Mem, m: Mem, s: nat)
    requires Fits(g) && OnlyC(g, m0, m) && s < g.mt
    ensures var r := Run(m, g.d, LoadStrip(g, s));
            && r.b == m.b && r.ddr == m.ddr && HasStrip(g, m0, r, s) && HasBias(g, m0, r, s)
            && forall h: nat :: s % 2 != h % 2 ==> KeepsC(g, m, r, h)
  {
    hide Perform, HasStrip, HasBias, KeepsC, Fits, OnlyC;
    Sizes(g);
    var m1 := Perform(m, g.d, LoadA(g, s));
    ALoaded(g, m0, m, s);
    StripListIs(g, m, s);
    SameAcc(g, m0, m, m1, s);
    if g.bias.Some? {
      OnlyCAlso(g, m0, m, m1);
      BiasLoaded(g, m0, m1, s);
      SameA(g, m0, m1, Perform(m1, g.d, LoadBias(g, s)), s);
      forall h: nat | s % 2 != h % 2 ensures KeepsC(g, m, Perform(m1, g.d, LoadBias(g, s)), h) {
        BiasKeepsOther(g, m1, s, h);
        KeepsAgain(g, m, m1, Perform(m1, g.d, LoadBias(g, s)), h);
      }
    }
  }

  lemma {:induction false} StripListIs(g: Gemm, m: Mem, s: nat)
    requires g.d > 0
    ensures var m1 := Perform(m, g.d, LoadA(g, s));
            Run(m, g.d, LoadStrip(g, s)) == if g.bias.Some? then Perform(m1, g.d, LoadBias(g, s)) else m1
  {
    hide Perform;
    assert Run(m, g.d, []) == m;
    RunNext(m, g.d, [], LoadA(g, s));
    assert [] + [LoadA(g, s)] == [LoadA(g, s)];
    if g.bias.Some? { RunNext(m, g.d, [LoadA(g, s)], LoadBias(g, s)); }
  }

  lemma {:induction false} OnlyCAlso(g: Gemm, m0: Mem, m: Mem, m1: Mem)
    requires OnlyC(g, m0, m) && m1.ddr == m.ddr
    ensures OnlyC(g, m0, m1)
  {
  }

  lemma {:induction false} SameA(g: Gemm, m0: Mem, m: Mem, m1: Mem, s: nat)
    requires g.d > 0 && HasStrip(g, m0, m, s) && m1.a == m.a
    ensures HasStrip(g, m0, m1, s)
  {
  }

  lemma {:induction false} SameAcc(g: Gemm, m0: Mem, m: Mem, m1: Mem, s: nat)
    requires m1.acc == m.acc
    ensures (forall h: nat :: KeepsC(g, m, m1, h)) && (g.bias.None? ==> HasBias(g, m0, m1, s))
    ensures HasBias(g, m0, m, s) ==> HasBias(g, m0, m1, s)
  {
  }

  lemma {:induction false} SameB(g: Gemm, m0: Mem, m: Mem, m1: Mem)
    requires HasB(g, m0, m) && m1.b == m.b
    ensures HasB(g, m0, m1)
  {
  }

  lemma {:induction false} KeepsAgain(g: Gemm, m: Mem, m1: Mem, m2: Mem, s: nat)
    requires KeepsC(g, m, m1, s) && KeepsC(g, m1, m2, s)
    ensures KeepsC(g, m, m2, s)
  {
  }

  lemma {:induction false} KeptC(g: Gemm, m0: Mem, m: Mem, m1: Mem, s: nat)
    requires HasC(g, m0, m, s) && KeepsC(g, m, m1, s)
    ensures HasC(g, m0, m1, s)
  {
  }

  // ---------------------------------------------------------------- resident B

  /** A part of B: nb tiles from tile t0 on, at word at. */
  function LoadB(g: Gemm, t0: nat, nb: nat, at: nat): Cmd {
    LdB(g.b + t0 * g.d, at, g.K(), nb * g.d, g.N())
  }

  lemma {:induction false} BPartLoaded(g: Gemm, m0: Mem, m: Mem, t0: nat, nb: nat, at: nat, t: nat, q: nat, x: nat)
    requires Fits(g) && OnlyC(g, m0, m) && t0 + nb <= g.nt && t0 <= t < t0 + nb && q < g.K() && x < g.d
    ensures Perform(m, g.d, LoadB(g, t0, nb, at)).b(at + Pair(t - t0, g.K(), q), x) == BEl(g, m0, q, Pair(t, g.d, x))
  {
    TileLoaded(m.b, m.ddr, g.d, g.b + t0 * g.d, at, g.K(), nb, g.N(), t - t0, q, x);
    assert t0 * g.d + (t - t0) * g.d == t * g.d;
    ColumnOfTile(g, t, x);
    BUnchanged(g, m0, m, q, Pair(t, g.d, x));
  }

  lemma {:induction false} BPartKeeps(g: Gemm, m: Mem, t0: nat, nb: nat, at: nat, w: int, x: int)
    requires Fits(g) && (w < at || w >= at + nb * g.K())
    ensures g.d > 0
    ensures var r := Perform(m, g.d, LoadB(g, t0, nb, at)); r == m.(b := r.b) && r.b(w, x) == m.b(w, x)
  {
    Sizes(g);
    InterleavedKeeps(m.b, m.ddr, g.d, g.b + t0 * g.d, at, g.K(), nb, g.N(), w, x);
  }

  lemma {:induction false} WholeB(g: Gemm, m0: Mem, m: Mem)
    requires Fits(g) && OnlyC(g, m0, m) && !g.IsSplit()
    ensures g.d > 0 && HasB(g, m0, Perform(m, g.d, LoadB(g, 0, g.nt, 0)))
  {
    Sizes(g);
    hide Perform, LoadB, Fits, OnlyC, BEl;
    var r := Perform(m, g.d, LoadB(g, 0, g.nt, 0));
    forall t: nat, q: nat, x: nat | t < g.nt && q < g.K() && x < g.d
      ensures BAt(g, r, t, q, x) == BEl(g, m0, q, Pair(t, g.d, x))
    {
      BPartLoaded(g, m0, m, 0, g.nt, 0, t, q, x);
    }
  }

  /** Both halves of B; what comes between them leaves SPAD_B alone. */
  lemma {:induction false} BothHalves(g: Gemm, m0: Mem, m: Mem, m': Mem)
    requires Fits(g) && OnlyC(g, m0, m) && OnlyC(g, m0, m') && g.IsSplit()
    requires g.d > 0 && m'.b == Perform(m, g.d, LoadB(g, 0, g.Nt0(), 0)).b
    ensures HasB(g, m0, Perform(m', g.d, LoadB(g, g.Nt0(), g.Nt1(), g.sbank)))
  {
    Sizes(g);
    var n0, n1 := g.Nt0(), g.Nt1();
    assert n0 * g.K() <= g.sbank && n0 + n1 == g.nt;
    hide Perform, LoadB, Fits, OnlyC, BEl, Gemm.IsSplit, Gemm.Nt0, Gemm.Nt1, Pair;
    var r := Perform(m', g.d, LoadB(g, n0, n1, g.sbank));
    forall t: nat, q: nat, x: nat | t < g.nt && q < g.K() && x < g.d
      ensures BAt(g, r, t, q, x) == BEl(g, m0, q, Pair(t, g.d, x))
    {
      if t < n0 {
        BPartLoaded(g, m0, m, 0, n0, 0, t, q, x);
        PairBelow(t, g.K(), q, n0);
        BPartKeeps(g, m', n0, n1, g.sbank, Pair(t, g.K(), q), x);
        PairIs(t, g.K(), q);
      } else {
        BPartLoaded(g, m0, m', n0, n1, g.sbank, t, q, x);
        PairIs(t - n0, g.K(), q);
      }
    }
  }
}
