/** Which commands the engines of the simulator refuse (llm/sa_funcsim.py, _check_dma, ex, ve_fp), and
    when none of a linear layer's is. */
module LinearLegal {
  import opened Options
  import opened Dyadic
  import opened LoopMachine
  import opened LinearList
  import opened LinearLoop
  import opened SimOps
  import opened LinearMeaning
  import opened LinearChunk
  import opened LinearRun

  // ---------------------------------------------------------------- what is refused

  /** Words of width bytes that a row of bytes takes. */
  function WordsFor(bytes: nat, width: nat): nat
    requires width > 0
  {
    (bytes + width - 1) / width
  }

  /** Words the vector engine's range check takes for the second operand: all groups unless the index is
      modulo the period, even where a division reads fewer. */
  function SecondWords(op: Op): nat
    requires op.Ve?
  {
    if op.period > 0 && op.byMod && op.period < op.groups then op.period else op.groups
  }

  predicate RowInside(m: Mem, at: int, bytes: int) {
    at + bytes <= |m.ddr|
  }

  /** Aligned and not empty, with every row inside DDR. */
  predicate Transfer(m: Mem, at: nat, rows: nat, bytes: nat, pitch: nat) {
    && at % 8 == 0 && bytes % 8 == 0 && pitch % 8 == 0 && rows > 0 && bytes > 0
    && forall r: nat :: r < rows ==> RowInside(m, at + r * pitch, bytes)
  }

  predicate Legal(m: Mem, d: nat, e: Effective)
    requires d > 0
  {
    match e.op
    case Ld(mem, word, rows, bytes) =>
      && Transfer(m, e.ddr, rows, bytes, bytes)
      && (|| (mem == SPAD_B && word + WordsFor(bytes, d) * rows <= |m.spadB|)
          || (mem == ACC && word + WordsFor(bytes, 4 * d) * rows <= |m.acc|))
    case St(word, rows, bytes, pitch) =>
      Transfer(m, e.ddr, rows, bytes, pitch) && word + WordsFor(bytes, 4 * d) * rows <= |m.acc|
    case Ex(a, b, w, kt, repeat, bstep, cstep, crow) =>
      && kt > 0 && repeat > 0 && a + kt * d <= |m.spadA| && b + (repeat - 1) * bstep + kt * d <= |m.spadB|
      && w + (repeat - 1) * cstep + (d - 1) * crow < |m.acc|
    case Ve(src1, src2, dst, groups, _, _, _) =>
      && groups > 0 && src1 + groups <= |m.acc| && src2 + SecondWords(e.op) <= |m.acc| && dst + groups <= |m.acc|
  }

  predicate AllLegal(m: Mem, d: nat, es: seq<Effective>)
    requires d > 0
  {
    forall i :: 0 <= i < |es| ==> Legal(m, d, es[i])
  }

  lemma {:induction false} LegalBoth(m: Mem, d: nat, a: seq<Effective>, b: seq<Effective>)
    requires d > 0
    ensures AllLegal(m, d, a + b) <==> AllLegal(m, d, a) && AllLegal(m, d, b)
  {
    hide Legal;
    if AllLegal(m, d, a + b) {
      forall i | 0 <= i < |a| ensures Legal(m, d, a[i]) { assert a[i] == (a + b)[i]; }
      forall i | 0 <= i < |b| ensures Legal(m, d, b[i]) { assert b[i] == (a + b)[|a| + i]; }
    }
  }

  /** Legality looks at the sizes of the memories alone, which no command changes. */
  lemma {:induction false} SizesStay(m: Mem, d: nat, es: seq<Effective>)
    requires d > 0
    ensures var r := PerformAll(m, d, es);
            |r.spadA| == |m.spadA| && |r.spadB| == |m.spadB| && |r.acc| == |m.acc| && |r.ddr| == |m.ddr|
    decreases |es|
  {
    if es != [] {
      SizeStays(m, d, es[0]);
      hide Perform;
      SizesStay(Perform(m, d, es[0]), d, es[1..]);
    }
  }

  lemma {:induction false} SizeStays(m: Mem, d: nat, e: Effective)
    requires d > 0
    ensures var r := Perform(m, d, e);
            |r.spadA| == |m.spadA| && |r.spadB| == |m.spadB| && |r.acc| == |m.acc| && |r.ddr| == |m.ddr|
  {
    hide ByteWord, FloatWord, VeWord;
  }

  // ---------------------------------------------------------------- a chunk's commands

  /** Addresses are multiples of 8. */
  predicate Aligned(c: Layer) {
    c.d % 8 == 0 && c.wOff % 8 == 0 && c.swOff % 8 == 0 && (c.out.ToDdr? ==> c.out.off % 8 == 0)
  }

  lemma {:induction false} BytesAligned(c: Layer, j: nat)
    requires Aligned(c)
    ensures WFrom(c, j) % 8 == 0 && SFrom(c, j) % 8 == 0 && (c.k * c.d) % 8 == 0 && FBytes(c) % 8 == 0
    ensures c.out.ToDdr? ==> OFrom(c, j) % 8 == 0 && PitchOf(c) % 8 == 0
  {
    Eights(c.d, c.nc * c.k);
    Eights(c.d, c.k);
    Eights(c.d, 4 * c.nc);
    hide WBytes, FBytes;
    assert WBytes(c) % 8 == 0 && FBytes(c) % 8 == 0 by { BytesAre(c); }
    Eights(WBytes(c), j);
    Eights(FBytes(c), j);
    Eights(FBytes(c), c.nch);
    EightsSum(c.wOff, j * WBytes(c));
    EightsSum(c.swOff, j * FBytes(c));
    if c.out.ToDdr? { EightsSum(c.out.off, j * FBytes(c)); }
  }

  lemma {:induction false} BytesAre(c: Layer)
    ensures WBytes(c) == c.nc * c.k * c.d && FBytes(c) == 4 * c.nc * c.d
  {
  }

  lemma {:induction false} WordsExactly(n: nat, width: nat)
    requires width > 0
    ensures WordsFor(n * width, width) == n
  {
    QuotientIs(n * width + width - 1, width, n, width - 1);
  }

  lemma {:induction false} WeightRows(c: Layer, m: Mem, j: nat, r: nat)
    requires Fits(c, m) && j < c.nch && r < c.nc
    ensures RowInside(m, WFrom(c, j) + r * (c.k * c.d), c.k * c.d)
  {
    hide Lanes, Accepted, InScratch, Scratch, Tiles, WordsOf, OutBytes, SxOutside, Apart, FBytes;
    Below(j, c.nch, WBytes(c));
    Below(r, c.nc, c.k * c.d);
    Associate(c.nc, c.k, c.d);
  }

  lemma {:induction false} WeightsLegal(c: Layer, m: Mem, p: nat, j: nat)
    requires Fits(c, m) && Aligned(c) && p < 2 && j < c.nch
    ensures c.d > 0 && Legal(m, c.d, LoadWeights(c, p, j))
  {
    hide Fits, WBytes, FBytes, WFrom, SFrom, BankB, Aligned, RowInside, WordsFor, ScaleAt, ResultAt, BankC, InScratch,
         Scratch, YWords, OFrom, PitchOf, Legal, LoadWeights, LoadScales;
    NonZero(c, m);
    hide Accepted, Lanes;
    LoadAddresses(c, m, j);
    BytesAligned(c, j);
    WordsExactly(c.k, c.d);
    Banks(c, m, p);
    MulAtLeast(c.k, c.d);
    forall r: nat | r < c.nc ensures RowInside(m, WFrom(c, j) + r * (c.k * c.d), c.k * c.d) { WeightRows(c, m, j, r); }
    assert Transfer(m, WFrom(c, j), c.nc, c.k * c.d, c.k * c.d);
    Commute(c.nc, c.k);
    WeightsAreLegal(c, m, p, j);
  }

  lemma {:induction false} WeightsAreLegal(c: Layer, m: Mem, p: nat, j: nat)
    requires c.d > 0 && WFrom(c, j) < LoopMachine.M32
    requires Transfer(m, WFrom(c, j), c.nc, c.k * c.d, c.k * c.d)
    requires BankB(c, p) + WordsFor(c.k * c.d, c.d) * c.nc <= |m.spadB|
    ensures Legal(m, c.d, LoadWeights(c, p, j))
  {
    hide BankB, WFrom, WordsFor, Transfer;
  }

  lemma {:induction false} ScalesInside(c: Layer, m: Mem, j: nat)
    requires Fits(c, m) && j < c.nch
    ensures RowInside(m, SFrom(c, j), FBytes(c))
  {
    hide Lanes, Accepted, InScratch, Scratch, Tiles, WordsOf, OutBytes, SxOutside, Apart, FBytes, WBytes;
    Below(j, c.nch, FBytes(c));
  }

  lemma {:induction false} ScalesLegal(c: Layer, m: Mem, p: nat, j: nat)
    requires Fits(c, m) && Aligned(c) && p < 2 && j < c.nch
    ensures c.d > 0 && Legal(m, c.d, LoadScales(c, p, j))
  {
    hide Fits, WBytes, FBytes, WFrom, SFrom, BankB, Aligned, RowInside, WordsFor, ScaleAt, ResultAt, BankC, InScratch,
         Scratch, YWords, OFrom, PitchOf, Legal, LoadWeights, LoadScales;
    NonZero(c, m);
    WBytesPositive(c);
    hide Accepted, Lanes;
    LoadAddresses(c, m, j);
    BytesAligned(c, j);
    FBytesIs(c);
    WordsExactly(c.nc, 4 * c.d);
    Banks(c, m, p);
    ScalesInside(c, m, j);
    assert Transfer(m, SFrom(c, j), 1, FBytes(c), FBytes(c));
    ScalesAreLegal(c, m, p, j);
  }

  lemma {:induction false} ScalesAreLegal(c: Layer, m: Mem, p: nat, j: nat)
    requires c.d > 0 && SFrom(c, j) < LoopMachine.M32
    requires Transfer(m, SFrom(c, j), 1, FBytes(c), FBytes(c))
    requires ScaleAt(c, p) + WordsFor(FBytes(c), 4 * c.d) <= |m.acc|
    ensures Legal(m, c.d, LoadScales(c, p, j))
  {
    hide ScaleAt, SFrom, WordsFor, Transfer, FBytes;
  }

  /** The EX is legal exactly when the A strip is inside SPAD_A. */
  lemma {:induction false} ExLegal(c: Layer, m: Mem, p: nat)
    requires Fits(c, m) && p < 2
    ensures c.d > 0 && (Legal(m, c.d, Effective(ExOf(c, p), 0)) <==> c.aStrip + c.k <= |m.spadA|)
  {
    hide Fits, BankB, BankC, ScaleAt, ResultAt, InScratch, Scratch, YWords;
    NonZero(c, m);
    hide Accepted, Lanes;
    Banks(c, m, p);
    ScratchIs(c);
    ExSizes(c);
  }

  lemma {:induction false} ExSizes(c: Layer)
    requires c.d > 0 && c.nc > 0 && c.k > 0 && c.k % c.d == 0
    ensures c.k / c.d > 0 && c.k / c.d * c.d == c.k
    ensures (c.nc - 1) * c.k + c.k == WordsOf(c) && (c.nc - 1) * 1 + (c.d - 1) * c.nc + 1 == RowWords(c)
  {
    SumTimes(c.nc - 1, 1, c.k);
    SumTimes(c.d - 1, 1, c.nc);
  }

  lemma {:induction false} ScaledLegal(c: Layer, m: Mem, p: nat, j: nat)
    requires Fits(c, m) && p < 2 && j < c.nch
    ensures c.d > 0 && Legal(m, c.d, Effective(Scaled(c, p, j), 0))
  {
    hide Fits, BankB, BankC, ScaleAt, ResultAt, InScratch, Scratch, YAt, RowWords;
    NonZero(c, m);
    hide Accepted, Lanes;
    Banks(c, m, p);
    ScratchIs(c);
    RowsFit(c, m);
    ResultsFit(c, m, p, j);
    assert SecondWords(Scaled(c, p, j)) <= c.nc;
  }

  /** The multiplication by the activation scales is legal exactly when ACC goes on for as many words after
      s_x as the chunk has results, though only one word a row is read. */
  lemma {:induction false} RescaledLegal(c: Layer, m: Mem, p: nat, j: nat)
    requires Fits(c, m) && p < 2 && j < c.nch
    ensures c.d > 0 && (Legal(m, c.d, Effective(Rescaled(c, p, j), 0)) <==> c.sx + YWords(c) <= |m.acc|)
  {
    hide Fits, YAt, RowWords, YWords;
    NonZero(c, m);
    hide Accepted, Lanes;
    RowsFit(c, m);
    ResultsFit(c, m, p, j);
  }

  lemma {:induction false} OutputRow(c: Layer, m: Mem, j: nat, b: nat)
    requires Fits(c, m) && c.out.ToDdr? && j < c.nch && b < c.rows
    ensures RowInside(m, OFrom(c, j) + b * PitchOf(c), FBytes(c))
  {
    hide Fits, FBytes, OFrom, PitchOf, OutBytes, RowPitch, OAddr, Tile, Nth;
    NonZero(c, m);
    hide Accepted, Lanes;
    DdrFits(c, m);
    OutIndex(c, j, b, 0, 0);
    MulUp(b + 1, c.rows, RowPitch(c));
  }

  lemma {:induction false} StoreLegal(c: Layer, m: Mem, p: nat, j: nat)
    requires Fits(c, m) && Aligned(c) && c.out.ToDdr? && p < 2 && j < c.nch
    ensures c.d > 0 && Legal(m, c.d, StoreOf(c, p, j))
  {
    hide Fits, FBytes, WFrom, SFrom, Aligned, RowInside, WordsFor, OFrom, PitchOf, YAt, RowWords, WBytes,
         Legal, StoreOf;
    NonZero(c, m);
    WBytesPositive(c);
    hide Accepted, Lanes;
    StartsInside(c, m, j);
    BytesAligned(c, j);
    FBytesIs(c);
    WordsExactly(c.nc, 4 * c.d);
    ResultsFit(c, m, p, j);
    forall b: nat | b < c.rows ensures RowInside(m, OFrom(c, j) + b * PitchOf(c), FBytes(c)) { OutputRow(c, m, j, b); }
    assert Transfer(m, OFrom(c, j), c.rows, FBytes(c), PitchOf(c));
    Commute(c.nc, c.rows);
    StoreIsLegal(c, m, p, j);
  }

  lemma {:induction false} StoreIsLegal(c: Layer, m: Mem, p: nat, j: nat)
    requires c.out.ToDdr? && c.d > 0 && OFrom(c, j) < LoopMachine.M32
    requires Transfer(m, OFrom(c, j), c.rows, FBytes(c), PitchOf(c))
    requires YAt(c, p, j) + WordsFor(FBytes(c), 4 * c.d) * c.rows <= |m.acc|
    ensures Legal(m, c.d, StoreOf(c, p, j))
  {
    hide FBytes, PitchOf, OFrom, YAt, WordsFor, Transfer;
  }

  // ---------------------------------------------------------------- the list

  /** What a caller has to provide beside room for the layer: the strip inside SPAD_A, and as many words of
      ACC from s_x on as a chunk has results. */
  predicate Provided(c: Layer, m: Mem) {
    c.aStrip + c.k <= |m.spadA| && c.sx + YWords(c) <= |m.acc|
  }

  lemma {:induction false} LoadsLegal(c: Layer, m: Mem, p: nat, j: nat, weights: bool, params: Params)
    requires Fits(c, m) && Aligned(c) && p < 2 && j < c.nch
    ensures c.d > 0 && AllCommands(Load(c, p, j, false, weights))
    ensures AllLegal(m, c.d, Effects(Load(c, p, j, false, weights), params))
  {
    hide Fits, Aligned, Legal, LoadWeights, LoadScales, Load, Effects;
    LoadEffects(c, p, j, params);
    WeightsLegal(c, m, p, j);
    ScalesLegal(c, m, p, j);
  }

  lemma {:induction false} FinishLegal(c: Layer, m: Mem, p: nat, j: nat, params: Params)
    requires Fits(c, m) && Aligned(c) && p < 2 && j < c.nch
    ensures c.d > 0 && AllCommands(Finish(c, p, j, false))
    ensures AllLegal(m, c.d, Effects(Finish(c, p, j, false), params)) <==> c.sx + YWords(c) <= |m.acc|
  {
    hide Fits, Aligned, Legal, StoreOf, Finish, Effects, Scaled, Rescaled, YWords;
    FinishEffects(c, p, j, params);
    ScaledLegal(c, m, p, j);
    RescaledLegal(c, m, p, j);
    if c.out.ToDdr? { StoreLegal(c, m, p, j); }
    var es := Effects(Finish(c, p, j, false), params);
    assert es[0] == Effective(Scaled(c, p, j), 0) && es[1] == Effective(Rescaled(c, p, j), 0);
    assert c.out.ToDdr? ==> |es| == 3 && es[2] == StoreOf(c, p, j);
    assert c.out.ToAcc? ==> |es| == 2;
  }

  lemma {:induction false} ChunkLegal(c: Layer, m: Mem, p: nat, j: nat, next: Option<nat>, params: Params)
    requires Fits(c, m) && Aligned(c) && p < 2 && j < c.nch && (next.Some? ==> next.value < c.nch)
    ensures c.d > 0 && AllCommands(ChunkOf(c, p, j, false, next))
    ensures AllLegal(m, c.d, Effects(ChunkOf(c, p, j, false, next), params)) <==> Provided(c, m)
  {
    hide Fits, Aligned, Legal, Load, Finish, Compute, Effects, AllLegal, ExOf, YWords;
    NonZero(c, m);
    var q := 1 - p % 2;
    var ld := match next case None => [] case Some(n) => Load(c, q, n, false, true);
    ComputeEffects(c, p, params);
    EffectsNone(params);
    OneLegal(m, c.d, Effective(ExOf(c, p), 0));
    ExLegal(c, m, p);
    FinishLegal(c, m, p, j, params);
    if next.Some? { LoadsLegal(c, m, q, next.value, true, params); }
    EffectsBoth([Compute(c, p)], ld, params);
    EffectsBoth([Compute(c, p)] + ld, Finish(c, p, j, false), params);
    LegalBoth(m, c.d, Effects([Compute(c, p)], params), Effects(ld, params));
    LegalBoth(m, c.d, Effects([Compute(c, p)] + ld, params), Effects(Finish(c, p, j, false), params));
  }

  lemma {:induction false} OneLegal(m: Mem, d: nat, e: Effective)
    requires d > 0
    ensures (AllLegal(m, d, [e]) <==> Legal(m, d, e)) && AllLegal(m, d, [])
  {
    hide Legal;
    assert [e][0] == e;
  }

  lemma {:induction false} RestLegal(c: Layer, m: Mem, i: nat, params: Params)
    requires Accepted(c) && Fits(c, m) && Aligned(c) && i <= c.nch
    ensures c.d > 0 && AllCommands(Rest(c, i))
    ensures AllLegal(m, c.d, Effects(Rest(c, i), params)) <==> (i < c.nch ==> Provided(c, m))
    decreases c.nch - i
  {
    hide Fits, Aligned, Effects, AllLegal, Provided, ChunkOf, Accepted, Bank;
    NonZero(c, m);
    if i < c.nch {
      Alternate(c, i);
      OrderInside(c, i);
      RestLegal(c, m, i + 1, params);
      ChunkLegal(c, m, Bank(c, i), c.order[i], Next(c, i), params);
      EffectsBoth(Chunk(c, i, false), Rest(c, i + 1), params);
      LegalBoth(m, c.d, Effects(Chunk(c, i, false), params), Effects(Rest(c, i + 1), params));
    } else {
      EffectsNone(params);
      OneLegal(m, c.d, Effective(ExOf(c, 0), 0));
    }
  }

  lemma {:induction false} OrderInside(c: Layer, i: nat)
    requires Accepted(c) && i < c.nch
    ensures |c.order| == c.nch && c.order[i] < c.nch && (Next(c, i).Some? ==> Next(c, i).value < c.nch)
  {
  }

  /** No command of the layer's list is refused, exactly when the caller provided the strip and the words
      from s_x on. */
  lemma {:induction false} LinearIsLegalIff(c: Layer, m: Mem, params: Params)
    requires Accepted(c) && Fits(c, m) && Aligned(c)
    ensures c.d > 0 && AllCommands(Unrolled(c))
    ensures AllLegal(m, c.d, Effects(Unrolled(c), params)) <==> Provided(c, m)
  {
    hide Fits, Aligned, Effects, AllLegal, Provided, Load, Bank, Accepted, Rest;
    NonZero(c, m);
    Alternate(c, 0);
    OrderInside(c, 0);
    LoadsLegal(c, m, Bank(c, 0), c.order[0], !c.preloaded, params);
    RestLegal(c, m, 0, params);
    EffectsBoth(First(c), Rest(c, 0), params);
    LegalBoth(m, c.d, Effects(First(c), params), Effects(Rest(c, 0), params));
  }

  /** The same for the looped list as the interpreter runs it. */
  lemma {:induction false} LoopedIsLegalIff(c: Layer, m: Mem, params: Params) returns (n: nat)
    requires Accepted(c) && Fits(c, m) && Aligned(c) && InOrder(c) && c.out.ToDdr? && Pairs(c) < COUNT
    requires c.pW != c.pF && c.pW < |params| && c.pF < |params|
    ensures c.d > 0
    ensures var s := Steps(Looped(c), State(0, params, [], []), n);
            && s.Some? && s.value.pc == |Looped(c)| && (AllLegal(m, c.d, s.value.trace) <==> Provided(c, m))
  {
    hide Fits, Aligned, Effects, AllLegal, Provided, Steps, Looped, Unrolled;
    LinearIsLegalIff(c, m, params);
    n := LoopedListRuns(c, params);
  }
}
