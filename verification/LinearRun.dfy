/** The whole list of a linear layer, and the looped form with it: all outputs are the reference's. */
module LinearRun {
  import opened Options
  import opened Dyadic
  import opened Fp32
  import opened LoopMachine
  import opened LinearList
  import opened LinearLoop
  import opened SimOps
  import opened LinearMeaning
  import opened LinearChunk

  /** Between two chunks: the inputs are intact, the chunks computed so far are right, and the next
      chunk's weights and scales are in its banks. */
  predicate Ready(c: Layer, m0: Mem, m: Mem, i: nat)
    requires Accepted(c)
  {
    && Same(c, m0, m) && DoneBefore(c, m0, m, i)
    && (i < c.nch ==> HasWeights(c, m0, m, Bank(c, i), c.order[i]) && HasScales(c, m0, m, Bank(c, i), c.order[i]))
  }

  // ---------------------------------------------------------------- what a command leaves alone

  /** Outputs that are kept stay right. */
  lemma {:induction false} DoneKept(c: Layer, m0: Mem, m: Mem, r: Mem, i: nat)
    requires Accepted(c) && DoneBefore(c, m0, m, i)
    requires forall b: nat, t: nat, x: nat :: b < c.rows && t < Tiles(c) && x < c.d ==>
               OutAt(c, r, b, t, x) == OutAt(c, m, b, t, x)
    ensures DoneBefore(c, m0, r, i)
  {
    hide OutAt, Ref, Tile, Tiles;
    forall h: nat | h < i && h < c.nch ensures ChunkDone(c, m0, r, c.order[h]) {
      assert ChunkDone(c, m0, m, c.order[h]);
      forall b: nat, g: nat, x: nat | b < c.rows && g < c.nc && x < c.d
        ensures OutAt(c, r, b, Tile(c, c.order[h], g), x) == Ref(c, m0, b, Tile(c, c.order[h], g), x)
      {
        TileBelow(c, c.order[h], g);
      }
    }
  }

  /** A change of ACC inside the scratch leaves inputs and outputs alone. */
  lemma {:induction false} ScratchOnly(c: Layer, m0: Mem, m: Mem, r: Mem, lo: nat, n: nat, i: nat)
    requires Fits(c, m0) && Same(c, m0, m) && DoneBefore(c, m0, m, i)
    requires r == m.(acc := r.acc) && Rewritten(m.acc, r.acc, lo, n)
    requires forall w :: lo <= w < lo + n ==> InScratch(c, w)
    ensures Same(c, m0, r) && DoneBefore(c, m0, r, i)
  {
    NonZero(c, m0);
    ScratchSame(c, m0, m, r, lo, n);
    hide Same, DoneBefore, Fits, InScratch, Tiles, Accepted, Lanes, OAddr;
    SameParts(c, m0, m);
    forall b: nat, t: nat, x: nat | b < c.rows && t < Tiles(c) && x < c.d
      ensures OutAt(c, r, b, t, x) == OutAt(c, m, b, t, x)
    {
      if c.out.ToAcc? { OutOfScratch(c, m0, c.out.word + t); }
    }
    DoneKept(c, m0, m, r, i);
  }

  lemma {:induction false} ScratchSame(c: Layer, m0: Mem, m: Mem, r: Mem, lo: nat, n: nat)
    requires Fits(c, m0) && Same(c, m0, m) && r == m.(acc := r.acc) && Rewritten(m.acc, r.acc, lo, n)
    requires forall w :: lo <= w < lo + n ==> InScratch(c, w)
    ensures Same(c, m0, r)
  {
    hide Same, Fits, InScratch;
    OutFits(c, m0);
    SameParts(c, m0, m);
    forall w | c.sx <= w < c.sx + c.rows && w < |m.acc| ensures r.acc[w] == m.acc[w] {
      assert !InScratch(c, w);
    }
    SameAfter(c, m0, m, r);
  }

  lemma {:induction false} SameAfter(c: Layer, m0: Mem, m: Mem, r: Mem)
    requires Same(c, m0, m) && r == m.(acc := r.acc) && |r.acc| == |m.acc|
    requires forall w :: c.sx <= w < c.sx + c.rows && w < |m.acc| ==> r.acc[w] == m.acc[w]
    ensures Same(c, m0, r)
  {
    hide WBytes, FBytes, Cell;
  }

  lemma {:induction false} OutOfScratch(c: Layer, m: Mem, w: nat)
    requires Fits(c, m) && c.out.ToAcc? && c.out.word <= w < c.out.word + Tiles(c)
    ensures w < |m.acc| && !InScratch(c, w)
  {
    hide Lanes, WBytes, FBytes, Accepted, Scratch, Tiles, WordsOf, SxOutside, OutBytes;
  }

  /** A change of SPAD_B leaves inputs and outputs alone. */
  lemma {:induction false} SpadOnly(c: Layer, m0: Mem, m: Mem, r: Mem, i: nat)
    requires Accepted(c) && Same(c, m0, m) && DoneBefore(c, m0, m, i)
    requires r == m.(spadB := r.spadB) && |r.spadB| == |m.spadB|
    ensures Same(c, m0, r) && DoneBefore(c, m0, r, i)
  {
    hide WBytes, FBytes, DoneBefore, Tiles;
    DoneKept(c, m0, m, r, i);
  }

  /** A bank's weights stay when only the other bank is written, and its scales when the words written
      are elsewhere. */
  lemma {:induction false} ScalesStay(c: Layer, m0: Mem, m: Mem, r: Mem, p: nat, j: nat, lo: nat, n: nat)
    requires HasScales(c, m0, m, p, j) && Rewritten(m.acc, r.acc, lo, n)
    requires lo + n <= ScaleAt(c, p) || ScaleAt(c, p) + c.nc <= lo
    ensures HasScales(c, m0, r, p, j)
  {
    hide ScaleAt, ScaleWord;
  }

  lemma {:induction false} WeightsStay(c: Layer, m0: Mem, m: Mem, r: Mem, p: nat, j: nat)
    requires HasWeights(c, m0, m, p, j) && r.spadB == m.spadB
    ensures HasWeights(c, m0, r, p, j)
  {
    hide BankB, WeightWord;
  }

  // ---------------------------------------------------------------- the steps of a chunk

  function AfterEx(c: Layer, m: Mem, p: nat): Mem
    requires c.d > 0
  {
    Perform(m, c.d, Effective(ExOf(c, p), 0))
  }

  function AfterLoads(c: Layer, m: Mem, q: nat, n: nat): Mem
    requires c.d > 0
  {
    Perform(Perform(m, c.d, LoadWeights(c, q, n)), c.d, LoadScales(c, q, n))
  }

  /** Words a .. a + n - 1 of ACC are alike. */
  predicate Alike(m: Mem, r: Mem, a: nat, n: nat) {
    |r.acc| == |m.acc| && forall w :: a <= w < a + n && w < |m.acc| ==> r.acc[w] == m.acc[w]
  }

  /** The LD of the next chunk's scales into the other bank. */
  lemma {:induction false} PrefetchScales(c: Layer, m0: Mem, m: Mem, p: nat, j: nat, q: nat, n: nat, i: nat)
    requires Fits(c, m0) && Same(c, m0, m) && DoneBefore(c, m0, m, i) && HasScales(c, m0, m, p, j)
    requires p < 2 && q < 2 && p != q && n < c.nch && HasWeights(c, m0, m, q, n)
    ensures var r := Perform(m, c.d, LoadScales(c, q, n));
            && Same(c, m0, r) && DoneBefore(c, m0, r, i) && HasScales(c, m0, r, p, j)
            && HasWeights(c, m0, r, q, n) && HasScales(c, m0, r, q, n) && Alike(m, r, BankC(c, p), RowWords(c))
  {
    NonZero(c, m0);
    Banks(c, m0, p);
    Banks(c, m0, q);
    hide Perform, LoadScales, BankB, BankC, ScaleAt, ResultAt, Fits, Accepted, Lanes;
    ScalesLoaded(c, m0, m, q, n);
    var r := Perform(m, c.d, LoadScales(c, q, n));
    hide HasWeights, HasScales, Same, DoneBefore;
    assert Rewritten(m.acc, r.acc, ScaleAt(c, q), c.nc);
    ScratchOnly(c, m0, m, r, ScaleAt(c, q), c.nc, i);
    WeightsStay(c, m0, m, r, q, n);
    ScalesStay(c, m0, m, r, p, j, ScaleAt(c, q), c.nc);
  }

  /** The prefetch into the other bank while chunk j's C rows wait for the VE. */
  lemma {:induction false} PrefetchKeeps(c: Layer, m0: Mem, m: Mem, p: nat, j: nat, q: nat, n: nat, i: nat)
    requires Fits(c, m0) && Same(c, m0, m) && DoneBefore(c, m0, m, i) && HasScales(c, m0, m, p, j)
    requires p < 2 && q < 2 && p != q && n < c.nch
    ensures var r := AfterLoads(c, m, q, n);
            && Same(c, m0, r) && DoneBefore(c, m0, r, i) && HasScales(c, m0, r, p, j)
            && HasWeights(c, m0, r, q, n) && HasScales(c, m0, r, q, n) && Alike(m, r, BankC(c, p), RowWords(c))
  {
    NonZero(c, m0);
    hide Perform, LoadWeights, LoadScales, BankB, BankC, ScaleAt, Fits, Accepted, Lanes, HasWeights, Same, DoneBefore;
    WeightsLoaded(c, m0, m, q, n);
    var m1 := Perform(m, c.d, LoadWeights(c, q, n));
    SpadOnly(c, m0, m, m1, i);
    PrefetchScales(c, m0, m1, p, j, q, n, i);
  }

  /** The EX leaves the inputs, the outputs and the scales alone. */
  lemma {:induction false} ExKeeps(c: Layer, m0: Mem, m: Mem, p: nat, j: nat, i: nat)
    requires Fits(c, m0) && Same(c, m0, m) && DoneBefore(c, m0, m, i) && p < 2
    requires HasWeights(c, m0, m, p, j) && HasScales(c, m0, m, p, j)
    ensures var r := AfterEx(c, m, p);
            && Same(c, m0, r) && DoneBefore(c, m0, r, i) && HasScales(c, m0, r, p, j)
            && HasDots(c, m0, r, p, j)
  {
    hide Perform, BankB, BankC, ScaleAt, ResultAt, Fits, Accepted, Lanes, DotWord, Tile, HasWeights, Same, DoneBefore,
         HasScales, ExOf, HasDots, Scratch, InScratch;
    NonZero(c, m0);
    RowsFit(c, m0);
    ScratchIs(c);
    Banks(c, m0, p);
    ExIsRight(c, m0, m, p, j);
    var r := AfterEx(c, m, p);
    ScratchOnly(c, m0, m, r, BankC(c, p), RowWords(c), i);
    ScalesStay(c, m0, m, r, p, j, BankC(c, p), RowWords(c));
  }

  // ---------------------------------------------------------------- results

  lemma {:induction false} OtherTiles(c: Layer, h: nat, j: nat, g: nat)
    requires h != j && g < c.nc
    ensures Tile(c, h, g) < TileFrom(c, j) || Tile(c, h, g) >= TileFrom(c, j) + c.nc
  {
    if h < j { Below(h, j, c.nc); } else { Below(j, h, c.nc); }
  }

  /** The chunk at position i is not one of those before it. */
  lemma {:induction false} NewChunk(c: Layer, h: nat, i: nat)
    requires Accepted(c) && h < i < c.nch
    ensures c.order[h] != c.order[i]
  {
  }

  /** The place of an ACC output's chunk is apart from the other chunks'. */
  lemma {:induction false} AccResultsKeep(c: Layer, m0: Mem, m: Mem, r: Mem, y: nat, i: nat)
    requires Accepted(c) && Same(c, m0, m) && DoneBefore(c, m0, m, i) && i < c.nch && c.out.ToAcc?
    requires y == c.out.word + TileFrom(c, c.order[i]) && Apart(y, c.nc, c.sx, c.rows)
    requires r == m.(acc := r.acc) && Rewritten(m.acc, r.acc, y, c.nc)
    ensures Same(c, m0, r) && DoneBefore(c, m0, r, i)
  {
    hide WBytes, FBytes, Ref, Tile, TileFrom;
    forall h: nat | h < i && h < c.nch ensures ChunkDone(c, m0, r, c.order[h]) {
      assert ChunkDone(c, m0, m, c.order[h]);
      NewChunk(c, h, i);
      forall b: nat, g: nat, x: nat | b < c.rows && g < c.nc && x < c.d
        ensures OutAt(c, r, b, Tile(c, c.order[h], g), x) == OutAt(c, m, b, Tile(c, c.order[h], g), x)
      {
        OtherTiles(c, c.order[h], c.order[i], g);
      }
    }
  }

  lemma {:induction false} DdrResultsKeep(c: Layer, m0: Mem, m: Mem, r: Mem, p: nat, i: nat)
    requires Fits(c, m0) && Same(c, m0, m) && DoneBefore(c, m0, m, i) && p < 2
    requires r == m.(acc := r.acc) && Rewritten(m.acc, r.acc, ResultAt(c, p), YWords(c))
    ensures Same(c, m0, r) && DoneBefore(c, m0, r, i)
  {
    Banks(c, m0, p);
    hide Fits, Same, DoneBefore, BankC, BankB, ScaleAt, ResultAt, Scratch, InScratch, Accepted;
    ScratchOnly(c, m0, m, r, ResultAt(c, p), YWords(c), i);
  }

  /** The results of chunk order[i], in ACC: in the scratch, or in the chunk's place in the output. */
  lemma {:induction false} ResultsKeep(c: Layer, m0: Mem, m: Mem, r: Mem, p: nat, i: nat)
    requires Fits(c, m0) && Same(c, m0, m) && DoneBefore(c, m0, m, i) && i < c.nch && p < 2
    requires r == m.(acc := r.acc) && Rewritten(m.acc, r.acc, YAt(c, p, c.order[i]), YWords(c))
    ensures Same(c, m0, r) && DoneBefore(c, m0, r, i)
  {
    NonZero(c, m0);
    ResultsFit(c, m0, p, c.order[i]);
    hide Fits, Same, DoneBefore, ResultAt, TileFrom, Tiles, Lanes, Rewritten;
    if c.out.ToDdr? {
      DdrResultsKeep(c, m0, m, r, p, i);
    } else {
      AccResultsKeep(c, m0, m, r, YAt(c, p, c.order[i]), i);
    }
  }

  /** The other bank's scales are not among the results. */
  lemma {:induction false} ResultsApart(c: Layer, m: Mem, p: nat, q: nat, j: nat)
    requires Fits(c, m) && p < 2 && q < 2 && p != q && j < c.nch
    ensures YAt(c, p, j) + YWords(c) <= ScaleAt(c, q) || ScaleAt(c, q) + c.nc <= YAt(c, p, j)
  {
    NonZero(c, m);
    RowsFit(c, m);
    ResultsFit(c, m, p, j);
    Banks(c, m, p);
    Banks(c, m, q);
    if c.out.ToAcc? {
      assert InScratch(c, ScaleAt(c, q)) && InScratch(c, ScaleAt(c, q) + c.nc - 1) by {
        hide Fits, InScratch, ScaleAt, BankC, BankB, ResultAt;
        assert BankC(c, q) <= ScaleAt(c, q) < BankC(c, q) + Scratch(c);
        assert BankC(c, q) <= ScaleAt(c, q) + c.nc - 1 < BankC(c, q) + Scratch(c);
      }
      OutApart(c, m);
      hide Fits, Tiles, ScaleAt, BankC, BankB, ResultAt, YAt, Scratch;
    }
  }

  lemma {:induction false} OutApart(c: Layer, m: Mem)
    requires Fits(c, m) && c.out.ToAcc?
    ensures Apart(c.out.word, Tiles(c), 0, Scratch(c)) && Apart(c.out.word, Tiles(c), c.cb, Scratch(c))
  {
    hide Lanes, WBytes, FBytes, Accepted, Scratch, Tiles, WordsOf, InScratch;
  }

  lemma {:induction false} AccLane(c: Layer, m0: Mem, m: Mem, p: nat, j: nat, g: nat, x: nat)
    requires c.d > 0 && c.rows == 1 && c.out.ToAcc? && HasResults(c, m0, m, YAt(c, p, j), j) && g < c.nc && x < c.d
    ensures OutAt(c, m, 0, Tile(c, j, g), x) == Ref(c, m0, 0, Tile(c, j, g), x)
  {
    hide OutAt, Lane, YAt, RefWord, Ref, Tile, ScaledWord, ScaleWord, DotWord, RefDot, VeMul, Place, YWords;
    WordLanes(c, m0, j, 0, g, x);
    PlaceIs(c, 0, g);
    AccOut(c, m, p, j, g, x);
  }

  lemma {:induction false} AccOut(c: Layer, m: Mem, p: nat, j: nat, g: nat, x: nat)
    requires c.out.ToAcc? && YAt(c, p, j) + Place(c, 0, g) < |m.acc| && x < |m.acc[YAt(c, p, j) + Place(c, 0, g)]|
    ensures OutAt(c, m, 0, Tile(c, j, g), x) == m.acc[YAt(c, p, j) + Place(c, 0, g)][x]
  {
    hide TileFrom;
    assert Place(c, 0, g) == g;
  }

  /** In ACC, the results are a finished chunk. */
  lemma {:induction false} AccDone(c: Layer, m0: Mem, m: Mem, p: nat, j: nat)
    requires c.d > 0 && c.rows == 1 && c.out.ToAcc? && HasResults(c, m0, m, YAt(c, p, j), j)
    ensures ChunkDone(c, m0, m, j)
  {
    hide YAt, OutAt, Ref, Tile, HasResults;
    forall b: nat, g: nat, x: nat | b < c.rows && g < c.nc && x < c.d
      ensures OutAt(c, m, b, Tile(c, j, g), x) == Ref(c, m0, b, Tile(c, j, g), x)
    {
      AccLane(c, m0, m, p, j, g, x);
    }
  }

  /** A DDR output's ST leaves the inputs and the other chunks' outputs alone. */
  lemma {:induction false} StoreKeeps(c: Layer, m0: Mem, m: Mem, r: Mem, i: nat)
    requires Fits(c, m0) && Same(c, m0, m) && DoneBefore(c, m0, m, i) && i < c.nch && c.out.ToDdr?
    requires r == m.(ddr := r.ddr) && |r.ddr| == |m.ddr|
    requires forall a: nat :: OutsideRows(c, c.order[i], a) ==> Cell(r.ddr, a) == Cell(m.ddr, a)
    ensures Same(c, m0, r) && DoneBefore(c, m0, r, i)
  {
    NonZero(c, m0);
    hide Fits, WBytes, FBytes, Ref, Tile, OutsideRows, OutBytes, OutAt, Same;
    StoreSame(c, m0, m, r, c.order[i]);
    forall h: nat | h < i && h < c.nch ensures ChunkDone(c, m0, r, c.order[h]) {
      assert ChunkDone(c, m0, m, c.order[h]);
      NewChunk(c, h, i);
      forall b: nat, g: nat, x: nat | b < c.rows && g < c.nc && x < c.d
        ensures OutAt(c, r, b, Tile(c, c.order[h], g), x) == OutAt(c, m, b, Tile(c, c.order[h], g), x)
      {
        OtherKept(c, m, r, c.order[h], c.order[i], b, g, x);
      }
    }
  }

  lemma {:induction false} StoreSame(c: Layer, m0: Mem, m: Mem, r: Mem, j: nat)
    requires Fits(c, m0) && Same(c, m0, m) && c.out.ToDdr? && j < c.nch
    requires r == m.(ddr := r.ddr) && |r.ddr| == |m.ddr|
    requires forall a: nat :: OutsideRows(c, j, a) ==> Cell(r.ddr, a) == Cell(m.ddr, a)
    ensures Same(c, m0, r)
  {
    NonZero(c, m0);
    DdrFits(c, m0);
    hide Fits, WBytes, FBytes, OutsideRows, OutBytes, Cell, Accepted, Lanes;
    forall a: nat | a < c.out.off || a >= c.out.off + OutBytes(c) ensures Cell(r.ddr, a) == Cell(m.ddr, a) {
      OutsideOutput(c, j, a);
    }
  }

  lemma {:induction false} OtherKept(c: Layer, m: Mem, r: Mem, h: nat, j: nat, b: nat, g: nat, x: nat)
    requires Accepted(c) && c.out.ToDdr? && h != j && h < c.nch && j < c.nch && b < c.rows && g < c.nc && x < c.d
    requires forall a: nat :: OutsideRows(c, j, a) ==> Cell(r.ddr, a) == Cell(m.ddr, a)
    ensures OutAt(c, r, b, Tile(c, h, g), x) == OutAt(c, m, b, Tile(c, h, g), x)
  {
    hide Tile, OAddr, OutsideRows, Cell, Accepted;
    OtherAddresses(c, h, j, b, g, x);
  }

  /** An output of another chunk is in no row of this one's. */
  lemma {:induction false} OtherAddresses(c: Layer, h: nat, j: nat, b: nat, g: nat, x: nat)
    requires Accepted(c) && c.out.ToDdr? && h != j && h < c.nch && j < c.nch && b < c.rows && g < c.nc && x < c.d
    ensures OutsideRows(c, j, OAddr(c, c.out.off, b, Tile(c, h, g)) + 4 * x)
  {
    var a := OAddr(c, c.out.off, b, Tile(c, h, g)) + 4 * x;
    OutIndex(c, h, b, g, x);
    forall r: nat | r < c.rows ensures OffRow(OFrom(c, j), PitchOf(c), FBytes(c), r, a) {
      OtherRow(c, h, j, b, r, 4 * Nth(c, g, x));
    }
  }

  /** Offset o of a row of chunk h is in no row of chunk j. */
  lemma {:induction false} OtherRow(c: Layer, h: nat, j: nat, b: nat, r: nat, o: nat)
    requires Accepted(c) && c.out.ToDdr? && h != j && h < c.nch && j < c.nch && b < c.rows && r < c.rows
             && o < FBytes(c)
    ensures OffRow(OFrom(c, j), PitchOf(c), FBytes(c), r, OFrom(c, h) + b * PitchOf(c) + o)
  {
    hide *;
    var f, pitch := FBytes(c), PitchOf(c);
    Below(h, c.nch, f);
    Below(j, c.nch, f);
    if h < j { Below(h, j, f); } else { Below(j, h, f); }
    if b < r { Below(b, r, pitch); } else if r < b { Below(r, b, pitch); }
    PitchIs(c);
    OffRowIs(c, h, j, b, r, o);
  }

  lemma {:induction false} PitchIs(c: Layer)
    ensures c.rows != 1 ==> PitchOf(c) == c.nch * FBytes(c)
  {
    hide FBytes;
  }

  lemma {:induction false} OffRowIs(c: Layer, h: nat, j: nat, b: nat, r: nat, o: nat)
    requires c.out.ToDdr?
    requires h * FBytes(c) + b * PitchOf(c) + o < j * FBytes(c) + r * PitchOf(c)
             || h * FBytes(c) + b * PitchOf(c) + o >= j * FBytes(c) + r * PitchOf(c) + FBytes(c)
    ensures OffRow(OFrom(c, j), PitchOf(c), FBytes(c), r, OFrom(c, h) + b * PitchOf(c) + o)
  {
    hide FBytes, PitchOf;
  }

  /** A cell outside the output is in no row. */
  lemma {:induction false} OutsideOutput(c: Layer, j: nat, a: nat)
    requires Accepted(c) && c.out.ToDdr? && j < c.nch && (a < c.out.off || a >= c.out.off + OutBytes(c))
    ensures OutsideRows(c, j, a)
  {
    hide FBytes, RowPitch, OutBytes, OAddr, OFrom, PitchOf;
    forall b: nat | b < c.rows ensures OffRow(OFrom(c, j), PitchOf(c), FBytes(c), b, a) {
      OutIndex(c, j, b, 0, 0);
      OffRowOutside(c, j, b, a);
    }
  }

  lemma {:induction false} OffRowOutside(c: Layer, j: nat, b: nat, a: nat)
    requires c.out.ToDdr? && (a < c.out.off || a >= c.out.off + OutBytes(c))
    requires OFrom(c, j) + b * PitchOf(c) + FBytes(c) <= c.out.off + OutBytes(c)
    ensures OffRow(OFrom(c, j), PitchOf(c), FBytes(c), b, a)
  {
    hide FBytes, PitchOf, OutBytes;
  }

  // ---------------------------------------------------------------- one chunk

  /** Results of the chunk at position i from its C rows on: both VEs, and the ST of a DDR output. */
  function AfterFinish(c: Layer, m: Mem, p: nat, j: nat): Mem
    requires c.d > 0
  {
    if c.out.ToDdr? then Perform(AfterVes(c, m, p, j), c.d, StoreOf(c, p, j)) else AfterVes(c, m, p, j)
  }

  lemma {:induction false} DoneMore(c: Layer, m0: Mem, m: Mem, i: nat)
    requires Accepted(c) && i < c.nch && DoneBefore(c, m0, m, i) && ChunkDone(c, m0, m, c.order[i])
    ensures DoneBefore(c, m0, m, i + 1)
  {
    hide ChunkDone;
  }

  lemma {:induction false} FinishIsRight(c: Layer, m0: Mem, m: Mem, p: nat, i: nat)
    requires Fits(c, m0) && Same(c, m0, m) && DoneBefore(c, m0, m, i) && i < c.nch && p < 2
    requires HasScales(c, m0, m, p, c.order[i]) && HasDots(c, m0, m, p, c.order[i])
    ensures var r := AfterFinish(c, m, p, c.order[i]);
            && Same(c, m0, r) && DoneBefore(c, m0, r, i + 1) && r.spadB == m.spadB
            && Rewritten(m.acc, r.acc, YAt(c, p, c.order[i]), YWords(c))
  {
    var j := c.order[i];
    NonZero(c, m0);
    Sx(c, m0, m);
    ResultsFit(c, m0, p, j);
    hide BankC, ScaleAt, YAt, DotWord, RefWord, Tile, Fits, Accepted, Lanes;
    VesAreRight(c, m0, m, p, j);
    var m1 := AfterVes(c, m, p, j);
    hide AfterVes, HasScales;
    ResultsKeep(c, m0, m, m1, p, i);
    if c.out.ToDdr? {
      StIsRight(c, m0, m1, p, j);
      var r := Perform(m1, c.d, StoreOf(c, p, j));
      hide Perform, StoreOf, OFrom;
      StoreKeeps(c, m0, m1, r, i);
      DoneMore(c, m0, r, i);
    } else {
      AccDone(c, m0, m1, p, j);
      DoneMore(c, m0, m1, i);
    }
  }

  /** A chunk with the prefetch of the next one. */
  function AfterChunk(c: Layer, m: Mem, p: nat, j: nat, next: Option<nat>): Mem
    requires c.d > 0
  {
    var m1 := AfterEx(c, m, p);
    AfterFinish(c, match next case None => m1 case Some(n) => AfterLoads(c, m1, 1 - p % 2, n), p, j)
  }

  /** The C rows are kept by what leaves their words alone. */
  lemma {:induction false} RowsAlike(c: Layer, m0: Mem, m: Mem, r: Mem, p: nat, j: nat)
    requires c.d > 0 && c.rows <= c.d && Alike(m, r, BankC(c, p), RowWords(c)) && HasDots(c, m0, m, p, j)
    ensures HasDots(c, m0, r, p, j)
  {
    hide BankC, DotWord, Tile, Place, RowWords;
    forall b: nat, g: nat | b < c.rows && g < c.nc && BankC(c, p) + Place(c, b, g) < |r.acc|
      ensures r.acc[BankC(c, p) + Place(c, b, g)] == DotWord(c, m0, b, Tile(c, j, g))
    {
      PlaceIs(c, b, g);
    }
  }

  function Next(c: Layer, i: nat): Option<nat>
    requires Accepted(c) && i < c.nch
  {
    if i + 1 < c.nch then Some(c.order[i + 1]) else None
  }

  lemma {:induction false} Alternate(c: Layer, i: nat)
    ensures Bank(c, i) < 2 && Bank(c, i + 1) == 1 - Bank(c, i) % 2 && Bank(c, i) != Bank(c, i + 1)
  {
  }

  /** The last chunk. */
  lemma {:induction false} LastChunk(c: Layer, m0: Mem, m: Mem, p: nat, i: nat)
    requires Fits(c, m0) && Accepted(c) && i < c.nch && p < 2 && Same(c, m0, m) && DoneBefore(c, m0, m, i)
    requires HasWeights(c, m0, m, p, c.order[i]) && HasScales(c, m0, m, p, c.order[i])
    ensures var r := AfterChunk(c, m, p, c.order[i], None);
            Same(c, m0, r) && DoneBefore(c, m0, r, i + 1)
  {
    var j := c.order[i];
    NonZero(c, m0);
    hide Fits, Same, DoneBefore, AfterEx, HasWeights, HasScales, HasDots, AfterFinish;
    ExKeeps(c, m0, m, p, j, i);
    FinishIsRight(c, m0, AfterEx(c, m, p), p, i);
  }

  /** The EX of a chunk and the prefetch of the next one. */
  lemma {:induction false} ExAndPrefetch(c: Layer, m0: Mem, m: Mem, p: nat, j: nat, q: nat, i: nat, n: nat)
    requires Fits(c, m0) && Accepted(c) && p < 2 && q < 2 && p != q && n < c.nch
    requires Same(c, m0, m) && DoneBefore(c, m0, m, i) && HasWeights(c, m0, m, p, j) && HasScales(c, m0, m, p, j)
    ensures var r := AfterLoads(c, AfterEx(c, m, p), q, n);
            && Same(c, m0, r) && DoneBefore(c, m0, r, i) && HasScales(c, m0, r, p, j)
            && HasWeights(c, m0, r, q, n) && HasScales(c, m0, r, q, n) && HasDots(c, m0, r, p, j)
  {
    NonZero(c, m0);
    hide Fits, Same, DoneBefore, AfterEx, HasWeights, HasScales, HasDots, Alike, BankC, AfterLoads, RowWords, Accepted;
    ExKeeps(c, m0, m, p, j, i);
    var m1 := AfterEx(c, m, p);
    PrefetchKeeps(c, m0, m1, p, j, q, n, i);
    RowsAlike(c, m0, m1, AfterLoads(c, m1, q, n), p, j);
  }

  lemma {:induction false} MiddleIs(c: Layer, m: Mem, p: nat, j: nat, q: nat, n: nat)
    requires c.d > 0 && p < 2 && q == 1 - p
    ensures AfterChunk(c, m, p, j, Some(n)) == AfterFinish(c, AfterLoads(c, AfterEx(c, m, p), q, n), p, j)
  {
    hide AfterFinish, AfterLoads, AfterEx;
  }

  /** A chunk with a next one, whose weights and scales are in bank q when it ends. */
  lemma {:induction false} MiddleChunk(c: Layer, m0: Mem, m: Mem, p: nat, q: nat, i: nat, n: nat)
    requires Fits(c, m0) && Accepted(c) && i < c.nch && p < 2 && q == 1 - p && n < c.nch
    requires Same(c, m0, m) && DoneBefore(c, m0, m, i)
    requires HasWeights(c, m0, m, p, c.order[i]) && HasScales(c, m0, m, p, c.order[i])
    ensures var r := AfterChunk(c, m, p, c.order[i], Some(n));
            && Same(c, m0, r) && DoneBefore(c, m0, r, i + 1) && HasWeights(c, m0, r, q, n) && HasScales(c, m0, r, q, n)
  {
    var j := c.order[i];
    NonZero(c, m0);
    MiddleIs(c, m, p, j, q, n);
    hide Fits, Same, DoneBefore, AfterEx, HasWeights, HasScales, HasDots, AfterFinish, AfterLoads, Rewritten, YAt,
         YWords, ScaleAt, AfterChunk, Lanes, Accepted;
    ExAndPrefetch(c, m0, m, p, j, q, i, n);
    var m2 := AfterLoads(c, AfterEx(c, m, p), q, n);
    FinishIsRight(c, m0, m2, p, i);
    ResultsApart(c, m0, p, q, j);
    ScalesStay(c, m0, m2, AfterFinish(c, m2, p, j), q, n, YAt(c, p, j), YWords(c));
    WeightsStay(c, m0, m2, AfterFinish(c, m2, p, j), q, n);
  }

  /** A chunk is computed from its own weights while the next one's arrive in the other bank. */
  lemma {:induction false} ChunkStep(c: Layer, m0: Mem, m: Mem, i: nat)
    requires Fits(c, m0) && i < c.nch && Accepted(c) && Ready(c, m0, m, i)
    ensures c.d > 0 && Ready(c, m0, AfterChunk(c, m, Bank(c, i), c.order[i], Next(c, i)), i + 1)
  {
    Alternate(c, i);
    hide Fits, Bank, Same, DoneBefore, AfterChunk, HasWeights, HasScales;
    if i + 1 < c.nch {
      MiddleChunk(c, m0, m, Bank(c, i), Bank(c, i + 1), i, c.order[i + 1]);
    } else {
      LastChunk(c, m0, m, Bank(c, i), i);
    }
  }

  // ---------------------------------------------------------------- the list

  lemma {:induction false} PerformTwo(m: Mem, d: nat, a: Effective, b: Effective)
    requires d > 0
    ensures PerformAll(m, d, [a]) == Perform(m, d, a) && PerformAll(m, d, [a, b]) == Perform(Perform(m, d, a), d, b)
    ensures PerformAll(m, d, []) == m
  {
    hide Perform;
    var m1 := Perform(m, d, a);
    assert [a, b][1..] == [b];
    assert PerformAll(m, d, [a, b]) == PerformAll(m1, d, [b]);
    PerformOne(m, d, a);
    PerformOne(m1, d, b);
  }

  lemma {:induction false} PerformOne(m: Mem, d: nat, a: Effective)
    requires d > 0
    ensures PerformAll(m, d, [a]) == Perform(m, d, a)
  {
    hide Perform;
    assert [a][1..] == [];
    EmptyRun(Perform(m, d, a), d);
  }

  lemma {:induction false} LoadEffects(c: Layer, q: nat, n: nat, params: Params)
    ensures AllCommands(Load(c, q, n, false, true))
    ensures Effects(Load(c, q, n, false, true), params) == [LoadWeights(c, q, n), LoadScales(c, q, n)]
    ensures AllCommands(Load(c, q, n, false, false))
            && Effects(Load(c, q, n, false, false), params) == [LoadScales(c, q, n)]
  {
  }

  lemma {:induction false} ComputeEffects(c: Layer, p: nat, params: Params)
    requires c.d > 0
    ensures AllCommands([Compute(c, p)]) && Effects([Compute(c, p)], params) == [Effective(ExOf(c, p), 0)]
  {
  }

  lemma {:induction false} FinishEffects(c: Layer, p: nat, j: nat, params: Params)
    ensures AllCommands(Finish(c, p, j, false))
    ensures Effects(Finish(c, p, j, false), params)
         == [Effective(Scaled(c, p, j), 0), Effective(Rescaled(c, p, j), 0)] + if c.out.ToDdr? then [StoreOf(c, p, j)]
           else []
  {
    hide FBytes;
  }

  /** The effective commands of a chunk do what the chunk does. */
  lemma {:induction false} ChunkRuns(c: Layer, m: Mem, p: nat, j: nat, next: Option<nat>, params: Params)
    requires c.d > 0
    ensures AllCommands(ChunkOf(c, p, j, false, next))
    ensures PerformAll(m, c.d, Effects(ChunkOf(c, p, j, false, next), params)) == AfterChunk(c, m, p, j, next)
  {
    hide Perform, Load, Finish, Compute, LoadWeights, LoadScales, StoreOf, ExOf, Scaled, Rescaled, Effects;
    var q := 1 - p % 2;
    var ld := match next case None => [] case Some(n) => Load(c, q, n, false, true);
    ComputeEffects(c, p, params);
    FinishEffects(c, p, j, params);
    EffectsNone(params);
    if next.Some? { LoadEffects(c, q, next.value, params); }
    EffectsBoth([Compute(c, p)], ld, params);
    EffectsBoth([Compute(c, p)] + ld, Finish(c, p, j, false), params);
    var x, y, z := Effects([Compute(c, p)], params), Effects(ld, params), Effects(Finish(c, p, j, false), params);
    PerformBoth(m, c.d, x + y, z);
    PerformBoth(m, c.d, x, y);
    var m1 := Perform(m, c.d, Effective(ExOf(c, p), 0));
    PerformTwo(m, c.d, Effective(ExOf(c, p), 0), Effective(ExOf(c, p), 0));
    if next.Some? { PerformTwo(m1, c.d, LoadWeights(c, q, next.value), LoadScales(c, q, next.value)); }
    PerformTwo(m1, c.d, Effective(ExOf(c, p), 0), Effective(ExOf(c, p), 0));
    FinishRuns(c, PerformAll(m1, c.d, y), p, j);
  }

  lemma {:induction false} FinishRuns(c: Layer, m: Mem, p: nat, j: nat)
    requires c.d > 0
    ensures PerformAll(m, c.d, [Effective(Scaled(c, p, j), 0), Effective(Rescaled(c, p, j), 0)]
                               + if c.out.ToDdr? then [StoreOf(c, p, j)] else [])
         == AfterFinish(c, m, p, j)
  {
    hide Perform, StoreOf, Scaled, Rescaled;
    var ves := [Effective(Scaled(c, p, j), 0), Effective(Rescaled(c, p, j), 0)];
    PerformTwo(m, c.d, ves[0], ves[1]);
    if c.out.ToDdr? {
      PerformBoth(m, c.d, ves, [StoreOf(c, p, j)]);
      PerformTwo(AfterVes(c, m, p, j), c.d, StoreOf(c, p, j), StoreOf(c, p, j));
    } else {
      assert ves + [] == ves;
    }
  }

  /** Chunks i .. nch - 1. */
  lemma {:induction false} RestRuns(c: Layer, m0: Mem, m: Mem, i: nat, params: Params)
    requires Fits(c, m0) && Accepted(c) && i <= c.nch && Ready(c, m0, m, i)
    ensures c.d > 0 && AllCommands(Rest(c, i))
    ensures Ready(c, m0, PerformAll(m, c.d, Effects(Rest(c, i), params)), c.nch)
    decreases c.nch - i
  {
    NonZero(c, m0);
    RestCommands(c, i);
    hide Fits, Ready, Effects, PerformAll, AfterChunk, Bank, ChunkOf, Accepted;
    if i < c.nch {
      ChunkStep(c, m0, m, i);
      ChunkRuns(c, m, Bank(c, i), c.order[i], Next(c, i), params);
      var r := AfterChunk(c, m, Bank(c, i), c.order[i], Next(c, i));
      RestRuns(c, m0, r, i + 1, params);
      EffectsBoth(Chunk(c, i, false), Rest(c, i + 1), params);
      PerformBoth(m, c.d, Effects(Chunk(c, i, false), params), Effects(Rest(c, i + 1), params));
    } else {
      EffectsNone(params);
      EmptyRun(m, c.d);
    }
  }

  lemma {:induction false} EmptyRun(m: Mem, d: nat)
    requires d > 0
    ensures PerformAll(m, d, []) == m
  {
  }

  /** With the first chunk's weights loaded, or preloaded by the layer before, the first chunk is ready. */
  lemma {:induction false} FirstReady(c: Layer, m0: Mem, params: Params)
    requires Fits(c, m0) && Accepted(c)
    requires c.preloaded ==> HasWeights(c, m0, m0, Bank(c, 0), 0)
    ensures c.d > 0 && AllCommands(First(c))
    ensures Ready(c, m0, PerformAll(m0, c.d, Effects(First(c), params)), 0)
  {
    NonZero(c, m0);
    var p, j := Bank(c, 0), c.order[0];
    Alternate(c, 0);
    LoadEffects(c, p, j, params);
    hide Fits, Perform, LoadWeights, LoadScales, Bank, HasWeights, HasScales, Effects, Load, DoneBefore, Lanes;
    PerformTwo(m0, c.d, LoadWeights(c, p, j), LoadScales(c, p, j));
    PerformTwo(m0, c.d, LoadScales(c, p, j), LoadScales(c, p, j));
    StartSame(c, m0);
    if c.preloaded {
      ScalesAlone(c, m0, m0, p, j);
    } else {
      WeightsLoaded(c, m0, m0, p, j);
      var m1 := Perform(m0, c.d, LoadWeights(c, p, j));
      SpadOnly(c, m0, m0, m1, 0);
      ScalesAlone(c, m0, m1, p, j);
    }
  }

  lemma {:induction false} StartSame(c: Layer, m0: Mem)
    requires Accepted(c)
    ensures Same(c, m0, m0) && DoneBefore(c, m0, m0, 0)
  {
  }

  lemma {:induction false} ScalesAlone(c: Layer, m0: Mem, m: Mem, p: nat, j: nat)
    requires Fits(c, m0) && Accepted(c) && Same(c, m0, m) && DoneBefore(c, m0, m, 0) && p < 2 && j < c.nch
    requires HasWeights(c, m0, m, p, j)
    ensures var r := Perform(m, c.d, LoadScales(c, p, j));
            Same(c, m0, r) && DoneBefore(c, m0, r, 0) && HasWeights(c, m0, r, p, j) && HasScales(c, m0, r, p, j)
  {
    NonZero(c, m0);
    Banks(c, m0, p);
    hide Perform, LoadScales, BankB, BankC, ScaleAt, ResultAt, Fits, Accepted, Lanes;
    ScalesLoaded(c, m0, m, p, j);
    var r := Perform(m, c.d, LoadScales(c, p, j));
    hide HasWeights, HasScales, Same, DoneBefore;
    assert Rewritten(m.acc, r.acc, ScaleAt(c, p), c.nc);
    ScratchOnly(c, m0, m, r, ScaleAt(c, p), c.nc, 0);
    WeightsStay(c, m0, m, r, p, j);
  }

  /** Every tile is a tile of some chunk. */
  lemma {:induction false} EveryTile(c: Layer, m0: Mem, m: Mem, b: nat, t: nat, x: nat)
    requires Accepted(c) && b < c.rows && DoneBefore(c, m0, m, c.nch) && t < Tiles(c) && x < c.d
    ensures OutAt(c, m, b, t, x) == Ref(c, m0, b, t, x)
  {
    hide OutAt, Ref;
    var j, g := Divide(t, c.nc);
    QuotientBetween(t, c.nc, j, g, 0, c.nch);
    assert j in c.order;
    var h :| 0 <= h < c.nch && c.order[h] == j;
    assert ChunkDone(c, m0, m, c.order[h]);
    assert t == Tile(c, j, g);
  }

  /** For every accepted layer that fits, any order of its chunks, either start bank and preloaded
      weights or not, the list leaves in the output, for every row b, tile t and lane x, the int32 dot
      product of the row's activations with that output's weights as a float, times its weight scale,
      times the row's activation scale; rows of a DDR output are 4 n_out bytes apart. */
  lemma {:induction false} UnrolledComputes(c: Layer, m0: Mem, params: Params, b: nat, t: nat, x: nat)
    requires Accepted(c) && Fits(c, m0) && b < c.rows && t < Tiles(c) && x < c.d
    requires c.preloaded ==> HasWeights(c, m0, m0, Bank(c, 0), 0)
    ensures AllCommands(Unrolled(c))
    ensures OutAt(c, PerformAll(m0, c.d, Effects(Unrolled(c), params)), b, t, x) == Ref(c, m0, b, t, x)
  {
    hide Fits, Ref, OutAt, First, Rest, PerformAll, Effects, Accepted;
    FirstReady(c, m0, params);
    var m1 := PerformAll(m0, c.d, Effects(First(c), params));
    RestRuns(c, m0, m1, 0, params);
    EffectsBoth(First(c), Rest(c, 0), params);
    PerformBoth(m0, c.d, Effects(First(c), params), Effects(Rest(c, 0), params));
    EveryTile(c, m0, PerformAll(m1, c.d, Effects(Rest(c, 0), params)), b, t, x);
  }

  /** So does the looped list, run by the interpreter. */
  lemma {:induction false} LoopedComputes(c: Layer, m0: Mem, params: Params, b: nat, t: nat, x: nat) returns (n: nat)
    requires Accepted(c) && InOrder(c) && c.out.ToDdr? && Pairs(c) < COUNT
    requires c.pW != c.pF && c.pW < |params| && c.pF < |params|
    requires Fits(c, m0) && b < c.rows && t < Tiles(c) && x < c.d
             && (c.preloaded ==> HasWeights(c, m0, m0, Bank(c, 0), 0))
    ensures var s := Steps(Looped(c), State(0, params, [], []), n);
            && s.Some? && s.value.pc == |Looped(c)|
            && OutAt(c, PerformAll(m0, c.d, s.value.trace), b, t, x) == Ref(c, m0, b, t, x)
  {
    hide Fits, Ref, OutAt, PerformAll, Effects, Steps, Looped, Unrolled;
    UnrolledComputes(c, m0, params, b, t, x);
    n := LoopedListRuns(c, params);
  }
}
