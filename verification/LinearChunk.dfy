/** One chunk after the other: the EX reads the chunk's own weights, the prefetch goes to the other
    bank, and the outputs come out as the reference has them. */
module LinearChunk {
  import opened Dyadic
  import opened Fp32
  import opened LoopMachine
  import opened LinearList
  import opened LinearLoop
  import opened SimOps
  import opened LinearMeaning

  // ---------------------------------------------------------------- the EX

  function ExOf(c: Layer, p: nat): Op
    requires c.d > 0
  {
    Ex(c.aStrip, BankB(c, p), BankC(c, p), c.k / c.d, c.nc, c.k, 1, c.nc)
  }

  /** The wrapped dot products of row b and output tile t. */
  function DotWord(c: Layer, m: Mem, b: nat, t: nat): (w: Word)
    requires c.d > 0
    ensures |w| == c.d
  {
    var f: nat -> U32 := x => Bits(RefDot(c, m, b, t, x, c.k));
    seq<U32>(c.d, f)
  }

  lemma {:induction false} WeightInBank(c: Layer, m0: Mem, m: Mem, p: nat, j: nat, g: nat, q: nat, x: nat)
    requires c.d > 0 && HasWeights(c, m0, m, p, j) && g < c.nc && q < c.k && x < c.d
    ensures TileAt(m, BankB(c, p) + g * c.k, q, x) == Weight(c, m0.ddr, Tile(c, j, g), q, x)
  {
    var w := g * c.k + q;
    Below(g, c.nc, c.k);
    WAddrIs(c, j, g, q);
    hide WBytes, BankB, WAddr;
    assert m.spadB[BankB(c, p) + w] == WeightWord(c, m0, j, w);
  }

  lemma {:induction false} DotIs(c: Layer, m0: Mem, m: Mem, p: nat, j: nat, b: nat, g: nat, x: nat, n: nat)
    requires c.d > 0 && HasWeights(c, m0, m, p, j) && m.spadA == m0.spadA && g < c.nc && x < c.d && n <= c.k
    ensures Dot(m, c.d, c.aStrip, b, BankB(c, p) + g * c.k, x, n) == RefDot(c, m0, b, Tile(c, j, g), x, n)
  {
    hide BankB, Tile, HasWeights, TileAt, Weight;
    if n > 0 {
      DotIs(c, m0, m, p, j, b, g, x, n - 1);
      WeightInBank(c, m0, m, p, j, g, n - 1, x);
      assert StripAt(m, c.d, c.aStrip, b, n - 1) == StripAt(m0, c.d, c.aStrip, b, n - 1);
    }
  }

  lemma {:induction false} DotWordIs(c: Layer, m0: Mem, m: Mem, p: nat, j: nat, b: nat, g: nat)
    requires Accepted(c) && HasWeights(c, m0, m, p, j) && m.spadA == m0.spadA && g < c.nc
    ensures ExRow(m, c.d, c.aStrip, b, BankB(c, p) + g * c.k, c.k / c.d * c.d) == DotWord(c, m0, b, Tile(c, j, g))
  {
    assert c.k / c.d * c.d == c.k;
    hide BankB, Tile, HasWeights, Dot, RefDot, Accepted;
    forall x: nat | x < c.d
      ensures Dot(m, c.d, c.aStrip, b, BankB(c, p) + g * c.k, x, c.k) == RefDot(c, m0, b, Tile(c, j, g), x, c.k)
    {
      DotIs(c, m0, m, p, j, b, g, x, c.k);
    }
  }

  lemma {:induction false} CWordIs(c: Layer, p: nat, b: nat, g: nat)
    requires c.d > 0
    ensures CWord(ExOf(c, p), b, g) == BankC(c, p) + Place(c, b, g)
  {
    hide BankB, BankC;
  }

  /** The C rows of chunk j: row b of tile g. */
  predicate HasDots(c: Layer, m0: Mem, m: Mem, p: nat, j: nat)
    requires c.d > 0
  {
    && BankC(c, p) + RowWords(c) <= |m.acc|
    && forall b: nat, g: nat :: b < c.rows && g < c.nc && BankC(c, p) + Place(c, b, g) < |m.acc| ==>
         m.acc[BankC(c, p) + Place(c, b, g)] == DotWord(c, m0, b, Tile(c, j, g))
  }

  /** The words y .. y + n - 1 of ACC may differ, the others are as before. */
  predicate Rewritten(before: seq<Word>, after: seq<Word>, y: nat, n: nat) {
    && |after| == |before|
    && forall w :: 0 <= w < |before| && !(y <= w < y + n) ==> after[w] == before[w]
  }

  lemma {:induction false} DotAtPlace(c: Layer, m0: Mem, m: Mem, p: nat, j: nat, b: nat, g: nat)
    requires Accepted(c) && HasWeights(c, m0, m, p, j) && m.spadA == m0.spadA && b < c.d && g < c.nc
    requires BankC(c, p) + RowWords(c) <= |m.acc|
    ensures BankC(c, p) + Place(c, b, g) < |m.acc|
    ensures ExTiles(m, c.d, ExOf(c, p), c.nc)[BankC(c, p) + Place(c, b, g)] == DotWord(c, m0, b, Tile(c, j, g))
  {
    hide BankB, BankC, HasWeights, ExTiles, DotWord, Tile, Place, CWord, RowWords, ExRow;
    PlaceIs(c, b, g);
    CWordIs(c, p, b, g);
    TilesWritten(m, c.d, ExOf(c, p), c.nc, b, g);
    DotWordIs(c, m0, m, p, j, b, g);
  }

  /** The EX of a chunk whose weights are in the bank: its C rows hold the tiles' dot products with every
      row of activations, and nothing outside the C rows changes. */
  lemma {:induction false} ExIsRight(c: Layer, m0: Mem, m: Mem, p: nat, j: nat)
    requires Fits(c, m0) && Same(c, m0, m) && p < 2 && HasWeights(c, m0, m, p, j)
    ensures var r := Perform(m, c.d, Effective(ExOf(c, p), 0));
            && r == m.(acc := r.acc) && Rewritten(m.acc, r.acc, BankC(c, p), RowWords(c)) && HasDots(c, m0, r, p, j)
  {
    hide BankB, BankC, Fits, Same, HasWeights, ExTiles, DotWord, Tile, ScaleAt, ResultAt, Place, Scratch, Accepted,
         Lanes;
    NonZero(c, m0);
    SameParts(c, m0, m);
    ScratchIs(c);
    Banks(c, m0, p);
    var op, a := ExOf(c, p), BankC(c, p);
    ExPerforms(c, m, p);
    forall b: nat, g: nat | b < c.rows && g < c.nc && a + Place(c, b, g) < |m.acc|
      ensures ExTiles(m, c.d, op, c.nc)[a + Place(c, b, g)] == DotWord(c, m0, b, Tile(c, j, g))
    {
      DotAtPlace(c, m0, m, p, j, b, g);
    }
    forall w: nat | w < |m.acc| && !(a <= w < a + RowWords(c)) ensures ExTiles(m, c.d, op, c.nc)[w] == m.acc[w] {
      TilesKept(m, c.d, op, c.nc, w);
    }
  }

  lemma {:induction false} ExPerforms(c: Layer, m: Mem, p: nat)
    requires c.d > 0
    ensures Perform(m, c.d, Effective(ExOf(c, p), 0)) == m.(acc := ExTiles(m, c.d, ExOf(c, p), c.nc))
    ensures ExOf(c, p).crow == c.nc && ExOf(c, p).c == BankC(c, p) && c.d * c.nc == RowWords(c)
  {
    hide ExTiles, BankC, BankB;
  }

  lemma {:induction false} ScratchIs(c: Layer)
    ensures Scratch(c) == RowWords(c) + c.nc + YWords(c)
  {
  }

  lemma {:induction false} NonZero(c: Layer, m: Mem)
    requires Fits(c, m)
    ensures c.d > 0 && c.nc > 0 && c.nch > 0 && c.k > 0 && c.k % c.d == 0 && Accepted(c) && Lanes(m, c.d)
    ensures 0 < c.rows <= c.d && (c.rows > 1 ==> c.out.ToDdr?)
  {
    hide Lanes, WBytes, FBytes, InScratch, Scratch, Tiles, WordsOf, OutBytes, SxOutside;
  }

  lemma {:induction false} SameParts(c: Layer, m0: Mem, m: Mem)
    requires Same(c, m0, m)
    ensures m.spadA == m0.spadA && |m.spadB| == |m0.spadB| && |m.acc| == |m0.acc| && |m.ddr| == |m0.ddr|
  {
    hide WBytes, FBytes;
  }

  lemma {:induction false} RowsFit(c: Layer, m: Mem)
    requires Fits(c, m)
    ensures c.nc <= YWords(c) <= RowWords(c) && c.d > 0 && c.nc > 0
  {
    hide Fits;
    NonZero(c, m);
    MulUp(1, c.rows, c.nc);
    MulUp(c.rows, c.d, c.nc);
  }

  // ---------------------------------------------------------------- the VE

  function Scaled(c: Layer, p: nat, j: nat): Op {
    Ve(BankC(c, p), ScaleAt(c, p), YAt(c, p, j), YWords(c), true, true, if c.rows == 1 then 0 else c.nc)
  }

  function Rescaled(c: Layer, p: nat, j: nat): Op {
    Ve(YAt(c, p, j), c.sx, YAt(c, p, j), YWords(c), false, false, c.nc)
  }

  /** First word of the chunk's results. */
  function YAt(c: Layer, p: nat, j: nat): nat {
    match c.out
    case ToAcc(word) => word + TileFrom(c, j)
    case ToDdr(_) => ResultAt(c, p)
  }

  lemma {:induction false} OutFits(c: Layer, m: Mem)
    requires Fits(c, m)
    ensures SxOutside(c, m)
    ensures c.out.ToAcc? ==> c.out.word + Tiles(c) <= |m.acc| && Apart(c.out.word, Tiles(c), c.sx, 1) && c.rows == 1
  {
    hide Lanes, WBytes, FBytes, InScratch, Scratch, Tiles, WordsOf, OutBytes, SxOutside;
  }

  /** The results of a chunk are inside ACC and away from s_x; an ACC output's are inside the output. */
  lemma {:induction false} ResultsFit(c: Layer, m: Mem, p: nat, j: nat)
    requires Fits(c, m) && p < 2 && j < c.nch
    ensures YAt(c, p, j) + YWords(c) <= |m.acc|
    ensures Apart(YAt(c, p, j), YWords(c), c.sx, c.rows)
    ensures c.out.ToAcc? ==>
              c.out.word <= YAt(c, p, j) && YAt(c, p, j) + c.nc <= c.out.word + Tiles(c) && YWords(c) == c.nc
    ensures c.out.ToDdr? ==> YAt(c, p, j) == ResultAt(c, p)
  {
    hide BankB, BankC, ScaleAt, ResultAt, Fits, InScratch, Scratch, Tiles, TileFrom;
    Banks(c, m, p);
    NonZero(c, m);
    RowsFit(c, m);
    ScratchIs(c);
    TileBelow(c, j, 0);
    TileIs(c, j);
    OutFits(c, m);
    if c.out.ToDdr? {
      forall w | ResultAt(c, p) <= w < ResultAt(c, p) + YWords(c) ensures InScratch(c, w) {
        assert BankC(c, p) <= w < BankC(c, p) + Scratch(c);
      }
      NotCommon(c, m, ResultAt(c, p), YWords(c));
    }
  }

  lemma {:induction false} NotCommon(c: Layer, m: Mem, y: nat, n: nat)
    requires SxOutside(c, m) && forall w :: y <= w < y + n ==> InScratch(c, w)
    ensures n > 0 && c.rows > 0 ==> Apart(y, n, c.sx, c.rows)
  {
    hide InScratch;
    var w := if y >= c.sx then y else c.sx;
    assert y <= w < y + n ==> InScratch(c, w);
  }

  lemma {:induction false} TileIs(c: Layer, j: nat)
    ensures Tile(c, j, 0) == TileFrom(c, j)
  {
  }

  /** A VE of groups words: the words of the destination are computed from the memory before. */
  lemma {:induction false} VeWrites(m: Mem, d: nat, op: Op)
    requires d > 0 && op.Ve? && op.dst + op.groups <= |m.acc|
    ensures var r := Perform(m, d, Effective(op, 0));
            && r == m.(acc := r.acc) && Rewritten(m.acc, r.acc, op.dst, op.groups)
            && (forall h: nat :: h < op.groups ==> r.acc[op.dst + h] == VeWord(m.acc, d, op, h))
  {
    hide VeWord;
    var f: nat -> Word := g => VeWord(m.acc, d, op, g);
    var r := Perform(m, d, Effective(op, 0));
    assert r.acc == Put(m.acc, op.dst, op.groups, f);
    forall h: nat | h < op.groups ensures r.acc[op.dst + h] == VeWord(m.acc, d, op, h) {
      assert Put(m.acc, op.dst, op.groups, f)[op.dst + h] == f(h);
    }
  }

  /** A tile's dot products times its weight scales. */
  function ScaledWord(c: Layer, m: Mem, b: nat, t: nat): (w: Word)
    requires c.d > 0
    ensures |w| == c.d
  {
    var f: nat -> U32 := x => VeMul(FromInt(S32(Bits(RefDot(c, m, b, t, x, c.k)))), Cell(m.ddr, SAddr(c, t) + 4 * x));
    seq<U32>(c.d, f)
  }

  function RefWord(c: Layer, m: Mem, b: nat, t: nat): (w: Word)
    requires c.d > 0
    ensures |w| == c.d
  {
    var f: nat -> U32 := x => Ref(c, m, b, t, x);
    seq<U32>(c.d, f)
  }

  lemma {:induction false} VeLane(acc: seq<Word>, d: nat, op: Op, g: nat, x: nat)
    requires op.Ve? && x < d
    ensures VeWord(acc, d, op, g)[x]
         == VeMul(if op.ints then FromInt(S32(Lane(acc, op.src1 + g, x))) else Lane(acc, op.src1 + g, x),
                  Lane(acc, op.src2 + SecondOf(op, g), x))
  {
    hide VeMul, FromInt, SecondOf;
  }

  lemma {:induction false} WordLanes(c: Layer, m: Mem, j: nat, b: nat, g: nat, x: nat)
    requires c.d > 0 && x < c.d
    ensures var t := Tile(c, j, g);
            && DotWord(c, m, b, t)[x] == Bits(RefDot(c, m, b, t, x, c.k))
            && ScaleWord(c, m, j, g)[x] == Cell(m.ddr, SAddr(c, t) + 4 * x)
            && ScaledWord(c, m, b, t)[x] == VeMul(FromInt(S32(DotWord(c, m, b, t)[x])), ScaleWord(c, m, j, g)[x])
            && RefWord(c, m, b, t)[x] == VeMul(ScaledWord(c, m, b, t)[x], Lane(m.acc, c.sx + b, x))
               == Ref(c, m, b, t, x)
  {
    hide VeMul, FromInt, RefDot;
    SAddrIs(c.swOff, c.d, c.nc, j, g);
    assert SFrom(c, j) + g * (4 * c.d) == SAddr(c, Tile(c, j, g));
  }

  /** The weight scales go with the tiles, the activation scales with the rows. */
  lemma {:induction false} SecondsAre(c: Layer, p: nat, j: nat, b: nat, g: nat)
    requires b < c.rows && g < c.nc
    ensures SecondOf(Scaled(c, p, j), Place(c, b, g)) == g && SecondOf(Rescaled(c, p, j), Place(c, b, g)) == b
  {
    PlaceIs(c, b, g);
    hide YAt, BankC, ScaleAt;
  }

  lemma {:induction false} ScaledIs(c: Layer, m0: Mem, acc: seq<Word>, p: nat, j: nat, b: nat, g: nat)
    requires c.d > 0 && b < c.rows && g < c.nc && BankC(c, p) + Place(c, b, g) < |acc| && ScaleAt(c, p) + g < |acc|
    requires acc[BankC(c, p) + Place(c, b, g)] == DotWord(c, m0, b, Tile(c, j, g))
    requires acc[ScaleAt(c, p) + g] == ScaleWord(c, m0, j, g)
    ensures VeWord(acc, c.d, Scaled(c, p, j), Place(c, b, g)) == ScaledWord(c, m0, b, Tile(c, j, g))
  {
    hide BankC, ScaleAt, Tile, YAt, VeMul, FromInt, VeWord, ScaledWord, DotWord, ScaleWord, Ref, RefWord, RefDot,
         SAddr, Place, SecondOf;
    var v, s := VeWord(acc, c.d, Scaled(c, p, j), Place(c, b, g)), ScaledWord(c, m0, b, Tile(c, j, g));
    SecondsAre(c, p, j, b, g);
    forall x: nat | x < c.d ensures v[x] == s[x] {
      VeLane(acc, c.d, Scaled(c, p, j), Place(c, b, g), x);
      WordLanes(c, m0, j, b, g, x);
      assert Lane(acc, BankC(c, p) + Place(c, b, g), x) == DotWord(c, m0, b, Tile(c, j, g))[x];
      assert Lane(acc, ScaleAt(c, p) + g, x) == ScaleWord(c, m0, j, g)[x];
    }
  }

  lemma {:induction false} RescaledIs(c: Layer, m0: Mem, acc: seq<Word>, p: nat, j: nat, b: nat, g: nat)
    requires c.d > 0 && b < c.rows && g < c.nc && YAt(c, p, j) + Place(c, b, g) < |acc|
    requires c.sx + b < |acc| && c.sx + b < |m0.acc| && acc[c.sx + b] == m0.acc[c.sx + b] && |m0.acc[c.sx + b]| == c.d
    requires acc[YAt(c, p, j) + Place(c, b, g)] == ScaledWord(c, m0, b, Tile(c, j, g))
    ensures VeWord(acc, c.d, Rescaled(c, p, j), Place(c, b, g)) == RefWord(c, m0, b, Tile(c, j, g))
  {
    hide YAt, Tile, VeMul, FromInt, VeWord, ScaledWord, RefWord, Ref, Place, SecondOf;
    var v, s := VeWord(acc, c.d, Rescaled(c, p, j), Place(c, b, g)), RefWord(c, m0, b, Tile(c, j, g));
    SecondsAre(c, p, j, b, g);
    forall x: nat | x < c.d ensures v[x] == s[x] {
      VeLane(acc, c.d, Rescaled(c, p, j), Place(c, b, g), x);
      WordLanes(c, m0, j, b, g, x);
    }
  }

  /** The words from y on: row b of tile g of chunk j, scaled by s_w, and by s_x too. */
  predicate HasScaled(c: Layer, m0: Mem, m: Mem, y: nat, j: nat)
    requires c.d > 0
  {
    && y + YWords(c) <= |m.acc|
    && forall b: nat, g: nat :: b < c.rows && g < c.nc && y + Place(c, b, g) < |m.acc| ==>
         m.acc[y + Place(c, b, g)] == ScaledWord(c, m0, b, Tile(c, j, g))
  }

  predicate HasResults(c: Layer, m0: Mem, m: Mem, y: nat, j: nat)
    requires c.d > 0
  {
    && y + YWords(c) <= |m.acc|
    && forall b: nat, g: nat :: b < c.rows && g < c.nc && y + Place(c, b, g) < |m.acc| ==>
         m.acc[y + Place(c, b, g)] == RefWord(c, m0, b, Tile(c, j, g))
  }

  /** The VE that multiplies a chunk's dot products by the weight scales. */
  lemma {:induction false} ScaleStep(c: Layer, m0: Mem, m: Mem, p: nat, j: nat)
    requires c.d > 0 && c.rows <= c.d && HasScales(c, m0, m, p, j) && HasDots(c, m0, m, p, j)
    requires YAt(c, p, j) + YWords(c) <= |m.acc|
    ensures var r := Perform(m, c.d, Effective(Scaled(c, p, j), 0));
            && r == m.(acc := r.acc) && Rewritten(m.acc, r.acc, YAt(c, p, j), YWords(c))
               && HasScaled(c, m0, r, YAt(c, p, j), j)
  {
    hide Perform, BankC, ScaleAt, YAt, DotWord, ScaledWord, VeWord, Tile, ScaleWord, Place, YWords, RowWords;
    VeWrites(m, c.d, Scaled(c, p, j));
    forall b: nat, g: nat | b < c.rows && g < c.nc
      ensures Place(c, b, g) < YWords(c)
      ensures VeWord(m.acc, c.d, Scaled(c, p, j), Place(c, b, g)) == ScaledWord(c, m0, b, Tile(c, j, g))
    {
      PlaceIs(c, b, g);
      ScaledIs(c, m0, m.acc, p, j, b, g);
    }
  }

  predicate HasSx(c: Layer, m0: Mem, m: Mem) {
    && c.sx + c.rows <= |m.acc| == |m0.acc|
    && forall w :: c.sx <= w < c.sx + c.rows ==> m.acc[w] == m0.acc[w] && |m0.acc[w]| == c.d
  }

  /** The VE that multiplies them by the activation scales. */
  lemma {:induction false} RescaleStep(c: Layer, m0: Mem, m: Mem, p: nat, j: nat)
    requires c.d > 0 && HasSx(c, m0, m) && HasScaled(c, m0, m, YAt(c, p, j), j)
    ensures var r := Perform(m, c.d, Effective(Rescaled(c, p, j), 0));
            && r == m.(acc := r.acc) && Rewritten(m.acc, r.acc, YAt(c, p, j), YWords(c))
               && HasResults(c, m0, r, YAt(c, p, j), j)
  {
    hide Perform, YAt, ScaledWord, RefWord, VeWord, Tile, Place, YWords;
    VeWrites(m, c.d, Rescaled(c, p, j));
    forall b: nat, g: nat | b < c.rows && g < c.nc
      ensures Place(c, b, g) < YWords(c)
      ensures VeWord(m.acc, c.d, Rescaled(c, p, j), Place(c, b, g)) == RefWord(c, m0, b, Tile(c, j, g))
    {
      PlaceIs(c, b, g);
      RescaledIs(c, m0, m.acc, p, j, b, g);
    }
  }

  function AfterVes(c: Layer, m: Mem, p: nat, j: nat): Mem
    requires c.d > 0
  {
    Perform(Perform(m, c.d, Effective(Scaled(c, p, j), 0)), c.d, Effective(Rescaled(c, p, j), 0))
  }

  /** The two VEs of a chunk: its results hold the outputs of every row and tile; nothing else changes. */
  lemma {:induction false} VesAreRight(c: Layer, m0: Mem, m: Mem, p: nat, j: nat)
    requires Fits(c, m0) && Same(c, m0, m) && p < 2 && j < c.nch && HasScales(c, m0, m, p, j) && HasDots(c, m0, m, p, j)
    ensures c.d > 0
    ensures var r := AfterVes(c, m, p, j);
            && r == m.(acc := r.acc) && Rewritten(m.acc, r.acc, YAt(c, p, j), YWords(c))
               && HasResults(c, m0, r, YAt(c, p, j), j)
  {
    hide Fits, Same, Perform, BankC, ScaleAt, YAt, HasScales, HasDots, HasScaled, HasResults, Accepted, Lanes, Scaled,
         Rescaled, YWords, HasSx, SxOutside;
    NonZero(c, m0);
    SameParts(c, m0, m);
    ResultsFit(c, m0, p, j);
    Sx(c, m0, m);
    ScaleStep(c, m0, m, p, j);
    var m1 := Perform(m, c.d, Effective(Scaled(c, p, j), 0));
    SxKept(c, m0, m, m1, YAt(c, p, j), YWords(c));
    RescaleStep(c, m0, m1, p, j);
    RewrittenTwice(m.acc, m1.acc, AfterVes(c, m, p, j).acc, YAt(c, p, j), YWords(c));
  }

  lemma {:induction false} RewrittenTwice(a: seq<Word>, b: seq<Word>, z: seq<Word>, y: nat, n: nat)
    requires Rewritten(a, b, y, n) && Rewritten(b, z, y, n)
    ensures Rewritten(a, z, y, n)
  {
  }

  lemma {:induction false} SxKept(c: Layer, m0: Mem, m: Mem, r: Mem, y: nat, n: nat)
    requires HasSx(c, m0, m) && Rewritten(m.acc, r.acc, y, n)
    requires Apart(y, n, c.sx, c.rows)
    ensures HasSx(c, m0, r)
  {
  }

  lemma {:induction false} Sx(c: Layer, m0: Mem, m: Mem)
    requires Fits(c, m0) && Same(c, m0, m)
    ensures HasSx(c, m0, m)
  {
    hide WBytes, FBytes, Accepted, InScratch, Scratch, Tiles, WordsOf, Apart, OutBytes;
  }

  // ---------------------------------------------------------------- the ST

  /** Bytes from one output row to the next. */
  function PitchOf(c: Layer): nat {
    if c.rows == 1 then FBytes(c) else RowPitch(c)
  }

  function StoreOf(c: Layer, p: nat, j: nat): Effective
    requires c.out.ToDdr?
  {
    Effective(St(YAt(c, p, j), c.rows, FBytes(c), PitchOf(c)), OFrom(c, j) % LoopMachine.M32)
  }

  function OFrom(c: Layer, j: nat): nat
    requires c.out.ToDdr?
  {
    c.out.off + j * FBytes(c)
  }

  /** Which of the chunk's values in a row output x of tile g is. */
  function Nth(c: Layer, g: nat, x: nat): nat {
    g * c.d + x
  }

  /** Where output x of tile g of chunk j is among the chunk's values of row b and in DDR. */
  lemma {:induction false} OutIndex(c: Layer, j: nat, b: nat, g: nat, x: nat)
    requires c.out.ToDdr? && c.d > 0 && b < c.rows && g < c.nc && x < c.d && j < c.nch
    ensures var n := Nth(c, g, x);
            && n / c.d == g && n % c.d == x && 4 * n < FBytes(c)
            && OAddr(c, c.out.off, b, Tile(c, j, g)) + 4 * x == OFrom(c, j) + b * PitchOf(c) + 4 * n
            && j * FBytes(c) + FBytes(c) <= RowPitch(c)
            && OFrom(c, j) + b * PitchOf(c) + FBytes(c) <= c.out.off + b * RowPitch(c) + RowPitch(c)
               <= c.out.off + OutBytes(c)
  {
    var n := g * c.d + x;
    QuotientIs(n, c.d, g, x);
    SAddrIs(c.out.off, c.d, c.nc, j, g);
    Below(g, c.nc, c.d);
    Below(j, c.nch, FBytes(c));
    Below(b, c.rows, RowPitch(c));
    FBytesIs(c);
    Associate(4, c.nc, c.d);
    Commute(4, g * c.d);
    Associate(g, c.d, 4);
    Commute(c.d, 4);
  }

  lemma {:induction false} DdrFits(c: Layer, m: Mem)
    requires Fits(c, m) && c.out.ToDdr?
    ensures c.out.off + OutBytes(c) <= |m.ddr| <= LoopMachine.M32
    ensures Apart(c.out.off, OutBytes(c), c.wOff, c.nch * WBytes(c))
    ensures Apart(c.out.off, OutBytes(c), c.swOff, c.nch * FBytes(c))
  {
    hide WBytes, FBytes, InScratch, Scratch, Tiles, WordsOf, Lanes, Accepted, OutBytes, SxOutside;
  }

  /** A chunk's output starts inside DDR. */
  lemma {:induction false} StartsInside(c: Layer, m: Mem, j: nat)
    requires Fits(c, m) && c.out.ToDdr? && j < c.nch
    ensures OFrom(c, j) < LoopMachine.M32
  {
    hide Fits;
    NonZero(c, m);
    WBytesPositive(c);
    DdrFits(c, m);
    OutIndex(c, j, 0, 0, 0);
    hide FBytes, OAddr, OutBytes, RowPitch;
  }

  lemma {:induction false} StoreIs(c: Layer, m: Mem, p: nat, j: nat)
    requires c.out.ToDdr? && c.d > 0 && OFrom(c, j) < LoopMachine.M32
    ensures Perform(m, c.d, StoreOf(c, p, j)) == DoSt(m, c.d, YAt(c, p, j), c.rows, FBytes(c), PitchOf(c), OFrom(c, j))
  {
    hide DoSt, YAt, FBytes, OFrom, PitchOf;
  }

  /** A row of a chunk is nc words. */
  lemma {:induction false} RowLengthIs(c: Layer)
    requires c.d > 0
    ensures RowLength(c.d, FBytes(c)) == c.nc
  {
    FBytesIs(c);
    QuotientIs(FBytes(c) + 4 * c.d - 1, 4 * c.d, c.nc, 4 * c.d - 1);
  }

  lemma {:induction false} PitchFits(c: Layer, j: nat)
    requires Accepted(c) && j < c.nch
    ensures c.rows == 1 || FBytes(c) <= PitchOf(c)
  {
    MulUp(1, c.nch, FBytes(c));
  }

  lemma {:induction false} StoredOut(c: Layer, m0: Mem, m: Mem, p: nat, j: nat, b: nat, g: nat, x: nat)
    requires Fits(c, m0) && c.out.ToDdr? && c.d > 0 && j < c.nch && b < c.rows && g < c.nc && x < c.d
             && |m.ddr| == |m0.ddr|
    requires HasResults(c, m0, m, YAt(c, p, j), j)
    ensures OutAt(c, Perform(m, c.d, StoreOf(c, p, j)), b, Tile(c, j, g), x) == Ref(c, m0, b, Tile(c, j, g), x)
  {
    hide Fits, YAt, RefWord, FBytes, OFrom, WBytes, Tile, OAddr, Ref, ScaledWord, DotWord, ScaleWord, SAddr, RefDot,
         Nth, VeMul, Place, YWords, PitchOf, RowPitch, OutBytes, Perform, StoreOf, StRows, RowLength, Accepted, Lanes;
    NonZero(c, m0);
    DdrFits(c, m0);
    StartsInside(c, m0, j);
    StoreIs(c, m, p, j);
    OutIndex(c, j, b, g, x);
    WordLanes(c, m0, j, b, g, x);
    RowLengthIs(c);
    PitchFits(c, j);
    PlaceIs(c, b, g);
    var n := Nth(c, g, x);
    RowsStored(m.acc, m.ddr, c.d, YAt(c, p, j), c.rows, FBytes(c), PitchOf(c), OFrom(c, j), b, n);
    ValueIs(c, m.acc, YAt(c, p, j), b, g, x);
  }

  lemma {:induction false} ValueIs(c: Layer, acc: seq<Word>, y: nat, b: nat, g: nat, x: nat)
    requires c.d > 0 && Nth(c, g, x) / c.d == g && Nth(c, g, x) % c.d == x && y + Place(c, b, g) < |acc|
    ensures Value(acc, c.d, y + b * c.nc, Nth(c, g, x)) == Lane(acc, y + Place(c, b, g), x)
  {
    hide Nth;
  }

  /** a is in no row of chunk j's output. */
  predicate OutsideRows(c: Layer, j: nat, a: nat)
    requires c.out.ToDdr?
  {
    forall b: nat :: b < c.rows ==> OffRow(OFrom(c, j), PitchOf(c), FBytes(c), b, a)
  }

  /** The ST of a chunk's results: its outputs are in DDR, everything outside its rows is kept. */
  lemma {:induction false} StIsRight(c: Layer, m0: Mem, m: Mem, p: nat, j: nat)
    requires Fits(c, m0) && c.out.ToDdr? && p < 2 && j < c.nch && |m.ddr| == |m0.ddr| && c.d > 0
    requires HasResults(c, m0, m, YAt(c, p, j), j)
    ensures var r := Perform(m, c.d, StoreOf(c, p, j));
            && r == m.(ddr := r.ddr) && |r.ddr| == |m.ddr| && ChunkDone(c, m0, r, j)
            && (forall a: nat :: OutsideRows(c, j, a) ==> Cell(r.ddr, a) == Cell(m.ddr, a))
  {
    hide YAt, Perform, Fits, FBytes, OFrom, WBytes, Tile, Ref, StoreOf, Accepted, Lanes, Apart, OutAt, PitchOf,
         HasResults, StRows, OffRow;
    StartsInside(c, m0, j);
    StoreIs(c, m, p, j);
    var r := Perform(m, c.d, StoreOf(c, p, j));
    forall a: nat | OutsideRows(c, j, a) ensures Cell(r.ddr, a) == Cell(m.ddr, a) {
      StoreKept(m.acc, m.ddr, c.d, YAt(c, p, j), c.rows, FBytes(c), PitchOf(c), OFrom(c, j), a);
    }
    forall b: nat, g: nat, x: nat | b < c.rows && g < c.nc && x < c.d
      ensures OutAt(c, r, b, Tile(c, j, g), x) == Ref(c, m0, b, Tile(c, j, g), x)
    {
      StoredOut(c, m0, m, p, j, b, g, x);
    }
  }
}
