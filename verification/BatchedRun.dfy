/** The whole list of a batched linear layer: every sequence's row of every output matrix is what the
    layer computes for that sequence alone. */
module BatchedRun {
  import opened Dyadic
  import opened MatrixMachine
  import opened MatrixSteps
  import opened Batched
  import opened BatchedSteps
  import G = GemmMeaning
  import Fp32
  import SimOps
  import LinearList
  import LinearMeaning
  import LoopMachine
  import LinearLoop
  import LinearRun

  // ---------------------------------------------------------------- segments and chunks

  lemma {:induction false} FirstOrder(segs: seq<Seg>, s: nat, h: nat)
    requires s < h <= |segs|
    ensures First(segs, s) + segs[s].tiles <= First(segs, h)
    decreases h
  {
    if s < h - 1 { FirstOrder(segs, s, h - 1); }
  }

  /** A tile belongs to one segment. */
  lemma {:induction false} OneSegment(segs: seq<Seg>, s: nat, t: nat, h: nat, u: nat)
    requires s < |segs| && h < |segs| && t < segs[s].tiles && u < segs[h].tiles
             && First(segs, s) + t == First(segs, h) + u
    ensures s == h && t == u
  {
    if s < h { FirstOrder(segs, s, h); }
    if h < s { FirstOrder(segs, h, s); }
  }

  lemma {:induction false} SegPlaceAt(g: Seg, nc: nat, n: nat, j: nat)
    requires j < n
    ensures SegPlaces(g, nc, n)[j] == Place(g.base + j * nc, g.tiles)
  {
    if j < n - 1 { SegPlaceAt(g, nc, n - 1, j); }
  }

  /** Every segment is a whole number of chunks. */
  predicate Chunked(segs: seq<Seg>, nc: nat) {
    nc > 0 && forall s :: 0 <= s < |segs| ==> Divides(nc, segs[s].tiles)
  }

  lemma {:induction false} WholeChunks(segs: seq<Seg>, nc: nat, s: nat)
    requires Chunked(segs, nc) && s < |segs|
    ensures segs[s].tiles / nc * nc == segs[s].tiles
  {
    assert Divides(nc, segs[s].tiles);
  }

  lemma {:induction false} WhereLength(segs: seq<Seg>, nc: nat, s: nat)
    requires Chunked(segs, nc) && s <= |segs|
    ensures |Where(segs, nc, s)| * nc == First(segs, s)
  {
    if s > 0 {
      WhereLength(segs, nc, s - 1);
      WholeChunks(segs, nc, s - 1);
      Distribute(|Where(segs, nc, s - 1)|, 1, segs[s - 1].tiles / nc, nc);
    }
  }

  /** Where chunk j is: chunk i of segment s. */
  ghost predicate IsChunk(segs: seq<Seg>, nc: nat, places: seq<Place>, j: nat, s: nat, i: nat) {
    && j < |places| && s < |segs| && i * nc + nc <= segs[s].tiles
    && places[j] == Place(segs[s].base + i * nc, segs[s].tiles) && j * nc == First(segs, s) + i * nc
  }

  lemma {:induction false} FindChunk(segs: seq<Seg>, nc: nat, n: nat, j: nat) returns (s: nat, i: nat)
    requires Chunked(segs, nc) && n <= |segs| && j < |Where(segs, nc, n)|
    ensures s < n && IsChunk(segs, nc, Where(segs, nc, n), j, s, i)
  {
    var before := Where(segs, nc, n - 1);
    if j < |before| {
      s, i := FindChunk(segs, nc, n - 1, j);
    } else {
      s, i := n - 1, j - |before|;
      var places := SegPlaces(segs[s], nc, segs[s].tiles / nc);
      assert Where(segs, nc, n) == before + places && i < segs[s].tiles / nc;
      WhereLength(segs, nc, n - 1);
      hide Where, First, SegPlaces, Chunked;
      SegPlaceAt(segs[s], nc, segs[s].tiles / nc, i);
      ChunkEnds(segs, nc, s, i);
      SplitProduct(j, |before|, i, nc);
    }
  }

  lemma {:induction false} SplitProduct(j: int, a: int, b: int, n: int)
    requires j == a + b
    ensures j * n == a * n + b * n
  {
  }

  lemma {:induction false} ChunkEnds(segs: seq<Seg>, nc: nat, s: nat, i: nat)
    requires Chunked(segs, nc) && s < |segs| && i < segs[s].tiles / nc
    ensures i * nc + nc <= segs[s].tiles
  {
    WholeChunks(segs, nc, s);
    MulUp(i + 1, segs[s].tiles / nc, nc);
  }

  // ---------------------------------------------------------------- what must fit

  predicate ApartFrom(g: Seg, d: nat, a: int, n: int) {
    G.Apart(g.base, d * g.tiles, a, n)
  }

  /** The output matrices and the two vectors of scales are apart in ACC, and the activations on their
      way are apart from the weights and the scales in DDR. */
  predicate Fits(c: Layer) {
    && Accepted(c)
    && (forall s, h :: 0 <= s < h < |c.segs| ==> ApartFrom(c.segs[s], c.d, c.segs[h].base, c.d * c.segs[h].tiles))
    && (forall s :: 0 <= s < |c.segs| ==>
         ApartFrom(c.segs[s], c.d, c.sw, c.Nt()) && ApartFrom(c.segs[s], c.d, c.sx, c.d))
    && G.Apart(c.sw, c.Nt(), c.sx, c.d)
    && G.Apart(c.io, c.d * c.K(), c.wOff, c.Nt() * c.K() * c.d)
       && G.Apart(c.io, c.d * c.K(), c.swOff, c.Nt() * (4 * c.d))
  }

  // ---------------------------------------------------------------- what is computed

  /** Weight scale of output x of tile t. */
  function SW(c: Layer, m: Mem, t: int, x: int): int {
    Word32(m.ddr, c.swOff + 4 * Pair(t, c.d, x))
  }

  /** The int32 of sequence b and output x of tile t of segment s. */
  function DotBits(c: Layer, m: Mem, s: nat, b: int, t: int, x: int): int
    requires c.d > 0 && s < |c.segs|
  {
    DotOf(c, m, b, First(c.segs, s) + t, x, c.K()) % M32
  }

  /** Dequantized: times the weight scale, times the sequence's own s_x. */
  function Output(c: Layer, m: Mem, s: nat, b: int, t: int, x: int): int
    requires c.d > 0 && s < |c.segs|
  {
    Product32(Product32(DotBits(c, m, s, b, t, x), SW(c, m, First(c.segs, s) + t, x), true), m.acc(c.sx + b, x), false)
  }

  /** Row b, tile t, lane x of output matrix s. */
  function OutAt(c: Layer, m: Mem, s: nat, b: int, t: int, x: int): int
    requires s < |c.segs|
  {
    m.acc(c.segs[s].base + Pair(b, c.segs[s].tiles, t), x)
  }

  function SwAt(c: Layer, m: Mem, t: int, x: int): int {
    m.acc(c.sw + t, x)
  }

  function SxAt(c: Layer, m: Mem, b: int, x: int): int {
    m.acc(c.sx + b, x)
  }

  predicate HasScales(c: Layer, m0: Mem, m: Mem) {
    && (forall t: nat, x: nat :: t < c.Nt() && x < c.d ==> SwAt(c, m, t, x) == SW(c, m0, t, x))
    && (forall b: nat, x: nat :: b < c.d && x < c.d ==> SxAt(c, m, b, x) == SxAt(c, m0, b, x))
  }

  /** The products of the first n tiles are in their matrices. */
  predicate DotsBefore(c: Layer, m0: Mem, m: Mem, n: nat)
    requires c.d > 0
  {
    forall s: nat, b: nat, t: nat, x: nat ::
      s < |c.segs| && b < c.d && t < c.segs[s].tiles && x < c.d && First(c.segs, s) + t < n ==>
      OutAt(c, m, s, b, t, x) == DotBits(c, m0, s, b, t, x)
  }

  /** Between two chunks. */
  predicate Ready(c: Layer, nc: nat, m0: Mem, m: Mem, j: nat)
    requires c.d > 0
  {
    HasX(c, m0, m) && WeightsKept(c, m0, m) && HasScales(c, m0, m) && DotsBefore(c, m0, m, j * nc)
  }

  // ---------------------------------------------------------------- one chunk

  /** The EX of chunk j, the i-th of segment s. */
  function ChunkOp(c: Layer, nc: nat, j: nat, s: nat, i: nat): (op: Cmd)
    requires s < |c.segs|
    ensures op.Ex? && op.cstep == 1 && op.crow == c.segs[s].tiles && !op.adds && op.a == 0 && op.kt == c.kt
    ensures op.b == j % 2 * c.sb && op.bstep == c.K() && op.c == c.segs[s].base + i * nc
  {
    Multiply(c, nc, j, Place(c.segs[s].base + i * nc, c.segs[s].tiles))
  }

  predicate InSegment(c: Layer, nc: nat, s: nat, i: nat) {
    s < |c.segs| && i * nc + nc <= c.segs[s].tiles
  }

  lemma {:induction false} CWordIs(op: Cmd, b: int, u: int, base: int, i: int, nc: int)
    requires op.Ex? && op.c == base + i * nc
    ensures CWord(op, b, u) == base + Pair(b, op.crow, Pair(i, nc, u))
  {
    PairIs(b, op.crow, u);
    PairIs(b, op.crow, Pair(i, nc, u));
    PairIs(i, nc, u);
  }

  lemma {:induction false} InTile(c: Layer, nc: nat, s: nat, i: nat)
    requires InSegment(c, nc, s, i)
    ensures forall u: nat :: u < nc ==> 0 <= Pair(i, nc, 0) <= Pair(i, nc, u) < Pair(i, nc, nc) <= c.segs[s].tiles
  {
    MulUp(0, i, nc);
  }

  /** Words outside the chunk's tiles are kept. */
  lemma {:induction false} OtherTile(c: Layer, nc: nat, m: Mem, j: nat, s: nat, i: nat, h: nat, b: nat, t: nat, x: nat)
    requires Fits(c) && InSegment(c, nc, s, i)
    requires h < |c.segs| && b < c.d && t < c.segs[h].tiles && x < c.d
             && (h != s || t < Pair(i, nc, 0) || t >= Pair(i, nc, nc))
    ensures var op := ChunkOp(c, nc, j, s, i);
            ExTiles(m, c.d, op, nc)(c.segs[h].base + Pair(b, c.segs[h].tiles, t), x) == OutAt(c, m, h, b, t, x)
  {
    var op := ChunkOp(c, nc, j, s, i);
    var w := c.segs[h].base + Pair(b, c.segs[h].tiles, t);
    InTile(c, nc, s, i);
    hide *;
    forall r: nat, u: nat | r < c.d && u < nc ensures w != CWord(op, r, u) {
      CWordIs(op, r, u, c.segs[s].base, i, nc);
      if h == s {
        PairsDiffer(b, t, r, Pair(i, nc, u), op.crow);
      } else {
        PairBelow(b, c.segs[h].tiles, t, c.d);
        PairBelow(r, c.segs[s].tiles, Pair(i, nc, u), c.d);
        SegmentsApart(c, s, h);
      }
    }
    TilesKeep(m, c.d, op, nc, w, x);
  }

  lemma {:induction false} SegmentsApart(c: Layer, s: nat, h: nat)
    requires Fits(c) && s < |c.segs| && h < |c.segs| && s != h
    ensures G.Apart(c.segs[s].base, c.d * c.segs[s].tiles, c.segs[h].base, c.d * c.segs[h].tiles)
  {
    if s < h {
      assert ApartFrom(c.segs[s], c.d, c.segs[h].base, c.d * c.segs[h].tiles);
    } else {
      assert ApartFrom(c.segs[h], c.d, c.segs[s].base, c.d * c.segs[s].tiles);
    }
  }

  /** So are the scales. */
  lemma {:induction false} OutsideMatrix(c: Layer, nc: nat, m: Mem, j: nat, s: nat, i: nat, w: int, x: int)
    requires Fits(c) && InSegment(c, nc, s, i)
    requires w < c.segs[s].base || w >= c.segs[s].base + c.d * c.segs[s].tiles
    ensures var op := ChunkOp(c, nc, j, s, i); ExTiles(m, c.d, op, nc)(w, x) == m.acc(w, x)
  {
    var op := ChunkOp(c, nc, j, s, i);
    InTile(c, nc, s, i);
    hide *;
    forall r: nat, u: nat | r < c.d && u < nc ensures w != CWord(op, r, u) {
      CWordIs(op, r, u, c.segs[s].base, i, nc);
      PairBelow(r, c.segs[s].tiles, Pair(i, nc, u), c.d);
    }
    TilesKeep(m, c.d, op, nc, w, x);
  }

  lemma {:induction false} ProductIs(c: Layer, nc: nat, m0: Mem, m: Mem, j: nat, s: nat, i: nat, b: nat, u: nat, x: nat)
    requires c.d > 0 && s < |c.segs| && HasX(c, m0, m) && InBank(c, nc, m0, m, j) && b < c.d && u < nc && x < c.d
    ensures Product(m, c.d, ChunkOp(c, nc, j, s, i), b, u, x) == DotOf(c, m0, b, Pair(j, nc, u), x, c.K()) % M32
  {
    hide HasX, InBank, Dot, DotOf, Pair;
    BatchedSteps.DotIs(c, nc, m0, m, j, b, u, x, c.K());
  }

  /** The chunk's own tiles. */
  lemma {:induction false} OwnTile(c: Layer, nc: nat, m0: Mem, m: Mem, j: nat, s: nat, i: nat, b: nat, u: nat, x: nat)
    requires Fits(c) && c.d > 0 && InSegment(c, nc, s, i) && j * nc == First(c.segs, s) + i * nc
    requires HasX(c, m0, m) && InBank(c, nc, m0, m, j) && b < c.d && u < nc && x < c.d
    ensures var op := ChunkOp(c, nc, j, s, i);
            ExTiles(m, c.d, op, nc)(c.segs[s].base + Pair(b, c.segs[s].tiles, Pair(i, nc, u)), x)
              == DotBits(c, m0, s, b, Pair(i, nc, u), x)
  {
    hide ExTiles, CWord, Pair, Dot, DotOf, Fits, HasX, InBank, Product, ChunkOp, First;
    var op := ChunkOp(c, nc, j, s, i);
    MulUp(0, i, nc);
    TilesDone(m, c.d, op, nc, b, u, x);
    CWordIs(op, b, u, c.segs[s].base, i, nc);
    ProductIs(c, nc, m0, m, j, s, i, b, u, x);
    PairIs(j, nc, u);
    PairIs(i, nc, u);
    assert First(c.segs, s) + Pair(i, nc, u) == Pair(j, nc, u);
  }

  function AfterChunk(c: Layer, nc: nat, m: Mem, j: nat, s: nat, i: nat): Mem
    requires c.d > 0 && s < |c.segs|
  {
    Perform(m, c.d, ChunkOp(c, nc, j, s, i))
  }

  lemma {:induction false} AfterChunkIs(c: Layer, nc: nat, m: Mem, j: nat, s: nat, i: nat)
    requires c.d > 0 && s < |c.segs|
    ensures AfterChunk(c, nc, m, j, s, i) == m.(acc := ExTiles(m, c.d, ChunkOp(c, nc, j, s, i), nc))
  {
    hide ExTiles;
  }

  lemma {:induction false} SameParts(c: Layer, m0: Mem, m: Mem, r: Mem)
    requires c.d > 0
    ensures r.a == m.a && HasX(c, m0, m) ==> HasX(c, m0, r)
    ensures r.ddr == m.ddr && WeightsKept(c, m0, m) ==> WeightsKept(c, m0, r)
    ensures r.acc == m.acc && HasScales(c, m0, m) ==> HasScales(c, m0, r)
  {
  }

  lemma {:induction false} SameDots(c: Layer, m0: Mem, m: Mem, r: Mem, n: nat)
    requires c.d > 0 && r.acc == m.acc && DotsBefore(c, m0, m, n)
    ensures DotsBefore(c, m0, r, n)
  {
    hide DotBits, First;
    forall s: nat, b: nat, t: nat, x: nat | s < |c.segs| && b < c.d && t < c.segs[s].tiles && x < c.d
      && First(c.segs, s) + t < n
      ensures OutAt(c, r, s, b, t, x) == DotBits(c, m0, s, b, t, x)
    {
      assert OutAt(c, m, s, b, t, x) == DotBits(c, m0, s, b, t, x);
    }
  }

  lemma {:induction false} MatrixApart(c: Layer, s: nat)
    requires Fits(c) && s < |c.segs|
    ensures G.Apart(c.segs[s].base, c.d * c.segs[s].tiles, c.sw, c.Nt())
            && G.Apart(c.segs[s].base, c.d * c.segs[s].tiles, c.sx, c.d)
  {
    assert ApartFrom(c.segs[s], c.d, c.sw, c.Nt()) && ApartFrom(c.segs[s], c.d, c.sx, c.d);
  }

  /** A change of one output matrix leaves the scales alone. */
  lemma {:induction false} ScalesKept(c: Layer, m0: Mem, m: Mem, r: Mem, s: nat)
    requires Fits(c) && s < |c.segs| && HasScales(c, m0, m)
    requires forall w, x :: w < c.segs[s].base || w >= c.segs[s].base + c.d * c.segs[s].tiles ==>
               r.acc(w, x) == m.acc(w, x)
    ensures HasScales(c, m0, r)
  {
    MatrixApart(c, s);
    hide Fits, SW, First;
    forall t: nat, x: nat | t < c.Nt() && x < c.d ensures SwAt(c, r, t, x) == SW(c, m0, t, x) {
      assert SwAt(c, m, t, x) == SW(c, m0, t, x);
    }
    forall b: nat, x: nat | b < c.d && x < c.d ensures SxAt(c, r, b, x) == SxAt(c, m0, b, x) {
      assert SxAt(c, m, b, x) == SxAt(c, m0, b, x);
    }
  }

  /** The tiles of chunk j, and those before. */
  lemma {:induction false} TileStep(c: Layer, nc: nat, m0: Mem, m: Mem, j: nat, s: nat, i: nat, h: nat, b: nat,
                                    t: nat, x: nat)
    requires Fits(c) && c.d > 0 && InSegment(c, nc, s, i) && j * nc == First(c.segs, s) + i * nc
    requires Ready(c, nc, m0, m, j) && InBank(c, nc, m0, m, j)
    requires h < |c.segs| && b < c.d && t < c.segs[h].tiles && x < c.d && First(c.segs, h) + t < Pair(j, nc, nc)
    ensures OutAt(c, AfterChunk(c, nc, m, j, s, i), h, b, t, x) == DotBits(c, m0, h, b, t, x)
  {
    AfterChunkIs(c, nc, m, j, s, i);
    PairIs(j, nc, nc);
    PairIs(i, nc, 0);
    PairIs(i, nc, nc);
    if First(c.segs, h) + t < j * nc {
      assert OutAt(c, m, h, b, t, x) == DotBits(c, m0, h, b, t, x);
      hide ExTiles, DotBits, Fits, Pair, ChunkOp, First, AfterChunk;
      OtherTile(c, nc, m, j, s, i, h, b, t, x);
    } else {
      var u := t - i * nc + (First(c.segs, h) - First(c.segs, s));
      MulUp(0, i, nc);
      OneSegment(c.segs, s, i * nc + u, h, t);
      PairIs(i, nc, u);
      hide ExTiles, DotBits, Fits, Pair, ChunkOp, First, AfterChunk;
      OwnTile(c, nc, m0, m, j, s, i, b, u, x);
    }
  }

  /** The EX of chunk j. */
  lemma {:induction false} ChunkDone(c: Layer, nc: nat, m0: Mem, m: Mem, j: nat, s: nat, i: nat)
    requires Fits(c) && c.d > 0 && InSegment(c, nc, s, i) && j * nc == First(c.segs, s) + i * nc
    requires Ready(c, nc, m0, m, j) && InBank(c, nc, m0, m, j)
    ensures var r := AfterChunk(c, nc, m, j, s, i); r == m.(acc := r.acc) && Ready(c, nc, m0, r, j + 1)
  {
    var r := AfterChunk(c, nc, m, j, s, i);
    AfterChunkIs(c, nc, m, j, s, i);
    hide ExTiles, DotBits, Fits, ChunkOp, First, AfterChunk, HasX, WeightsKept, HasScales, InBank;
    SameParts(c, m0, m, r);
    forall w, x | w < c.segs[s].base || w >= c.segs[s].base + c.d * c.segs[s].tiles ensures r.acc(w, x) == m.acc(w, x) {
      OutsideMatrix(c, nc, m, j, s, i, w, x);
    }
    ScalesKept(c, m0, m, r, s);
    forall h: nat, b: nat, t: nat, x: nat
      | h < |c.segs| && b < c.d && t < c.segs[h].tiles && x < c.d && First(c.segs, h) + t < (j + 1) * nc
      ensures OutAt(c, r, h, b, t, x) == DotBits(c, m0, h, b, t, x)
    {
      TileStep(c, nc, m0, m, j, s, i, h, b, t, x);
    }
  }

  /** Chunk j and the load of the next one. */
  lemma {:induction false} ChunkStep(c: Layer, nc: nat, m0: Mem, m: Mem, j: nat)
    requires Fits(c) && c.d > 0 && Chunked(c.segs, nc)
    requires var places := Where(c.segs, nc, |c.segs|);
             j < |places| && Ready(c, nc, m0, m, j) && InBank(c, nc, m0, m, j)
    ensures var places := Where(c.segs, nc, |c.segs|);
            var r := Run(m, c.d, ChunkList(c, nc, places, j));
            Ready(c, nc, m0, r, j + 1) && (j + 1 < |places| ==> InBank(c, nc, m0, r, j + 1))
  {
    var places := Where(c.segs, nc, |c.segs|);
    var s, i := FindChunk(c.segs, nc, |c.segs|, j);
    var op, m1 := ChunkOp(c, nc, j, s, i), AfterChunk(c, nc, m, j, s, i);
    assert Multiply(c, nc, j, places[j]) == op;
    hide Perform, Fits, Ready, InBank, Where, ChunkOp, First, Chunked;
    ChunkDone(c, nc, m0, m, j, s, i);
    RunOne(m, c.d, op);
    if j + 1 < |places| {
      LoadNext(c, nc, m0, m1, j + 1);
      RunNext(m, c.d, [op], Load(c, nc, j + 1));
      assert ChunkList(c, nc, places, j) == [op] + [Load(c, nc, j + 1)];
    } else {
      assert ChunkList(c, nc, places, j) == [op];
    }
  }

  lemma {:induction false} LoadNext(c: Layer, nc: nat, m0: Mem, m: Mem, j: nat)
    requires Fits(c) && c.d > 0 && Chunked(c.segs, nc) && j < |Where(c.segs, nc, |c.segs|)| && Ready(c, nc, m0, m, j)
    ensures var r := Perform(m, c.d, Load(c, nc, j)); Ready(c, nc, m0, r, j) && InBank(c, nc, m0, r, j)
  {
    assert c.kt > 0;
    hide Perform, Fits, InBank, HasX, WeightsKept, HasScales, DotsBefore, Load;
    var r := Perform(m, c.d, Load(c, nc, j));
    ChunkInRange(c, nc, j);
    ChunkLoaded(c, nc, m0, m, j);
    SameParts(c, m0, m, r);
    SameDots(c, m0, m, r, j * nc);
  }

  lemma {:induction false} ChunkInRange(c: Layer, nc: nat, j: nat)
    requires Chunked(c.segs, nc) && j < |Where(c.segs, nc, |c.segs|)|
    ensures j * nc + nc <= c.Nt()
  {
    var n := |Where(c.segs, nc, |c.segs|)|;
    WhereLength(c.segs, nc, |c.segs|);
    hide Chunked, Where, First;
    MulUp(j + 1, n, nc);
  }

  lemma {:induction false} ChunksDone(c: Layer, nc: nat, m0: Mem, m: Mem, n: nat)
    requires Fits(c) && c.d > 0 && Chunked(c.segs, nc) && Ready(c, nc, m0, m, 0) && InBank(c, nc, m0, m, 0)
    requires n <= |Where(c.segs, nc, |c.segs|)|
    ensures var places := Where(c.segs, nc, |c.segs|);
            var r := Run(m, c.d, Chunks(c, nc, places, n));
            Ready(c, nc, m0, r, n) && (n < |places| ==> InBank(c, nc, m0, r, n))
  {
    assert nc > 0;
    hide Ready, InBank, Where, Fits, ChunkList, Chunked;
    if n > 0 {
      var places := Where(c.segs, nc, |c.segs|);
      ChunksDone(c, nc, m0, m, n - 1);
      ChunkStep(c, nc, m0, Run(m, c.d, Chunks(c, nc, places, n - 1)), n - 1);
      RunBoth(m, c.d, Chunks(c, nc, places, n - 1), ChunkList(c, nc, places, n - 1));
    }
  }

  // ---------------------------------------------------------------- the head of the list

  lemma {:induction false} WeightsAway(c: Layer, m: Mem, r: Mem, t: nat, q: nat, x: nat)
    requires Fits(c) && c.d > 0 && r == AfterTransfer(c, m) && t < c.Nt() && q < c.K() && x < c.d
    ensures W(c, r, t, q, x) == W(c, m, t, q, x)
  {
    PairBelow(t, c.K(), q, c.Nt());
    PairBelow(Pair(t, c.K(), q), c.d, x, c.Nt() * c.K());
    hide Pair, AfterTransfer, First;
    TransferKeeps(c, m, c.wOff + Pair(Pair(t, c.K(), q), c.d, x));
  }

  lemma {:induction false} ScalesAway(c: Layer, m: Mem, r: Mem, t: nat, x: nat)
    requires Fits(c) && c.d > 0 && r == AfterTransfer(c, m) && t < c.Nt() && x < c.d
    ensures SW(c, r, t, x) == SW(c, m, t, x)
  {
    hide Fits, Pair, AfterTransfer, First, Word32;
    var a := c.swOff + 4 * Pair(t, c.d, x);
    ScaleAway(c, t, x);
    TransferKeeps(c, m, a);
    TransferKeeps(c, m, a + 1);
    TransferKeeps(c, m, a + 2);
    TransferKeeps(c, m, a + 3);
    G.SameWord(r.ddr, m.ddr, a);
  }

  lemma {:induction false} ScaleAway(c: Layer, t: nat, x: nat)
    requires Fits(c) && t < c.Nt() && x < c.d
    ensures var a := c.swOff + 4 * Pair(t, c.d, x); a + 4 <= c.io || a >= c.io + c.d * c.K()
  {
    G.FourTimes(t, c.d, x, c.Nt());
    hide Pair, First;
  }

  function LoadScales(c: Layer): Cmd {
    LdAcc(c.swOff, c.sw, 1, 4 * (c.Nt() * c.d), 4 * (c.Nt() * c.d))
  }

  lemma {:induction false} NtPositive(c: Layer)
    requires Accepted(c)
    ensures c.d > 0 && c.kt > 0 && c.Nt() > 0 && 4 * (c.Nt() * c.d) / (4 * c.d) == c.Nt()
  {
    FirstOrder(c.segs, 0, |c.segs|);
    assert c.segs[0].tiles > 0;
    QuotientIs(4 * (c.Nt() * c.d), 4 * c.d, c.Nt(), 0) by { Associate(4, c.Nt(), c.d); Associate(c.Nt(), 4, c.d); }
  }

  lemma {:induction false} LoadScalesIs(c: Layer, m: Mem)
    requires Accepted(c)
    ensures c.d > 0 && c.Nt() > 0
    ensures Perform(m, c.d, LoadScales(c))
         == m.(acc := Rowwise(m.acc, m.ddr, c.d, c.swOff, c.sw, 1, c.Nt(), 4 * (c.Nt() * c.d)))
  {
    NtPositive(c);
    hide Rowwise, First;
  }

  lemma {:induction false} ScaleLoaded(c: Layer, m0: Mem, m: Mem, t: nat, x: nat)
    requires Fits(c) && c.d > 0 && m == AfterTransfer(c, m0) && t < c.Nt() && x < c.d
    ensures SwAt(c, Perform(m, c.d, LoadScales(c)), t, x) == SW(c, m0, t, x)
  {
    hide Fits, Perform, LoadScales, Rowwise, First, AfterTransfer, Pair, SW, Word32;
    FitsAccepted(c);
    LoadScalesIs(c, m);
    RowsLoaded(m.acc, m.ddr, c.d, c.swOff, c.sw, 1, c.Nt(), 4 * (c.Nt() * c.d), 0, t, x);
    PairIs(0, c.Nt(), t);
    ScaleIs(c, m, t, x);
    ScalesAway(c, m0, m, t, x);
  }

  lemma {:induction false} RowScaleKept(c: Layer, m0: Mem, m: Mem, b: nat, x: nat)
    requires Fits(c) && c.d > 0 && m == AfterTransfer(c, m0) && b < c.d && x < c.d
    ensures SxAt(c, Perform(m, c.d, LoadScales(c)), b, x) == SxAt(c, m0, b, x)
  {
    LoadScalesIs(c, m);
    TransferKeeps(c, m0, c.io - 1);
    hide Fits, Perform, LoadScales, Rowwise, First, AfterTransfer;
    RowwiseKeeps(m.acc, m.ddr, c.d, c.swOff, c.sw, 1, c.Nt(), 4 * (c.Nt() * c.d), c.sx + b, x) by { ScalesApart(c); }
  }

  lemma {:induction false} FitsAccepted(c: Layer)
    requires Fits(c)
    ensures Accepted(c)
  {
  }

  lemma {:induction false} ScalesApart(c: Layer)
    requires Fits(c)
    ensures c.sw + c.Nt() <= c.sx || c.sx + c.d <= c.sw
  {
    hide First;
  }

  /** The weight scales of all the outputs. */
  lemma {:induction false} ScalesLoaded(c: Layer, m0: Mem, m: Mem)
    requires Fits(c) && c.d > 0 && m == AfterTransfer(c, m0)
    ensures var r := Perform(m, c.d, LoadScales(c)); r == m.(acc := r.acc) && HasScales(c, m0, r)
  {
    hide Fits, Perform, LoadScales, First, AfterTransfer, SW, SwAt, SxAt;
    var r := Perform(m, c.d, LoadScales(c));
    OnlyAcc(c, m);
    forall t: nat, x: nat | t < c.Nt() && x < c.d
      ensures SwAt(c, r, t, x) == SW(c, m0, t, x)
    {
      ScaleLoaded(c, m0, m, t, x);
    }
    forall b: nat, x: nat | b < c.d && x < c.d
      ensures SxAt(c, r, b, x) == SxAt(c, m0, b, x)
    {
      RowScaleKept(c, m0, m, b, x);
    }
  }

  lemma {:induction false} OnlyAcc(c: Layer, m: Mem)
    requires c.d > 0
    ensures var r := Perform(m, c.d, LoadScales(c)); r == m.(acc := r.acc)
  {
    hide Rowwise, First;
  }

  lemma {:induction false} ScaleIs(c: Layer, m: Mem, t: int, x: int)
    ensures SW(c, m, t, x) == Word32(m.ddr, c.swOff + 4 * Pair(t, c.d, x))
  {
  }

  lemma {:induction false} TransferDone(c: Layer, m0: Mem)
    requires Fits(c) && c.d > 0 && Int8s(c, m0)
    ensures var r := AfterTransfer(c, m0); HasX(c, m0, r) && WeightsKept(c, m0, r)
  {
    var r := AfterTransfer(c, m0);
    hide AfterTransfer, Fits, W, X, First;
    forall b: nat, q: nat | b < c.d && q < c.K()
      ensures StripAt(r.a, c.d, 0, b, q) == X(c, m0, b, q)
    {
      Transferred(c, m0, b, q);
    }
    forall t: nat, q: nat, x: nat | t < c.Nt() && q < c.K() && x < c.d ensures W(c, r, t, q, x) == W(c, m0, t, q, x) {
      WeightsAway(c, m0, r, t, q, x);
    }
  }

  /** Activations, scales and the first chunk. */
  lemma {:induction false} HeadDone(c: Layer, nc: nat, m0: Mem)
    requires Fits(c) && c.d > 0 && Int8s(c, m0) && Chunked(c.segs, nc)
    ensures var r := Run(m0, c.d, Head(c, nc)); Ready(c, nc, m0, r, 0) && InBank(c, nc, m0, r, 0)
  {
    NtPositive(c);
    WhereLength(c.segs, nc, |c.segs|);
    assert |Where(c.segs, nc, |c.segs|)| > 0;
    var m1 := AfterTransfer(c, m0);
    var m2 := Perform(m1, c.d, LoadScales(c));
    HeadIs(c, nc, m0);
    hide Fits, Perform, AfterTransfer, HasX, WeightsKept, HasScales, InBank, First, Where, Chunked, Run, Head;
    TransferDone(c, m0);
    ScalesLoaded(c, m0, m1);
    SameParts(c, m0, m1, m2);
    assert DotsBefore(c, m0, m2, 0 * nc);
    LoadNext(c, nc, m0, m2, 0);
  }

  lemma {:induction false} HeadIs(c: Layer, nc: nat, m: Mem)
    requires c.d > 0
    ensures Run(m, c.d, Head(c, nc)) == Perform(Perform(AfterTransfer(c, m), c.d, LoadScales(c)), c.d, Load(c, nc, 0))
  {
    var a, b, x, y := StA(c.io, c.xq, c.d, c.K(), c.K()), LdA(c.io, 0, c.d, c.K(), c.K()), LoadScales(c),
      Load(c, nc, 0);
    hide Perform, Load;
    RunOne(m, c.d, a);
    RunNext(m, c.d, [a], b);
    RunNext(m, c.d, [a] + [b], x);
    RunNext(m, c.d, [a] + [b] + [x], y);
    assert Head(c, nc) == [a] + [b] + [x] + [y];
  }

  // ---------------------------------------------------------------- dequantization

  /** The first n output matrices are dequantized, the others still hold products. */
  predicate Dequantized(c: Layer, m0: Mem, m: Mem, n: nat)
    requires c.d > 0
  {
    && HasScales(c, m0, m)
    && forall s: nat, b: nat, t: nat, x: nat :: s < |c.segs| && b < c.d && t < c.segs[s].tiles && x < c.d ==>
         OutAt(c, m, s, b, t, x) == if s < n then Output(c, m0, s, b, t, x) else DotBits(c, m0, s, b, t, x)
  }

  function ScaleOp(c: Layer, s: nat, byTile: bool): (op: Cmd)
    requires s < |c.segs|
    ensures op.Scale? && op.src1 == op.dst == c.segs[s].base && op.groups == c.d * c.segs[s].tiles
            && op.period == c.segs[s].tiles
    ensures op.byMod == op.ints == byTile && op.src2 == if byTile then c.sw + First(c.segs, s) else c.sx
  {
    var g := c.segs[s];
    Scale(g.base, if byTile then c.sw + First(c.segs, s) else c.sx, g.base, c.d * g.tiles, byTile, byTile, g.tiles)
  }

  lemma {:induction false} ScalePerforms(c: Layer, m: Mem, s: nat, byTile: bool)
    requires c.d > 0 && s < |c.segs| && c.segs[s].tiles > 0
    ensures Perform(m, c.d, ScaleOp(c, s, byTile)) == m.(acc := Scaled(m.acc, c.d, ScaleOp(c, s, byTile)))
  {
    hide Scaled;
  }

  /** One of the two products: its own matrix changes, the rest is kept. */
  lemma {:induction false} ScaleDone(c: Layer, m0: Mem, m: Mem, s: nat, byTile: bool)
    requires Fits(c) && c.d > 0 && s < |c.segs| && HasScales(c, m0, m)
    ensures var r := Perform(m, c.d, ScaleOp(c, s, byTile)); r == m.(acc := r.acc) && HasScales(c, m0, r)
  {
    assert c.segs[s].tiles > 0;
    ScalePerforms(c, m, s, byTile);
    var r := Perform(m, c.d, ScaleOp(c, s, byTile));
    hide Fits, Perform, ScaleOp, Scaled, HasScales, First;
    forall w, x | w < c.segs[s].base || w >= c.segs[s].base + c.d * c.segs[s].tiles ensures r.acc(w, x) == m.acc(w, x) {
      ScaledKeeps(m.acc, c.d, ScaleOp(c, s, byTile), w, x);
    }
    ScalesKept(c, m0, m, r, s);
  }

  lemma {:induction false} ScaleOwn(c: Layer, m: Mem, s: nat, byTile: bool, b: nat, t: nat, x: nat)
    requires Fits(c) && c.d > 0 && s < |c.segs| && b < c.d && t < c.segs[s].tiles && x < c.d
    ensures OutAt(c, Perform(m, c.d, ScaleOp(c, s, byTile)), s, b, t, x)
         == Product32(OutAt(c, m, s, b, t, x),
           if byTile then SwAt(c, m, First(c.segs, s) + t, x) else SxAt(c, m, b, x), byTile)
  {
    hide Fits, Perform, ScaleOp, Scaled, Product32, First, Pair;
    var op := ScaleOp(c, s, byTile);
    ScalePerforms(c, m, s, byTile);
    ScaledAt(m.acc, c.d, op, b, t, x);
    assert op.src2 + (if op.byMod then t else b) == if byTile then c.sw + (First(c.segs, s) + t) else c.sx + b;
  }

  lemma {:induction false} ScaleOther(c: Layer, m: Mem, s: nat, byTile: bool, h: nat, b: nat, t: nat, x: nat)
    requires Fits(c) && c.d > 0 && s < |c.segs| && h < |c.segs| && h != s && b < c.d && t < c.segs[h].tiles && x < c.d
    ensures OutAt(c, Perform(m, c.d, ScaleOp(c, s, byTile)), h, b, t, x) == OutAt(c, m, h, b, t, x)
  {
    assert c.segs[s].tiles > 0;
    SegmentsApart(c, s, h);
    PairBelow(b, c.segs[h].tiles, t, c.d);
    ScalePerforms(c, m, s, byTile);
    hide Fits, Perform, ScaleOp, Scaled, First, Pair;
    ScaledKeeps(m.acc, c.d, ScaleOp(c, s, byTile), c.segs[h].base + Pair(b, c.segs[h].tiles, t), x);
  }

  /** The two products of a segment. */
  lemma {:induction false} SegmentDone(c: Layer, m0: Mem, m: Mem, s: nat)
    requires Fits(c) && c.d > 0 && s < |c.segs| && Dequantized(c, m0, m, s)
    ensures Dequantized(c, m0, Run(m, c.d, Dequantize(c, s)), s + 1)
  {
    var m1 := Perform(m, c.d, ScaleOp(c, s, true));
    var m2 := Perform(m1, c.d, ScaleOp(c, s, false));
    RunOne(m, c.d, ScaleOp(c, s, true));
    RunNext(m, c.d, [ScaleOp(c, s, true)], ScaleOp(c, s, false));
    assert Dequantize(c, s) == [ScaleOp(c, s, true)] + [ScaleOp(c, s, false)];
    hide Fits, Perform, ScaleOp, First, OutAt, SwAt, SxAt, DotBits, Output, HasScales, Run, Dequantize;
    ScaleDone(c, m0, m, s, true);
    ScaleDone(c, m0, m1, s, false);
    forall h: nat, b: nat, t: nat, x: nat | h < |c.segs| && b < c.d && t < c.segs[h].tiles && x < c.d
      ensures OutAt(c, m2, h, b, t, x) == if h < s + 1 then Output(c, m0, h, b, t, x) else DotBits(c, m0, h, b, t, x)
    {
      if h == s {
        OwnOutput(c, m0, m, m1, s, b, t, x);
      } else {
        ScaleOther(c, m, s, true, h, b, t, x);
        ScaleOther(c, m1, s, false, h, b, t, x);
      }
    }
  }

  lemma {:induction false} OwnOutput(c: Layer, m0: Mem, m: Mem, m1: Mem, s: nat, b: nat, t: nat, x: nat)
    requires Fits(c) && c.d > 0 && s < |c.segs| && b < c.d && t < c.segs[s].tiles && x < c.d
    requires HasScales(c, m0, m) && m1 == Perform(m, c.d, ScaleOp(c, s, true)) && HasScales(c, m0, m1)
    requires OutAt(c, m, s, b, t, x) == DotBits(c, m0, s, b, t, x)
    ensures OutAt(c, Perform(m1, c.d, ScaleOp(c, s, false)), s, b, t, x) == Output(c, m0, s, b, t, x)
  {
    hide Fits, Perform, ScaleOp, First, OutAt, DotBits, Product32, SW, SwAt;
    FirstOrder(c.segs, s, |c.segs|);
    ScaleOwn(c, m, s, true, b, t, x);
    ScaleOwn(c, m1, s, false, b, t, x);
    var g := First(c.segs, s) + t;
    assert SwAt(c, m, g, x) == SW(c, m0, g, x);
    assert SxAt(c, m1, b, x) == SxAt(c, m0, b, x);
  }

  lemma {:induction false} SegmentsDone(c: Layer, m0: Mem, m: Mem, n: nat)
    requires Fits(c) && c.d > 0 && Dequantized(c, m0, m, 0) && n <= |c.segs|
    ensures Dequantized(c, m0, Run(m, c.d, DequantizeAll(c, n)), n)
  {
    hide Fits, Dequantized, Dequantize;
    if n > 0 {
      SegmentsDone(c, m0, m, n - 1);
      SegmentDone(c, m0, Run(m, c.d, DequantizeAll(c, n - 1)), n - 1);
      RunBoth(m, c.d, DequantizeAll(c, n - 1), Dequantize(c, n - 1));
    }
  }

  lemma {:induction false} AllProducts(c: Layer, nc: nat, m0: Mem, m: Mem, n: nat)
    requires c.d > 0 && Ready(c, nc, m0, m, n) && n * nc == c.Nt()
    ensures Dequantized(c, m0, m, 0)
  {
    hide DotBits, OutAt, HasScales, First;
    forall s: nat, b: nat, t: nat, x: nat | s < |c.segs| && b < c.d && t < c.segs[s].tiles && x < c.d
      ensures OutAt(c, m, s, b, t, x) == DotBits(c, m0, s, b, t, x)
    {
      FirstOrder(c.segs, s, |c.segs|);
    }
  }

  lemma {:induction false} ChunkedByGenerator(c: Layer)
    requires Accepted(c)
    ensures Chunked(c.segs, ChunkTiles(c))
  {
    hide Accepted, ChunkTiles, Divides;
    forall s | 0 <= s < |c.segs| ensures Divides(ChunkTiles(c), c.segs[s].tiles) { ChunkDivides(c, s); }
  }

  /** For every split of the outputs into matrices: after the list, row b of every matrix holds what the
      layer computes from sequence b's inputs and its own s_x. */
  lemma {:induction false} EveryRowComputed(c: Layer, m0: Mem, s: nat, b: nat, t: nat, x: nat)
    requires Fits(c) && c.d > 0 && Int8s(c, m0) && s < |c.segs| && b < c.d && t < c.segs[s].tiles && x < c.d
    ensures OutAt(c, Run(m0, c.d, ListOf(c)), s, b, t, x) == Output(c, m0, s, b, t, x)
  {
    var nc := ChunkTiles(c);
    ChunkedByGenerator(c);
    var places := Where(c.segs, nc, |c.segs|);
    WhereLength(c.segs, nc, |c.segs|);
    hide Fits, ChunkTiles, Chunked, Where, First, OutAt, Output, Ready, InBank, Run, Head, Chunks, DequantizeAll, Int8s;
    var m1 := Run(m0, c.d, Head(c, nc));
    HeadDone(c, nc, m0);
    var m2 := Run(m1, c.d, Chunks(c, nc, places, |places|));
    ChunksDone(c, nc, m0, m1, |places|);
    AllProducts(c, nc, m0, m2, |places|);
    SegmentsDone(c, m0, m2, |c.segs|);
    RunBoth(m0, c.d, Head(c, nc) + Chunks(c, nc, places, |places|), DequantizeAll(c, |c.segs|));
    RunBoth(m0, c.d, Head(c, nc), Chunks(c, nc, places, |places|));
  }

  // ---------------------------------------------------------------- one sequence alone

  /** Row r of the layer c1 in memory m1 is sequence b of this layer: the same weights and weight scales,
      b's inputs in the row of the A strip and b's activation scale. */
  ghost predicate Alone(c: Layer, m0: Mem, b: nat, c1: LinearList.Layer, m1: SimOps.Mem, r: nat)
    requires c.d > 0
  {
    && c1.d == c.d && c1.k == c.K()
    && (forall q: nat :: q < c.K() ==> SimOps.StripAt(m1, c.d, c1.aStrip, r, q) == X(c, m0, b, q))
    && (forall t: nat, q: nat, x: nat :: t < c.Nt() && q < c.K() && x < c.d ==>
          LinearMeaning.Weight(c1, m1.ddr, t, q, x) == W(c, m0, t, q, x))
    && (forall t: nat, x: nat :: t < c.Nt() && x < c.d ==>
          SimOps.Cell(m1.ddr, LinearMeaning.SAddr(c1, t) + 4 * x) == SW(c, m0, t, x))
    && (forall x: nat :: x < c.d ==> SimOps.Lane(m1.acc, c1.sx + r, x) == SxAt(c, m0, b, x))
  }

  lemma {:induction false} DotAlone(c: Layer, m0: Mem, b: nat, c1: LinearList.Layer, m1: SimOps.Mem, r: nat, t: nat,
                                    x: nat, n: nat)
    requires c.d > 0 && Alone(c, m0, b, c1, m1, r) && t < c.Nt() && x < c.d && n <= c.K()
    ensures DotOf(c, m0, b, t, x, n) == LinearMeaning.RefDot(c1, m1, r, t, x, n)
  {
    hide W, X, LinearMeaning.Weight, SimOps.StripAt, First;
    if n > 0 {
      DotAlone(c, m0, b, c1, m1, r, t, x, n - 1);
      var q := n - 1;
      assert SimOps.StripAt(m1, c.d, c1.aStrip, r, q) == X(c, m0, b, q);
      assert LinearMeaning.Weight(c1, m1.ddr, t, q, x) == W(c, m0, t, q, x);
    }
  }

  /** A row of a batched layer is the linear layer's output for the same activations. */
  lemma {:induction false} RowIsSingle(c: Layer, m0: Mem, s: nat, b: nat, t: nat, x: nat, c1: LinearList.Layer,
                                       m1: SimOps.Mem, r: nat)
    requires c.d > 0 && Alone(c, m0, b, c1, m1, r) && s < |c.segs| && t < c.segs[s].tiles && x < c.d
    ensures Output(c, m0, s, b, t, x) == LinearMeaning.Ref(c1, m1, r, First(c.segs, s) + t, x)
  {
    hide First, SW, SxAt, DotOf, LinearMeaning.RefDot, SimOps.VeMul, SimOps.Lane, LinearMeaning.SAddr, SimOps.Cell,
         Product32;
    FirstOrder(c.segs, s, |c.segs|);
    var g := First(c.segs, s) + t;
    DotAlone(c, m0, b, c1, m1, r, g, x, c.K());
    assert SimOps.Cell(m1.ddr, LinearMeaning.SAddr(c1, g) + 4 * x) == SW(c, m0, g, x);
    assert SimOps.Lane(m1.acc, c1.sx + r, x) == SxAt(c, m0, b, x);
    var dot := SimOps.Bits(LinearMeaning.RefDot(c1, m1, r, g, x, c1.k));
    var y := SimOps.VeMul(Fp32.FromInt(SimOps.S32(dot)), SimOps.Cell(m1.ddr, LinearMeaning.SAddr(c1, g) + 4 * x));
    RowScale(c, m0, b, x);
    ProductOf(dot, SimOps.Cell(m1.ddr, LinearMeaning.SAddr(c1, g) + 4 * x), true);
    ProductOf(y, SimOps.Lane(m1.acc, c1.sx + r, x), false);
  }

  /** What the batched list leaves in row b is what the single-sequence list leaves for sequence b, and
      what the list of several rows leaves in the row with the same activations. */
  lemma {:induction false} BatchedRunsAsSingle(c: Layer, m0: Mem, s: nat, b: nat, t: nat, x: nat,
                                               c1: LinearList.Layer, m1: SimOps.Mem, r: nat, params: LoopMachine.Params)
    requires Fits(c) && c.d > 0 && Int8s(c, m0) && s < |c.segs| && b < c.d && t < c.segs[s].tiles && x < c.d
    requires LinearList.Accepted(c1) && LinearMeaning.Fits(c1, m1) && LinearMeaning.Tiles(c1) == c.Nt()
    requires r < c1.rows && Alone(c, m0, b, c1, m1, r)
    requires c1.preloaded ==> LinearMeaning.HasWeights(c1, m1, m1, LinearList.Bank(c1, 0), 0)
    ensures LinearLoop.AllCommands(LinearList.Unrolled(c1))
    ensures OutAt(c, Run(m0, c.d, ListOf(c)), s, b, t, x)
         == LinearMeaning.OutAt(c1, SimOps.PerformAll(m1, c1.d, LinearLoop.Effects(LinearList.Unrolled(c1), params)),
                                r, First(c.segs, s) + t, x)
  {
    hide Fits, Int8s, OutAt, Output, First, LinearMeaning.Fits, LinearMeaning.OutAt, LinearMeaning.Ref;
    FirstOrder(c.segs, s, |c.segs|);
    EveryRowComputed(c, m0, s, b, t, x);
    RowIsSingle(c, m0, s, b, t, x, c1, m1, r);
    LinearRun.UnrolledComputes(c1, m1, params, r, First(c.segs, s) + t, x);
  }

  lemma {:induction false} RowScale(c: Layer, m: Mem, b: int, x: int)
    ensures SxAt(c, m, b, x) == m.acc(c.sx + b, x)
  {
  }

  lemma {:induction false} ProductOf(v: Fp32.U32, f: Fp32.U32, ints: bool)
    ensures Product32(v, f, ints) == SimOps.VeMul(if ints then Fp32.FromInt(SimOps.S32(v)) else v, f)
  {
    hide SimOps.VeMul, Fp32.FromInt;
  }
}
