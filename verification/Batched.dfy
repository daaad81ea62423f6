/** A linear layer for D sequences at once (llm/compile_batch.py, quant and linear): the rows of the A
    strip are the sequences' quantized activations, sent through DDR to be interleaved, and the
    products go straight into one or more output matrices (segments), dequantized there. */
module Batched {
  import opened Dyadic
  import opened MatrixMachine
  import TokenBanks

  /** An output matrix of D rows of tiles words from ACC word base on. */
  datatype Seg = Seg(tiles: nat, base: nat)

  /** kt tiles of inputs; sb: words of a SPAD bank; sw, sx: ACC words of the weight scales and of the
      sequences' activation scales; io: DDR address of the matrix on its way; xq: its SPAD_A word. */
  datatype Layer = Layer(d: nat, kt: nat, sb: nat, segs: seq<Seg>, sw: nat, sx: nat, wOff: nat, swOff: nat, io: nat,
                         xq: nat)
  {
    function K(): nat { kt * d }
    function Nt(): nat { First(segs, |segs|) }
  }

  /** Tiles before segment s. */
  function First(segs: seq<Seg>, s: nat): nat
    requires s <= |segs|
  {
    if s == 0 then 0 else First(segs, s - 1) + segs[s - 1].tiles
  }

  // ---------------------------------------------------------------- tiles per chunk

  function Gcd(a: nat, b: nat): nat
    decreases b
  {
    if b == 0 then a else Gcd(b, a % b)
  }

  predicate Divides(n: nat, a: nat) {
    n > 0 && a % n == 0
  }

  lemma {:induction false} DividesSum(n: nat, a: nat, b: nat)
    requires Divides(n, a) && Divides(n, b)
    ensures Divides(n, a + b)
  {
    QuotientIs(a + b, n, a / n + b / n, 0);
  }

  lemma {:induction false} DividesTimes(n: nat, a: nat, k: nat)
    requires Divides(n, a)
    ensures Divides(n, k * a)
  {
    QuotientIs(k * a, n, k * (a / n), 0) by { Associate(k, a / n, n); }
  }

  /** A common divisor of both numbers divides what Euclid's step leaves, and back. */
  lemma {:induction false} GcdDivides(a: nat, b: nat, n: nat)
    requires Divides(n, Gcd(a, b))
    ensures Divides(n, a) && Divides(n, b)
    decreases b
  {
    if b == 0 {
    } else {
      GcdDivides(b, a % b, n);
      DividesTimes(n, b, a / b);
      DividesSum(n, a / b * b, a % b);
      var q, r := Divide(a, b);
    }
  }

  function GcdOf(segs: seq<Seg>): nat {
    if segs == [] then 0 else Gcd(GcdOf(segs[..|segs| - 1]), segs[|segs| - 1].tiles)
  }

  lemma {:induction false} GcdOfDivides(segs: seq<Seg>, n: nat, s: nat)
    requires Divides(n, GcdOf(segs)) && s < |segs|
    ensures Divides(n, segs[s].tiles)
  {
    GcdDivides(GcdOf(segs[..|segs| - 1]), segs[|segs| - 1].tiles, n);
    if s < |segs| - 1 { GcdOfDivides(segs[..|segs| - 1], n, s); }
  }

  lemma {:induction false} GcdPositive(a: nat, b: nat)
    requires a > 0 || b > 0
    ensures Gcd(a, b) > 0
    decreases b
  {
    if b > 0 { GcdPositive(b, a % b); }
  }

  /** A weight tile fits a bank, and there is something to compute. */
  predicate Accepted(c: Layer) {
    && c.d > 0 && c.kt > 0 && c.K() <= c.sb && c.segs != []
    && forall s :: 0 <= s < |c.segs| ==> c.segs[s].tiles > 0
  }

  /** The largest chunk that fits a bank and divides every segment. */
  function ChunkTiles(c: Layer): (nc: nat)
    requires Accepted(c)
    ensures nc > 0 && nc * c.K() <= c.sb && GcdOf(c.segs) % nc == 0
  {
    var g := GcdOf(c.segs);
    GcdPositive(GcdOf(c.segs[..|c.segs| - 1]), c.segs[|c.segs| - 1].tiles);
    KPositive(c);
    AtLeastOnce(c.sb, c.K());
    var cap := if c.sb / c.K() <= g then c.sb / c.K() else g;
    var nc := TokenBanks.LargestDivisor(g, cap);
    MulUp(nc, c.sb / c.K(), c.K());
    nc
  }

  lemma {:induction false} KPositive(c: Layer)
    requires c.d > 0 && c.kt > 0
    ensures c.K() > 0
  {
    MulUp(1, c.kt, c.d);
  }

  lemma {:induction false} AtLeastOnce(a: nat, b: nat)
    requires 0 < b <= a
    ensures a / b >= 1 && a / b * b <= a
  {
  }

  lemma {:induction false} ChunkDivides(c: Layer, s: nat)
    requires Accepted(c) && s < |c.segs|
    ensures Divides(ChunkTiles(c), c.segs[s].tiles)
  {
    GcdOfDivides(c.segs, ChunkTiles(c), s);
  }

  /** A common divisor divides the greatest. */
  lemma {:induction false} DividesGcd(a: nat, b: nat, n: nat)
    requires Divides(n, a) && Divides(n, b)
    ensures Divides(n, Gcd(a, b))
    decreases b
  {
    if b > 0 {
      var q, r := Divide(a, b);
      DividesRest(n, a, b, q, r);
      DividesGcd(b, r, n);
    }
  }

  lemma {:induction false} DividesRest(n: nat, a: nat, b: nat, q: nat, r: nat)
    requires Divides(n, a) && Divides(n, b) && a == q * b + r
    ensures Divides(n, r)
  {
    Associate(q, b / n, n);
    SumTimes(a / n - q * (b / n), q * (b / n), n);
    QuotientIs(r, n, a / n - q * (b / n), 0);
  }

  lemma {:induction false} DividesGcdOf(segs: seq<Seg>, n: nat)
    requires n > 0 && forall s :: 0 <= s < |segs| ==> Divides(n, segs[s].tiles)
    ensures Divides(n, GcdOf(segs))
  {
    if segs != [] {
      DividesGcdOf(segs[..|segs| - 1], n);
      DividesGcd(GcdOf(segs[..|segs| - 1]), segs[|segs| - 1].tiles, n);
    }
  }

  /** n tiles are a chunk of every segment and fit a bank. */
  predicate IsChunk(c: Layer, n: nat) {
    n * c.K() <= c.sb && forall s :: 0 <= s < |c.segs| ==> Divides(n, c.segs[s].tiles)
  }

  lemma {:induction false} ChunkIsLargest(c: Layer)
    requires Accepted(c)
    ensures IsChunk(c, ChunkTiles(c)) && forall p: nat :: IsChunk(c, p) ==> p <= ChunkTiles(c)
  {
    forall s | 0 <= s < |c.segs| ensures Divides(ChunkTiles(c), c.segs[s].tiles) { ChunkDivides(c, s); }
    forall p: nat | IsChunk(c, p) ensures p <= ChunkTiles(c) {
      assert Divides(p, c.segs[0].tiles);
      DividesGcdOf(c.segs, p);
      GcdPositive(GcdOf(c.segs[..|c.segs| - 1]), c.segs[|c.segs| - 1].tiles);
      NoLargerDivisor(GcdOf(c.segs), p);
      KPositive(c);
      TokenBanks.AtMost(p, c.sb, c.K());
    }
  }

  lemma {:induction false} NoLargerDivisor(g: nat, p: nat)
    requires g > 0 && Divides(p, g)
    ensures p <= g
  {
    MulUp(1, g / p, p);
  }

  // ---------------------------------------------------------------- the list

  /** C word and row stride of a chunk. */
  datatype Place = Place(word: nat, stride: nat)

  /** The first j chunks of a segment. */
  function SegPlaces(g: Seg, nc: nat, j: nat): (p: seq<Place>)
    ensures |p| == j
  {
    if j == 0 then [] else SegPlaces(g, nc, j - 1) + [Place(g.base + (j - 1) * nc, g.tiles)]
  }

  /** The chunks of the first s segments. */
  function Where(segs: seq<Seg>, nc: nat, s: nat): seq<Place>
    requires nc > 0 && s <= |segs|
  {
    if s == 0 then [] else Where(segs, nc, s - 1) + SegPlaces(segs[s - 1], nc, segs[s - 1].tiles / nc)
  }

  function Load(c: Layer, nc: nat, j: nat): Cmd {
    LdRowsB(c.wOff + j * (nc * c.K() * c.d), j % 2 * c.sb, nc, c.K() * c.d, c.K() * c.d)
  }

  function Multiply(c: Layer, nc: nat, j: nat, p: Place): Cmd {
    Ex(0, j % 2 * c.sb, p.word, c.kt, false, nc, c.K(), 1, p.stride)
  }

  /** Chunk j, with the load of the next one. */
  function ChunkList(c: Layer, nc: nat, places: seq<Place>, j: nat): seq<Cmd>
    requires j < |places|
  {
    [Multiply(c, nc, j, places[j])] + if j + 1 < |places| then [Load(c, nc, j + 1)] else []
  }

  function Chunks(c: Layer, nc: nat, places: seq<Place>, n: nat): seq<Cmd>
    requires n <= |places|
  {
    if n == 0 then [] else Chunks(c, nc, places, n - 1) + ChunkList(c, nc, places, n - 1)
  }

  /** The two products of a segment's words: by the weight scale of the column, by the row's s_x. */
  function Dequantize(c: Layer, s: nat): seq<Cmd>
    requires s < |c.segs|
  {
    var g := c.segs[s];
    [Scale(g.base, c.sw + First(c.segs, s), g.base, c.d * g.tiles, true, true, g.tiles),
     Scale(g.base, c.sx, g.base, c.d * g.tiles, false, false, g.tiles)]
  }

  function DequantizeAll(c: Layer, n: nat): seq<Cmd>
    requires n <= |c.segs|
  {
    if n == 0 then [] else DequantizeAll(c, n - 1) + Dequantize(c, n - 1)
  }

  /** The activations through DDR, the weight scales and the first chunk. */
  function Head(c: Layer, nc: nat): seq<Cmd> {
    [StA(c.io, c.xq, c.d, c.K(), c.K()), LdA(c.io, 0, c.d, c.K(), c.K()),
     LdAcc(c.swOff, c.sw, 1, 4 * (c.Nt() * c.d), 4 * (c.Nt() * c.d)), Load(c, nc, 0)]
  }

  function ListOf(c: Layer): seq<Cmd>
    requires Accepted(c)
  {
    var nc := ChunkTiles(c);
    var places := Where(c.segs, nc, |c.segs|);
    Head(c, nc) + Chunks(c, nc, places, |places|) + DequantizeAll(c, |c.segs|)
  }

  /** The places of the chunks. */
  method Places(c: Layer, nc: nat) returns (places: seq<Place>)
    requires nc > 0
    ensures places == Where(c.segs, nc, |c.segs|)
  {
    places := [];
    for s := 0 to |c.segs|
      invariant places == Where(c.segs, nc, s)
    {
      var g := c.segs[s];
      ghost var before := places;
      for j := 0 to g.tiles / nc
        invariant places == before + SegPlaces(g, nc, j)
      {
        places := places + [Place(g.base + j * nc, g.tiles)];
      }
    }
  }

  /** quant's transfers, then linear. */
  method Linear(dl: DescList, c: Layer)
    requires Accepted(c)
    modifies dl
    ensures dl.rows == old(dl.rows) + ListOf(c)
  {
    var nc := ChunkTiles(c);
    dl.Put(StA(c.io, c.xq, c.d, c.K(), c.K()));
    dl.Put(LdA(c.io, 0, c.d, c.K(), c.K()));
    dl.Put(LdAcc(c.swOff, c.sw, 1, 4 * (c.Nt() * c.d), 4 * (c.Nt() * c.d)));
    var places := Places(c, nc);
    dl.Put(Load(c, nc, 0));
    ghost var head := dl.rows;
    assert head == old(dl.rows) + Head(c, nc);
    hide Head;
    PutChunks(dl, c, nc, places);
    PutScales(dl, c);
  }

  method PutChunks(dl: DescList, c: Layer, nc: nat, places: seq<Place>)
    modifies dl
    ensures dl.rows == old(dl.rows) + Chunks(c, nc, places, |places|)
  {
    for j := 0 to |places|
      invariant dl.rows == old(dl.rows) + Chunks(c, nc, places, j)
    {
      ghost var r := dl.rows;
      dl.Put(Multiply(c, nc, j, places[j]));
      if j + 1 < |places| { dl.Put(Load(c, nc, j + 1)); }
      assert dl.rows == r + ChunkList(c, nc, places, j);
    }
  }

  method PutScales(dl: DescList, c: Layer)
    modifies dl
    ensures dl.rows == old(dl.rows) + DequantizeAll(c, |c.segs|)
  {
    var sw := c.sw;
    for s := 0 to |c.segs|
      invariant sw == c.sw + First(c.segs, s) && dl.rows == old(dl.rows) + DequantizeAll(c, s)
    {
      var g := c.segs[s];
      ghost var r := dl.rows;
      dl.Put(Scale(g.base, sw, g.base, c.d * g.tiles, true, true, g.tiles));
      dl.Put(Scale(g.base, c.sx, g.base, c.d * g.tiles, false, false, g.tiles));
      assert dl.rows == r + Dequantize(c, s);
      sw := sw + g.tiles;
    }
  }
}
