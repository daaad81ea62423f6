/** What a linear layer's list computes: every output is the exact int dot product of a row of
    activations with a row of the packed weights, scaled by the weight row's scale and the activation row's
    scale. */
module LinearMeaning {
  import opened Dyadic
  import opened Fp32
  import opened LoopMachine
  import opened LinearList
  import opened LinearLoop
  import opened SimOps

  // ---------------------------------------------------------------- addresses

  /** DDR address of input q's weights of output tile t: tiles one after the other, a word of D outputs
      for each input. */
  function WAddr(c: Layer, t: nat, q: nat): nat {
    c.wOff + (t * c.k + q) * c.d
  }

  /** DDR address of the weight scales of output tile t. */
  function SAddr(c: Layer, t: nat): nat {
    c.swOff + t * (4 * c.d)
  }

  /** DDR address of the outputs of tile t in row b. */
  function OAddr(c: Layer, off: nat, b: nat, t: nat): nat {
    off + b * RowPitch(c) + t * (4 * c.d)
  }

  /** Where tile g of row b is among a chunk's words: rows of nc words. */
  function Place(c: Layer, b: nat, g: nat): nat {
    b * c.nc + g
  }

  /** Words of a chunk's results. */
  function YWords(c: Layer): nat {
    c.rows * c.nc
  }

  lemma {:induction false} PlaceIs(c: Layer, b: nat, g: nat)
    requires g < c.nc
    ensures Place(c, b, g) / c.nc == b && Place(c, b, g) % c.nc == g
    ensures b < c.rows ==> Place(c, b, g) < YWords(c)
    ensures b < c.d ==> Place(c, b, g) < RowWords(c)
  {
    QuotientIs(Place(c, b, g), c.nc, b, g);
    if b < c.rows { Below(b, c.rows, c.nc); }
    if b < c.d { Below(b, c.d, c.nc); }
  }

  /** Every one of a chunk's words is a place. */
  lemma {:induction false} PlaceOf(c: Layer, h: nat) returns (b: nat, g: nat)
    requires h < YWords(c)
    ensures b < c.rows && g < c.nc && h == Place(c, b, g)
  {
    if c.nc == 0 { assert false; }
    b, g := Divide(h, c.nc);
    QuotientBetween(h, c.nc, b, g, 0, c.rows);
  }

  /** All output tiles, the first one of chunk j, and tile g of it. */
  function Tiles(c: Layer): nat {
    c.nch * c.nc
  }

  function TileFrom(c: Layer, j: nat): nat {
    j * c.nc
  }

  function Tile(c: Layer, j: nat, g: nat): nat {
    TileFrom(c, j) + g
  }

  lemma {:induction false} WAddrIs(c: Layer, j: nat, g: nat, q: nat)
    ensures c.wOff + j * WBytes(c) + (g * c.k + q) * c.d == WAddr(c, Tile(c, j, g), q)
  {
    assert WBytes(c) == c.nc * c.k * c.d;
    var nk := c.nc * c.k;
    Associate(j, nk, c.d);
    Associate(j, c.nc, c.k);
    SumTimes(j * nk, g * c.k + q, c.d);
    SumTimes(j * c.nc, g, c.k);
  }

  lemma {:induction false} SAddrIs(off: nat, d: nat, nc: nat, j: nat, g: nat)
    ensures off + j * (4 * nc * d) + g * (4 * d) == off + (j * nc + g) * (4 * d)
  {
    Associate(4, nc, d);
    Commute(4, nc * d);
    Associate(nc, d, 4);
    Commute(d, 4);
    Associate(j, nc, 4 * d);
    SumTimes(j * nc, g, 4 * d);
  }

  /** The address of a tile below n tiles is below n tiles' bytes. */
  lemma {:induction false} Below(t: nat, n: nat, size: nat)
    requires t < n
    ensures t * size + size <= n * size
  {
    MulUp(t + 1, n, size);
    SumTimes(t, 1, size);
  }

  lemma {:induction false} TileBelow(c: Layer, j: nat, g: nat)
    requires j < c.nch && g < c.nc
    ensures Tile(c, j, g) < TileFrom(c, j) + c.nc <= Tiles(c)
  {
    Below(j, c.nch, c.nc);
  }

  // ---------------------------------------------------------------- what is computed

  function Weight(c: Layer, ddr: seq<U32>, t: nat, q: nat, x: nat): int {
    S8(Cell(ddr, WAddr(c, t, q) + x))
  }

  /** The dot product of row b of the A strip with the weights of output x of tile t. */
  function RefDot(c: Layer, m: Mem, b: nat, t: nat, x: nat, n: nat): int
    requires c.d > 0
  {
    if n == 0 then 0
    else RefDot(c, m, b, t, x, n - 1) + StripAt(m, c.d, c.aStrip, b, n - 1) * Weight(c, m.ddr, t, n - 1, x)
  }

  /** Output x of tile t in row b: the int32 dot product as a float, times s_w, times the row's s_x. */
  function Ref(c: Layer, m: Mem, b: nat, t: nat, x: nat): U32
    requires c.d > 0
  {
    VeMul(VeMul(FromInt(S32(Bits(RefDot(c, m, b, t, x, c.k)))), Cell(m.ddr, SAddr(c, t) + 4 * x)),
      Lane(m.acc, c.sx + b, x))
  }

  type Matrix = (nat, nat) -> int

  /** A byte that stands for an int8: the value modulo 256. */
  predicate IsByteOf(b: int, v: int) {
    -128 <= v <= 127 && b % 256 == v % 256
  }

  /** The weights in DDR are the int8 matrix W, packed tile by tile, transposed: row o = t D + x of W is lane
      x of tile t's words. */
  ghost predicate Packed(c: Layer, ddr: seq<U32>, W: Matrix) {
    forall t: nat, q: nat, x: nat :: t < Tiles(c) && q < c.k && x < c.d ==> InTiles(c, ddr, W, t, q, x)
  }

  predicate InTiles(c: Layer, ddr: seq<U32>, W: Matrix, t: nat, q: nat, x: nat) {
    IsByteOf(Cell(ddr, WAddr(c, t, q) + x), W(t * c.d + x, q))
  }

  /** The A strip is the int8 matrix X: element q of row b is lane q mod D of word b of block q / D. */
  ghost predicate Strip(c: Layer, m: Mem, X: Matrix)
    requires c.d > 0
  {
    forall b: nat, q: nat :: b < c.rows && q < c.k ==> InStrip(c, m, b, q, X(b, q))
  }

  predicate InStrip(c: Layer, m: Mem, b: nat, q: nat, v: int)
    requires c.d > 0
  {
    var w := c.aStrip + q / c.d * c.d + b;
    w < |m.spadA| && q % c.d < |m.spadA[w]| && IsByteOf(m.spadA[w][q % c.d], v)
  }

  /** The dot product of row b of X with row o of W. */
  function RowDot(X: Matrix, W: Matrix, b: nat, o: nat, n: nat): int {
    if n == 0 then 0 else RowDot(X, W, b, o, n - 1) + X(b, n - 1) * W(o, n - 1)
  }

  lemma {:induction false} SameByte(b: U32, v: int)
    requires IsByteOf(b, v)
    ensures S8(b) == v
  {
    hide S8;
  }

  lemma {:induction false} PackedDot(c: Layer, m: Mem, X: Matrix, W: Matrix, b: nat, t: nat, x: nat, n: nat)
    requires c.d > 0 && Packed(c, m.ddr, W) && Strip(c, m, X) && b < c.rows && t < Tiles(c) && x < c.d && n <= c.k
    ensures RefDot(c, m, b, t, x, n) == RowDot(X, W, b, t * c.d + x, n)
  {
    hide *;
    if n == 0 {
      NoTerms(c, m, X, W, b, t, x);
    } else {
      PackedDot(c, m, X, W, b, t, x, n - 1);
      PackedEntries(c, m, X, W, b, t, x, n - 1);
      NextTerms(c, m, X, W, b, t, x, n);
    }
  }

  lemma {:induction false} NoTerms(c: Layer, m: Mem, X: Matrix, W: Matrix, b: nat, t: nat, x: nat)
    requires c.d > 0
    ensures RefDot(c, m, b, t, x, 0) == RowDot(X, W, b, t * c.d + x, 0)
  {
  }

  lemma {:induction false} NextTerms(c: Layer, m: Mem, X: Matrix, W: Matrix, b: nat, t: nat, x: nat, n: nat)
    requires c.d > 0 && n > 0 && RefDot(c, m, b, t, x, n - 1) == RowDot(X, W, b, t * c.d + x, n - 1)
    requires StripAt(m, c.d, c.aStrip, b, n - 1) == X(b, n - 1)
             && Weight(c, m.ddr, t, n - 1, x) == W(t * c.d + x, n - 1)
    ensures RefDot(c, m, b, t, x, n) == RowDot(X, W, b, t * c.d + x, n)
  {
    hide StripAt, Weight;
  }

  lemma {:induction false} PackedEntries(c: Layer, m: Mem, X: Matrix, W: Matrix, b: nat, t: nat, x: nat, q: nat)
    requires c.d > 0 && Packed(c, m.ddr, W) && Strip(c, m, X) && b < c.rows && t < Tiles(c) && x < c.d && q < c.k
    ensures StripAt(m, c.d, c.aStrip, b, q) == X(b, q) && Weight(c, m.ddr, t, q, x) == W(t * c.d + x, q)
    ensures -128 <= X(b, q) <= 127 && -128 <= W(t * c.d + x, q) <= 127
  {
    hide InStrip, InTiles, StripAt, Weight, Tiles;
    assert InStrip(c, m, b, q, X(b, q)) && InTiles(c, m.ddr, W, t, q, x);
    StripEntry(c, m, b, q, X(b, q));
    TileEntry(c, m.ddr, W, t, q, x);
  }

  lemma {:induction false} StripEntry(c: Layer, m: Mem, b: nat, q: nat, v: int)
    requires c.d > 0 && InStrip(c, m, b, q, v)
    ensures StripAt(m, c.d, c.aStrip, b, q) == v && -128 <= v <= 127
  {
    hide S8;
    SameByte(m.spadA[c.aStrip + q / c.d * c.d + b][q % c.d], v);
  }

  lemma {:induction false} TileEntry(c: Layer, ddr: seq<U32>, W: Matrix, t: nat, q: nat, x: nat)
    requires InTiles(c, ddr, W, t, q, x)
    ensures Weight(c, ddr, t, q, x) == W(t * c.d + x, q) && -128 <= W(t * c.d + x, q) <= 127
  {
    hide S8, WAddr, Cell;
    SameByte(Cell(ddr, WAddr(c, t, q) + x), W(t * c.d + x, q));
  }

  /** The int32 in the C row is the exact dot product exactly when that is an int32. */
  lemma {:induction false} Int32IsExact(v: int)
    ensures S32(Bits(v)) == v <==> -0x8000_0000 <= v < 0x8000_0000
  {
  }

  /** Output x of tile t in row b: one row of words in ACC, or rows of 4 n_out bytes in DDR. */
  function OutAt(c: Layer, m: Mem, b: nat, t: nat, x: nat): U32 {
    match c.out
    case ToAcc(word) => Lane(m.acc, word + t, x)
    case ToDdr(off) => Cell(m.ddr, OAddr(c, off, b, t) + 4 * x)
  }

  // ---------------------------------------------------------------- what must fit

  function Outputs(c: Layer): nat {
    Tiles(c) * c.d
  }

  /** Row b of a DDR output is at out_ddr + 4 n_out b, output o of it 4 o bytes further. */
  lemma {:induction false} OutputAddress(c: Layer, m: Mem, b: nat, t: nat, x: nat)
    requires c.out.ToDdr?
    ensures OutAt(c, m, b, t, x) == Cell(m.ddr, c.out.off + b * (4 * Outputs(c)) + 4 * (t * c.d + x))
  {
    hide Cell;
    Associate(4, c.nc, c.d);
    Associate(c.nch, c.nc, c.d);
    Associate(c.nch, 4, c.nc * c.d);
    Commute(c.nch, 4);
    Associate(4, c.nch, c.nc * c.d);
    assert RowPitch(c) == 4 * Outputs(c);
    Associate(t, 4, c.d);
    Commute(t, 4);
    Associate(4, t, c.d);
  }

  /** Words of a chunk's C rows, and of its scratch: C rows, s_w, y. */
  function RowWords(c: Layer): nat {
    c.d * c.nc
  }

  function Scratch(c: Layer): nat {
    RowWords(c) + c.nc + YWords(c)
  }

  /** Bytes of a DDR output. */
  function OutBytes(c: Layer): nat {
    c.rows * RowPitch(c)
  }

  /** The activation scales are in ACC, outside the scratch. */
  predicate SxOutside(c: Layer, m: Mem) {
    c.sx + c.rows <= |m.acc| && forall w :: c.sx <= w < c.sx + c.rows ==> !InScratch(c, w)
  }

  predicate InScratch(c: Layer, w: int) {
    0 <= w < Scratch(c) || c.cb <= w < c.cb + Scratch(c)
  }

  predicate Apart(a: nat, n: nat, b: nat, k: nat) {
    a + n <= b || b + k <= a
  }

  /** Banks and scratch hold a chunk, the activation scales and an ACC output are outside the scratch, a
      DDR output is apart from the weights and scales, and everything is inside the memories. */
  predicate Fits(c: Layer, m: Mem) {
    && Accepted(c) && Lanes(m, c.d) && |m.ddr| <= LoopMachine.M32
    && WordsOf(c) <= c.sb && 2 * c.sb <= |m.spadB|
    && Scratch(c) <= c.cb && 2 * c.cb <= |m.acc|
    && c.rows <= c.d && SxOutside(c, m)
    && c.wOff + c.nch * WBytes(c) <= |m.ddr| && c.swOff + c.nch * FBytes(c) <= |m.ddr|
    && (match c.out
        case ToAcc(word) =>
          && word + Tiles(c) <= |m.acc| && Apart(word, Tiles(c), c.sx, 1)
          && Apart(word, Tiles(c), 0, Scratch(c)) && Apart(word, Tiles(c), c.cb, Scratch(c))
        case ToDdr(off) =>
          && off + OutBytes(c) <= |m.ddr|
          && Apart(off, OutBytes(c), c.wOff, c.nch * WBytes(c))
          && Apart(off, OutBytes(c), c.swOff, c.nch * FBytes(c)))
  }

  /** The inputs are as in m0, and the memories have their sizes. */
  predicate Same(c: Layer, m0: Mem, m: Mem) {
    && m.spadA == m0.spadA && |m.spadB| == |m0.spadB| && |m.acc| == |m0.acc| && |m.ddr| == |m0.ddr|
    && (forall w :: c.sx <= w < c.sx + c.rows && w < |m.acc| ==> m.acc[w] == m0.acc[w])
    && (forall a: nat :: c.wOff <= a < c.wOff + c.nch * WBytes(c) ==> Cell(m.ddr, a) == Cell(m0.ddr, a))
    && (forall a: nat :: c.swOff <= a < c.swOff + c.nch * FBytes(c) ==> Cell(m.ddr, a) == Cell(m0.ddr, a))
  }

  /** DDR address of chunk j's weights, and of its weight scales. */
  function WFrom(c: Layer, j: nat): nat {
    c.wOff + j * WBytes(c)
  }

  function SFrom(c: Layer, j: nat): nat {
    c.swOff + j * FBytes(c)
  }

  /** Words of a chunk's weights. */
  function WordsOf(c: Layer): nat {
    c.nc * c.k
  }

  /** First word of SPAD_B bank p, of ACC bank p, and of that bank's weight scales and results. */
  function BankB(c: Layer, p: nat): nat {
    p * c.sb
  }

  function BankC(c: Layer, p: nat): nat {
    p * c.cb
  }

  function ScaleAt(c: Layer, p: nat): nat {
    p * c.cb + RowWords(c)
  }

  function ResultAt(c: Layer, p: nat): nat {
    p * c.cb + RowWords(c) + c.nc
  }

  /** Where the banks are in memory. */
  lemma {:induction false} Banks(c: Layer, m: Mem, p: nat)
    requires Fits(c, m) && p < 2
    ensures BankB(c, p) + WordsOf(c) <= |m.spadB| && ScaleAt(c, p) + c.nc + YWords(c) <= |m.acc|
    ensures BankB(c, 0) + WordsOf(c) <= BankB(c, 1) && BankC(c, 0) + Scratch(c) <= BankC(c, 1)
    ensures ScaleAt(c, p) == BankC(c, p) + RowWords(c) && ResultAt(c, p) == ScaleAt(c, p) + c.nc
    ensures BankC(c, p) + Scratch(c) == ResultAt(c, p) + YWords(c) <= |m.acc|
    ensures forall w :: BankC(c, p) <= w < BankC(c, p) + Scratch(c) ==> InScratch(c, w)
  {
    hide Lanes, WBytes, FBytes, Accepted, Apart, YWords, SxOutside;
    assert p == 0 || p == 1;
    BankWords(c, p);
    BankWords(c, 0);
    BankWords(c, 1);
  }

  /** SPAD_B bank p holds the weights of chunk j. */
  predicate HasWeights(c: Layer, m0: Mem, m: Mem, p: nat, j: nat) {
    && BankB(c, p) + WordsOf(c) <= |m.spadB|
    && forall w: nat :: w < WordsOf(c) ==> m.spadB[BankB(c, p) + w] == WeightWord(c, m0, j, w)
  }

  function WeightWord(c: Layer, m0: Mem, j: nat, w: nat): (r: Word)
    ensures |r| == c.d
  {
    ByteWord(m0.ddr, WFrom(c, j), c.d, w)
  }

  /** ACC bank p holds the weight scales of chunk j. */
  predicate HasScales(c: Layer, m0: Mem, m: Mem, p: nat, j: nat) {
    && ScaleAt(c, p) + c.nc <= |m.acc|
    && forall g: nat :: g < c.nc ==> m.acc[ScaleAt(c, p) + g] == ScaleWord(c, m0, j, g)
  }

  function ScaleWord(c: Layer, m0: Mem, j: nat, g: nat): (r: Word)
    ensures |r| == c.d
  {
    FloatWord(m0.ddr, SFrom(c, j), c.d, g)
  }

  /** The outputs of chunk j are right. */
  predicate ChunkDone(c: Layer, m0: Mem, m: Mem, j: nat)
    requires c.d > 0
  {
    forall b: nat, g: nat, x: nat :: b < c.rows && g < c.nc && x < c.d ==>
      OutAt(c, m, b, Tile(c, j, g), x) == Ref(c, m0, b, Tile(c, j, g), x)
  }

  /** Outputs of the chunks computed before position i. */
  predicate DoneBefore(c: Layer, m0: Mem, m: Mem, i: nat)
    requires Accepted(c)
  {
    forall h: nat :: h < i && h < c.nch ==> ChunkDone(c, m0, m, c.order[h])
  }

  // ---------------------------------------------------------------- loads

  lemma {:induction false} BytesSame(a: seq<U32>, b: seq<U32>, at: nat, d: nat)
    requires forall i: nat :: at <= i < at + d ==> Cell(a, i) == Cell(b, i)
    ensures Bytes(a, at, d) == Bytes(b, at, d)
  {
  }

  lemma {:induction false} FloatsSame(a: seq<U32>, b: seq<U32>, at: nat, d: nat)
    requires forall i: nat :: at <= i < at + 4 * d ==> Cell(a, i) == Cell(b, i)
    ensures Floats(a, at, d) == Floats(b, at, d)
  {
  }

  /** A weight word of chunk j lies inside the weights. */
  lemma {:induction false} WeightInside(c: Layer, j: nat, w: nat)
    requires j < c.nch && w < WordsOf(c)
    ensures WFrom(c, j) + w * c.d + c.d <= c.wOff + c.nch * WBytes(c)
  {
    Below(j, c.nch, WBytes(c));
    Below(w, c.nc * c.k, c.d);
  }

  lemma {:induction false} ScaleInside(c: Layer, j: nat, g: nat)
    requires j < c.nch && g < c.nc
    ensures SFrom(c, j) + g * (4 * c.d) + 4 * c.d <= c.swOff + c.nch * FBytes(c)
  {
    Below(j, c.nch, FBytes(c));
    Below(g, c.nc, 4 * c.d);
    Associate(c.nc, 4, c.d);
    Commute(c.nc, 4);
    Associate(4, c.nc, c.d);
  }

  function LoadWeights(c: Layer, p: nat, j: nat): Effective {
    Effective(Ld(SPAD_B, BankB(c, p), c.nc, c.k * c.d), WFrom(c, j) % LoopMachine.M32)
  }

  function LoadScales(c: Layer, p: nat, j: nat): Effective {
    Effective(Ld(ACC, ScaleAt(c, p), 1, FBytes(c)), SFrom(c, j) % LoopMachine.M32)
  }

  lemma {:induction false} ExactDivision(n: nat, d: nat)
    requires d > 0
    ensures n * d / d == n
  {
    QuotientIs(n * d, d, n, 0);
  }

  lemma {:induction false} LdSpadB(m: Mem, d: nat, word: nat, n: nat, bytes: nat, ddr: nat)
    requires d > 0 && word + n <= |m.spadB| && bytes / d == n
    ensures var r := DoLd(m, d, SPAD_B, word, bytes, ddr);
            && r == m.(spadB := r.spadB) && |r.spadB| == |m.spadB|
            && (forall w: nat :: w < n ==> r.spadB[word + w] == ByteWord(m.ddr, ddr, d, w))
            && (forall w :: 0 <= w < |m.spadB| && !(word <= w < word + n) ==> r.spadB[w] == m.spadB[w])
  {
    hide ByteWord;
    var f: nat -> Word := w => ByteWord(m.ddr, ddr, d, w);
    var r := DoLd(m, d, SPAD_B, word, bytes, ddr);
    assert r.spadB == Put(m.spadB, word, n, f);
    forall w: nat | w < n ensures r.spadB[word + w] == ByteWord(m.ddr, ddr, d, w) {
      assert Put(m.spadB, word, n, f)[word + w] == f(w);
    }
  }

  lemma {:induction false} LdAcc(m: Mem, d: nat, word: nat, n: nat, bytes: nat, ddr: nat)
    requires d > 0 && word + n <= |m.acc| && bytes / (4 * d) == n
    ensures var r := DoLd(m, d, ACC, word, bytes, ddr);
            && r == m.(acc := r.acc) && |r.acc| == |m.acc|
            && (forall w: nat :: w < n ==> r.acc[word + w] == FloatWord(m.ddr, ddr, d, w))
            && (forall w :: 0 <= w < |m.acc| && !(word <= w < word + n) ==> r.acc[w] == m.acc[w])
  {
    hide FloatWord;
    var f: nat -> Word := w => FloatWord(m.ddr, ddr, d, w);
    var r := DoLd(m, d, ACC, word, bytes, ddr);
    assert r.acc == Put(m.acc, word, n, f);
    forall w: nat | w < n ensures r.acc[word + w] == FloatWord(m.ddr, ddr, d, w) {
      assert Put(m.acc, word, n, f)[word + w] == f(w);
    }
  }

  /** The first words of the two banks. */
  lemma {:induction false} BankWords(c: Layer, p: nat)
    requires p < 2
    ensures p * c.sb == (if p == 0 then 0 else c.sb) && p * c.cb == if p == 0 then 0 else c.cb
  {
  }

  lemma {:induction false} FBytesIs(c: Layer)
    ensures FBytes(c) == c.nc * (4 * c.d)
  {
    Associate(4, c.nc, c.d);
    Commute(4, c.nc);
    Associate(c.nc, 4, c.d);
  }

  lemma {:induction false} WBytesPositive(c: Layer)
    requires Accepted(c)
    ensures WBytes(c) > 0 && FBytes(c) > 0 && WordsOf(c) > 0
  {
    MulAtLeast(c.nc, c.k);
    MulAtLeast(c.nc * c.k, c.d);
    MulAtLeast(4 * c.nc, c.d);
  }

  lemma {:induction false} LoadAddresses(c: Layer, m: Mem, j: nat)
    requires Fits(c, m) && j < c.nch
    ensures WFrom(c, j) < LoopMachine.M32 && SFrom(c, j) < LoopMachine.M32
  {
    hide WBytes, FBytes;
    Below(j, c.nch, WBytes(c));
    Below(j, c.nch, FBytes(c));
    WBytesPositive(c);
  }

  lemma {:induction false} WeightWordIs(c: Layer, m0: Mem, m: Mem, j: nat, w: nat)
    requires Same(c, m0, m) && j < c.nch && w < WordsOf(c)
    ensures ByteWord(m.ddr, WFrom(c, j), c.d, w) == WeightWord(c, m0, j, w)
  {
    hide WBytes, FBytes;
    WeightInside(c, j, w);
    BytesSame(m.ddr, m0.ddr, WFrom(c, j) + w * c.d, c.d);
  }

  lemma {:induction false} ScaleWordIs(c: Layer, m0: Mem, m: Mem, j: nat, g: nat)
    requires Same(c, m0, m) && j < c.nch && g < c.nc
    ensures FloatWord(m.ddr, SFrom(c, j), c.d, g) == ScaleWord(c, m0, j, g)
  {
    hide WBytes, FBytes;
    ScaleInside(c, j, g);
    FloatsSame(m.ddr, m0.ddr, SFrom(c, j) + g * (4 * c.d), c.d);
  }

  /** Bytes of a chunk's weights and scales, in words. */
  lemma {:induction false} ChunkWords(c: Layer)
    requires c.d > 0
    ensures WBytes(c) / c.d == WordsOf(c) && FBytes(c) / (4 * c.d) == c.nc
  {
    Associate(c.nc, c.k, c.d);
    FBytesIs(c);
    ExactDivision(c.nc * c.k, c.d);
    ExactDivision(c.nc, 4 * c.d);
  }

  lemma {:induction false} LoadWeightsIs(c: Layer, m: Mem, p: nat, j: nat)
    requires c.d > 0 && WFrom(c, j) < LoopMachine.M32
    ensures Perform(m, c.d, LoadWeights(c, p, j)) == DoLd(m, c.d, SPAD_B, BankB(c, p), WBytes(c), WFrom(c, j))
  {
    Associate(c.nc, c.k, c.d);
    assert WBytes(c) == c.nc * (c.k * c.d);
    hide DoLd, WBytes, BankB, WFrom;
  }

  lemma {:induction false} LoadScalesIs(c: Layer, m: Mem, p: nat, j: nat)
    requires c.d > 0 && SFrom(c, j) < LoopMachine.M32
    ensures Perform(m, c.d, LoadScales(c, p, j)) == DoLd(m, c.d, ACC, ScaleAt(c, p), FBytes(c), SFrom(c, j))
  {
    hide DoLd, FBytes, ScaleAt, SFrom;
  }

  lemma {:induction false} SameSizes(c: Layer, m0: Mem, m: Mem)
    requires Fits(c, m0) && Same(c, m0, m)
    ensures c.d > 0 && |m.spadB| == |m0.spadB| && |m.acc| == |m0.acc|
  {
  }

  /** The LD of a chunk's weights: its bank holds them, the other bank, ACC and DDR are as before. */
  lemma {:induction false} WeightsLoaded(c: Layer, m0: Mem, m: Mem, p: nat, j: nat)
    requires Fits(c, m0) && Same(c, m0, m) && p < 2 && j < c.nch
    ensures var r := Perform(m, c.d, LoadWeights(c, p, j));
            && r == m.(spadB := r.spadB) && |r.spadB| == |m.spadB| && HasWeights(c, m0, r, p, j)
            && forall w :: 0 <= w < |m.spadB| && !(BankB(c, p) <= w < BankB(c, p) + WordsOf(c)) ==>
                 r.spadB[w] == m.spadB[w]
  {
    hide DoLd, WBytes, FBytes, WeightWord, ByteWord, BankB, WordsOf, WFrom, SFrom, Fits, Same, Perform, LoadWeights,
         InScratch, Scratch, ScaleAt, BankC, ResultAt;
    SameSizes(c, m0, m);
    Banks(c, m0, p);
    LoadAddresses(c, m0, j);
    LoadWeightsIs(c, m, p, j);
    ChunkWords(c);
    var at, n := WFrom(c, j), WordsOf(c);
    forall w: nat | w < n
      ensures ByteWord(m.ddr, at, c.d, w) == WeightWord(c, m0, j, w)
    {
      WeightWordIs(c, m0, m, j, w);
    }
    LdSpadB(m, c.d, BankB(c, p), n, WBytes(c), at);
  }

  /** The LD of a chunk's weight scales into its ACC bank. */
  lemma {:induction false} ScalesLoaded(c: Layer, m0: Mem, m: Mem, p: nat, j: nat)
    requires Fits(c, m0) && Same(c, m0, m) && p < 2 && j < c.nch
    ensures var r := Perform(m, c.d, LoadScales(c, p, j));
            && r == m.(acc := r.acc) && |r.acc| == |m.acc| && HasScales(c, m0, r, p, j)
            && forall w :: 0 <= w < |m.acc| && !(ScaleAt(c, p) <= w < ScaleAt(c, p) + c.nc) ==> r.acc[w] == m.acc[w]
  {
    hide DoLd, WBytes, FBytes, ScaleWord, FloatWord, ScaleAt, WordsOf, WFrom, SFrom, Fits, Same, Perform, LoadScales,
         InScratch, Scratch, BankB, BankC, ResultAt;
    SameSizes(c, m0, m);
    Banks(c, m0, p);
    LoadAddresses(c, m0, j);
    LoadScalesIs(c, m, p, j);
    ChunkWords(c);
    var at := SFrom(c, j);
    forall g: nat | g < c.nc
      ensures FloatWord(m.ddr, at, c.d, g) == ScaleWord(c, m0, j, g)
    {
      ScaleWordIs(c, m0, m, j, g);
    }
    LdAcc(m, c.d, ScaleAt(c, p), c.nc, FBytes(c), at);
  }
}
