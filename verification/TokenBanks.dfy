/** Which SPAD_B bank holds what along a whole token list (llm/compile_model.py): every linear layer's
    first chunk is loaded while the layer before it still runs, into the bank that layer's last EX does
    not read; attention keeps its K^T and V strips in the other bank. */
module TokenBanks {
  import opened Options
  import opened Dyadic

  datatype Name = Wqkv | Wo | W13 | W2 | Wcls

  datatype Lin = Lin(name: Name, layer: nat)

  /** sb: words of a SPAD bank, scr: words of a chunk's scratch; the rest is the model's. */
  datatype Config = Config(d: nat, sb: nat, scr: nat, layers: nat, dim: nat, hidden: nat, kvDim: nat,
                           heads: nat, kvHeads: nat, headSize: nat, seqLen: nat, vocab: nat)

  /** What the compiler checks of a configuration, as far as SPAD_B is concerned, and what linear
      checks: a weight tile fits a bank, and its scratch fits. */
  predicate Accepted(c: Config) {
    && c.d > 0 && c.kvHeads > 0 && c.heads % c.kvHeads == 0 && c.heads >= c.kvHeads
    && c.headSize % c.d == 0 && c.seqLen % c.d == 0 && 2 * (c.seqLen * (c.headSize / c.d)) <= c.sb
    && c.dim > 0 && c.hidden > 0 && c.vocab > 0
    && c.dim % c.d == 0 && c.hidden % c.d == 0 && c.kvDim % c.d == 0 && c.vocab % c.d == 0
    && c.dim <= c.sb && c.hidden <= c.sb && c.d + 2 <= c.scr
  }

  function Inputs(c: Config, name: Name): nat {
    if name.W2? then c.hidden else c.dim
  }

  function Outputs(c: Config, name: Name): nat {
    match name
    case Wqkv => c.dim + 2 * c.kvDim
    case Wo => c.dim
    case W13 => 2 * c.hidden
    case W2 => c.dim
    case Wcls => c.vocab
  }

  function Tiles(c: Config, name: Name): nat
    requires c.d > 0
  {
    Outputs(c, name) / c.d
  }

  // ---------------------------------------------------------------- tiles per chunk

  /** The largest of 1 .. cap that divides n. */
  function LargestDivisor(n: nat, cap: nat): (q: nat)
    requires cap > 0
    ensures 1 <= q <= cap && n % q == 0
    ensures forall p :: 1 <= p <= cap && n % p == 0 ==> p <= q
  {
    if n % cap == 0 then cap else LargestDivisor(n, cap - 1)
  }

  /** Tiles whose weights fit a bank and whose C rows, s_w and y fit the scratch. */
  function Cap(c: Config, name: Name): (n: nat)
    requires Accepted(c)
    ensures n > 0 && n * Inputs(c, name) <= c.sb && n * (c.d + 2) <= c.scr
  {
    var k := Inputs(c, name);
    AtLeastOne(c.sb, k);
    AtLeastOne(c.scr, c.d + 2);
    var n := if c.sb / k <= c.scr / (c.d + 2) then c.sb / k else c.scr / (c.d + 2);
    MulUp(n, c.sb / k, k);
    MulUp(n, c.scr / (c.d + 2), c.d + 2);
    n
  }

  lemma {:induction false} AtLeastOne(a: nat, b: nat)
    requires 0 < b <= a
    ensures a / b >= 1 && a / b * b <= a
  {
  }

  /** Tiles per chunk unless the caller chooses. */
  function ChunkTiles(c: Config, name: Name): (n: nat)
    requires Accepted(c)
    ensures n > 0 && Tiles(c, name) % n == 0 && n <= Cap(c, name)
  {
    LargestDivisor(Tiles(c, name), Cap(c, name))
  }

  /** Output tiles of h1, and of h3. */
  function Half(c: Config): (n: nat)
    requires Accepted(c)
    ensures n > 0
  {
    AtLeastOne2(c.hidden, c.d);
    c.hidden / c.d
  }

  /** Tiles per chunk of the fused W13: chunks of h1 and of h3. */
  function FusedTiles(c: Config): (n: nat)
    requires Accepted(c)
    ensures n > 0 && Half(c) % n == 0 && n <= Cap(c, W13)
  {
    hide Accepted, Half, Cap;
    var half, cap := Half(c), Cap(c, W13);
    LargestDivisor(half, if cap <= half then cap else half)
  }

  /** n tiles fit a bank and the scratch: their weights, and their C rows, s_w and y. */
  predicate TilesFit(c: Config, name: Name, n: nat) {
    n * Inputs(c, name) <= c.sb && n * (c.d + 2) <= c.scr
  }

  lemma {:induction false} CapIs(c: Config, name: Name, n: nat)
    requires Accepted(c)
    ensures n <= Cap(c, name) <==> TilesFit(c, name, n)
  {
    AtMost(n, c.sb, Inputs(c, name));
    AtMost(n, c.scr, c.d + 2);
  }

  lemma {:induction false} AtMost(n: nat, a: nat, b: nat)
    requires b > 0
    ensures n <= a / b <==> n * b <= a
  {
    var q, r := Divide(a, b);
    if n <= q { MulUp(n, q, b); } else { MulUp(q + 1, n, b); SumTimes(q, 1, b); }
  }

  /** The chunk size is the largest divisor of the layer's tiles that fits. */
  lemma {:induction false} ChunkIsLargest(c: Config, name: Name)
    requires Accepted(c)
    ensures var n := ChunkTiles(c, name);
            && 1 <= n && Tiles(c, name) % n == 0 && TilesFit(c, name, n)
            && forall p: nat :: 1 <= p && TilesFit(c, name, p) && Tiles(c, name) % p == 0 ==> p <= n
  {
    assert c.d > 0;
    hide Accepted, Cap, Tiles, TilesFit;
    var n := ChunkTiles(c, name);
    CapIs(c, name, n);
    forall p: nat | 1 <= p && TilesFit(c, name, p) && Tiles(c, name) % p == 0 ensures p <= n { CapIs(c, name, p); }
  }

  /** So is the fused one, of the tiles of one half. */
  lemma {:induction false} FusedIsLargest(c: Config)
    requires Accepted(c)
    ensures var n := FusedTiles(c);
            && 1 <= n <= Half(c) && Half(c) % n == 0 && TilesFit(c, W13, n)
            && forall p: nat :: 1 <= p <= Half(c) && TilesFit(c, W13, p) && Half(c) % p == 0 ==> p <= n
  {
    hide Accepted, Cap, Half, TilesFit;
    var n := FusedTiles(c);
    CapIs(c, W13, n);
    forall p: nat | 1 <= p <= Half(c) && TilesFit(c, W13, p) && Half(c) % p == 0 ensures p <= n { CapIs(c, W13, p); }
  }

  lemma {:induction false} TwiceDivides(a: nat, n: nat)
    requires n > 0 && a % n == 0
    ensures (2 * a) % n == 0 && 2 * a / n == 2 * (a / n)
  {
    QuotientIs(2 * a, n, 2 * (a / n), 0);
  }

  lemma {:induction false} BothHalves(c: Config)
    requires Accepted(c)
    ensures Tiles(c, W13) == 2 * Half(c)
  {
    TwiceDivides(c.hidden, c.d);
  }

  /** What is prefetched for W13 covers the smaller fused chunk. */
  lemma {:induction false} FusedIsSmaller(c: Config)
    requires Accepted(c)
    ensures Tiles(c, W13) == 2 * Half(c) && (2 * Half(c)) % FusedTiles(c) == 0
    ensures FusedTiles(c) <= ChunkTiles(c, W13)
  {
    BothHalves(c);
    hide Accepted, Half, Cap, FusedTiles, Tiles;
    TwiceDivides(Half(c), FusedTiles(c));
  }

  // ---------------------------------------------------------------- SPAD_B

  /** A K^T strip or a V strip of one key / value head. */
  datatype Tag = Tag(layer: nat, values: bool, kvHead: nat)

  /** What a word of SPAD_B holds: a word of a layer's packed weights, of a strip, or anything. */
  datatype Content = Weight(lin: Lin, w: nat) | Strip(tag: Tag, w: nat) | Unknown

  type Spad = seq<Content>

  /** The commands that touch SPAD_B: LDs of weights, the transpose and the LD that write strips, and
      EXs with the words they are meant to read. */
  datatype Cmd =
    | LoadWeights(lin: Lin, from: nat, word: nat, n: nat)
    | WriteStrip(tag: Tag, word: nat, n: nat)
    | ExWeights(lin: Lin, from: nat, word: nat, n: nat)
    | ExStrip(tag: Tag, word: nat, n: nat)

  /** ok: every command stayed inside SPAD_B and every EX found what it is meant to read. */
  datatype Exec = Exec(spad: Spad, ok: bool)

  function Meant(x: Cmd, i: nat): Content {
    match x
    case LoadWeights(lin, from, _, _) => Weight(lin, from + i)
    case WriteStrip(tag, _, _) => Strip(tag, i)
    case ExWeights(lin, from, _, _) => Weight(lin, from + i)
    case ExStrip(tag, _, _) => Strip(tag, i)
  }

  predicate Writes(x: Cmd) {
    x.LoadWeights? || x.WriteStrip?
  }

  function Do(e: Exec, x: Cmd): (r: Exec)
    ensures |r.spad| == |e.spad|
    ensures forall w :: 0 <= w < |e.spad| ==>
              r.spad[w] == if Writes(x) && x.word <= w < x.word + x.n then Meant(x, w - x.word) else e.spad[w]
  {
    var inside := x.word + x.n <= |e.spad|;
    if Writes(x) then
      Exec(seq(|e.spad|, w requires 0 <= w < |e.spad| =>
             if x.word <= w < x.word + x.n then Meant(x, w - x.word) else e.spad[w]), e.ok && inside)
    else
      Exec(e.spad, e.ok && inside && forall w :: x.word <= w < x.word + x.n ==> e.spad[w] == Meant(x, w - x.word))
  }

  /** A list run from a SPAD_B with unknown contents. */
  function Run(sb: nat, dl: seq<Cmd>): (e: Exec)
    ensures |e.spad| == 2 * sb
  {
    if dl == [] then Exec(seq(2 * sb, _ => Unknown), true) else Do(Run(sb, dl[..|dl| - 1]), dl[|dl| - 1])
  }

  /** What the EXs of a list read, in order. */
  datatype Read = OfWeights(lin: Lin, from: nat, n: nat) | OfStrip(tag: Tag, n: nat)

  function ReadBy(x: Cmd): seq<Read> {
    match x
    case ExWeights(lin, from, _, n) => [OfWeights(lin, from, n)]
    case ExStrip(tag, _, n) => [OfStrip(tag, n)]
    case _ => []
  }

  function Reads(dl: seq<Cmd>): seq<Read> {
    if dl == [] then [] else Reads(dl[..|dl| - 1]) + ReadBy(dl[|dl| - 1])
  }

  lemma {:induction false} OneMore(sb: nat, dl: seq<Cmd>, x: Cmd)
    ensures Run(sb, dl + [x]) == Do(Run(sb, dl), x) && Reads(dl + [x]) == Reads(dl) + ReadBy(x)
  {
    assert (dl + [x])[..|dl + [x]| - 1] == dl;
  }

  /** Words word .. word + n - 1 hold the first n words of what lin's weights have from from on. */
  predicate Holds(s: Spad, lin: Lin, from: nat, word: nat, n: nat) {
    word + n <= |s| && forall w :: word <= w < word + n ==> s[w] == Weight(lin, from + (w - word))
  }

  predicate HoldsStrip(s: Spad, tag: Tag, word: nat, n: nat) {
    word + n <= |s| && forall w :: word <= w < word + n ==> s[w] == Strip(tag, w - word)
  }

  /** A write leaves what is apart from it. */
  lemma {:induction false} DoKeeps(e: Exec, x: Cmd, lin: Lin, from: nat, word: nat, n: nat)
    requires Holds(e.spad, lin, from, word, n) && (!Writes(x) || x.word + x.n <= word || word + n <= x.word)
    ensures Holds(Do(e, x).spad, lin, from, word, n)
  {
  }

  lemma {:induction false} DoWrites(e: Exec, x: Cmd)
    requires Writes(x) && x.word + x.n <= |e.spad|
    ensures Do(e, x).ok == e.ok
    ensures x.LoadWeights? ==> Holds(Do(e, x).spad, x.lin, x.from, x.word, x.n)
    ensures x.WriteStrip? ==> HoldsStrip(Do(e, x).spad, x.tag, x.word, x.n)
  {
  }

  lemma {:induction false} DoReads(e: Exec, x: Cmd)
    requires !Writes(x) && (x.ExWeights? ==> Holds(e.spad, x.lin, x.from, x.word, x.n))
    requires x.ExStrip? ==> HoldsStrip(e.spad, x.tag, x.word, x.n)
    ensures Do(e, x) == e
  {
  }

  // ---------------------------------------------------------------- what a list is meant to read

  /** The first i chunks, in the order computed. */
  function ChunkReads(lin: Lin, per: nat, order: seq<nat>, i: nat): seq<Read>
    requires i <= |order|
  {
    if i == 0 then [] else ChunkReads(lin, per, order, i - 1) + [OfWeights(lin, order[i - 1] * per, per)]
  }

  predicate Permutation(order: seq<nat>) {
    && (forall j :: 0 <= j < |order| ==> j in order)
    && (forall i :: 0 <= i < |order| ==> order[i] < |order|)
    && (forall h, i :: 0 <= h < i < |order| ==> order[h] != order[i])
  }

  predicate InChunk(per: nat, j: nat, w: nat) {
    j * per <= w < j * per + per
  }

  /** Every word of the chunks is in exactly one of those read. */
  lemma {:induction false} EveryWordOnce(per: nat, order: seq<nat>, w: nat) returns (i: nat)
    requires Permutation(order) && w < |order| * per
    ensures i < |order| && forall h :: 0 <= h < |order| ==> (InChunk(per, order[h], w) <==> h == i)
  {
    var j := w / per;
    QuotientBetween(w, per, j, w % per, 0, |order|);
    assert j in order;
    i :| 0 <= i < |order| && order[i] == j;
    forall h | 0 <= h < |order| ensures InChunk(per, order[h], w) <==> h == i {
      if InChunk(per, order[h], w) { QuotientIs(w, per, order[h], w - order[h] * per); }
    }
  }

  lemma {:induction false} ChunkReadAt(lin: Lin, per: nat, order: seq<nat>, n: nat, i: nat)
    requires i < n <= |order|
    ensures |ChunkReads(lin, per, order, n)| == n
    ensures ChunkReads(lin, per, order, n)[i] == OfWeights(lin, order[i] * per, per)
  {
    if n > 1 {
      ChunkReadAt(lin, per, order, n - 1, if i < n - 1 then i else 0);
    }
  }

  /** Read i, and no other, reads word w of lin's weights. */
  predicate ReadOnce(rs: seq<Read>, lin: Lin, w: nat, i: nat) {
    i < |rs| && forall h :: 0 <= h < |rs| ==>
      (rs[h].OfWeights? && rs[h].lin == lin && rs[h].from <= w < rs[h].from + rs[h].n <==> h == i)
  }

  lemma {:induction false} Divides(n: nat, q: nat)
    requires q > 0 && n % q == 0
    ensures n / q * q == n
  {
  }

  /** A layer's EXs read every word of its weights, each in exactly one EX. */
  lemma {:induction false} WeightsReadOnce(c: Config, lin: Lin, nc: nat, order: seq<nat>, w: nat) returns (i: nat)
    requires Permutation(order) && c.d > 0 && |order| * nc == Tiles(c, lin.name)
    requires w < Tiles(c, lin.name) * Inputs(c, lin.name)
    ensures ReadOnce(LinReads(c, lin, nc, order), lin, w, i)
  {
    var per, rs := Words(c, lin.name, nc), LinReads(c, lin, nc, order);
    Associate(|order|, nc, Inputs(c, lin.name));
    assert w < |order| * per;
    hide Permutation, Tiles, LinReads, ChunkReads, Words, Inputs;
    i := EveryWordOnce(per, order, w);
    ReadsAt(c, lin, nc, order);
    forall h | 0 <= h < |rs|
      ensures rs[h] == OfWeights(lin, order[h] * per, per) && InChunk(per, order[h], w) == (h == i)
    {
    }
  }

  lemma {:induction false} ReadsAt(c: Config, lin: Lin, nc: nat, order: seq<nat>)
    ensures |LinReads(c, lin, nc, order)| == |order|
    ensures forall h :: 0 <= h < |order| ==>
              LinReads(c, lin, nc, order)[h]
                == OfWeights(lin, order[h] * Words(c, lin.name, nc), Words(c, lin.name, nc))
  {
    if order != [] {
      forall h | 0 <= h < |order|
        ensures |LinReads(c, lin, nc, order)| == |order|
        ensures LinReads(c, lin, nc, order)[h]
                == OfWeights(lin, order[h] * Words(c, lin.name, nc), Words(c, lin.name, nc))
      {
        ChunkReadAt(lin, Words(c, lin.name, nc), order, |order|, h);
      }
      ChunkReadAt(lin, Words(c, lin.name, nc), order, |order|, 0);
    }
  }

  /** So does the list of every layer, fused or not. */
  lemma {:induction false} EveryWeightOnce(c: Config, fuse: bool, lin: Lin, w: nat) returns (i: nat)
    requires Accepted(c) && w < Tiles(c, lin.name) * Inputs(c, lin.name)
    ensures ReadOnce(if lin.name.W13? then FfnReads(c, fuse, lin.layer) else PlainReads(c, lin), lin, w, i)
  {
    hide Accepted, Tiles, Inputs, Half, FusedTiles, ChunkTiles, LinReads, InOrder, InPairs, ReadOnce;
    if lin.name.W13? && fuse {
      i := FusedOnce(c, lin, w);
    } else {
      i := PlainOnce(c, lin, w);
    }
  }

  lemma {:induction false} PlainOnce(c: Config, lin: Lin, w: nat) returns (i: nat)
    requires Accepted(c) && w < Tiles(c, lin.name) * Inputs(c, lin.name)
    ensures ReadOnce(PlainReads(c, lin), lin, w, i)
  {
    assert c.d > 0;
    hide Accepted, Tiles, Inputs, ChunkTiles, LinReads, InOrder, ReadOnce;
    var nc := ChunkTiles(c, lin.name);
    Divides(Tiles(c, lin.name), nc);
    i := WeightsReadOnce(c, lin, nc, InOrder(Tiles(c, lin.name) / nc), w);
  }

  lemma {:induction false} FusedOnce(c: Config, lin: Lin, w: nat) returns (i: nat)
    requires Accepted(c) && lin.name.W13? && w < Tiles(c, W13) * Inputs(c, W13)
    ensures ReadOnce(LinReads(c, lin, FusedTiles(c), InPairs(Half(c) / FusedTiles(c))), lin, w, i)
  {
    assert c.d > 0;
    FusedIsSmaller(c);
    hide Accepted, Tiles, Inputs, Half, FusedTiles, LinReads, InPairs, ReadOnce, Permutation;
    var n := FusedTiles(c);
    Divides(Half(c), n);
    Associate(2, Half(c) / n, n);
    i := WeightsReadOnce(c, lin, n, InPairs(Half(c) / n), w);
  }

  function InOrder(n: nat): (order: seq<nat>)
    ensures |order| == n && Permutation(order)
  {
    var order: seq<nat> := seq(n, i => i);
    assert Permutation(order) by {
      forall j | 0 <= j < n ensures j in order { assert order[j] == j; }
    }
    order
  }

  /** h1 and h3 chunks in pairs: 0, n, 1, n + 1, ... */
  function InPairs(n: nat): (order: seq<nat>)
    ensures |order| == 2 * n && Permutation(order)
    ensures n > 0 ==> order[0] == 0
  {
    var order: seq<nat> := seq(2 * n, i => if i % 2 == 0 then i / 2 else n + i / 2);
    assert Permutation(order) by {
      forall j | 0 <= j < 2 * n ensures j in order { assert j == order[if j < n then 2 * j else 2 * (j - n) + 1]; }
    }
    order
  }

  /** Words of a chunk of nc tiles. */
  function Words(c: Config, name: Name, nc: nat): nat {
    nc * Inputs(c, name)
  }

  /** First word of chunk j. */
  function From(c: Config, name: Name, nc: nat, j: nat): nat {
    j * Words(c, name, nc)
  }

  function LinReads(c: Config, lin: Lin, nc: nat, order: seq<nat>): seq<Read> {
    ChunkReads(lin, Words(c, lin.name, nc), order, |order|)
  }

  /** Words of a head's strip of pp cached positions. */
  function StripWords(c: Config, pp: nat): nat
    requires c.d > 0
  {
    pp * (c.headSize / c.d)
  }

  /** The key / value head of each of the first h query heads: its K^T, then its V. */
  function HeadReads(c: Config, layer: nat, pp: nat, h: nat): seq<Read>
    requires Accepted(c)
  {
    if h == 0 then [] else
      var kv := (h - 1) / (c.heads / c.kvHeads);
      HeadReads(c, layer, pp, h - 1)
      + [OfStrip(Tag(layer, false, kv), StripWords(c, pp)), OfStrip(Tag(layer, true, kv), StripWords(c, pp))]
  }

  lemma {:induction false} NoHeads(c: Config, layer: nat, pp: nat)
    requires Accepted(c)
    ensures HeadReads(c, layer, pp, 0) == []
  {
  }

  lemma {:induction false} HeadsNext(c: Config, layer: nat, pp: nat, h: nat)
    requires Accepted(c)
    ensures c.d > 0 && c.kvHeads > 0 && c.heads / c.kvHeads > 0
    ensures var kv: nat := h / (c.heads / c.kvHeads);
            HeadReads(c, layer, pp, h + 1) == HeadReads(c, layer, pp, h)
              + [OfStrip(Tag(layer, false, kv), StripWords(c, pp)), OfStrip(Tag(layer, true, kv), StripWords(c, pp))]
  {
    HeadsPositive(c);
  }

  function PlainReads(c: Config, lin: Lin): seq<Read>
    requires Accepted(c)
  {
    var nc := ChunkTiles(c, lin.name);
    LinReads(c, lin, nc, InOrder(Tiles(c, lin.name) / nc))
  }

  function FfnReads(c: Config, fuse: bool, l: nat): seq<Read>
    requires Accepted(c)
  {
    if fuse then LinReads(c, Lin(W13, l), FusedTiles(c), InPairs(Half(c) / FusedTiles(c)))
      else PlainReads(c, Lin(W13, l))
  }

  function LayerReads(c: Config, fuse: bool, pp: nat, l: nat): seq<Read>
    requires Accepted(c)
  {
    PlainReads(c, Lin(Wqkv, l)) + HeadReads(c, l, pp, c.heads) + PlainReads(c, Lin(Wo, l)) + FfnReads(c, fuse, l)
    + PlainReads(c, Lin(W2, l))
  }

  /** The first n layers. */
  function LayersRead(c: Config, fuse: bool, pp: nat, n: nat): seq<Read>
    requires Accepted(c)
  {
    if n == 0 then [] else LayersRead(c, fuse, pp, n - 1) + LayerReads(c, fuse, pp, n - 1)
  }

  lemma {:induction false} NoLayers(c: Config, fuse: bool, pp: nat)
    requires Accepted(c)
    ensures LayersRead(c, fuse, pp, 0) == []
  {
  }

  lemma {:induction false} LayersNext(c: Config, fuse: bool, pp: nat, n: nat)
    requires Accepted(c)
    ensures LayersRead(c, fuse, pp, n + 1) == LayersRead(c, fuse, pp, n) + LayerReads(c, fuse, pp, n)
  {
  }

  /** The linear layers of the first n layers, in order. */
  function LinsOf(n: nat): (s: seq<Lin>)
    ensures |s| == 4 * n
  {
    if n == 0 then [] else LinsOf(n - 1) + [Lin(Wqkv, n - 1), Lin(Wo, n - 1), Lin(W13, n - 1), Lin(W2, n - 1)]
  }

  /** The four of layer l come at 4 l. */
  predicate LayerAt(s: seq<Lin>, i: nat, l: nat) {
    i + 4 <= |s| && s[i] == Lin(Wqkv, l) && s[i + 1] == Lin(Wo, l) && s[i + 2] == Lin(W13, l) && s[i + 3] == Lin(W2, l)
  }

  lemma {:induction false} LinsThere(s: seq<Lin>, i: nat, l: nat)
    requires LayerAt(s, i, l)
    ensures i + 4 <= |s|
    ensures s[i] == Lin(Wqkv, l) && s[i + 1] == Lin(Wo, l) && s[i + 2] == Lin(W13, l) && s[i + 3] == Lin(W2, l)
  {
  }

  lemma {:induction false} LinsAt(n: nat, l: nat, more: seq<Lin>)
    requires l < n
    ensures LayerAt(LinsOf(n) + more, 4 * l, l)
    decreases n
  {
    if l < n - 1 {
      LinsAt(n - 1, l, []);
      assert LinsOf(n - 1) + [] == LinsOf(n - 1);
    }
  }

  // ---------------------------------------------------------------- the compiler

  function BankWord(c: Config, p: nat): nat {
    if p == 0 then 0 else c.sb
  }

  /** Only bank p may differ. */
  predicate OnlyBank(c: Config, p: nat, s: Spad, t: Spad) {
    |s| == |t| && forall w :: 0 <= w < |s| && !(BankWord(c, p) <= w < BankWord(c, p) + c.sb) ==> t[w] == s[w]
  }

  lemma {:induction false} OtherBank(c: Config, p: nat, s: Spad, t: Spad, lin: Lin, n: nat)
    requires p < 2 && OnlyBank(c, p, s, t) && n <= c.sb
    ensures Holds(s, lin, 0, BankWord(c, 1 - p), n) ==> Holds(t, lin, 0, BankWord(c, 1 - p), n)
  {
  }

  class Compiler {
    const c: Config
    const prefetch: bool
    const fuse: bool
    var dl: seq<Cmd>
    var sequence: seq<Lin>        // _seq
    var next: nat                 // _li
    var preBank: Option<nat>    // _pre_bank

    ghost function Now(): (e: Exec)
      reads this
      ensures |e.spad| == 2 * c.sb
    {
      Run(c.sb, dl)
    }

    /** Every EX so far found what it is meant to read; the bank named by preBank holds the chunk the
        next linear layer starts with. */
    ghost predicate Valid()
      reads this
    {
      && Accepted(c) && Now().ok
      && (preBank.Some? ==>
            && next < |sequence| && preBank.value < 2
            && var lin := sequence[next];
               Holds(Now().spad, lin, 0, BankWord(c, preBank.value), Words(c, lin.name, ChunkTiles(c, lin.name))))
    }

    constructor (c: Config, prefetch: bool, fuse: bool)
      requires Accepted(c)
      ensures Valid() && this.c == c && this.prefetch == prefetch && this.fuse == fuse && dl == []
      ensures sequence == [] && next == 0 && preBank == None
    {
      this.c, this.prefetch, this.fuse := c, prefetch, fuse;
      dl, sequence, next, preBank := [], [], 0, None;
    }

    method Emit(x: Cmd)
      modifies this`dl
      ensures dl == old(dl) + [x] && Now() == Do(old(Now()), x) && Reads(dl) == old(Reads(dl)) + ReadBy(x)
    {
      OneMore(c.sb, dl, x);
      dl := dl + [x];
    }

    /** LD of chunk j of a layer's weights into bank p. */
    method Load(lin: Lin, nc: nat, j: nat, p: nat)
      requires Accepted(c) && nc <= Cap(c, lin.name) && p < 2
      modifies this`dl
      ensures Reads(dl) == old(Reads(dl)) && Now().ok == old(Now().ok)
      ensures Holds(Now().spad, lin, From(c, lin.name, nc, j), BankWord(c, p), Words(c, lin.name, nc))
      ensures OnlyBank(c, p, old(Now().spad), Now().spad)
    {
      var x := LoadWeights(lin, From(c, lin.name, nc, j), BankWord(c, p), Words(c, lin.name, nc));
      ghost var e := Now();
      MulUp(nc, Cap(c, lin.name), Inputs(c, lin.name));
      Emit(x);
      DoWrites(e, x);
    }

    /** EX of a chunk whose weights are in bank p. */
    method Compute(lin: Lin, nc: nat, j: nat, p: nat)
      requires Now().ok && Holds(Now().spad, lin, From(c, lin.name, nc, j), BankWord(c, p), Words(c, lin.name, nc))
      modifies this`dl
      ensures Now() == old(Now())
      ensures Reads(dl) == old(Reads(dl)) + [OfWeights(lin, From(c, lin.name, nc, j), Words(c, lin.name, nc))]
    {
      var x := ExWeights(lin, From(c, lin.name, nc, j), BankWord(c, p), Words(c, lin.name, nc));
      DoReads(Now(), x);
      Emit(x);
    }

    /** Chunk 0 of a later layer, ahead of time. */
    method Prefetch(lin: Lin, bank: nat)
      requires Accepted(c) && bank < 2
      modifies this`dl, this`preBank
      ensures Reads(dl) == old(Reads(dl)) && Now().ok == old(Now().ok) && preBank == Some(bank)
      ensures Holds(Now().spad, lin, 0, BankWord(c, bank), Words(c, lin.name, ChunkTiles(c, lin.name)))
    {
      Load(lin, ChunkTiles(c, lin.name), 0, bank);
      preBank := Some(bank);
    }

    /** The chunks of a layer, double-buffered from bank bank0 on, and the prefetch of the layer after
        it into the bank the last EX does not read (compile_layer.py, linear). */
    method Chunks(lin: Lin, nc: nat, order: seq<nat>, bank0: nat, preloaded: bool, after: Option<Lin>)
      requires Accepted(c) && Now().ok && nc <= Cap(c, lin.name) && |order| > 0 && bank0 < 2
      requires preloaded ==> order[0] == 0 && Holds(Now().spad, lin, 0, BankWord(c, bank0), Words(c, lin.name, nc))
      requires preBank == None
      modifies this`dl, this`preBank
      ensures Now().ok && Reads(dl) == old(Reads(dl)) + LinReads(c, lin, nc, order)
      ensures after.None? ==> preBank == None
      ensures after.Some? ==>
                && preBank == Some(1 - (|order| - 1 + bank0) % 2)
                && var lin' := after.value;
                   Holds(Now().spad, lin', 0, BankWord(c, preBank.value), Words(c, lin'.name, ChunkTiles(c, lin'.name)))
    {
      hide Holds, Cap, ChunkTiles, Words, BankWord, Run, Reads, Accepted, Do;
      ghost var per, r0 := Words(c, lin.name, nc), Reads(dl);
      if !preloaded { Load(lin, nc, order[0], bank0); }
      for i := 0 to |order|
        invariant Now().ok && Reads(dl) == r0 + ChunkReads(lin, per, order, i)
        invariant i < |order| ==>
                    preBank == None && Holds(Now().spad, lin, order[i] * per, BankWord(c, (i + bank0) % 2), per)
        invariant i == |order| && after.None? ==> preBank == None
        invariant i == |order| && after.Some? ==>
                    && preBank == Some(1 - (|order| - 1 + bank0) % 2)
                    && Holds(Now().spad, after.value, 0, BankWord(c, preBank.value),
                             Words(c, after.value.name, ChunkTiles(c, after.value.name)))
      {
        var p := (i + bank0) % 2;
        Compute(lin, nc, order[i], p);
        if i + 1 < |order| {
          Load(lin, nc, order[i + 1], (i + 1 + bank0) % 2);
        } else if after.Some? {
          Prefetch(after.value, 1 - p);
        }
      }
    }

    /** The next linear layer of the sequence, with nc tiles a chunk. */
    method Linear(lin: Lin, nc: nat, order: seq<nat>)
      requires Valid() && next < |sequence| && lin == sequence[next]
      requires nc <= ChunkTiles(c, lin.name) && |order| > 0 && order[0] == 0
      modifies this`dl, this`next, this`preBank
      ensures Valid() && next == old(next) + 1 && Reads(dl) == old(Reads(dl)) + LinReads(c, lin, nc, order)
      ensures preBank.Some? <==> prefetch && next < |sequence|
    {
      var bank0, preloaded := 0, false;
      if preBank.Some? {
        bank0, preloaded := preBank.value, true;
        MulUp(nc, ChunkTiles(c, lin.name), Inputs(c, lin.name));
      }
      next := next + 1;
      var after := if prefetch && next < |sequence| then Some(sequence[next]) else None;
      preBank := None;
      Chunks(lin, nc, order, bank0, preloaded, after);
    }

    /** A layer with the default chunk size and order. */
    method PlainLinear(lin: Lin)
      requires Valid() && next < |sequence| && lin == sequence[next] && Tiles(c, lin.name) > 0
      modifies this`dl, this`next, this`preBank
      ensures Valid() && next == old(next) + 1 && Reads(dl) == old(Reads(dl)) + PlainReads(c, lin)
      ensures preBank.Some? <==> prefetch && next < |sequence|
    {
      var nc := ChunkTiles(c, lin.name);
      AtLeastOne2(Tiles(c, lin.name), nc);
      Linear(lin, nc, InOrder(Tiles(c, lin.name) / nc));
    }

    /** Where the K^T and V strips go: both in the bank without prefetched weights, or one in each. */
    method AttentionBanks() returns (kt: nat, vb: nat)
      requires Valid()
      ensures kt + StripWords(c, c.seqLen) <= vb && vb + StripWords(c, c.seqLen) <= 2 * c.sb
      ensures preBank.Some? ==>
                var b := BankWord(c, 1 - preBank.value); b <= kt && vb + StripWords(c, c.seqLen) <= b + c.sb
    {
      StripsFit(c, c.seqLen);
      hide Accepted, StripWords, Now, Run, Holds, Words, ChunkTiles;
      if preBank.None? { return 0, c.sb; }
      kt := BankWord(c, 1 - preBank.value);
      vb := kt + StripWords(c, c.seqLen);
    }

    /** One query head: its K^T strip and the scores' EX, its V strip and the output's EX. */
    method Head(layer: nat, kv: nat, pp: nat, kt: nat, vb: nat)
      requires Now().ok && c.d > 0 && kt + StripWords(c, pp) <= vb && vb + StripWords(c, pp) <= 2 * c.sb
      modifies this`dl
      ensures Now().ok
      ensures Reads(dl) == old(Reads(dl)) + [OfStrip(Tag(layer, false, kv), StripWords(c, pp)),
                                             OfStrip(Tag(layer, true, kv), StripWords(c, pp))]
      ensures forall w :: 0 <= w < 2 * c.sb && !(kt <= w < vb + StripWords(c, pp)) ==>
                Now().spad[w] == old(Now().spad[w])
    {
      hide Run, Reads, Do;
      WriteThenRead(Tag(layer, false, kv), kt, StripWords(c, pp));
      WriteThenRead(Tag(layer, true, kv), vb, StripWords(c, pp));
    }

    /** A strip is written, then an EX reads it. */
    method WriteThenRead(tag: Tag, word: nat, n: nat)
      requires Now().ok && word + n <= 2 * c.sb
      modifies this`dl
      ensures Now().ok && Reads(dl) == old(Reads(dl)) + [OfStrip(tag, n)]
      ensures forall w :: 0 <= w < 2 * c.sb && !(word <= w < word + n) ==> Now().spad[w] == old(Now().spad[w])
    {
      ghost var e := Now();
      Emit(WriteStrip(tag, word, n));
      DoWrites(e, WriteStrip(tag, word, n));
      DoReads(Now(), ExStrip(tag, word, n));
      Emit(ExStrip(tag, word, n));
    }

    /** The query heads one after the other. */
    method Heads(layer: nat, pp: nat, kt: nat, vb: nat)
      requires Now().ok && Accepted(c) && kt + StripWords(c, pp) <= vb && vb + StripWords(c, pp) <= 2 * c.sb
      modifies this`dl
      ensures Now().ok && Reads(dl) == old(Reads(dl)) + HeadReads(c, layer, pp, c.heads)
      ensures forall w :: 0 <= w < 2 * c.sb && !(kt <= w < vb + StripWords(c, pp)) ==>
                Now().spad[w] == old(Now().spad[w])
    {
      hide *;
      ghost var r0, s0 := Reads(dl), Now().spad;
      HeadsPositive(c);
      NoHeads(c, layer, pp);
      for h := 0 to c.heads
        invariant Now().ok && Reads(dl) == r0 + HeadReads(c, layer, pp, h)
        invariant forall w :: 0 <= w < 2 * c.sb && !(kt <= w < vb + StripWords(c, pp)) ==> Now().spad[w] == s0[w]
      {
        HeadsNext(c, layer, pp, h);
        Head(layer, h / (c.heads / c.kvHeads), pp, kt, vb);
      }
    }

    /** Attention of a layer over pp cached positions. */
    method Attention(layer: nat, pp: nat)
      requires Valid() && pp <= c.seqLen
      modifies this`dl
      ensures Valid() && Reads(dl) == old(Reads(dl)) + HeadReads(c, layer, pp, c.heads)
    {
      var kt, vb := AttentionBanks();
      StripsFit(c, pp);
      hide Accepted, StripWords, Run, Reads, Words, ChunkTiles, Holds, Do, HeadReads;
      ghost var s0, b := Now().spad, preBank;
      Heads(layer, pp, kt, vb);
      if b.Some? {
        var lin := sequence[next];
        PrefetchFits(c, lin.name);
        OtherBank(c, 1 - b.value, s0, Now().spad, lin, Words(c, lin.name, ChunkTiles(c, lin.name)));
      }
    }

    /** W13, fused with SiLU in pairs of chunks or not. */
    method FfnUp(l: nat)
      requires Valid() && next < |sequence| && sequence[next] == Lin(W13, l)
      modifies this`dl, this`next, this`preBank
      ensures Valid() && next == old(next) + 1 && Reads(dl) == old(Reads(dl)) + FfnReads(c, fuse, l)
    {
      FusedIsSmaller(c);
      if !fuse {
        PlainLinear(Lin(W13, l));
      } else {
        AtLeastOne2(Half(c), FusedTiles(c));
        Linear(Lin(W13, l), FusedTiles(c), InPairs(Half(c) / FusedTiles(c)));
      }
    }

    method Layer(l: nat, pp: nat)
      requires Valid() && pp <= c.seqLen && LayerAt(sequence, next, l)
      modifies this`dl, this`next, this`preBank
      ensures Valid() && next == old(next) + 4 && Reads(dl) == old(Reads(dl)) + LayerReads(c, fuse, pp, l)
    {
      hide *;
      IsAccepted();
      TilesPositive(c);
      FiveReads(c, fuse, pp, l, Reads(dl));
      LinsThere(sequence, next, l);
      PlainLinear(Lin(Wqkv, l));
      Attention(l, pp);
      PlainLinear(Lin(Wo, l));
      FfnUp(l);
      PlainLinear(Lin(W2, l));
    }

    /** The order of the linear layers, and the first one's prefetch behind the embedding. */
    method Start(last: seq<Lin>)
      requires Valid() && dl == []
      modifies this
      ensures Valid() && next == 0 && Reads(dl) == [] && sequence == LinsOf(c.layers) + last
    {
      sequence := LinsOf(c.layers) + last;
      next, preBank := 0, None;
      if prefetch && sequence != [] { Prefetch(sequence[0], 0); }
    }

    lemma {:induction false} IsAccepted()
      requires Valid()
      ensures Accepted(c)
    {
    }

    method Layers(pp: nat, ghost last: seq<Lin>)
      requires Valid() && pp <= c.seqLen && next == 0 && Reads(dl) == [] && sequence == LinsOf(c.layers) + last
      modifies this`dl, this`next, this`preBank
      ensures Valid() && next == 4 * c.layers && Reads(dl) == LayersRead(c, fuse, pp, c.layers)
    {
      hide *;
      IsAccepted();
      NoLayers(c, fuse, pp);
      for l := 0 to c.layers
        invariant Valid() && next == 4 * l && Reads(dl) == LayersRead(c, fuse, pp, l)
      {
        LinsAt(c.layers, l, last);
        LayersNext(c, fuse, pp, l);
        Layer(l, pp);
      }
    }

    /** The token list: all layers, and the classifier if asked for. Each EX of it reads the weights or
        the strip meant for it, from a SPAD_B that may hold anything at the start. */
    method Build(logits: bool, pp: nat)
      requires Valid() && dl == [] && pp <= c.seqLen
      modifies this
      ensures Valid()
      ensures Reads(dl) == LayersRead(c, fuse, pp, c.layers) + if logits then PlainReads(c, Lin(Wcls, 0)) else []
    {
      var last := if logits then [Lin(Wcls, 0)] else [];
      Start(last);
      Layers(pp, last);
      TilesPositive(c);
      hide Valid, LinsOf, Reads, LayersRead, PlainReads, Accepted, Tiles;
      if logits { PlainLinear(Lin(Wcls, 0)); }
    }
  }

  lemma {:induction false} AtLeastOne2(n: nat, q: nat)
    requires n > 0 && q > 0 && n % q == 0
    ensures n / q > 0
  {
  }

  lemma {:induction false} FiveReads(c: Config, fuse: bool, pp: nat, l: nat, r: seq<Read>)
    requires Accepted(c)
    ensures r + PlainReads(c, Lin(Wqkv, l)) + HeadReads(c, l, pp, c.heads) + PlainReads(c, Lin(Wo, l))
            + FfnReads(c, fuse, l)
            + PlainReads(c, Lin(W2, l))
         == r + LayerReads(c, fuse, pp, l)
  {
    hide PlainReads, HeadReads, FfnReads;
  }

  lemma {:induction false} TilesPositive(c: Config)
    requires Accepted(c)
    ensures forall name :: Tiles(c, name) > 0
  {
    forall name ensures Tiles(c, name) > 0 {
      AtLeastOne2(c.dim, c.d);
      AtLeastOne2(c.hidden, c.d);
      AtLeastOne2(c.vocab, c.d);
      DivideUp(c.dim, c.dim + 2 * c.kvDim, c.d);
      if name.W13? { DivideUp(c.hidden, 2 * c.hidden, c.d); }
    }
  }

  lemma {:induction false} DivideUp(a: nat, b: nat, d: nat)
    requires a <= b && d > 0
    ensures a / d <= b / d
  {
    var q, r := Divide(a, d);
    var t, u := Divide(b, d);
    if q > t { MulUp(t + 1, q, d); }
  }

  lemma {:induction false} PrefetchFits(c: Config, name: Name)
    requires Accepted(c)
    ensures Words(c, name, ChunkTiles(c, name)) <= c.sb
  {
    MulUp(ChunkTiles(c, name), Cap(c, name), Inputs(c, name));
  }

  lemma {:induction false} HeadsPositive(c: Config)
    requires Accepted(c)
    ensures c.d > 0 && c.kvHeads > 0 && c.heads / c.kvHeads > 0
  {
    AtLeastOne(c.heads, c.kvHeads);
  }

  lemma {:induction false} StripsFit(c: Config, pp: nat)
    requires Accepted(c) && pp <= c.seqLen
    ensures c.d > 0 && StripWords(c, pp) <= StripWords(c, c.seqLen) && 2 * StripWords(c, c.seqLen) <= c.sb
  {
    MulUp(pp, c.seqLen, c.headSize / c.d);
  }
}
