/** The generator of a linear layer's list (llm/compile_layer.py, linear): chunks double-buffered
    between two banks, unrolled or with one loop over pairs of chunks. */
module LinearList {
  import opened Options
  import opened Dyadic
  import opened LoopMachine

  const SPAD_B := 2
  const ACC := 3

  datatype Output = ToAcc(word: nat) | ToDdr(off: nat)

  /** rows A rows of k inputs, nch chunks of nc output tiles of d outputs; sb and cb are the words of a SPAD and an
      ACC bank; order gives the chunk computed at each position. */
  datatype Layer = Layer(d: nat, sb: nat, cb: nat, k: nat, nc: nat, nch: nat, wOff: nat, swOff: nat, sx: nat,
                         out: Output, aStrip: nat, bank0: nat, preloaded: bool, order: seq<nat>,
                         pW: nat, pF: nat, rows: nat)

  /** What linear checks before it emits anything. */
  predicate Accepted(c: Layer) {
    && c.d > 0 && c.k % c.d == 0 && c.k > 0 && c.nc > 0 && c.nch > 0
    && |c.order| == c.nch && (forall j :: 0 <= j < c.nch ==> j in c.order)
    && (forall i :: 0 <= i < c.nch ==> c.order[i] < c.nch)
    && (forall h, i :: 0 <= h < i < c.nch ==> c.order[h] != c.order[i])
    && (c.preloaded ==> c.order[0] == 0) && c.rows > 0 && (c.rows > 1 ==> c.out.ToDdr?)
  }

  predicate InOrder(c: Layer) {
    |c.order| == c.nch && forall i :: 0 <= i < c.nch ==> c.order[i] == i
  }

  function Bank(c: Layer, i: nat): nat {
    (i + c.bank0) % 2
  }

  function WBytes(c: Layer): nat {
    c.nc * c.k * c.d
  }

  function FBytes(c: Layer): nat {
    4 * c.nc * c.d
  }

  /** Bytes of an output row in DDR. */
  function RowPitch(c: Layer): nat {
    c.nch * FBytes(c)
  }

  function With(dyn: bool, k: nat): Option<nat> {
    if dyn then Some(k) else None
  }

  /** The LDs of chunk j into bank p. */
  function Load(c: Layer, p: nat, j: nat, dyn: bool, weights: bool): seq<Desc> {
    (if weights then [Command(Ld(SPAD_B, p * c.sb, c.nc, c.k * c.d), c.wOff + j * WBytes(c), With(dyn, c.pW))] else [])
    + [Command(Ld(ACC, p * c.cb + c.d * c.nc, 1, FBytes(c)), c.swOff + j * FBytes(c), With(dyn, c.pF))]
  }

  /** Word of the chunk's results. */
  function YWord(c: Layer, p: nat, j: nat): nat {
    match c.out
    case ToAcc(word) => word + j * c.nc
    case ToDdr(_) => p * c.cb + c.d * c.nc + c.nc
  }

  function Compute(c: Layer, p: nat): Desc
    requires c.d > 0
  {
    Command(Ex(c.aStrip, p * c.sb, p * c.cb, c.k / c.d, c.nc, c.k, 1, c.nc), 0, None)
  }

  /** Dequantization, and the ST of a DDR output. */
  function Finish(c: Layer, p: nat, j: nat, dyn: bool): seq<Desc> {
    [Command(Ve(p * c.cb, p * c.cb + c.d * c.nc, YWord(c, p, j), c.rows * c.nc, true, true,
      if c.rows == 1 then 0 else c.nc),
             0, None),
     Command(Ve(YWord(c, p, j), c.sx, YWord(c, p, j), c.rows * c.nc, false, false, c.nc), 0, None)]
    + (match c.out
       case ToAcc(_) => []
       case ToDdr(off) =>
         [Command(St(YWord(c, p, j), c.rows, FBytes(c), if c.rows == 1 then FBytes(c) else RowPitch(c)),
                  off + j * FBytes(c), With(dyn, c.pF))])
  }

  /** The EX of chunk j in bank p, the prefetch of chunk next into the other bank, the rest. */
  function ChunkOf(c: Layer, p: nat, j: nat, dyn: bool, next: Option<nat>): seq<Desc>
    requires c.d > 0
  {
    [Compute(c, p)] + (match next case None => [] case Some(n) => Load(c, 1 - p % 2, n, dyn, true))
      + Finish(c, p, j, dyn)
  }

  /** The chunk computed at position i, with the next position's prefetch. */
  function Chunk(c: Layer, i: nat, dyn: bool): seq<Desc>
    requires Accepted(c) && i < c.nch
  {
    ChunkOf(c, Bank(c, i), c.order[i], dyn, if i + 1 < c.nch then Some(c.order[i + 1]) else None)
  }

  function First(c: Layer): seq<Desc>
    requires Accepted(c)
  {
    Load(c, Bank(c, 0), c.order[0], false, !c.preloaded)
  }

  /** Chunks i .. nch - 1 unrolled. */
  function Rest(c: Layer, i: nat): seq<Desc>
    requires Accepted(c) && i <= c.nch
    decreases c.nch - i
  {
    if i == c.nch then [] else Chunk(c, i, false) + Rest(c, i + 1)
  }

  function Unrolled(c: Layer): seq<Desc>
    requires Accepted(c)
  {
    First(c) + Rest(c, 0)
  }

  function Pairs(c: Layer): nat {
    if c.nch == 0 then 0 else (c.nch - 1) / 2
  }

  function Body(c: Layer): seq<Desc>
    requires Accepted(c) && c.nch > 2
  {
    Chunk(c, 0, true) + Chunk(c, 1, true)
  }

  /** The loop over pairs of chunks. */
  function LoopCode(c: Layer): seq<Desc>
    requires Accepted(c) && c.nch > 2
  {
    [SetParam(c.pW, 0), SetParam(c.pF, 0)] + Body(c)
    + [LoopEnd(|Body(c)|, Pairs(c), c.pW, 2 * WBytes(c), c.pF, 2 * FBytes(c))]
  }

  /** The looped form: the first two chunks' code, repeated with the PARAMs advanced by two chunks. */
  function Looped(c: Layer): seq<Desc>
    requires Accepted(c)
  {
    if Pairs(c) == 0 then Unrolled(c) else First(c) + LoopCode(c) + Rest(c, 2 * Pairs(c))
  }

  // ---------------------------------------------------------------- the generator

  /** Chunks j .. nch - 1. */
  method EmitRest(dl: seq<Desc>, c: Layer, j: nat) returns (r: seq<Desc>)
    requires Accepted(c) && j <= c.nch
    ensures r == dl + Rest(c, j)
  {
    hide Chunk;
    r := dl;
    ghost var done: seq<Desc> := [];
    for jj := j to c.nch
      invariant r == dl + done && done + Rest(c, jj) == Rest(c, j)
    {
      Together(done, Chunk(c, jj, false), Rest(c, jj + 1));
      Together(dl, done, Chunk(c, jj, false));
      r := r + Chunk(c, jj, false);
      done := done + Chunk(c, jj, false);
    }
    assert done + [] == done;
  }

  lemma {:induction false} Together(a: seq<Desc>, b: seq<Desc>, c: seq<Desc>)
    ensures (a + b) + c == a + (b + c)
  {
  }

  method EmitLoop(dl: seq<Desc>, c: Layer) returns (r: seq<Desc>)
    requires Accepted(c) && c.nch > 2
    ensures r == dl + LoopCode(c)
  {
    hide Chunk;
    r := dl + [SetParam(c.pW, 0), SetParam(c.pF, 0)];
    var start := |r|;
    r := r + Chunk(c, 0, true);
    r := r + Chunk(c, 1, true);
    r := r + [LoopEnd(|r| - start, Pairs(c), c.pW, 2 * WBytes(c), c.pF, 2 * FBytes(c))];
  }

  /** Appends a layer's list. */
  method Linear(dl: seq<Desc>, c: Layer, loop: bool) returns (r: seq<Desc>)
    requires Accepted(c) && (loop ==> c.out.ToDdr? && InOrder(c))
    ensures r == dl + (if loop then Looped(c) else Unrolled(c))
  {
    hide Rest, LoopCode, Load;
    r := dl + Load(c, Bank(c, 0), c.order[0], false, !c.preloaded);
    var j := 0;
    if loop && Pairs(c) > 0 {
      Together(dl, First(c), LoopCode(c));
      r := EmitLoop(r, c);
      j := 2 * Pairs(c);
      Together(dl, First(c) + LoopCode(c), Rest(c, j));
    } else {
      Together(dl, First(c), Rest(c, 0));
    }
    r := EmitRest(r, c, j);
  }
}
