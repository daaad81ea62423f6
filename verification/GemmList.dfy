/** The int32 matrix product C = A B (+ bias) as a command list (driver/pynq_matmul.py,
    build_gemm_list). */
module GemmList {
  import opened Options
  import opened Dyadic
  import opened MatrixMachine

  datatype Split = Auto | On | Off

  /** D, strips of A, tiles of a row of C, tiles of K; addresses; words of a SPAD and of an ACC bank. */
  datatype Gemm = Gemm(d: nat, mt: nat, nt: nat, kt: nat, a: nat, b: nat, c: nat, bias: Option<nat>,
                       prefetch: bool, bsplit: Split, sbank: nat, cbank: nat)
  {
    function M(): nat { mt * d }
    function N(): nat { nt * d }
    function K(): nat { kt * d }
    /** Tiles in the first half of B. */
    function Nt0(): nat { (nt + 1) / 2 }
    function Nt1(): nat { nt - Nt0() }
    predicate IsSplit() {
      Nt1() != 0 && Nt0() * K() <= sbank && (if bsplit.Auto? then K() * N() >= 16384 else bsplit.On?)
    }
  }

  function ABank(g: Gemm, s: nat): nat {
    if s % 2 == 1 then g.sbank else 0
  }

  function CBank(g: Gemm, s: nat): nat {
    if s % 2 == 1 then g.cbank else 0
  }

  /** The A rows of strip s, and its bias rows. */
  function LoadStrip(g: Gemm, s: nat): seq<Cmd> {
    [LdA(g.a + s * g.d * g.K(), ABank(g, s), g.d, g.K(), g.K())]
    + (if g.bias.Some? then [LdAcc(g.bias.value + s * g.d * (4 * g.N()), CBank(g, s), g.d, 4 * g.N(), 4 * g.N())]
      else [])
  }

  /** Resident B and the first strip. */
  function Head(g: Gemm): seq<Cmd> {
    if g.IsSplit() then
      [LdB(g.b, 0, g.K(), g.Nt0() * g.d, g.N())] + LoadStrip(g, 0)
      + [LdB(g.b + g.Nt0() * g.d, g.sbank, g.K(), g.Nt1() * g.d, g.N())]
    else [LdB(g.b, 0, g.K(), g.N(), g.N())] + LoadStrip(g, 0)
  }

  function Compute(g: Gemm, s: nat): seq<Cmd> {
    var ab, cb, adds := ABank(g, s), CBank(g, s), g.bias.Some?;
    if g.IsSplit() then
      [Ex(ab, 0, cb, g.kt, adds, g.Nt0(), g.K(), 1, g.nt),
        Ex(ab, g.sbank, cb + g.Nt0(), g.kt, adds, g.Nt1(), g.K(), 1, g.nt)]
    else [Ex(ab, 0, cb, g.kt, adds, g.nt, g.K(), 1, g.nt)]
  }

  function Store(g: Gemm, s: nat): Cmd {
    St(g.c + s * g.d * (4 * g.N()), CBank(g, s), g.d, 4 * g.N(), 4 * g.N())
  }

  /** Strip s: its loads unless prefetched, the products, the next strip's prefetch, the store. */
  function StripList(g: Gemm, s: nat): seq<Cmd> {
    (if s != 0 && !g.prefetch then LoadStrip(g, s) else []) + Compute(g, s)
    + (if g.prefetch && s + 1 < g.mt then LoadStrip(g, s + 1) else []) + [Store(g, s)]
  }

  function Strips(g: Gemm, n: nat): seq<Cmd> {
    if n == 0 then [] else Strips(g, n - 1) + StripList(g, n - 1)
  }

  function ListOf(g: Gemm): seq<Cmd> {
    Head(g) + Strips(g, g.mt)
  }

  // ---------------------------------------------------------------- the generator

  method PutStrip(dl: DescList, g: Gemm, s: nat)
    modifies dl
    ensures dl.rows == old(dl.rows) + LoadStrip(g, s)
  {
    dl.Put(LdA(g.a + s * g.d * g.K(), ABank(g, s), g.d, g.K(), g.K()));
    if g.bias.Some? {
      dl.Put(LdAcc(g.bias.value + s * g.d * (4 * g.N()), CBank(g, s), g.d, 4 * g.N(), 4 * g.N()));
    }
  }

  method PutHead(dl: DescList, g: Gemm)
    modifies dl
    ensures dl.rows == old(dl.rows) + Head(g)
  {
    dl.Put(LdB(g.b, 0, g.K(), if g.IsSplit() then g.Nt0() * g.d else g.N(), g.N()));
    PutStrip(dl, g, 0);
    if g.IsSplit() { dl.Put(LdB(g.b + g.Nt0() * g.d, g.sbank, g.K(), g.Nt1() * g.d, g.N())); }
  }

  method PutCompute(dl: DescList, g: Gemm, s: nat)
    modifies dl
    ensures dl.rows == old(dl.rows) + Compute(g, s)
  {
    var ab, cb, adds := ABank(g, s), CBank(g, s), g.bias.Some?;
    if g.IsSplit() {
      dl.Put(Ex(ab, 0, cb, g.kt, adds, g.Nt0(), g.K(), 1, g.nt));
      dl.Put(Ex(ab, g.sbank, cb + g.Nt0(), g.kt, adds, g.Nt1(), g.K(), 1, g.nt));
    } else {
      dl.Put(Ex(ab, 0, cb, g.kt, adds, g.nt, g.K(), 1, g.nt));
    }
  }

  method PutTurn(dl: DescList, g: Gemm, s: nat)
    modifies dl
    ensures dl.rows == old(dl.rows) + StripList(g, s)
  {
    hide LoadStrip, Compute, Store;
    ghost var r := dl.rows;
    if s != 0 && !g.prefetch { PutStrip(dl, g, s); }
    PutCompute(dl, g, s);
    if g.prefetch && s + 1 < g.mt { PutStrip(dl, g, s + 1); }
    dl.Put(Store(g, s));
    assert dl.rows == r + StripList(g, s);
  }

  /** build_gemm_list: the strips alternate banks. */
  method Build(dl: DescList, g: Gemm)
    requires dl.rows == []
    modifies dl
    ensures dl.rows == ListOf(g)
  {
    hide Head, StripList;
    PutHead(dl, g);
    for s := 0 to g.mt
      invariant dl.rows == Head(g) + Strips(g, s)
    {
      PutTurn(dl, g, s);
    }
  }
}
