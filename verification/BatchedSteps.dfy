/** What the commands of a batched linear layer leave where. */
module BatchedSteps {
  import opened Dyadic
  import opened MatrixMachine
  import opened MatrixSteps
  import opened Batched

  // ---------------------------------------------------------------- the activations through DDR

  /** Byte o of row r after n rows of SPAD_A words are stored. */
  lemma {:induction false} RowsStoredA(m: Mem, d: nat, op: Cmd, n: nat, r: nat, o: nat)
    requires d > 0 && op.StA? && op.pitch == op.rowBytes && r < n && o < op.rowBytes
    ensures StARows(m, d, op, n)(op.ddr + Pair(r, op.pitch, o))
            == m.a(op.word + r * (op.rowBytes / d) + o / d, o % d) % 256
  {
    hide StARow;
    var at, word := op.ddr + (n - 1) * op.pitch, op.word + (n - 1) * (op.rowBytes / d);
    StARowAt(m.a, StARows(m, d, op, n - 1), d, at, word, op.rowBytes, op.ddr + Pair(r, op.pitch, o));
    if r < n - 1 {
      RowsStoredA(m, d, op, n - 1, r, o);
      PairBelow(r, op.pitch, o, n - 1);
    } else {
      assert op.ddr + Pair(r, op.pitch, o) - at == o;
    }
  }

  lemma {:induction false} StARowAt(f: Local, ddr: int -> int, d: nat, at: int, word: int, rb: nat, a: int)
    requires d > 0
    ensures StARow(f, ddr, d, at, word, rb)(a) == if at <= a < at + rb then f(word + (a - at) / d, (a - at) % d) % 256
            else ddr(a)
  {
  }

  lemma {:induction false} StoreAKeeps(m: Mem, d: nat, op: Cmd, n: nat, a: int)
    requires d > 0 && op.StA? && op.pitch == op.rowBytes && (a < op.ddr || a >= op.ddr + n * op.pitch)
    ensures StARows(m, d, op, n)(a) == m.ddr(a)
  {
    hide StARow;
    if n > 0 {
      StARowAt(m.a, StARows(m, d, op, n - 1), d, op.ddr + (n - 1) * op.pitch, op.word + (n - 1) * (op.rowBytes / d),
        op.rowBytes, a);
      MulUp(0, n - 1, op.pitch);
      Distribute(n - 1, op.pitch, 0, 1);
      StoreAKeeps(m, d, op, n - 1, a);
    }
  }

  lemma {:induction false} ByteAndBack(v: int)
    requires -128 <= v <= 127
    ensures S8(v % 256) == v
  {
  }

  /** Input q of sequence b, in the quantized matrix in SPAD_A. */
  function X(c: Layer, m: Mem, b: int, q: int): int
    requires c.d > 0
  {
    m.a(c.xq + b * c.kt + q / c.d, q % c.d)
  }

  /** The quantized matrix is int8. */
  ghost predicate Int8s(c: Layer, m: Mem)
    requires c.d > 0
  {
    forall b: nat, q: nat :: b < c.d && q < c.K() ==> -128 <= X(c, m, b, q) <= 127
  }

  function AfterTransfer(c: Layer, m: Mem): Mem
    requires c.d > 0
  {
    Perform(Perform(m, c.d, StA(c.io, c.xq, c.d, c.K(), c.K())), c.d, LdA(c.io, 0, c.d, c.K(), c.K()))
  }

  /** Stored row by row and loaded interleaved, the matrix is the A strip: element q of row b. */
  lemma {:induction false} Transferred(c: Layer, m: Mem, b: nat, q: nat)
    requires c.d > 0 && Int8s(c, m) && b < c.d && q < c.K()
    ensures StripAt(AfterTransfer(c, m).a, c.d, 0, b, q) == X(c, m, b, q)
  {
    var st := StA(c.io, c.xq, c.d, c.K(), c.K());
    var m1 := Perform(m, c.d, st);
    QuotientIs(c.K(), c.d, c.kt, 0);
    RowsStoredA(m, c.d, st, c.d, b, q);
    StripLoaded(m1.a, m1.ddr, c.d, c.io, 0, c.kt, b, q);
    ByteAndBack(X(c, m, b, q));
    hide StARows, Interleaved, StripAt, Pair, Int8s, S8;
  }

  lemma {:induction false} TransferKeeps(c: Layer, m: Mem, a: int)
    requires c.d > 0 && (a < c.io || a >= c.io + c.d * c.K())
    ensures var r := AfterTransfer(c, m); r == Mem(r.a, m.b, m.acc, r.ddr) && r.ddr(a) == m.ddr(a)
  {
    StoreAKeeps(m, c.d, StA(c.io, c.xq, c.d, c.K(), c.K()), c.d, a);
    hide StARows, Interleaved;
  }

  // ---------------------------------------------------------------- weights

  /** Weight of input q and output x of tile t. */
  function W(c: Layer, m: Mem, t: int, q: int, x: int): int {
    S8(m.ddr(c.wOff + Pair(Pair(t, c.K(), q), c.d, x)))
  }

  /** Address of a chunk's weights. */
  lemma {:induction false} ChunkAddress(c: Layer, nc: nat, j: nat, r: int, q: int, x: int)
    ensures j * (nc * c.K() * c.d) + r * (c.K() * c.d) + q * c.d + x == Pair(Pair(Pair(j, nc, r), c.K(), q), c.d, x)
  {
    var k, d := c.K(), c.d;
    Distribute(j * nc + r, k, q, d);
    Distribute(j, nc, r, k * d);
    Associate(j * nc + r, k, d);
    Associate(j, nc, k * d);
    Associate(nc, k, d);
  }

  /** The weights in DDR are as in m0. */
  predicate WeightsKept(c: Layer, m0: Mem, m: Mem) {
    forall t: nat, q: nat, x: nat :: t < c.Nt() && q < c.K() && x < c.d ==> W(c, m, t, q, x) == W(c, m0, t, q, x)
  }

  /** The bank of chunk j holds its weights. */
  predicate InBank(c: Layer, nc: nat, m0: Mem, m: Mem, j: nat) {
    forall r: nat, q: nat, x: nat :: r < nc && q < c.K() && x < c.d ==>
      BankAt(c, m, j, r, q, x) == W(c, m0, Pair(j, nc, r), q, x)
  }

  /** Lane x of word q of tile r in the bank of chunk j. */
  function BankAt(c: Layer, m: Mem, j: nat, r: int, q: int, x: int): int {
    m.b(j % 2 * c.sb + Pair(r, c.K(), q), x)
  }

  lemma {:induction false} BytewiseAt(f: Local, ddr: int -> int, d: nat, at: nat, word: nat, rows: nat, words: nat,
                                      pitch: nat, r: nat, q: nat, x: nat)
    requires d > 0 && r < rows && q < words && x < d
    ensures Bytewise(f, ddr, d, at, word, rows, words, pitch)(word + Pair(r, words, q), x)
            == S8(ddr(at + r * pitch + q * d + x))
  {
    PairParts(r, words, q);
    PairBelow(r, words, q, rows);
  }

  lemma {:induction false} LoadIs(c: Layer, nc: nat, m: Mem, j: nat)
    requires c.d > 0 && c.kt > 0
    ensures c.K() > 0
    ensures Perform(m, c.d, Load(c, nc, j))
         == m.(b := Bytewise(m.b, m.ddr, c.d, c.wOff + j * (nc * c.K() * c.d), j % 2 * c.sb, nc, c.K(), c.K() * c.d))
  {
    KPositive(c);
    QuotientIs(c.K() * c.d, c.d, c.K(), 0);
    hide Bytewise;
  }

  lemma {:induction false} WordLoaded(c: Layer, nc: nat, m: Mem, j: nat, r: nat, q: nat, x: nat)
    requires c.d > 0 && c.kt > 0 && r < nc && q < c.K() && x < c.d
    ensures BankAt(c, Perform(m, c.d, Load(c, nc, j)), j, r, q, x) == W(c, m, Pair(j, nc, r), q, x)
  {
    LoadIs(c, nc, m, j);
    BytewiseAt(m.b, m.ddr, c.d, c.wOff + j * (nc * c.K() * c.d), j % 2 * c.sb, nc, c.K(), c.K() * c.d, r, q, x);
    ChunkAddress(c, nc, j, r, q, x);
    hide Perform, Load, Bytewise, Pair, Layer.K;
  }

  /** The LD of a chunk. */
  lemma {:induction false} ChunkLoaded(c: Layer, nc: nat, m0: Mem, m: Mem, j: nat)
    requires c.d > 0 && c.kt > 0 && WeightsKept(c, m0, m) && j * nc + nc <= c.Nt()
    ensures var r := Perform(m, c.d, Load(c, nc, j)); r == m.(b := r.b) && InBank(c, nc, m0, r, j)
  {
    hide Perform, Load, Bytewise, BankAt, W, Layer.K, Layer.Nt;
    var after := Perform(m, c.d, Load(c, nc, j));
    LoadIs(c, nc, m, j);
    forall r: nat, q: nat, x: nat | r < nc && q < c.K() && x < c.d
      ensures BankAt(c, after, j, r, q, x) == W(c, m0, Pair(j, nc, r), q, x)
    {
      assert 0 <= Pair(j, nc, r) < c.Nt();
      WordLoaded(c, nc, m, j, r, q, x);
      assert W(c, m, Pair(j, nc, r), q, x) == W(c, m0, Pair(j, nc, r), q, x);
    }
  }

  // ---------------------------------------------------------------- products and scales

  /** The first n products of sequence b with output x of tile t. */
  function DotOf(c: Layer, m: Mem, b: int, t: int, x: int, n: nat): int
    requires c.d > 0
  {
    if n == 0 then 0 else DotOf(c, m, b, t, x, n - 1) + X(c, m, b, n - 1) * W(c, m, t, n - 1, x)
  }

  /** The A strip holds the sequences' inputs. */
  predicate HasX(c: Layer, m0: Mem, m: Mem)
    requires c.d > 0
  {
    forall b: nat, q: nat :: b < c.d && q < c.K() ==> StripAt(m.a, c.d, 0, b, q) == X(c, m0, b, q)
  }

  lemma {:induction false} DotIs(c: Layer, nc: nat, m0: Mem, m: Mem, j: nat, b: nat, r: nat, x: nat, n: nat)
    requires c.d > 0 && HasX(c, m0, m) && InBank(c, nc, m0, m, j) && b < c.d && r < nc && x < c.d && n <= c.K()
    ensures Dot(m, c.d, 0, b, j % 2 * c.sb + r * c.K(), x, n) == DotOf(c, m0, b, Pair(j, nc, r), x, n)
  {
    hide W, X;
    if n > 0 {
      var q := n - 1;
      DotIs(c, nc, m0, m, j, b, r, x, q);
      assert StripAt(m.a, c.d, 0, b, q) == X(c, m0, b, q);
      assert BankAt(c, m, j, r, q, x) == W(c, m0, Pair(j, nc, r), q, x);
    }
  }

  lemma {:induction false} ScaledGroup(acc: Local, d: nat, op: Cmd, g: nat, x: nat)
    requires op.Scale? && op.period > 0 && g < op.groups && x < d
    ensures Scaled(acc, d, op)(op.dst + g, x)
         == Product32(acc(op.src1 + g, x), acc(Second(op, g), x), op.ints)
  {
    hide Product32, Second;
    assert op.dst + g - op.dst == g;
  }

  /** A Scale in place whose groups are a matrix of rows of n words. */
  lemma {:induction false} ScaledAt(acc: Local, d: nat, op: Cmd, b: nat, t: nat, x: nat)
    requires op.Scale? && op.src1 == op.dst && b < d && t < op.period && x < d && op.groups == d * op.period
    ensures Scaled(acc, d, op)(op.dst + Pair(b, op.period, t), x)
         == Product32(acc(op.dst + Pair(b, op.period, t), x), acc(op.src2 + if op.byMod then t else b, x), op.ints)
  {
    hide Product32, Scaled, Pair, Second;
    PairBelow(b, op.period, t, d);
    SecondAt(op, b, t);
    ScaledGroup(acc, d, op, Pair(b, op.period, t), x);
  }

  lemma {:induction false} SecondAt(op: Cmd, b: nat, t: nat)
    requires op.Scale? && t < op.period
    ensures Second(op, Pair(b, op.period, t)) == op.src2 + if op.byMod then t else b
  {
    PairParts(b, op.period, t);
  }

  lemma {:induction false} ScaledKeeps(acc: Local, d: nat, op: Cmd, w: int, x: int)
    requires op.Scale? && op.period > 0 && (w < op.dst || w >= op.dst + op.groups)
    ensures Scaled(acc, d, op)(w, x) == acc(w, x)
  {
  }
}
