/** The matrix product in integers and bytes: int8 matrices A and B and an int32 bias in DDR, row after row,
    give C as little-endian int32, and nothing else in DDR changes. */
module GemmProduct {
  import opened Options
  import opened Dyadic
  import opened MatrixMachine
  import opened GemmList
  import opened MatrixSteps
  import opened GemmMeaning
  import opened GemmRun

  type Matrix = (nat, nat) -> int

  /** The byte at address a + i cols + q is the int8 A(i, q). */
  predicate HasInt8(ddr: int -> int, a: nat, cols: nat, A: Matrix, i: nat, q: nat) {
    -128 <= A(i, q) <= 127 && ddr(a + (i * cols + q)) == A(i, q) % 256
  }

  ghost predicate Int8s(ddr: int -> int, a: nat, rows: nat, cols: nat, A: Matrix) {
    forall i: nat, q: nat :: i < rows && q < cols ==> HasInt8(ddr, a, cols, A, i, q)
  }

  /** The four bytes at address a are v modulo 2^32, the low byte first. */
  predicate HasWord(ddr: int -> int, a: int, v: int) {
    var u := v % 0x1_0000_0000;
    && ddr(a) == u % 0x100 && ddr(a + 1) == u / 0x100 % 0x100
    && ddr(a + 2) == u / 0x1_0000 % 0x100 && ddr(a + 3) == u / 0x100_0000
  }

  predicate HasInt32(ddr: int -> int, a: nat, cols: nat, Z: Matrix, i: nat, j: nat) {
    HasWord(ddr, a + 4 * (i * cols + j), Z(i, j))
  }

  ghost predicate Int32s(ddr: int -> int, a: nat, rows: nat, cols: nat, Z: Matrix) {
    forall i: nat, j: nat :: i < rows && j < cols ==> HasInt32(ddr, a, cols, Z, i, j)
  }

  /** Row i of A times column j of B, the first n terms. */
  function Sum(A: Matrix, B: Matrix, i: nat, j: nat, n: nat): int {
    if n == 0 then 0 else Sum(A, B, i, j, n - 1) + A(i, n - 1) * B(n - 1, j)
  }

  ghost predicate IsBytes(ddr: int -> int) {
    forall a :: 0 <= ddr(a) < 256
  }

  // ---------------------------------------------------------------- DDR stays bytes

  lemma {:induction false} ByteOfIsByte(v: int, j: int)
    ensures 0 <= ByteOf(v, j) < 256
  {
  }

  lemma {:induction false} StoredAreBytes(m: Mem, d: nat, op: Cmd, n: nat)
    requires d > 0 && op.St? && IsBytes(m.ddr)
    ensures IsBytes(StRows(m, d, op, n))
  {
    if n > 0 {
      StoredAreBytes(m, d, op, n - 1);
      hide ByteOf;
      forall v, j ensures 0 <= ByteOf(v, j) < 256 { ByteOfIsByte(v, j); }
    }
  }

  lemma {:induction false} StoredAAreBytes(m: Mem, d: nat, op: Cmd, n: nat)
    requires d > 0 && op.StA? && IsBytes(m.ddr)
    ensures IsBytes(StARows(m, d, op, n))
  {
    if n > 0 { StoredAAreBytes(m, d, op, n - 1); }
  }

  lemma {:induction false} PerformKeepsBytes(m: Mem, d: nat, x: Cmd)
    requires d > 0 && IsBytes(m.ddr)
    ensures IsBytes(Perform(m, d, x).ddr)
  {
    hide StRows, StARows, Interleaved, Rowwise, Bytewise, ExTiles, Scaled;
    if x.St? { StoredAreBytes(m, d, x, x.rows); }
    if x.StA? { StoredAAreBytes(m, d, x, x.rows); }
  }

  lemma {:induction false} RunKeepsBytes(m: Mem, d: nat, xs: seq<Cmd>)
    requires d > 0 && IsBytes(m.ddr)
    ensures IsBytes(Run(m, d, xs).ddr)
  {
    hide Perform, IsBytes;
    if xs != [] {
      RunKeepsBytes(m, d, xs[..|xs| - 1]);
      PerformKeepsBytes(Run(m, d, xs[..|xs| - 1]), d, xs[|xs| - 1]);
    }
  }

  // ---------------------------------------------------------------- elements

  lemma {:induction false} ByteIs(b: int, v: int)
    requires -128 <= v <= 127 && b == v % 256
    ensures S8(b) == v
  {
    hide S8;
  }

  lemma {:induction false} ElementOfA(g: Gemm, m: Mem, A: Matrix, i: nat, q: nat)
    requires HasInt8(m.ddr, g.a, g.K(), A, i, q)
    ensures AEl(g, m, i, q) == A(i, q)
  {
    hide S8, Gemm.K;
    ByteIs(m.ddr(g.a + (i * g.K() + q)), A(i, q));
  }

  lemma {:induction false} ElementOfB(g: Gemm, m: Mem, B: Matrix, q: nat, j: nat)
    requires HasInt8(m.ddr, g.b, g.N(), B, q, j)
    ensures BEl(g, m, q, j) == B(q, j)
  {
    hide S8, Gemm.N;
    ByteIs(m.ddr(g.b + (q * g.N() + j)), B(q, j));
  }

  lemma {:induction false} SumIs(g: Gemm, m: Mem, A: Matrix, B: Matrix, i: nat, j: nat, n: nat)
    requires Int8s(m.ddr, g.a, g.M(), g.K(), A) && Int8s(m.ddr, g.b, g.K(), g.N(), B)
    requires i < g.M() && j < g.N() && n <= g.K()
    ensures RowSum(g, m, i, j, n) == Sum(A, B, i, j, n)
  {
    hide HasInt8, AEl, BEl, Gemm.K, Gemm.N, Gemm.M;
    if n > 0 {
      SumIs(g, m, A, B, i, j, n - 1);
      var q: nat := n - 1;
      assert HasInt8(m.ddr, g.a, g.K(), A, i, q) && HasInt8(m.ddr, g.b, g.N(), B, q, j);
      ElementOfA(g, m, A, i, q);
      ElementOfB(g, m, B, q, j);
    }
  }

  lemma {:induction false} WordIs(ddr: int -> int, a: int, v: int)
    requires HasWord(ddr, a, v)
    ensures Word32(ddr, a) == v % 0x1_0000_0000
  {
    BytesOfNumber(v % 0x1_0000_0000);
  }

  lemma {:induction false} BytesOfNumber(u: int)
    requires 0 <= u < 0x1_0000_0000
    ensures u == u % 0x100 + 0x100 * (u / 0x100 % 0x100) + 0x1_0000 * (u / 0x1_0000 % 0x100)
            + 0x100_0000 * (u / 0x100_0000)
    ensures 0 <= u / 0x100_0000 < 0x100
  {
    var a, b, c := u / 0x100, u / 0x1_0000, u / 0x100_0000;
    assert u == 0x100 * a + u % 0x100;
    assert a == 0x100 * b + a % 0x100;
    assert b == 0x100 * c + b % 0x100;
  }

  lemma {:induction false} DigitsAre(w: int, x: int, y: int, z: int)
    requires 0 <= w < 0x100 && 0 <= x < 0x100 && 0 <= y < 0x100 && 0 <= z < 0x100
    ensures var u := w + 0x100 * x + 0x1_0000 * y + 0x100_0000 * z;
            && u % 0x1_0000_0000 == u && u % 0x100 == w && u / 0x100 % 0x100 == x && u / 0x1_0000 % 0x100 == y
            && u / 0x100_0000 == z
  {
    var u := w + 0x100 * x + 0x1_0000 * y + 0x100_0000 * z;
    QuotientIs(u, 0x100, x + 0x100 * y + 0x1_0000 * z, w);
    QuotientIs(u, 0x1_0000, y + 0x100 * z, w + 0x100 * x);
    QuotientIs(u, 0x100_0000, z, w + 0x100 * x + 0x1_0000 * y);
    QuotientIs(x + 0x100 * y + 0x1_0000 * z, 0x100, y + 0x100 * z, x);
    QuotientIs(y + 0x100 * z, 0x100, z, y);
  }

  /** Bytes that make a word are its digits. */
  lemma {:induction false} WordHas(ddr: int -> int, a: int)
    requires IsBytes(ddr)
    ensures HasWord(ddr, a, Word32(ddr, a))
  {
    DigitsAre(ddr(a), ddr(a + 1), ddr(a + 2), ddr(a + 3));
  }

  lemma {:induction false} SameWordBytes(ddr: int -> int, a: int, v: int, w: int)
    requires HasWord(ddr, a, v) && v % 0x1_0000_0000 == w % 0x1_0000_0000
    ensures HasWord(ddr, a, w)
  {
  }

  /** C(i, j). */
  lemma {:induction false} ExpectedIs(g: Gemm, m: Mem, A: Matrix, B: Matrix, Z: Matrix, i: nat, j: nat)
    requires Int8s(m.ddr, g.a, g.M(), g.K(), A) && Int8s(m.ddr, g.b, g.K(), g.N(), B) && i < g.M() && j < g.N()
    requires g.bias.Some? ==> Int32s(m.ddr, g.bias.value, g.M(), g.N(), Z)
    requires g.bias.None? ==> Z(i, j) == 0
    ensures Expected(g, m, i, j) == (Z(i, j) + Sum(A, B, i, j, g.K())) % 0x1_0000_0000
  {
    hide HasWord, Word32, RowSum, Sum, Gemm.K, Gemm.N, Gemm.M;
    SumIs(g, m, A, B, i, j, g.K());
    if g.bias.Some? {
      assert HasInt32(m.ddr, g.bias.value, g.N(), Z, i, j);
      WordIs(m.ddr, g.bias.value + 4 * (i * g.N() + j), Z(i, j));
    }
    ModSum(Z(i, j), RowSum(g, m, i, j, g.K()));
  }

  lemma {:induction false} ModSum(z: int, s: int)
    ensures (z % 0x1_0000_0000 + s) % 0x1_0000_0000 == (z + s) % 0x1_0000_0000
  {
  }

  lemma {:induction false} OutsideC(g: Gemm, m0: Mem, m: Mem, a: int)
    requires OnlyC(g, m0, m) && (a < g.c || a >= g.c + g.M() * g.N() * 4)
    ensures m.ddr(a) == m0.ddr(a)
  {
    Associate(g.M(), 4, g.N());
    Associate(g.M(), g.N(), 4);
    Commute(g.N(), 4);
    hide Gemm.M, Gemm.N;
  }

  lemma {:induction false} CIs(g: Gemm, m: Mem, i: nat, j: nat)
    ensures CEl(g, m, i, j) == Word32(m.ddr, g.c + 4 * (i * g.N() + j))
  {
    hide Gemm.N;
  }

  /** For int8 matrices A, of M rows and K columns, and B, of K rows and N columns, and int32 Z (zero without
      a bias): the list leaves Z + A B modulo 2^32 in C as little-endian words, and changes no other byte. */
  lemma {:induction false} ProductInMemory(g: Gemm, m0: Mem, A: Matrix, B: Matrix, Z: Matrix, i: nat, j: nat, a: int)
    requires Fits(g) && g.mt > 0 && i < g.M() && j < g.N() && IsBytes(m0.ddr)
    requires Int8s(m0.ddr, g.a, g.M(), g.K(), A) && Int8s(m0.ddr, g.b, g.K(), g.N(), B)
    requires g.bias.Some? ==> Int32s(m0.ddr, g.bias.value, g.M(), g.N(), Z)
    requires g.bias.None? ==> Z(i, j) == 0
    ensures g.d > 0
    ensures var ddr := Run(m0, g.d, ListOf(g)).ddr;
            && HasWord(ddr, g.c + 4 * (i * g.N() + j), Z(i, j) + Sum(A, B, i, j, g.K()))
            && (a < g.c || a >= g.c + g.M() * g.N() * 4 ==> ddr(a) == m0.ddr(a))
  {
    hide *;
    ListMultiplies(g, m0, i, j);
    var r := Run(m0, g.d, ListOf(g));
    ExpectedIs(g, m0, A, B, Z, i, j);
    RunKeepsBytes(m0, g.d, ListOf(g));
    CIs(g, r, i, j);
    WordHas(r.ddr, g.c + 4 * (i * g.N() + j));
    SameWordBytes(r.ddr, g.c + 4 * (i * g.N() + j), CEl(g, r, i, j), Z(i, j) + Sum(A, B, i, j, g.K()));
    if a < g.c || a >= g.c + g.M() * g.N() * 4 { OutsideC(g, m0, r, a); }
  }
}
