/** One command on matrices at a time: what its loads, products and stores leave where. */
module MatrixSteps {
  import opened Dyadic
  import opened MatrixMachine

  // ---------------------------------------------------------------- two-level indices

  /** i n + t and its parts. */
  function Pair(i: int, n: int, t: int): int {
    i * n + t
  }

  lemma {:induction false} PairIs(i: int, n: int, t: int)
    ensures Pair(i, n, t) == i * n + t
  {
  }

  lemma {:induction false} PairParts(i: int, n: int, t: int)
    requires 0 <= t < n
    ensures Pair(i, n, t) / n == i && Pair(i, n, t) % n == t
  {
    QuotientIs(Pair(i, n, t), n, i, t);
  }

  lemma {:induction false} PairBelow(i: int, n: int, t: int, k: int)
    requires 0 <= i < k && 0 <= t < n
    ensures 0 <= Pair(i, n, t) < k * n && Pair(i, n, t) + (n - t) <= k * n
  {
    MulUp(i + 1, k, n);
    MulUp(0, i, n);
  }

  lemma {:induction false} PairsDiffer(i: int, t: int, j: int, u: int, n: int)
    requires 0 <= t < n && 0 <= u < n && (i != j || t != u)
    ensures Pair(i, n, t) != Pair(j, n, u)
  {
    PairParts(i, n, t);
    PairParts(j, n, u);
  }

  // ---------------------------------------------------------------- loads

  /** Element q of row r of an interleaved strip of d rows at word at. */
  function StripAt(f: Local, d: nat, at: int, r: int, q: int): int
    requires d > 0
  {
    f(at + Pair(q / d, d, r), q % d)
  }

  /** An interleaved LD of d rows of k bytes: element q of row r is byte q of row r. */
  lemma {:induction false} StripLoaded(f: Local, ddr: int -> int, d: nat, at: nat, word: nat, kt: nat, r: nat, q: nat)
    requires d > 0 && r < d && q < kt * d
    ensures StripAt(Interleaved(f, ddr, d, at, word, d, kt * d, kt * d), d, word, r, q)
         == S8(ddr(at + Pair(r, kt * d, q)))
  {
    var ch, x := Divide(q, d);
    QuotientBetween(q, d, ch, x, 0, kt);
    PairParts(ch, d, r);
    PairBelow(ch, d, r, kt);
    QuotientIs(kt * d, d, kt, 0);
  }

  /** Lane x of word q of tile t of an interleaved LD of k rows of tiles. */
  lemma {:induction false} TileLoaded(f: Local, ddr: int -> int, d: nat, at: nat, word: nat, k: nat, nt: nat,
                                      pitch: nat, t: nat, q: nat, x: nat)
    requires d > 0 && t < nt && q < k && x < d
    ensures Interleaved(f, ddr, d, at, word, k, nt * d, pitch)(word + Pair(t, k, q), x)
            == S8(ddr(at + q * pitch + t * d + x))
  {
    PairParts(t, k, q);
    PairBelow(t, k, q, nt);
    QuotientIs(nt * d, d, nt, 0);
  }

  lemma {:induction false} InterleavedKeeps(f: Local, ddr: int -> int, d: nat, at: nat, word: nat, rows: nat, nt: nat,
                                            pitch: nat, w: int, x: int)
    requires d > 0 && rows > 0 && (w < word || w >= word + nt * rows)
    ensures Interleaved(f, ddr, d, at, word, rows, nt * d, pitch)(w, x) == f(w, x)
  {
    QuotientIs(nt * d, d, nt, 0);
  }

  /** Lane x of word t of row r. */
  lemma {:induction false} RowsLoaded(f: Local, ddr: int -> int, d: nat, at: nat, word: nat, rows: nat, nt: nat,
                                      pitch: nat, r: nat, t: nat, x: nat)
    requires d > 0 && r < rows && t < nt && x < d
    ensures Rowwise(f, ddr, d, at, word, rows, nt, pitch)(word + Pair(r, nt, t), x)
         == Word32(ddr, at + r * pitch + 4 * Pair(t, d, x))
  {
    PairParts(r, nt, t);
    PairBelow(r, nt, t, rows);
  }

  lemma {:induction false} RowwiseKeeps(f: Local, ddr: int -> int, d: nat, at: nat, word: nat, rows: nat, nt: nat,
                                        pitch: nat, w: int, x: int)
    requires d > 0 && nt > 0 && (w < word || w >= word + rows * nt)
    ensures Rowwise(f, ddr, d, at, word, rows, nt, pitch)(w, x) == f(w, x)
  {
  }

  // ---------------------------------------------------------------- products

  /** C word of row i of tile t. */
  function CWord(op: Cmd, i: int, t: int): int
    requires op.Ex?
  {
    op.c + Pair(i, op.crow, t)
  }

  /** What an EX makes of the C word at (row i, tile t). */
  function Product(m: Mem, d: nat, op: Cmd, i: nat, t: nat, x: int): int
    requires d > 0 && op.Ex?
  {
    ((if op.adds then m.acc(CWord(op, i, t), x) else 0)
     + Dot(m, d, op.a, i, op.b + t * op.bstep, x, op.kt * d)) % M32
  }

  /** The first n rows of tile r: word (i, r) for i < n, and every other word. */
  lemma {:induction false} RowsDone(m: Mem, d: nat, op: Cmd, acc: Local, r: nat, n: nat, i: nat, w: int, x: int)
    requires d > 0 && op.Ex? && op.cstep == 1 && 0 <= x < d && op.crow > 0 && w == CWord(op, i, r)
    ensures ExRows(m, d, op, acc, r, n)(w, x)
         == if i < n then ((if op.adds then acc(w, x) else 0)
           + Dot(m, d, op.a, i, op.b + r * op.bstep, x, op.kt * d)) % M32
            else acc(w, x)
  {
    hide Dot;
    if n > 0 {
      RowsDone(m, d, op, acc, r, n - 1, i, w, x);
      if i != n - 1 { SameRow(i, n - 1, op.crow, r); }
    }
  }

  lemma {:induction false} SameRow(i: int, j: int, n: int, t: int)
    requires n > 0 && i != j
    ensures Pair(i, n, t) != j * n + t
  {
    if i < j { MulUp(i + 1, j, n); } else { MulUp(j + 1, i, n); }
  }

  /** A word that is not in tile r keeps its value. */
  lemma {:induction false} RowsKeep(m: Mem, d: nat, op: Cmd, acc: Local, r: nat, n: nat, w: int, x: int)
    requires d > 0 && op.Ex? && op.cstep == 1 && forall i: nat :: i < n ==> w != CWord(op, i, r)
    ensures ExRows(m, d, op, acc, r, n)(w, x) == acc(w, x)
  {
    hide Dot;
    if n > 0 {
      RowsKeep(m, d, op, acc, r, n - 1, w, x);
      assert w != CWord(op, n - 1, r);
    }
  }

  /** After the first n tiles: word (i, t) holds its product if t < n. */
  lemma {:induction false} TilesDone(m: Mem, d: nat, op: Cmd, n: nat, i: nat, t: nat, x: nat)
    requires d > 0 && op.Ex? && op.cstep == 1 && i < d && t < op.crow && n <= op.crow && x < d
    ensures var w := CWord(op, i, t);
            ExTiles(m, d, op, n)(w, x) == if t < n then Product(m, d, op, i, t, x) else m.acc(w, x)
  {
    hide ExRows, Dot, Pair;
    var w := CWord(op, i, t);
    if n > 0 {
      TilesDone(m, d, op, n - 1, i, t, x);
      if t == n - 1 {
        RowsDone(m, d, op, ExTiles(m, d, op, n - 1), n - 1, d, i, w, x);
      } else {
        var u := n - 1;
        forall j: nat | j < d ensures w != CWord(op, j, u) { PairsDiffer(i, t, j, u, op.crow); }
        RowsKeep(m, d, op, ExTiles(m, d, op, n - 1), n - 1, d, w, x);
      }
    }
  }

  lemma {:induction false} TilesKeep(m: Mem, d: nat, op: Cmd, n: nat, w: int, x: int)
    requires d > 0 && op.Ex? && op.cstep == 1
    requires forall i: nat, t: nat :: i < d && t < n ==> w != CWord(op, i, t)
    ensures ExTiles(m, d, op, n)(w, x) == m.acc(w, x)
  {
    hide ExRows, Dot, Pair;
    if n > 0 {
      TilesKeep(m, d, op, n - 1, w, x);
      RowsKeep(m, d, op, ExTiles(m, d, op, n - 1), n - 1, d, w, x);
    }
  }

  // ---------------------------------------------------------------- the store

  lemma {:induction false} StRowAt(acc: Local, ddr: int -> int, d: nat, at: int, word: int, rb: nat, a: int)
    requires d > 0
    ensures StRow(acc, ddr, d, at, word, rb)(a)
         == if at <= a < at + rb then ByteOf(acc(word + (a - at) / (4 * d), (a - at) % (4 * d) / 4), (a - at) % 4)
           else ddr(a)
  {
  }

  /** Byte o of row r after the first n rows are stored. */
  lemma {:induction false} RowsStored(m: Mem, d: nat, op: Cmd, n: nat, r: nat, o: nat)
    requires d > 0 && op.St? && op.pitch == op.rowBytes && r < n && o < op.rowBytes
    ensures StRows(m, d, op, n)(op.ddr + Pair(r, op.pitch, o))
         == ByteOf(m.acc(op.word + r * (op.rowBytes / (4 * d)) + o / (4 * d), o % (4 * d) / 4), o % 4)
  {
    hide ByteOf, StRow;
    var at, word := op.ddr + (n - 1) * op.pitch, op.word + (n - 1) * (op.rowBytes / (4 * d));
    StRowAt(m.acc, StRows(m, d, op, n - 1), d, at, word, op.rowBytes, op.ddr + Pair(r, op.pitch, o));
    if r < n - 1 {
      RowsStored(m, d, op, n - 1, r, o);
      PairBelow(r, op.pitch, o, n - 1);
    } else {
      assert op.ddr + Pair(r, op.pitch, o) - at == o;
    }
  }

  lemma {:induction false} StoreKeeps(m: Mem, d: nat, op: Cmd, n: nat, a: int)
    requires d > 0 && op.St? && op.pitch == op.rowBytes && (a < op.ddr || a >= op.ddr + n * op.pitch)
    ensures StRows(m, d, op, n)(a) == m.ddr(a)
  {
    hide ByteOf, StRow;
    if n > 0 {
      StRowAt(m.acc, StRows(m, d, op, n - 1), d, op.ddr + (n - 1) * op.pitch,
              op.word + (n - 1) * (op.rowBytes / (4 * d)), op.rowBytes, a);
      MulUp(0, n - 1, op.pitch);
      Distribute(n - 1, op.pitch, 0, 1);
      StoreKeeps(m, d, op, n - 1, a);
    }
  }

  /** The four bytes of a 32-bit value give it back. */
  lemma {:induction false} BytesOfWord(ddr: int -> int, a: int, v: int)
    requires 0 <= v < M32 && ddr(a) == ByteOf(v, 0) && ddr(a + 1) == ByteOf(v, 1)
    requires ddr(a + 2) == ByteOf(v, 2) && ddr(a + 3) == ByteOf(v, 3)
    ensures Word32(ddr, a) == v
  {
    Digits(v);
  }

  lemma {:induction false} Digits(v: int)
    requires 0 <= v < M32
    ensures v == ByteOf(v, 0) + 0x100 * ByteOf(v, 1) + 0x1_0000 * ByteOf(v, 2) + 0x100_0000 * ByteOf(v, 3)
  {
    var a, b, c := v / 0x100, v / 0x1_0000, v / 0x100_0000;
    assert v == 0x100 * a + v % 256;
    assert a == 0x100 * b + a % 256;
    assert b == 0x100 * c + b % 256;
  }
}
