/** What the commands of a linear layer do to the simulator's memories (llm/sa_funcsim.py: ld, st, ex,
    ve_fp). A local word is D lanes; a cell of DDR is a byte, and a 32-bit value is kept in the cell
    of its first byte. Lanes and cells hold raw bits. */
module SimOps {
  import opened Dyadic
  import opened Fp32
  import opened LoopMachine
  import opened LinearList

  type Word = seq<U32>

  datatype Mem = Mem(spadA: seq<Word>, spadB: seq<Word>, acc: seq<Word>, ddr: seq<U32>)

  /** Every local word has d lanes. */
  predicate Lanes(m: Mem, d: nat) {
    && d > 0
    && (forall w :: 0 <= w < |m.spadA| ==> |m.spadA[w]| == d)
    && (forall w :: 0 <= w < |m.spadB| ==> |m.spadB[w]| == d)
    && (forall w :: 0 <= w < |m.acc| ==> |m.acc[w]| == d)
  }

  /** Raw bits as an int8: the number of that range with the same low byte. */
  function S8(b: U32): (v: int)
    ensures -128 <= v <= 127 && (v - b) % 256 == 0
  {
    if b % 256 >= 128 then b % 256 - 256 else b % 256
  }

  /** Raw bits as an int32. */
  function S32(b: U32): int {
    if b >= SIGN then b - LoopMachine.M32 else b
  }

  function Bits(v: int): U32 {
    v % LoopMachine.M32
  }

  /** Words at .. at + n - 1 replaced. */
  function Put(ws: seq<Word>, at: nat, n: nat, f: nat -> Word): (r: seq<Word>)
    requires at + n <= |ws|
    ensures |r| == |ws|
    ensures forall w :: at <= w < at + n ==> r[w] == f(w - at)
    ensures forall w :: 0 <= w < |ws| && !(at <= w < at + n) ==> r[w] == ws[w]
  {
    seq(|ws|, w requires 0 <= w < |ws| => if at <= w < at + n then f(w - at) else ws[w])
  }

  /** A cell of DDR, 0 outside. */
  function Cell(ddr: seq<U32>, a: int): U32 {
    if 0 <= a < |ddr| then ddr[a] else 0
  }

  /** d bytes from address a on. */
  function Bytes(ddr: seq<U32>, a: nat, d: nat): (w: Word)
    ensures |w| == d
  {
    var f: nat -> U32 := x => Cell(ddr, a + x);
    seq<U32>(d, f)
  }

  /** d 32-bit values from address a on. */
  function Floats(ddr: seq<U32>, a: nat, d: nat): (w: Word)
    ensures |w| == d
  {
    var f: nat -> U32 := x => Cell(ddr, a + 4 * x);
    seq<U32>(d, f)
  }

  /** The w-th word of bytes, and of 32-bit values, from an address on. */
  function ByteWord(ddr: seq<U32>, at: nat, d: nat, w: nat): (r: Word)
    ensures |r| == d
  {
    Bytes(ddr, at + w * d, d)
  }

  function FloatWord(ddr: seq<U32>, at: nat, d: nat, w: nat): (r: Word)
    ensures |r| == d
  {
    Floats(ddr, at + w * (4 * d), d)
  }

  /** rows * rowBytes contiguous bytes into SPAD_B or ACC. */
  function DoLd(m: Mem, d: nat, mem: nat, word: nat, bytes: nat, ddr: nat): Mem
    requires d > 0
  {
    if mem == SPAD_B && word + bytes / d <= |m.spadB| then
      m.(spadB := Put(m.spadB, word, bytes / d, (w: nat) => ByteWord(m.ddr, ddr, d, w)))
    else if mem == ACC && word + bytes / (4 * d) <= |m.acc| then
      m.(acc := Put(m.acc, word, bytes / (4 * d), (w: nat) => FloatWord(m.ddr, ddr, d, w)))
    else m
  }

  /** Element q of row i of the A strip at word a: blocks of D words, one for each row. */
  function StripAt(m: Mem, d: nat, a: nat, i: nat, q: nat): int
    requires d > 0
  {
    var w := a + q / d * d + i;
    if w < |m.spadA| && q % d < |m.spadA[w]| then S8(m.spadA[w][q % d]) else 0
  }

  /** Element q of column x of the B tile at word b. */
  function TileAt(m: Mem, b: nat, q: nat, x: nat): int {
    if b + q < |m.spadB| && x < |m.spadB[b + q]| then S8(m.spadB[b + q][x]) else 0
  }

  /** The int dot product of the first k elements. */
  function Dot(m: Mem, d: nat, a: nat, i: nat, b: nat, x: nat, k: nat): int
    requires d > 0
  {
    if k == 0 then 0 else Dot(m, d, a, i, b, x, k - 1) + StripAt(m, d, a, i, k - 1) * TileAt(m, b, k - 1, x)
  }

  /** Row i of a strip times a tile, wrapped to 32 bits. */
  function ExRow(m: Mem, d: nat, a: nat, i: nat, b: nat, k: nat): (w: Word)
    requires d > 0
    ensures |w| == d
  {
    seq(d, (x: nat) => Bits(Dot(m, d, a, i, b, x, k)))
  }

  /** The first n rows of tile r written; the operands are those of the memory m. */
  function ExRows(m: Mem, d: nat, op: Op, acc: seq<Word>, r: nat, n: nat): (t: seq<Word>)
    requires d > 0 && op.Ex?
    ensures |t| == |acc|
  {
    if n == 0 then acc
    else
      var s := ExRows(m, d, op, acc, r, n - 1);
      var w := op.c + r * op.cstep + (n - 1) * op.crow;
      if w < |s| then s[w := ExRow(m, d, op.a, n - 1, op.b + r * op.bstep, op.kt * d)] else s
  }

  /** The first r tiles. */
  function ExTiles(m: Mem, d: nat, op: Op, r: nat): (t: seq<Word>)
    requires d > 0 && op.Ex?
    ensures |t| == |m.acc|
  {
    if r == 0 then m.acc else ExRows(m, d, op, ExTiles(m, d, op, r - 1), r - 1, d)
  }

  /** The fp32 vector engine's multiplication: a * b, then * A + B with A = 1.0 and B = 0.0. */
  function VeMul(a: U32, b: U32): U32 {
    Add(Mul(Mul(a, b), 0x3F80_0000), 0)
  }

  function Lane(ws: seq<Word>, w: int, x: int): U32 {
    if 0 <= w < |ws| && 0 <= x < |ws[w]| then ws[w][x] else 0
  }

  /** Which group of the second operand goes with group g: the same, g modulo or g divided by the period. */
  function SecondOf(op: Op, g: nat): nat
    requires op.Ve?
  {
    if op.period == 0 then g else if op.byMod then g % op.period else g / op.period
  }

  /** One result word: int32 or fp32 first operand. */
  function VeWord(acc: seq<Word>, d: nat, op: Op, g: nat): (w: Word)
    requires op.Ve?
    ensures |w| == d
  {
    var second := op.src2 + SecondOf(op, g);
    seq(d, (x: nat) =>
      VeMul(if op.ints then FromInt(S32(Lane(acc, op.src1 + g, x))) else Lane(acc, op.src1 + g, x),
        Lane(acc, second, x)))
  }

  function DoVe(m: Mem, d: nat, op: Op): Mem
    requires op.Ve?
  {
    if op.dst + op.groups <= |m.acc| then
      m.(acc := Put(m.acc, op.dst, op.groups, (g: nat) => VeWord(m.acc, d, op, g)))
    else m
  }

  /** The n-th 32-bit value from an ACC word on. */
  function Value(acc: seq<Word>, d: nat, word: nat, n: nat): U32
    requires d > 0
  {
    Lane(acc, word + n / d, n % d)
  }

  /** What cell a holds after a row of bytes from an ACC word is stored at address at. */
  function StoredCell(acc: seq<Word>, ddr: seq<U32>, d: nat, word: nat, bytes: nat, at: nat, a: nat): U32
    requires d > 0
  {
    if at <= a < at + bytes && (a - at) % 4 == 0 then Value(acc, d, word, (a - at) / 4) else Cell(ddr, a)
  }

  function StRow(acc: seq<Word>, ddr: seq<U32>, d: nat, word: nat, bytes: nat, at: nat): (r: seq<U32>)
    requires d > 0
    ensures |r| == |ddr|
  {
    var f: nat -> U32 := a => StoredCell(acc, ddr, d, word, bytes, at, a);
    seq<U32>(|ddr|, f)
  }

  /** ACC words of a row of bytes. */
  function RowLength(d: nat, bytes: nat): nat
    requires d > 0
  {
    (bytes + 4 * d - 1) / (4 * d)
  }

  /** The first n rows, pitch bytes apart. */
  function StRows(acc: seq<Word>, ddr: seq<U32>, d: nat, word: nat, n: nat, bytes: nat, pitch: nat,
                  at: nat): (r: seq<U32>)
    requires d > 0
    ensures |r| == |ddr|
  {
    if n == 0 then ddr
    else
      StRow(acc, StRows(acc, ddr, d, word, n - 1, bytes, pitch, at), d, word + (n - 1) * RowLength(d, bytes), bytes,
            at + (n - 1) * pitch)
  }

  function DoSt(m: Mem, d: nat, word: nat, rows: nat, bytes: nat, pitch: nat, at: nat): Mem
    requires d > 0
  {
    m.(ddr := StRows(m.acc, m.ddr, d, word, rows, bytes, pitch, at))
  }

  /** One effective command. */
  function Perform(m: Mem, d: nat, e: Effective): Mem
    requires d > 0
  {
    match e.op
    case Ld(mem, word, rows, rowBytes) => DoLd(m, d, mem, word, rows * rowBytes, e.ddr)
    case St(word, rows, rowBytes, pitch) => DoSt(m, d, word, rows, rowBytes, pitch, e.ddr)
    case Ex(_, _, _, _, repeat, _, _, _) => m.(acc := ExTiles(m, d, e.op, repeat))
    case Ve(_, _, _, _, _, _, _) => DoVe(m, d, e.op)
  }

  function PerformAll(m: Mem, d: nat, es: seq<Effective>): Mem
    requires d > 0
    decreases |es|
  {
    if es == [] then m else PerformAll(Perform(m, d, es[0]), d, es[1..])
  }

  lemma {:induction false} PerformBoth(m: Mem, d: nat, a: seq<Effective>, b: seq<Effective>)
    requires d > 0
    ensures PerformAll(m, d, a + b) == PerformAll(PerformAll(m, d, a), d, b)
    decreases |a|
  {
    hide Perform;
    if a == [] {
      assert a + b == b;
    } else {
      assert (a + b)[1..] == a[1..] + b;
      PerformBoth(Perform(m, d, a[0]), d, a[1..], b);
    }
  }

  // ---------------------------------------------------------------- the matrix product

  /** Word of row i of tile r, with tiles side by side and rows crow words apart. */
  function CWord(op: Op, i: nat, r: nat): nat
    requires op.Ex?
  {
    op.c + r + i * op.crow
  }

  lemma {:induction false} CWordsDiffer(op: Op, i: nat, r: nat, j: nat, u: nat)
    requires op.Ex? && r < op.crow && u < op.crow && CWord(op, i, r) == CWord(op, j, u)
    ensures i == j && r == u
  {
    QuotientIs(i * op.crow + r, op.crow, i, r);
    QuotientIs(j * op.crow + u, op.crow, j, u);
  }

  /** The first n rows of tile r: row i is written if i < n; words of no such row are kept. */
  lemma {:induction false} RowsWritten(m: Mem, d: nat, op: Op, acc: seq<Word>, r: nat, n: nat, i: nat)
    requires d > 0 && op.Ex? && op.cstep == 1 && r < op.crow && CWord(op, i, r) < |acc|
    ensures var t := ExRows(m, d, op, acc, r, n);
            t[CWord(op, i, r)] == if i < n then ExRow(m, d, op.a, i, op.b + r * op.bstep, op.kt * d)
              else acc[CWord(op, i, r)]
  {
    hide ExRow;
    if n > 0 {
      RowsWritten(m, d, op, acc, r, n - 1, i);
      if i != n - 1 && CWord(op, i, r) == CWord(op, n - 1, r) { CWordsDiffer(op, i, r, n - 1, r); }
    }
  }

  lemma {:induction false} RowsKept(m: Mem, d: nat, op: Op, acc: seq<Word>, r: nat, n: nat, w: nat)
    requires d > 0 && op.Ex? && op.cstep == 1 && w < |acc| && forall i: nat :: i < n ==> w != CWord(op, i, r)
    ensures ExRows(m, d, op, acc, r, n)[w] == acc[w]
  {
    hide ExRow;
    if n > 0 {
      RowsKept(m, d, op, acc, r, n - 1, w);
      assert w != CWord(op, n - 1, r);
    }
  }

  /** After an EX of n tiles: row i of tile r holds its products. */
  lemma {:induction false} TilesWritten(m: Mem, d: nat, op: Op, n: nat, i: nat, r: nat)
    requires d > 0 && op.Ex? && op.cstep == 1 && n <= op.crow && i < d && r < op.crow && CWord(op, i, r) < |m.acc|
    ensures ExTiles(m, d, op, n)[CWord(op, i, r)]
         == if r < n then ExRow(m, d, op.a, i, op.b + r * op.bstep, op.kt * d) else m.acc[CWord(op, i, r)]
  {
    hide ExRow, ExRows, CWord;
    if n > 0 {
      TilesWritten(m, d, op, n - 1, i, r);
      var u := n - 1;
      if r == u {
        RowsWritten(m, d, op, ExTiles(m, d, op, u), u, d, i);
      } else {
        forall j: nat | j < d ensures CWord(op, i, r) != CWord(op, j, u) {
          if CWord(op, i, r) == CWord(op, j, u) { CWordsDiffer(op, i, r, j, u); }
        }
        RowsKept(m, d, op, ExTiles(m, d, op, u), u, d, CWord(op, i, r));
      }
    }
  }

  /** Only the words c .. c + d crow - 1 change. */
  lemma {:induction false} TilesKept(m: Mem, d: nat, op: Op, n: nat, w: nat)
    requires d > 0 && op.Ex? && op.cstep == 1 && n <= op.crow && w < |m.acc|
    requires w < op.c || w >= op.c + d * op.crow
    ensures ExTiles(m, d, op, n)[w] == m.acc[w]
  {
    hide ExRow, ExRows;
    if n > 0 {
      TilesKept(m, d, op, n - 1, w);
      var u := n - 1;
      forall i: nat | i < d ensures w != CWord(op, i, u) {
        MulUp(i + 1, d, op.crow);
        SumTimes(i, 1, op.crow);
      }
      RowsKept(m, d, op, ExTiles(m, d, op, u), u, d, w);
    }
  }

  // ---------------------------------------------------------------- the store

  /** Value n of row r after the first rows are stored, rows of n values each not overlapping. */
  lemma {:induction false} RowsStored(acc: seq<Word>, ddr: seq<U32>, d: nat, word: nat, rows: nat, bytes: nat,
                                      pitch: nat, at: nat, r: nat, n: nat)
    requires d > 0 && r < rows && 4 * n < bytes && (rows == 1 || bytes <= pitch) && at + r * pitch + 4 * n < |ddr|
    ensures StRows(acc, ddr, d, word, rows, bytes, pitch, at)[at + r * pitch + 4 * n]
         == Value(acc, d, word + r * RowLength(d, bytes), n)
  {
    hide Value, RowLength, StRow, StoredCell;
    var before, last := StRows(acc, ddr, d, word, rows - 1, bytes, pitch, at), at + (rows - 1) * pitch;
    var a, w := at + r * pitch + 4 * n, word + (rows - 1) * RowLength(d, bytes);
    if r < rows - 1 {
      RowsStored(acc, ddr, d, word, rows - 1, bytes, pitch, at, r, n);
      MulUp(r + 1, rows - 1, pitch);
      SumTimes(r, 1, pitch);
      CellKept(acc, before, d, w, bytes, last, a);
    } else {
      CellStored(acc, before, d, w, bytes, last, n);
    }
  }

  lemma {:induction false} CellStored(acc: seq<Word>, ddr: seq<U32>, d: nat, word: nat, bytes: nat, at: nat, n: nat)
    requires d > 0 && 4 * n < bytes && at + 4 * n < |ddr|
    ensures StRow(acc, ddr, d, word, bytes, at)[at + 4 * n] == Value(acc, d, word, n)
  {
    hide Value;
    assert (at + 4 * n - at) / 4 == n && (at + 4 * n - at) % 4 == 0;
  }

  lemma {:induction false} CellKept(acc: seq<Word>, ddr: seq<U32>, d: nat, word: nat, bytes: nat, at: nat, a: nat)
    requires d > 0 && a < |ddr| && (a < at || a >= at + bytes)
    ensures StRow(acc, ddr, d, word, bytes, at)[a] == ddr[a]
  {
    hide Value;
  }

  /** Cells outside every row are kept. */
  lemma {:induction false} StoreKept(acc: seq<Word>, ddr: seq<U32>, d: nat, word: nat, rows: nat, bytes: nat,
                                     pitch: nat, at: nat, a: nat)
    requires d > 0 && forall r: nat :: r < rows ==> OffRow(at, pitch, bytes, r, a)
    ensures Cell(StRows(acc, ddr, d, word, rows, bytes, pitch, at), a) == Cell(ddr, a)
  {
    hide Value, RowLength;
    if rows > 0 {
      StoreKept(acc, ddr, d, word, rows - 1, bytes, pitch, at, a);
      assert OffRow(at, pitch, bytes, rows - 1, a);
    }
  }

  /** a is not among the bytes of row r. */
  predicate OffRow(at: nat, pitch: nat, bytes: nat, r: nat, a: nat) {
    a < at + r * pitch || a >= at + r * pitch + bytes
  }
}
