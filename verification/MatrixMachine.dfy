/** The machine as matrix lists use it (llm/sa_funcsim.py, ld, ex, st, ve_fp): DDR in bytes, SPAD words
    of D int8 and ACC words of D 32-bit lanes, a memory given as a function of word and lane. */
module MatrixMachine {
  import opened Dyadic
  import Fp32
  import SimOps

  type Local = (int, int) -> int

  datatype Mem = Mem(a: Local, b: Local, acc: Local, ddr: int -> int)

  /** LDs: interleaved into SPAD_A or SPAD_B, row after row into ACC or SPAD_B; STs from ACC and SPAD_A;
      the fp32 VE's product of ACC words, the second one by group modulo or divided by a period. */
  datatype Cmd =
    | LdA(ddr: nat, word: nat, rows: nat, rowBytes: nat, pitch: nat)
    | LdB(ddr: nat, word: nat, rows: nat, rowBytes: nat, pitch: nat)
    | LdAcc(ddr: nat, word: nat, rows: nat, rowBytes: nat, pitch: nat)
    | Ex(a: nat, b: nat, c: nat, kt: nat, adds: bool, repeat: nat, bstep: nat, cstep: nat, crow: nat)
    | St(ddr: nat, word: nat, rows: nat, rowBytes: nat, pitch: nat)
    | LdRowsB(ddr: nat, word: nat, rows: nat, rowBytes: nat, pitch: nat)
    | StA(ddr: nat, word: nat, rows: nat, rowBytes: nat, pitch: nat)
    | Scale(src1: nat, src2: nat, dst: nat, groups: nat, ints: bool, byMod: bool, period: nat)

  const M32 := 0x1_0000_0000

  // ---------------------------------------------------------------- what the commands do

  /** A byte as an int8: the number of that range with the same value modulo 256. */
  function S8(b: int): (v: int)
    ensures 0 <= b < 256 ==> -128 <= v <= 127 && (v - b) % 256 == 0
  {
    if b >= 128 then b - 256 else b
  }

  /** A little-endian 32-bit value. */
  function Word32(ddr: int -> int, a: int): int {
    (ddr(a) + 0x100 * ddr(a + 1) + 0x1_0000 * ddr(a + 2) + 0x100_0000 * ddr(a + 3)) % M32
  }

  function ByteOf(v: int, j: int): int {
    if j == 0 then v % 256 else if j == 1 then v / 0x100 % 256 else if j == 2 then v / 0x1_0000 % 256
      else v / 0x100_0000 % 256
  }

  /** Chunk i / rows of row i % rows goes to word i. */
  function Interleaved(old_: Local, ddr: int -> int, d: nat, at: nat, word: nat, rows: nat, rowBytes: nat,
                       pitch: nat): Local
    requires d > 0 && rows > 0
  {
    (w: int, x: int) =>
      if word <= w < word + rowBytes / d * rows && 0 <= x < d then
        S8(ddr(at + (w - word) % rows * pitch + (w - word) / rows * d + x))
      else old_(w, x)
  }

  function Rowwise(old_: Local, ddr: int -> int, d: nat, at: nat, word: nat, rows: nat, words: nat, pitch: nat): Local
    requires d > 0 && words > 0
  {
    (w: int, x: int) =>
      if word <= w < word + rows * words && 0 <= x < d then
        Word32(ddr, at + (w - word) / words * pitch + 4 * ((w - word) % words * d + x))
      else old_(w, x)
  }

  /** Row i of the A strip at word a times column x of the B words at b: the first n products. */
  function Dot(m: Mem, d: nat, a: int, i: int, b: int, x: int, n: nat): int
    requires d > 0
  {
    if n == 0 then 0
    else Dot(m, d, a, i, b, x, n - 1) + m.a(a + (n - 1) / d * d + i, (n - 1) % d) * m.b(b + (n - 1), x)
  }

  /** One C row of one tile. */
  function ExRow(m: Mem, d: nat, op: Cmd, acc: Local, r: nat, i: nat): Local
    requires d > 0 && op.Ex?
  {
    (w: int, x: int) =>
      if w == op.c + r * op.cstep + i * op.crow && 0 <= x < d then
        ((if op.adds then acc(w, x) else 0) + Dot(m, d, op.a, i, op.b + r * op.bstep, x, op.kt * d)) % M32
      else acc(w, x)
  }

  function ExRows(m: Mem, d: nat, op: Cmd, acc: Local, r: nat, n: nat): Local
    requires d > 0 && op.Ex?
  {
    if n == 0 then acc else ExRow(m, d, op, ExRows(m, d, op, acc, r, n - 1), r, n - 1)
  }

  function ExTiles(m: Mem, d: nat, op: Cmd, r: nat): Local
    requires d > 0 && op.Ex?
  {
    if r == 0 then m.acc else ExRows(m, d, op, ExTiles(m, d, op, r - 1), r - 1, d)
  }

  /** One row of bytes stored from the ACC words at word. */
  function StRow(acc: Local, ddr: int -> int, d: nat, at: int, word: int, rowBytes: nat): int -> int
    requires d > 0
  {
    (a: int) =>
      if at <= a < at + rowBytes then ByteOf(acc(word + (a - at) / (4 * d), (a - at) % (4 * d) / 4), (a - at) % 4)
      else ddr(a)
  }

  function StRows(m: Mem, d: nat, op: Cmd, n: nat): int -> int
    requires d > 0 && op.St?
  {
    if n == 0 then m.ddr
    else StRow(m.acc, StRows(m, d, op, n - 1), d, op.ddr + (n - 1) * op.pitch,
      op.word + (n - 1) * (op.rowBytes / (4 * d)),
               op.rowBytes)
  }

  function Bytewise(old_: Local, ddr: int -> int, d: nat, at: nat, word: nat, rows: nat, words: nat, pitch: nat): Local
    requires d > 0 && words > 0
  {
    (w: int, x: int) =>
      if word <= w < word + rows * words && 0 <= x < d then
        S8(ddr(at + (w - word) / words * pitch + (w - word) % words * d + x))
      else old_(w, x)
  }

  /** One row of bytes stored from the SPAD words at word. */
  function StARow(a: Local, ddr: int -> int, d: nat, at: int, word: int, rowBytes: nat): int -> int
    requires d > 0
  {
    (addr: int) => if at <= addr < at + rowBytes then a(word + (addr - at) / d, (addr - at) % d) % 256 else ddr(addr)
  }

  function StARows(m: Mem, d: nat, op: Cmd, n: nat): int -> int
    requires d > 0 && op.StA?
  {
    if n == 0 then m.ddr
    else StARow(m.a, StARows(m, d, op, n - 1), d, op.ddr + (n - 1) * op.pitch, op.word + (n - 1) * (op.rowBytes / d),
      op.rowBytes)
  }

  /** 32 bits times 32 bits in the vector engine, the first as an int32 or as a binary32. */
  function Product32(v: int, f: int, ints: bool): int {
    var a := v % M32;
    SimOps.VeMul(if ints then Fp32.FromInt(SimOps.S32(a)) else a, f % M32)
  }

  /** Word of the second operand of group g. */
  function Second(op: Cmd, g: int): int
    requires op.Scale? && op.period > 0
  {
    op.src2 + if op.byMod then g % op.period else g / op.period
  }

  /** The groups are computed from the memory before. */
  function Scaled(acc: Local, d: nat, op: Cmd): Local
    requires op.Scale? && op.period > 0
  {
    (w: int, x: int) =>
      if op.dst <= w < op.dst + op.groups && 0 <= x < d then
        Product32(acc(op.src1 + (w - op.dst), x), acc(Second(op, w - op.dst), x), op.ints)
      else acc(w, x)
  }

  function Perform(m: Mem, d: nat, x: Cmd): Mem
    requires d > 0
  {
    match x
    case LdA(ddr, word, rows, rb, pitch) =>
      if rows == 0 then m else m.(a := Interleaved(m.a, m.ddr, d, ddr, word, rows, rb, pitch))
    case LdB(ddr, word, rows, rb, pitch) =>
      if rows == 0 then m else m.(b := Interleaved(m.b, m.ddr, d, ddr, word, rows, rb, pitch))
    case LdAcc(ddr, word, rows, rb, pitch) =>
      if rb / (4 * d) == 0 then m else m.(acc := Rowwise(m.acc, m.ddr, d, ddr, word, rows, rb / (4 * d), pitch))
    case Ex(_, _, _, _, _, repeat, _, _, _) => m.(acc := ExTiles(m, d, x, repeat))
    case St(_, _, rows, _, _) => m.(ddr := StRows(m, d, x, rows))
    case LdRowsB(ddr, word, rows, rb, pitch) =>
      if rb / d == 0 then m else m.(b := Bytewise(m.b, m.ddr, d, ddr, word, rows, rb / d, pitch))
    case StA(_, _, rows, _, _) => m.(ddr := StARows(m, d, x, rows))
    case Scale(_, _, _, _, _, _, period) => if period == 0 then m else m.(acc := Scaled(m.acc, d, x))
  }

  function Run(m: Mem, d: nat, xs: seq<Cmd>): Mem
    requires d > 0
  {
    if xs == [] then m else Perform(Run(m, d, xs[..|xs| - 1]), d, xs[|xs| - 1])
  }

  lemma {:induction false} RunNext(m: Mem, d: nat, xs: seq<Cmd>, x: Cmd)
    requires d > 0
    ensures Run(m, d, xs + [x]) == Perform(Run(m, d, xs), d, x)
  {
    assert (xs + [x])[..|xs + [x]| - 1] == xs;
  }

  lemma {:induction false} RunBoth(m: Mem, d: nat, xs: seq<Cmd>, ys: seq<Cmd>)
    requires d > 0
    ensures Run(m, d, xs + ys) == Run(Run(m, d, xs), d, ys)
    decreases |ys|
  {
    hide Perform;
    if ys == [] {
      assert xs + ys == xs;
    } else {
      var zs, y := ys[..|ys| - 1], ys[|ys| - 1];
      assert xs + ys == (xs + zs) + [y] && ys == zs + [y];
      RunBoth(m, d, xs, zs);
      RunNext(m, d, xs + zs, y);
      RunNext(Run(m, d, xs), d, zs, y);
    }
  }

  lemma {:induction false} RunOne(m: Mem, d: nat, x: Cmd)
    requires d > 0
    ensures Run(m, d, [x]) == Perform(m, d, x) && Run(m, d, []) == m
  {
    RunNext(m, d, [], x);
    assert [] + [x] == [x];
  }

  // ---------------------------------------------------------------- lists

  /** A list being built. */
  class DescList {
    var rows: seq<Cmd>

    constructor ()
      ensures rows == []
    {
      rows := [];
    }

    method Put(x: Cmd)
      modifies this
      ensures rows == old(rows) + [x]
    {
      rows := rows + [x];
    }
  }
}
