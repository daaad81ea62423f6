/** The functional simulator (llm/sa_funcsim.py): memories and PARAMs changed command by command, a
    list run with its loop stack. */
module SimRun {
  import opened Options
  import opened Fp32
  import opened LoopMachine
  import opened LinearList
  import opened SimOps

  datatype Result = Ended | Illegal | TooLong

  class Sim {
    const d: nat
    var spadA: seq<Word>
    var spadB: seq<Word>
    var acc: seq<Word>
    var ddr: seq<U32>
    var params: Params

    constructor (d: nat, m: Mem, params: Params)
      ensures this.d == d && Memory() == m && this.params == params
    {
      this.d := d;
      spadA, spadB, acc, ddr := m.spadA, m.spadB, m.acc, m.ddr;
      this.params := params;
    }

    function Memory(): Mem
      reads this
    {
      Mem(spadA, spadB, acc, ddr)
    }

    /** LD: word by word. A load that leaves the memory is refused by the range check. */
    method Load(mem: nat, word: nat, bytes: nat, at: nat)
      requires d > 0
      modifies this`spadB, this`acc
      ensures Memory() == DoLd(old(Memory()), d, mem, word, bytes, at)
    {
      if mem == SPAD_B && word + bytes / d <= |spadB| {
        LoadSpadB(word, bytes / d, at);
      } else if mem == ACC && word + bytes / (4 * d) <= |acc| {
        LoadAcc(word, bytes / (4 * d), at);
      }
    }

    method LoadSpadB(word: nat, n: nat, at: nat)
      requires word + n <= |spadB|
      modifies this`spadB
      ensures spadB == Put(old(spadB), word, n, (w: nat) => ByteWord(old(ddr), at, d, w))
    {
      hide Put, ByteWord;
      var cells := ddr;
      ghost var f: nat -> Word := w => ByteWord(cells, at, d, w);
      PutNone(spadB, word, f);
      for w := 0 to n
        invariant spadB == Put(old(spadB), word, w, f) && ddr == cells
      {
        PutNext(old(spadB), word, w, f);
        spadB := spadB[word + w := ByteWord(cells, at, d, w)];
      }
      PutAlike(old(spadB), word, n, f, (w: nat) => ByteWord(cells, at, d, w));
    }

    method LoadAcc(word: nat, n: nat, at: nat)
      requires word + n <= |acc|
      modifies this`acc
      ensures acc == Put(old(acc), word, n, (w: nat) => FloatWord(old(ddr), at, d, w))
    {
      hide Put, FloatWord;
      var cells := ddr;
      ghost var f: nat -> Word := w => FloatWord(cells, at, d, w);
      PutNone(acc, word, f);
      for w := 0 to n
        invariant acc == Put(old(acc), word, w, f) && ddr == cells
      {
        PutNext(old(acc), word, w, f);
        acc := acc[word + w := FloatWord(cells, at, d, w)];
      }
      PutAlike(old(acc), word, n, f, (w: nat) => FloatWord(cells, at, d, w));
    }

    /** EX: tile by tile, row by row. */
    method Multiply(op: Op)
      requires d > 0 && op.Ex?
      modifies this`acc
      ensures acc == ExTiles(old(Memory()), d, op, op.repeat)
    {
      ghost var m := Memory();
      for r := 0 to op.repeat
        invariant acc == ExTiles(m, d, op, r) && spadA == m.spadA && spadB == m.spadB
      {
        MultiplyTile(op, r, m, acc);
      }
    }

    method MultiplyTile(op: Op, r: nat, ghost m: Mem, ghost was: seq<Word>)
      requires d > 0 && op.Ex? && acc == was && spadA == m.spadA && spadB == m.spadB
      modifies this`acc
      ensures acc == ExRows(m, d, op, was, r, d)
    {
      for i := 0 to d
        invariant acc == ExRows(m, d, op, was, r, i)
      {
        var w := op.c + r * op.cstep + i * op.crow;
        if w < |acc| {
          OperandsAlone(Mem(spadA, spadB, acc, ddr), m, d, op.a, i, op.b + r * op.bstep, op.kt * d);
          acc := acc[w := ExRow(Mem(spadA, spadB, acc, ddr), d, op.a, i, op.b + r * op.bstep, op.kt * d)];
        }
      }
    }

    /** VE: the sources are read before the destination is written. */
    method Vector(op: Op)
      requires d > 0 && op.Ve?
      modifies this`acc
      ensures Memory() == DoVe(old(Memory()), d, op)
    {
      if op.dst + op.groups <= |acc| { VectorWords(op); }
    }

    method VectorWords(op: Op)
      requires op.Ve? && op.dst + op.groups <= |acc|
      modifies this`acc
      ensures acc == Put(old(acc), op.dst, op.groups, (g: nat) => VeWord(old(acc), d, op, g))
    {
      hide Put, VeWord;
      var was := acc;
      ghost var f: nat -> Word := g => VeWord(was, d, op, g);
      PutNone(was, op.dst, f);
      for g := 0 to op.groups
        invariant acc == Put(was, op.dst, g, f)
      {
        PutNext(was, op.dst, g, f);
        acc := acc[op.dst + g := VeWord(was, d, op, g)];
      }
      PutAlike(was, op.dst, op.groups, f, (g: nat) => VeWord(was, d, op, g));
    }

    /** ST: row by row. */
    method Store(word: nat, rows: nat, bytes: nat, pitch: nat, at: nat)
      requires d > 0
      modifies this`ddr
      ensures Memory() == DoSt(old(Memory()), d, word, rows, bytes, pitch, at)
    {
      for r := 0 to rows
        invariant ddr == StRows(acc, old(ddr), d, word, r, bytes, pitch, at)
      {
        StoreRow(word + r * RowLength(d, bytes), bytes, at + r * pitch);
      }
    }

    method StoreRow(word: nat, bytes: nat, at: nat)
      requires d > 0
      modifies this`ddr
      ensures ddr == StRow(acc, old(ddr), d, word, bytes, at)
    {
      ghost var cells := ddr;
      var n := 0;
      ghost var words := acc;
      ghost var f: nat -> U32 := a => StoredCell(words, cells, d, word, bytes, at, a);
      while n < |ddr|
        invariant n <= |ddr| == |cells| && ddr[n..] == cells[n..]
        invariant forall a: nat :: a < n ==> ddr[a] == f(a)
      {
        assert ddr[n] == ddr[n..][0] == cells[n..][0];
        if at <= n < at + bytes && (n - at) % 4 == 0 {
          ddr := ddr[n := Value(acc, d, word, (n - at) / 4)];
        }
        n := n + 1;
      }
      assert ddr == seq<U32>(|cells|, f);
    }

    /** One effective command. */
    method Command(e: Effective)
      requires d > 0
      modifies this`spadB, this`acc, this`ddr
      ensures Memory() == Perform(old(Memory()), d, e)
    {
      match e.op
      case Ld(mem, word, rows, rowBytes) => Load(mem, word, rows * rowBytes, e.ddr);
      case St(word, rows, rowBytes, pitch) => Store(word, rows, rowBytes, pitch, e.ddr);
      case Ex(_, _, _, _, _, _, _, _) => Multiply(e.op);
      case Ve(_, _, _, _, _, _, _) => Vector(e.op);
    }

    /** Runs a list to its end: at most maxDesc descriptors, stopping at an illegal one. */
    method RunList(list: seq<Desc>, maxDesc: nat) returns (r: Result, n: nat, ghost s: State)
      requires d > 0
      modifies this
      ensures Steps(list, State(0, old(params), [], []), n) == Some(s) && n <= maxDesc
      ensures Memory() == PerformAll(old(Memory()), d, s.trace) && params == s.params
      ensures r == Ended <==> s.pc >= |list|
      ensures r == Illegal ==> s.pc < |list| && Step(list, s).None?
      ensures r == TooLong ==> n == maxDesc
    {
      hide Step, PerformAll, Perform;
      var pc := 0;
      var loops: seq<Open> := [];
      n, r := 0, TooLong;
      s := State(0, params, [], []);
      assert Memory() == PerformAll(Memory(), d, []) by { Nothing(Memory(), d); }
      while pc < |list| && n < maxDesc
        invariant n <= maxDesc && Steps(list, State(0, old(params), [], []), n) == Some(s)
        invariant s.pc == pc && s.params == params && s.loops == loops
        invariant Memory() == PerformAll(old(Memory()), d, s.trace)
        decreases maxDesc - n
      {
        var legal: bool;
        legal, pc, loops, s := Descriptor(list, pc, loops, s, old(Memory()));
        if !legal {
          r := Illegal;
          return;
        }
        ghost var t := Steps(list, State(0, old(params), [], []), n).value;
        OneMore(list, State(0, old(params), [], []), n, t, s);
        n := n + 1;
      }
      if pc >= |list| { r := Ended; }
    }

    /** One descriptor. */
    method Descriptor(list: seq<Desc>, pc: nat, loops: seq<Open>, ghost s: State, ghost m0: Mem)
      returns (legal: bool, pc': nat, loops': seq<Open>, ghost t: State)
      requires d > 0 && pc < |list| && s.pc == pc && s.params == params && s.loops == loops
      requires Memory() == PerformAll(m0, d, s.trace)
      modifies this
      ensures legal <==> Step(list, s).Some?
      ensures legal ==> Step(list, s) == Some(t)
      ensures !legal ==> t == s
      ensures t.pc == pc' && t.params == params && t.loops == loops' && Memory() == PerformAll(m0, d, t.trace)
    {
      hide PerformAll, Perform;
      legal, pc', loops', t := true, pc + 1, loops, s;
      var x := list[pc];
      match x
      case Command(_, _, _) =>
        var e := Apply(params, x);
        Command(e);
        t := s.(pc := pc + 1, trace := s.trace + [e]);
        Appended(m0, d, s.trace, e);
      case SetParam(k, v) =>
        if k < |params| { params := params[k := v % LoopMachine.M32]; }
        t := s.(pc := pc + 1, params := params);
      case LoopEnd(back, count, _, _, _, _) =>
        var again := |loops| > 0 && loops[|loops| - 1].at == pc;
        if Iterations(count) == 0 || (!again && |loops| == LOOP_DEPTH) || back > pc {
          legal, pc' := false, pc;
          return;
        }
        var left := if again then loops[|loops| - 1].left else Iterations(count);
        if again { loops' := loops[..|loops| - 1]; }
        params := Advance(params, x);
        if left > 1 {
          pc', loops' := pc - back, loops' + [Open(pc, left - 1)];
        }
        t := s.(pc := pc', params := params, loops := loops');
    }
  }

  lemma {:induction false} PutNone(ws: seq<Word>, at: nat, f: nat -> Word)
    requires at <= |ws|
    ensures Put(ws, at, 0, f) == ws
  {
  }

  lemma {:induction false} PutNext(ws: seq<Word>, at: nat, n: nat, f: nat -> Word)
    requires at + n < |ws|
    ensures Put(ws, at, n, f)[at + n := f(n)] == Put(ws, at, n + 1, f)
  {
  }

  lemma {:induction false} PutAlike(ws: seq<Word>, at: nat, n: nat, f: nat -> Word, g: nat -> Word)
    requires at + n <= |ws| && forall w: nat :: f(w) == g(w)
    ensures Put(ws, at, n, f) == Put(ws, at, n, g)
  {
  }

  lemma {:induction false} Nothing(m: Mem, d: nat)
    requires d > 0
    ensures PerformAll(m, d, []) == m
  {
  }

  lemma {:induction false} Appended(m: Mem, d: nat, es: seq<Effective>, e: Effective)
    requires d > 0
    ensures PerformAll(m, d, es + [e]) == Perform(PerformAll(m, d, es), d, e)
  {
    hide Perform;
    PerformBoth(m, d, es, [e]);
    assert [e][1..] == [];
    Nothing(Perform(PerformAll(m, d, es), d, e), d);
  }

  lemma {:induction false} OneMore(list: seq<Desc>, s0: State, n: nat, s: State, t: State)
    requires Steps(list, s0, n) == Some(s) && s.pc < |list| && Step(list, s) == Some(t)
    ensures Steps(list, s0, n + 1) == Some(t)
  {
    hide Step;
    StepsBoth(list, s0, n, 1);
    OneStep(list, s);
  }

  /** The EX reads only the two SPADs. */
  lemma {:induction false} OperandsAlone(m: Mem, m': Mem, d: nat, a: nat, i: nat, b: nat, k: nat)
    requires d > 0 && m.spadA == m'.spadA && m.spadB == m'.spadB
    ensures ExRow(m, d, a, i, b, k) == ExRow(m', d, a, i, b, k)
  {
    forall x: nat | x < d ensures Dot(m, d, a, i, b, x, k) == Dot(m', d, a, i, b, x, k) {
      DotAlone(m, m', d, a, i, b, x, k);
    }
  }

  lemma {:induction false} DotAlone(m: Mem, m': Mem, d: nat, a: nat, i: nat, b: nat, x: nat, k: nat)
    requires d > 0 && m.spadA == m'.spadA && m.spadB == m'.spadB
    ensures Dot(m, d, a, i, b, x, k) == Dot(m', d, a, i, b, x, k)
  {
    if k > 0 { DotAlone(m, m', d, a, i, b, x, k - 1); }
  }
}
