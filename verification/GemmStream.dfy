/** Every command of a matrix product list is legal, and the firmware (firmware/gemm/gemm_fw.c), which
    sets sticky configuration registers before its commands, issues the same commands. */
module GemmStream {
  import opened Options
  import opened Dyadic
  import opened MatrixMachine
  import opened GemmList
  import opened MatrixSteps
  import opened GemmMeaning

  // ---------------------------------------------------------------- legal commands

  /** What the engines refuse (_check_dma and ex): unaligned or empty transfers, and words outside the
      local memories. */
  predicate Legal(g: Gemm, x: Cmd)
    requires g.d > 0
  {
    match x
    case LdA(ddr, word, rows, rb, pitch) =>
      Aligned(ddr, rb, pitch, rows) && rb % g.d == 0 && word + rb / g.d * rows <= 2 * g.sbank
    case LdB(ddr, word, rows, rb, pitch) =>
      Aligned(ddr, rb, pitch, rows) && rb % g.d == 0 && word + rb / g.d * rows <= 2 * g.sbank
    case LdAcc(ddr, word, rows, rb, pitch) => Aligned(ddr, rb, pitch, rows) && InAcc(g, word, rows, rb)
    case St(ddr, word, rows, rb, pitch) => Aligned(ddr, rb, pitch, rows) && InAcc(g, word, rows, rb)
    case Ex(a, b, c, kt, _, repeat, bstep, cstep, crow) =>
      && kt > 0 && repeat > 0 && a + kt * g.d <= 2 * g.sbank
      && b + (repeat - 1) * bstep + kt * g.d <= 2 * g.sbank
      && c + (repeat - 1) * cstep + (g.d - 1) * crow < 2 * g.cbank
    case _ => false    // not in these lists
  }

  predicate Aligned(ddr: nat, rb: nat, pitch: nat, rows: nat) {
    ddr % 8 == 0 && rb % 8 == 0 && pitch % 8 == 0 && rb > 0 && rows > 0
  }

  predicate InAcc(g: Gemm, word: nat, rows: nat, rb: nat)
    requires g.d > 0
  {
    word + (rb + 4 * g.d - 1) / (4 * g.d) * rows <= 2 * g.cbank
  }

  predicate AddressesAligned(g: Gemm) {
    g.d % 8 == 0 && g.a % 8 == 0 && g.b % 8 == 0 && g.c % 8 == 0 && (g.bias.Some? ==> g.bias.value % 8 == 0)
  }

  /** Row lengths and strip offsets are multiples of eight. */
  lemma {:induction false} LengthsAligned(g: Gemm, s: nat)
    requires AddressesAligned(g)
    ensures g.K() % 8 == 0 && g.N() % 8 == 0 && (4 * g.N()) % 8 == 0
    ensures (s * g.d * g.K()) % 8 == 0 && (s * g.d * (4 * g.N())) % 8 == 0
    ensures (g.Nt0() * g.d) % 8 == 0 && (g.Nt1() * g.d) % 8 == 0
  {
    Eights(g.d, g.kt);
    Eights(g.d, g.nt);
    Eights(g.N(), 4);
    Eights(g.d, s);
    Eights(s * g.d, g.K());
    Eights(s * g.d, 4 * g.N());
    Eights(g.d, g.Nt0());
    Eights(g.d, g.Nt1());
  }

  /** An LD of n words a row. */
  lemma {:induction false} LdLegal(g: Gemm, x: Cmd, n: nat)
    requires g.d > 0 && (x.LdA? || x.LdB?) && Aligned(x.ddr, x.rowBytes, x.pitch, x.rows) && x.rowBytes == n * g.d
    requires x.word + n * x.rows <= 2 * g.sbank
    ensures Legal(g, x)
  {
    QuotientIs(x.rowBytes, g.d, n, 0);
  }

  lemma {:induction false} AFits(g: Gemm, s: nat)
    requires Fits(g) && AddressesAligned(g)
    ensures g.a % 8 == 0 && g.kt * g.d == g.K() && ABank(g, s) + g.K() <= 2 * g.sbank
  {
  }

  lemma {:induction false} AAligned(g: Gemm, s: nat)
    requires Fits(g) && AddressesAligned(g)
    ensures var x := LoadA(g, s); x.LdA? && Aligned(x.ddr, x.rowBytes, x.pitch, x.rows)
  {
    hide Gemm.K, Gemm.N, Fits, AddressesAligned, ABank;
    Sizes(g);
    AFits(g, s);
    LengthsAligned(g, s);
    EightsSum(g.a, s * g.d * g.K());
  }

  lemma {:induction false} AInside(g: Gemm, s: nat)
    requires Fits(g) && AddressesAligned(g)
    ensures var x := LoadA(g, s); x.rowBytes == g.kt * g.d && x.word + g.kt * x.rows <= 2 * g.sbank
  {
    hide Gemm.K, Gemm.N, Fits, AddressesAligned, ABank;
    AFits(g, s);
  }

  lemma {:induction false} ALegal(g: Gemm, s: nat)
    requires Fits(g) && AddressesAligned(g)
    ensures g.d > 0 && Legal(g, LoadA(g, s))
  {
    hide *;
    Sizes(g);
    AAligned(g, s);
    AInside(g, s);
    LdLegal(g, LoadA(g, s), g.kt);
  }

  lemma {:induction false} RowsAligned(g: Gemm, base: nat, s: nat)
    requires Fits(g) && AddressesAligned(g) && base % 8 == 0
    ensures Aligned(base + s * g.d * (4 * g.N()), 4 * g.N(), 4 * g.N(), g.d)
  {
    hide Fits, AddressesAligned, Gemm.N, Gemm.K;
    Sizes(g);
    LengthsAligned(g, s);
    EightsSum(base, s * g.d * (4 * g.N()));
  }

  lemma {:induction false} BiasLegal(g: Gemm, s: nat)
    requires Fits(g) && AddressesAligned(g) && g.bias.Some?
    ensures g.d > 0 && Legal(g, LoadBias(g, s))
  {
    assert g.bias.value % 8 == 0;
    hide Gemm.N, Fits, AddressesAligned, CBank, InAcc, Aligned;
    RowsAligned(g, g.bias.value, s);
    AccRows(g, s);
  }

  lemma {:induction false} StripLegal(g: Gemm, s: nat, x: Cmd)
    requires Fits(g) && AddressesAligned(g) && x in LoadStrip(g, s)
    ensures g.d > 0 && Legal(g, x)
  {
    ALegal(g, s);
    if g.bias.Some? { BiasLegal(g, s); }
    hide Gemm.K, Gemm.N, Fits, AddressesAligned, CBank, ABank, Legal;
  }

  /** The rows of a strip's bias or C fill the words of N int32 lanes. */
  lemma {:induction false} AccRows(g: Gemm, s: nat)
    requires Fits(g)
    ensures g.d > 0 && InAcc(g, CBank(g, s), g.d, 4 * g.N())
  {
    Sizes(g);
    QuotientIs(4 * g.N() + 4 * g.d - 1, 4 * g.d, g.nt, 4 * g.d - 1);
    assert g.nt * g.d == g.N();
  }

  lemma {:induction false} StoreLegal(g: Gemm, s: nat)
    requires Fits(g) && AddressesAligned(g)
    ensures g.d > 0 && Legal(g, Store(g, s))
  {
    assert g.c % 8 == 0;
    hide Gemm.N, Fits, AddressesAligned, CBank, InAcc, Aligned;
    RowsAligned(g, g.c, s);
    AccRows(g, s);
  }

  lemma {:induction false} BLegal(g: Gemm, t0: nat, nb: nat, at: nat)
    requires Fits(g) && AddressesAligned(g) && nb > 0 && at + nb * g.K() <= 2 * g.sbank
    ensures g.d > 0 && Legal(g, LoadB(g, t0, nb, at))
  {
    Sizes(g);
    LengthsAligned(g, 0);
    Eights(g.d, t0);
    Eights(g.d, nb);
    MulUp(1, nb, g.d);
    EightsSum(g.b, t0 * g.d);
    hide Gemm.K, Gemm.N, Fits, AddressesAligned, Legal;
    LdLegal(g, LoadB(g, t0, nb, at), nb);
  }

  /** An EX of nb tiles from tile t0 on. */
  lemma {:induction false} ExLegal(g: Gemm, s: nat, b: nat, t0: nat, nb: nat)
    requires Fits(g) && nb > 0 && t0 + nb <= g.nt && b + nb * g.K() <= 2 * g.sbank
    ensures g.d > 0
    ensures Legal(g, Ex(ABank(g, s), b, CBank(g, s) + t0, g.kt, g.bias.Some?, nb, g.K(), 1, g.nt))
  {
    Sizes(g);
    assert g.kt * g.d == g.K() && ABank(g, s) + g.K() <= 2 * g.sbank;
    assert CBank(g, s) + g.N() <= 2 * g.cbank && g.d * g.nt == g.N();
    hide Gemm.K, Gemm.N, Fits, ABank, CBank;
    Distribute(nb - 1, 1, 1, g.K());
    Distribute(g.d - 1, 1, 1, g.nt);
  }

  lemma {:induction false} HalvesFit(g: Gemm)
    requires Fits(g)
    ensures g.IsSplit() ==> g.Nt0() > 0 && g.Nt1() > 0 && g.Nt0() * g.K() <= g.sbank && g.Nt1() * g.K() <= g.sbank
    ensures g.Nt0() + g.Nt1() == g.nt
  {
    MulUp(g.Nt1(), g.Nt0(), g.K());
  }

  lemma {:induction false} HeadLegal(g: Gemm, x: Cmd)
    requires Fits(g) && AddressesAligned(g) && x in Head(g)
    ensures g.d > 0 && Legal(g, x)
  {
    Sizes(g);
    HalvesFit(g);
    if x in LoadStrip(g, 0) {
      StripLegal(g, 0, x);
    } else if g.IsSplit() {
      BLegal(g, 0, g.Nt0(), 0);
      BLegal(g, g.Nt0(), g.Nt1(), g.sbank);
      hide Legal, LoadStrip, Gemm.IsSplit, Fits;
    } else {
      BLegal(g, 0, g.nt, 0);
      hide Legal, LoadStrip, Gemm.IsSplit, Fits;
    }
  }

  lemma {:induction false} TurnLegal(g: Gemm, s: nat, x: Cmd)
    requires Fits(g) && AddressesAligned(g) && x in StripList(g, s)
    ensures g.d > 0 && Legal(g, x)
  {
    Sizes(g);
    HalvesFit(g);
    if x in LoadStrip(g, s) {
      StripLegal(g, s, x);
    } else if x in LoadStrip(g, s + 1) {
      StripLegal(g, s + 1, x);
    } else {
      StoreLegal(g, s);
      if g.IsSplit() {
        ExLegal(g, s, 0, 0, g.Nt0());
        ExLegal(g, s, g.sbank, g.Nt0(), g.Nt1());
      } else {
        ExLegal(g, s, 0, 0, g.nt);
      }
      hide Legal, LoadStrip, Store, Gemm.IsSplit, Fits, ABank, CBank;
    }
  }

  /** No command of the list is refused. */
  lemma {:induction false} EveryCommandLegal(g: Gemm, n: nat, x: Cmd)
    requires Fits(g) && AddressesAligned(g) && x in Head(g) + Strips(g, n)
    ensures g.d > 0 && Legal(g, x)
  {
    hide Head, StripList, Legal, Fits, AddressesAligned;
    if x in Head(g) {
      HeadLegal(g, x);
    } else if n > 0 {
      if x in StripList(g, n - 1) { TurnLegal(g, n - 1, x); } else { EveryCommandLegal(g, n - 1, x); }
    }
  }

  lemma {:induction false} ListIsLegal(g: Gemm, x: Cmd)
    requires Fits(g) && AddressesAligned(g) && x in ListOf(g)
    ensures g.d > 0 && Legal(g, x)
  {
    hide Head, Strips, Legal, Fits, AddressesAligned;
    EveryCommandLegal(g, g.mt, x);
  }

  // ---------------------------------------------------------------- the firmware

  datatype Where = SpadA | SpadB | Acc

  /** The engines' command port: commands take what they do not carry from sticky registers. */
  class Port {
    var loadRows: nat, loadBytes: nat, loadPitch: nat, loadInterleaved: bool
    var execRepeat: nat, execBstep: nat, execCstep: nat, execCrow: nat
    var storeRows: nat, storeBytes: nat, storePitch: nat
    var issued: seq<Cmd>

    method CfgLoad(rows: nat, bytes: nat, pitch: nat, interleaved: bool)
      modifies this`loadRows, this`loadBytes, this`loadPitch, this`loadInterleaved
      ensures loadRows == rows && loadBytes == bytes && loadPitch == pitch && loadInterleaved == interleaved
    {
      loadRows, loadBytes, loadPitch, loadInterleaved := rows, bytes, pitch, interleaved;
    }

    method CfgExec(repeat: nat, bstep: nat, cstep: nat, crow: nat)
      modifies this`execRepeat, this`execBstep, this`execCstep, this`execCrow
      ensures execRepeat == repeat && execBstep == bstep && execCstep == cstep && execCrow == crow
    {
      execRepeat, execBstep, execCstep, execCrow := repeat, bstep, cstep, crow;
    }

    method CfgStore(rows: nat, bytes: nat, pitch: nat)
      modifies this`storeRows, this`storeBytes, this`storePitch
      ensures storeRows == rows && storeBytes == bytes && storePitch == pitch
    {
      storeRows, storeBytes, storePitch := rows, bytes, pitch;
    }

    /** Interleaved loads go to a SPAD, linear ones to ACC. */
    method Load(ddr: nat, to: Where, word: nat)
      requires loadInterleaved <==> !to.Acc?
      modifies this`issued
      ensures issued == old(issued) + [match to
                                       case SpadA => LdA(ddr, word, loadRows, loadBytes, loadPitch)
                                       case SpadB => LdB(ddr, word, loadRows, loadBytes, loadPitch)
                                       case Acc => LdAcc(ddr, word, loadRows, loadBytes, loadPitch)]
    {
      match to
      case SpadA => issued := issued + [LdA(ddr, word, loadRows, loadBytes, loadPitch)];
      case SpadB => issued := issued + [LdB(ddr, word, loadRows, loadBytes, loadPitch)];
      case Acc => issued := issued + [LdAcc(ddr, word, loadRows, loadBytes, loadPitch)];
    }

    method Exec(a: nat, b: nat, c: nat, kt: nat, adds: bool)
      modifies this`issued
      ensures issued == old(issued) + [Ex(a, b, c, kt, adds, execRepeat, execBstep, execCstep, execCrow)]
    {
      issued := issued + [Ex(a, b, c, kt, adds, execRepeat, execBstep, execCstep, execCrow)];
    }

    method StoreRows(ddr: nat, word: nat)
      modifies this`issued
      ensures issued == old(issued) + [St(ddr, word, storeRows, storeBytes, storePitch)]
    {
      issued := issued + [St(ddr, word, storeRows, storeBytes, storePitch)];
    }

    /** load_strip. */
    method LoadStripRows(g: Gemm, s: nat)
      modifies this`loadRows, this`loadBytes, this`loadPitch, this`loadInterleaved, this`issued
      ensures issued == old(issued) + LoadStrip(g, s)
    {
      CfgLoad(g.d, g.K(), g.K(), true);
      Load(g.a + s * g.d * g.K(), SpadA, ABank(g, s));
      if g.bias.Some? {
        CfgLoad(g.d, 4 * g.N(), 4 * g.N(), false);
        Load(g.bias.value + s * g.d * (4 * g.N()), Acc, CBank(g, s));
      }
    }

    /** Resident B, then the first strip (B split: half 0, the strip, half 1). */
    method LoadHead(g: Gemm)
      modifies this`loadRows, this`loadBytes, this`loadPitch, this`loadInterleaved, this`issued
      ensures issued == old(issued) + Head(g)
    {
      if g.IsSplit() {
        CfgLoad(g.K(), g.Nt0() * g.d, g.N(), true);
        Load(g.b, SpadB, 0);
      } else {
        CfgLoad(g.K(), g.N(), g.N(), true);
        Load(g.b, SpadB, 0);
      }
      LoadStripRows(g, 0);
      if g.IsSplit() {
        CfgLoad(g.K(), g.Nt1() * g.d, g.N(), true);
        Load(g.b + g.Nt0() * g.d, SpadB, g.sbank);
      }
    }

    /** What the registers hold between strips: the exec shape is set once unless B is split. */
    ghost predicate Configured(g: Gemm)
      reads this
    {
      && (g.IsSplit() || (execRepeat == g.nt && execBstep == g.K() && execCstep == 1 && execCrow == g.nt))
      && storeRows == g.d && storeBytes == 4 * g.N() && storePitch == 4 * g.N()
    }

    method Products(g: Gemm, s: nat)
      requires Configured(g)
      modifies this`execRepeat, this`execBstep, this`execCstep, this`execCrow, this`issued
      ensures Configured(g) && issued == old(issued) + Compute(g, s)
    {
      var ab, cb := ABank(g, s), CBank(g, s);
      if g.IsSplit() {
        CfgExec(g.Nt0(), g.K(), 1, g.nt);
        Exec(ab, 0, cb, g.kt, g.bias.Some?);
        CfgExec(g.Nt1(), g.K(), 1, g.nt);
        Exec(ab, g.sbank, cb + g.Nt0(), g.kt, g.bias.Some?);
      } else {
        Exec(ab, 0, cb, g.kt, g.bias.Some?);
      }
    }

    method Turn(g: Gemm, s: nat)
      requires Configured(g)
      modifies this
      ensures Configured(g) && issued == old(issued) + StripList(g, s)
    {
      hide LoadStrip, Compute;
      if s != 0 && !g.prefetch { LoadStripRows(g, s); }
      Products(g, s);
      if g.prefetch && s + 1 < g.mt { LoadStripRows(g, s + 1); }
      StoreRows(g.c + s * g.d * (4 * g.N()), CBank(g, s));
    }

    /** main, int32 output: the commands issued are those of the list, whatever the registers hold at
        the start. */
    method GemmMain(g: Gemm)
      modifies this
      ensures issued == old(issued) + ListOf(g)
    {
      hide Head, StripList;
      LoadHead(g);
      if !g.IsSplit() { CfgExec(g.nt, g.K(), 1, g.nt); }
      CfgStore(g.d, 4 * g.N(), 4 * g.N());
      for s := 0 to g.mt
        invariant Configured(g) && issued == old(issued) + (Head(g) + Strips(g, s))
      {
        Turn(g, s);
      }
    }
  }

  /** The firmware's flags as the list's choice of the B split. */
  function SplitOf(noSplit: bool, force: bool): Split {
    if noSplit then Off else if force then On else Auto
  }

  /** The firmware's own test gives the split of the list. */
  lemma {:induction false} FlagsAgree(g: Gemm, noSplit: bool, force: bool)
    requires g.bsplit == SplitOf(noSplit, force)
    ensures g.IsSplit() <==> !noSplit && g.Nt1() != 0 && g.Nt0() * g.K() <= g.sbank && (g.K() * g.N() >= 16384 || force)
  {
  }
}
