/** Why Settled is needed: "A; barrier; B; C" where only C reads what A stores. The barrier's
flag is spent on B, which needs no FENCE, and the conflict test is skipped for C
(compiler/runtime/sa/sa_context.c:397-423). */
module BatchUnsettled {
  import opened Ranges
  import opened BatchList
  import opened BatchFences
  import opened BatchRegs
  import opened BatchOrder
  import opened BatchMeaning
  import opened Machine

  function Plain(body: int, loads: seq<Range>, stores: seq<Range>): Dispatch {
    Dispatch(0, 0, body, 0, [], false, loads, stores, [])
  }

  function A(): Cmd { Cmd(ST, {}, {Ddr(0)}, (m: Mem, l: Loc) => 1) }

  function C(): Cmd { Cmd(LD, {Ddr(0)}, {Local(Acc, 0)}, (m: Mem, l: Loc) => if Ddr(0) in m then m[Ddr(0)] else 0) }

  function Stale(): Batch {
    [Recorded(Plain(1, [], [Range(0, 1)]), false), Recorded(Plain(2, [], []), true),
      Recorded(Plain(3, [Range(0, 1)], []), false)]
  }

  /** Template 1 stores to byte 0, template 3 loads it. */
  function StaleCode(phys: int, r: Regs): Outcome {
    Outcome(if phys == 1 then [Do(A())] else if phys == 3 then [Do(C())] else [], r)
  }

  lemma {:induction false} StaleHosts()
    ensures Hosts(Stale()) == Hosting([-1, -1, -1], [false, false, false])
  {
    var b := Stale();
    assert HostsTo(b, 0) == Hosting([-1, -1, -1], [false, false, false]);
    assert HostsTo(b, 1) == HostsTo(b, 0);
    assert HostsTo(b, 2) == HostsTo(b, 0);
    assert HostsTo(b, 3) == HostsTo(b, 0);
  }

  lemma {:induction false} PlainTurn(b: Batch, h: Hosting, s: Scan, i: nat)
    requires i < |b| == |h.hosted| == |h.host| && !b[i].d.HasPrefix() && !b[i].d.HasHead() && FenceMask(b, s, i) == 0
    ensures ScanStep(b, h, s, i) == Scan(s.items + [Load(i), Piece(Body, i)], s.outL + b[i].d.loads,
            s.outS + b[i].d.stores)
  {
    assert FenceItems(b, h, s, i) == [];
    assert BodyItems(b, h, s, i) == [Load(i), Piece(Body, i)];
    assert s.items + [] == s.items && s.outL + [] == s.outL;
  }

  lemma {:induction false} StaleScan()
    ensures ScanTo(Stale(), 2).outS == [Range(0, 1)]
    ensures Schedule(Stale()) == [Load(0), Piece(Body, 0), Load(1), Piece(Body, 1), Load(2), Piece(Body, 2)]
  {
    var b := Stale();
    StaleHosts();
    var h := Hosts(b);
    hide HostsTo;
    var s0 := Scan([], [], []);
    assert ScanTo(b, 0) == s0;
    PlainTurn(b, h, s0, 0);
    var s1 := Scan([Load(0), Piece(Body, 0)], [], [Range(0, 1)]);
    assert ScanTo(b, 1) == s1;
    assert FenceMask(b, s1, 1) == 0;
    PlainTurn(b, h, s1, 1);
    var s2 := Scan(s1.items + [Load(1), Piece(Body, 1)], [], [Range(0, 1)]);
    assert ScanTo(b, 2) == s2;
    PlainTurn(b, h, s2, 2);
    assert ScanTo(b, 3).items == s2.items + [Load(2), Piece(Body, 2)];
  }

  lemma {:induction false} StaleIsUnsettled()
    ensures !Settled(Stale())
  {
    var b := Stale();
    StaleScan();
    hide ScanTo;
    assert Meets(b[2].d.loads[0], ScanTo(b, 2).outS[0]);
    assert Overlap(ScanTo(b, 2).outS, b[2].d.loads);
  }

  lemma {:induction false} StaleRegisters(d: Dispatch)
    requires !d.HasPrefix() && !d.HasHead() && d.regs == []
    ensures OwnRegisters(d, StaleCode) && PrefixRegisters(d, StaleCode)
  {
    var live: set<int> := {};
    assert SetBy(d.regs) == live;
    assert Determines(StaleCode, d.bodyPhys, live, {});
  }

  lemma {:induction false} AtMostOneStep(xs: seq<Step>)
    requires |xs| <= 1
    ensures Ordered(xs)
  {
  }

  lemma {:induction false} StaleDeclared(i: nat)
    requires i < 3
    ensures Declared(Stale()[i].d, StaleCode)
  {
    var d := Stale()[i].d;
    var own := OwnSteps(d, StaleCode);
    assert own == BodySteps(d, StaleCode);
    assert |own| <= 1;
    AtMostOneStep(own);
    hide Ordered, PieceWithin;
    StalePieces(i);
  }

  lemma {:induction false} StalePieces(i: nat)
    requires i < 3
    ensures var d := Stale()[i].d;
            PieceWithin(d, Prefix, StaleCode) && PieceWithin(d, Head, StaleCode) && PieceWithin(d, Body, StaleCode)
  {
    var d := Stale()[i].d;
    assert Covers([Range(0, 1)], 0) by { assert [Range(0, 1)][0].begin <= 0; }
    assert PrefixSteps(d, StaleCode) == [] && HeadOutcome(d, StaleCode).steps == [];
    assert PieceWithin(d, Prefix, StaleCode) && PieceWithin(d, Head, StaleCode);
    assert PieceWithin(d, Body, StaleCode);
  }

  lemma {:induction false} StaleIsWellFormed()
    ensures RegistersKept(Stale(), StaleCode) && AllDeclared(Stale(), StaleCode)
  {
    var b := Stale();
    forall i | 0 <= i < |b| ensures OwnRegisters(b[i].d, StaleCode) && PrefixRegisters(b[i].d, StaleCode) {
      StaleRegisters(b[i].d);
    }
    forall i | 0 <= i < |b| ensures Declared(b[i].d, StaleCode) {
      StaleDeclared(i);
    }
  }

  lemma {:induction false} StaleSteps()
    ensures Flat(Stale(), Schedule(Stale()), StaleCode) == [Do(A()), Do(C())]
  {
    var b, items := Stale(), Schedule(Stale());
    StaleScan();
    hide ScanTo, Schedule;
    var z := [Load(0), Piece(Body, 0), Load(1), Piece(Body, 1), Load(2), Piece(Body, 2)];
    assert z[1..] == [Piece(Body, 0), Load(1), Piece(Body, 1), Load(2), Piece(Body, 2)];
    assert z[2..] == [Load(1), Piece(Body, 1), Load(2), Piece(Body, 2)] == z[1..][1..];
    assert z[3..] == [Piece(Body, 1), Load(2), Piece(Body, 2)] == z[2..][1..];
    assert z[4..] == [Load(2), Piece(Body, 2)] == z[3..][1..];
    assert z[5..] == [Piece(Body, 2)] == z[4..][1..];
    assert z[5..][1..] == [];
    assert Flat(b, z[5..], StaleCode) == [Do(C())];
    assert Flat(b, z[4..], StaleCode) == [Do(C())];
    assert Flat(b, z[3..], StaleCode) == [Do(C())];
    assert Flat(b, z[2..], StaleCode) == [Do(C())];
    assert Flat(b, z[1..], StaleCode) == [Do(A()), Do(C())];
    assert Flat(b, z, StaleCode) == [Do(A()), Do(C())];
  }

  lemma {:induction false} LoadMayOvertake()
    ensures CompletionOrder([Do(A()), Do(C())], [1, 0])
  {
    var steps := [Do(A()), Do(C())];
    forall p | IsCmd(steps, p) ensures p in [1, 0] { assert [1, 0][1 - p] == p; }
    assert !LocalConflict(A(), C());
    assert !Fenced(steps, 0, 1);
  }

  /** Every assumption but Settled holds, and a completion order leaves the stale byte in ACC. */
  lemma {:induction false} UnsettledGoesWrong(r: Regs)
    ensures RegistersKept(Stale(), StaleCode) && AllDeclared(Stale(), StaleCode) && !Settled(Stale())
    ensures var steps := Decode(ListOf(Stale()), r, StaleCode).steps;
            && CompletionOrder(steps, [1, 0])
            && Run(Pick(steps, [1, 0]), map[]) != OneByOne(Stale(), 3, StaleCode, r, map[]).0
  {
    var b, steps := Stale(), [Do(A()), Do(C())];
    StaleIsWellFormed();
    StaleIsUnsettled();
    ListFeedsSchedule(b, StaleCode, r);
    StaleSteps();
    LoadMayOvertake();
    OneByOneIs(b, 3, StaleCode, r, map[]);
    ScheduleMeansOneByOne(b, StaleCode, map[]);
    hide ScanTo, Decode, ListOf, AllDeclared, RegistersKept, Settled, CompletionOrder, OneByOne, RunFirst, Schedule;
    TwoOrders();
  }

  lemma {:induction false} TwoOrders()
    requires AllCmds([Do(A()), Do(C())], [1, 0])
    ensures Run(Pick([Do(A()), Do(C())], [1, 0]), map[]) != Run(Commands([Do(A()), Do(C())]), map[])
  {
    var steps: seq<Step> := [Do(A()), Do(C())];
    var m0: Mem := map[];
    assert Pick(steps, [1, 0]) == [C(), A()];
    assert steps[1..] == [Do(C())] && steps[1..][1..] == [];
    assert Commands(steps) == [A(), C()];
    assert [C(), A()][1..] == [A()] && [A()][1..] == [] && [A(), C()][1..] == [C()] && [C()][1..] == [];
    assert Run([C(), A()], m0) == Apply(A(), Apply(C(), m0));
    assert Run([A(), C()], m0) == Apply(C(), Apply(A(), m0));
    assert Apply(C(), m0)[Local(Acc, 0)] == 0;
    assert Apply(A(), Apply(C(), m0))[Local(Acc, 0)] == 0;
    assert Apply(A(), m0)[Ddr(0)] == 1;
    assert View(Apply(A(), m0), {Ddr(0)})[Ddr(0)] == 1;
    assert Apply(C(), Apply(A(), m0))[Local(Acc, 0)] == 1;
  }
}
