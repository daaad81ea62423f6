/** The merged list means what the recorded dispatches mean one by one: in every order the
machine may complete its commands, memory ends as if each dispatch had run alone and finished
before the next (compiler/runtime/sa/sa_context.c:375-451). */
module BatchMeaning {
  import opened Ranges
  import opened BatchList
  import opened BatchFences
  import opened BatchRegs
  import opened BatchPieces
  import opened BatchOrder
  import opened Machine

  // ---------------------------------------------------------------- pieces of one dispatch

  lemma {:induction false} AcrossWider(x: seq<Step>, mid: seq<Step>, mid': seq<Step>, y: seq<Step>)
    requires Across(x, mid, y)
    requires forall e :: HasFence(mid, 0, |mid|, e) ==> HasFence(mid', 0, |mid'|, e)
    ensures Across(x, mid', y)
  {
  }

  lemma {:induction false} OwnParts(d: Dispatch, code: Code)
    requires Declared(d, code)
    ensures Ordered(PrefixSteps(d, code)) && Ordered(HeadOutcome(d, code).steps) && Ordered(BodySteps(d, code))
    ensures Across(PrefixSteps(d, code), HeadOutcome(d, code).steps, BodySteps(d, code))
    ensures Across(PrefixSteps(d, code), [], HeadOutcome(d, code).steps)
    ensures Across(HeadOutcome(d, code).steps, [], BodySteps(d, code))
  {
    AcrossParts(PrefixSteps(d, code), HeadOutcome(d, code).steps, BodySteps(d, code));
  }

  lemma {:induction false} HeadBetween(items: seq<Item>, s: nat, t: nat, i: nat) returns (u: nat)
    requires OwnOrder(items) && s < t < |items| && items[s] == Piece(Prefix, i) && items[t] == Piece(Body, i)
    requires Piece(Head, i) in items
    ensures s < u < t && items[u] == Piece(Head, i)
  {
    u :| 0 <= u < |items| && items[u] == Piece(Head, i);
    assert SamePiece(items[s], items[u]) && SamePiece(items[u], items[t]);
  }

  /** The head's FENCEs lie between a dispatch's prefix and its body. */
  lemma {:induction false} HeadFencesBetween(b: Batch, items: seq<Item>, s: nat, t: nat, i: nat, code: Code, e: Engine)
    requires i < |b| && OwnOrder(items)
    requires s < t < |items| && items[s] == Piece(Prefix, i) && items[t] == Piece(Body, i)
    requires Piece(Head, i) in items <==> b[i].d.HasHead()
    requires HasFence(HeadOutcome(b[i].d, code).steps, 0, |HeadOutcome(b[i].d, code).steps|, e)
    ensures HasFence(Flat(b, items[s+1..t], code), 0, |Flat(b, items[s+1..t], code)|, e)
  {
    var x := HeadOutcome(b[i].d, code).steps;
    assert b[i].d.HasHead();
    var u := HeadBetween(items, s, t, i);
    var f :| 0 <= f < |x| && x[f].Sync? && Waits(x[f].mask, e);
    assert items[s+1..t][u-s-1] == Piece(Head, i);
    FenceInFlat(b, items[s+1..t], u - s - 1, f, e, code);
  }

  lemma {:induction false} SameOwner(b: Batch, items: seq<Item>, s: nat, t: nat, i: nat, code: Code)
    requires i < |b| && Declared(b[i].d, code) && OwnOrder(items)
    requires Piece(Head, i) in items <==> b[i].d.HasHead()
    requires s < t < |items| && items[s].Piece? && items[t].Piece? && items[s].owner == items[t].owner == i
    ensures AcrossPair(b, items, s, t, code)
  {
    OwnParts(b[i].d, code);
    var d, mid := b[i].d, Flat(b, items[s+1..t], code);
    assert SamePiece(items[s], items[t]);
    assert Rank(items[s].kind) < Rank(items[t].kind);
    hide Declared, OwnOrder, Flat, Across, PrefixSteps, BodySteps, HeadOutcome;
    if items[s].kind == Prefix && items[t].kind == Body {
      forall e | HasFence(HeadOutcome(d, code).steps, 0, |HeadOutcome(d, code).steps|, e)
        ensures HasFence(mid, 0, |mid|, e)
      {
        HeadFencesBetween(b, items, s, t, i, code, e);
      }
      AcrossWider(PrefixSteps(d, code), HeadOutcome(d, code).steps, mid, BodySteps(d, code));
    } else if items[s].kind == Prefix {
      AcrossWider(PrefixSteps(d, code), [], mid, HeadOutcome(d, code).steps);
    } else {
      AcrossWider(HeadOutcome(d, code).steps, [], mid, BodySteps(d, code));
    }
  }

  lemma {:induction false} PairInOrder(b: Batch, items: seq<Item>, s: nat, t: nat, code: Code)
    requires AllDeclared(b, code) && Separated(b, items) && OwnOrder(items) && s < t < |items|
    requires forall i :: 0 <= i < |b| ==> (Piece(Head, i) in items <==> b[i].d.HasHead())
    ensures AcrossPair(b, items, s, t, code)
  {
    hide Separated, OwnOrder, Declared;
    if !items[s].Piece? || !items[t].Piece? || items[s].owner >= |b| {
      NoCommands(ItemSteps(b, items[s], code), Flat(b, items[s+1..t], code), ItemSteps(b, items[t], code));
    } else if items[s].owner != items[t].owner {
      DifferentOwners(b, items, s, t, code);
    } else {
      SameOwner(b, items, s, t, items[s].owner, code);
    }
  }

  /** Every two conflicting commands of the merged list keep their order. */
  lemma {:induction false} ScheduleIsOrdered(b: Batch, code: Code)
    requires AllDeclared(b, code) && Settled(b)
    ensures Ordered(Flat(b, Schedule(b), code))
  {
    hide ScanTo, Separated, OwnOrder, Ordered, Across, Declared, Settled;
    FencesAreEnough(b);
    EveryPieceOnce(b);
    var items := Schedule(b);
    forall s, t | 0 <= s < t < |items| ensures AcrossPair(b, items, s, t, code) {
      PairInOrder(b, items, s, t, code);
    }
    forall t | 0 <= t < |items| ensures Ordered(ItemSteps(b, items[t], code)) {
      if items[t].Piece? && items[t].owner < |b| {
        OwnParts(b[items[t].owner].d, code);
      } else {
        NoConflict(ItemSteps(b, items[t], code));
      }
    }
    FlatOrdered(b, items, |items|, code);
    assert items[..|items|] == items;
  }

  lemma {:induction false} NoConflict(x: seq<Step>)
    requires forall p :: 0 <= p < |x| ==> x[p].Sync?
    ensures Ordered(x)
  {
  }

  // ---------------------------------------------------------------- hosted prefixes in flight

  /** Dispatch k's prefix has run although its turn has not come. */
  ghost predicate InFlight(b: Batch, i: nat, k: int) {
    i <= k < |b| && exists j :: 0 <= j < i && j < |b| && Hosts(b).host[j] == k
  }

  /** At most one prefix is in flight: its window holds no dispatch that touches SPAD_B. */
  lemma {:induction false} OneInFlight(b: Batch, code: Code, i: nat, k: int, k': int)
    requires AllDeclared(b, code) && InFlight(b, i, k) && InFlight(b, i, k')
    ensures k == k'
  {
    hide HostsTo, Ordered, OwnSteps, PieceWithin;
    HostingIsValid(b, |b|);
    var j :| 0 <= j < i && j < |b| && Hosts(b).host[j] == k;
    var j' :| 0 <= j' < i && j' < |b| && Hosts(b).host[j'] == k';
    assert GoodHost(b, j, k) && GoodHost(b, j', k');
    assert Declared(b[k].d, code) && Declared(b[k'].d, code);
  }

  lemma {:induction false} HostedInFlight(b: Batch, i: nat)
    requires i < |b|
    ensures Hosts(b).hosted[i] <==> InFlight(b, i, i)
  {
    hide HostsTo;
    HostingIsValid(b, |b|);
    if Hosts(b).hosted[i] {
      var j :| 0 <= j < |b| && Hosts(b).host[j] == i;
      assert GoodHost(b, j, i);
    }
  }

  /** In the window of a prefix in flight nothing touches SPAD_B, so nothing else can host. */
  lemma {:induction false} WindowIsQuiet(b: Batch, code: Code, i: nat, k: int)
    requires i < |b| && AllDeclared(b, code) && InFlight(b, i, k)
    ensures !IsHost(b, Hosts(b), i)
    ensures i < k ==> !b[i].d.spadB && !b[i].d.HasPrefix()
    ensures exists j :: GoodHost(b, j, k) && j < i
  {
    hide HostsTo, Ordered, OwnSteps, PieceWithin;
    HostingIsValid(b, |b|);
    var j :| 0 <= j < i && j < |b| && Hosts(b).host[j] == k;
    assert GoodHost(b, j, k);
    assert Declared(b[k].d, code) && Declared(b[i].d, code);
    assert forall t :: 0 <= t < |b| && b[t].d.HasPrefix() ==> b[t].d.spadB by {
      forall t | 0 <= t < |b| && b[t].d.HasPrefix() ensures b[t].d.spadB { assert Declared(b[t].d, code); }
    }
  }

  lemma {:induction false} HostIsQuiet(b: Batch, code: Code, i: nat)
    requires i < |b| && AllDeclared(b, code) && IsHost(b, Hosts(b), i)
    ensures GoodHost(b, i, Hosts(b).host[i]) && !b[i].d.spadB && !b[i].d.HasPrefix()
  {
    hide HostsTo, Ordered, OwnSteps, PieceWithin;
    HostingIsValid(b, |b|);
    assert Declared(b[i].d, code);
  }

  lemma {:induction false} NextInFlight(b: Batch, i: nat, k: int)
    requires i < |b|
    ensures InFlight(b, i + 1, k) <==> (i < k && InFlight(b, i, k)) || (IsHost(b, Hosts(b), i) && Hosts(b).host[i] == k)
  {
    hide HostsTo;
    HostingIsValid(b, |b|);
    if IsHost(b, Hosts(b), i) { assert GoodHost(b, i, Hosts(b).host[i]); }
    if InFlight(b, i + 1, k) {
      var j :| 0 <= j < i + 1 && j < |b| && Hosts(b).host[j] == k;
      if j == i { assert GoodHost(b, i, k); }
    }
  }

  // ---------------------------------------------------------------- one by one

  /** The commands of one piece of dispatch i. */
  function Cmds(b: Batch, i: nat, kind: Kind, code: Code): seq<Cmd> {
    if i < |b| then Commands(PieceSteps(b[i].d, kind, code)) else []
  }

  /** Memory after the first n dispatches, each run alone and finished before the next. */
  function RunFirst(b: Batch, n: nat, code: Code, m: Mem): Mem
    requires n <= |b|
  {
    if n == 0 then m else Run(Commands(OwnSteps(b[n-1].d, code)), RunFirst(b, n - 1, code, m))
  }

  /** The recorded dispatches submitted one list at a time, whatever the registers hold. */
  function OneByOne(b: Batch, n: nat, code: Code, r: Regs, m: Mem): (Mem, Regs)
    requires n <= |b|
  {
    if n == 0 then (m, r)
    else
      var (m', r') := OneByOne(b, n - 1, code, r, m);
      var o := Decode(DispatchList(b[n-1].d), r', code);
      (Run(Commands(o.steps), m'), o.regs)
  }

  lemma {:induction false} OneByOneIs(b: Batch, n: nat, code: Code, r: Regs, m: Mem)
    requires n <= |b| && RegistersKept(b, code)
    ensures OneByOne(b, n, code, r, m).0 == RunFirst(b, n, code, m)
  {
    hide Decode, DispatchList, OwnSteps;
    if n > 0 {
      OneByOneIs(b, n - 1, code, r, m);
      DispatchFeeds(b[n-1].d, code, OneByOne(b, n - 1, code, r, m).1);
    }
  }

  lemma {:induction false} OwnCommands(b: Batch, i: nat, code: Code)
    requires i < |b|
    ensures Commands(OwnSteps(b[i].d, code))
            == Cmds(b, i, Prefix, code) + Cmds(b, i, Head, code) + Cmds(b, i, Body, code)
  {
    var d := b[i].d;
    CommandsConcat(PrefixSteps(d, code) + HeadOutcome(d, code).steps, BodySteps(d, code));
    CommandsConcat(PrefixSteps(d, code), HeadOutcome(d, code).steps);
  }

  lemma {:induction false} RunThree(x: seq<Cmd>, y: seq<Cmd>, z: seq<Cmd>, m: Mem)
    ensures Run(x + y + z, m) == Run(z, Run(y, Run(x, m)))
  {
    RunConcat(x + y, z, m);
    RunConcat(x, y, m);
  }

  lemma {:induction false} RunFirstNext(b: Batch, i: nat, code: Code, m: Mem)
    requires i < |b|
    ensures RunFirst(b, i + 1, code, m)
            == Run(Cmds(b, i, Body, code),
              Run(Cmds(b, i, Head, code), Run(Cmds(b, i, Prefix, code), RunFirst(b, i, code, m))))
  {
    hide OwnSteps, Cmds;
    OwnCommands(b, i, code);
    RunThree(Cmds(b, i, Prefix, code), Cmds(b, i, Head, code), Cmds(b, i, Body, code), RunFirst(b, i, code, m));
  }

  // ---------------------------------------------------------------- the merged order

  function ItemCmds(b: Batch, it: Item, code: Code): seq<Cmd> {
    Commands(ItemSteps(b, it, code))
  }

  /** Memory after the items' commands, in schedule order. */
  function RunItems(b: Batch, items: seq<Item>, code: Code, m: Mem): Mem {
    Run(Commands(Flat(b, items, code)), m)
  }

  lemma {:induction false} RunItemsConcat(b: Batch, xs: seq<Item>, ys: seq<Item>, code: Code, m: Mem)
    ensures RunItems(b, xs + ys, code, m) == RunItems(b, ys, code, RunItems(b, xs, code, m))
  {
    FlatConcat(b, xs, ys, code);
    CommandsConcat(Flat(b, xs, code), Flat(b, ys, code));
    RunConcat(Commands(Flat(b, xs, code)), Commands(Flat(b, ys, code)), m);
  }

  lemma {:induction false} RunOptional(b: Batch, c: bool, it: Item, code: Code, m: Mem)
    ensures RunItems(b, if c then [it] else [], code, m) == if c then Run(ItemCmds(b, it, code), m) else m
  {
    OneItem(b, it, code);
  }

  lemma {:induction false} NoCmds(b: Batch, it: Item, code: Code)
    requires !it.Piece?
    ensures ItemCmds(b, it, code) == []
  {
    if it.Sync? {
      var xs := [Machine.Sync(it.mask)];
      assert xs[1..] == [] && !xs[0].Do?;
      assert Commands(xs) == [] + Commands(xs[1..]);
    }
  }

  lemma {:induction false} RunFenceItems(b: Batch, h: Hosting, s: Scan, i: nat, code: Code, m: Mem)
    requires i < |b| == |h.hosted|
    ensures RunItems(b, FenceItems(b, h, s, i), code, m) == if Early(b, h, s, i) then Run(Cmds(b, i, Prefix, code), m)
            else m
  {
    hide Early, FenceMask, RunItems;
    var early, mask := Early(b, h, s, i), FenceMask(b, s, i);
    var m1 := if early then Run(Cmds(b, i, Prefix, code), m) else m;
    RunItemsConcat(b, if early then [Piece(Prefix, i)] else [], if mask != 0 then [Item.Sync(mask)] else [], code, m);
    RunOptional(b, early, Piece(Prefix, i), code, m);
    RunOptional(b, mask != 0, Item.Sync(mask), code, m1);
    NoCmds(b, Item.Sync(mask), code);
  }

  /** Dispatch i's SETREGs, its own prefix (own) and its head. */
  function FrontItems(b: Batch, i: nat, own: bool): seq<Item>
    requires i < |b|
  {
    [Load(i)] + (if own then [Piece(Prefix, i)] else []) + (if b[i].d.HasHead() then [Piece(Head, i)] else [])
  }

  lemma {:induction false} RunFront(b: Batch, i: nat, own: bool, code: Code, m: Mem)
    requires i < |b|
    ensures RunItems(b, FrontItems(b, i, own), code, m)
            == Run(Cmds(b, i, Head, code), if own then Run(Cmds(b, i, Prefix, code), m) else m)
  {
    var x4 := if own then [Piece(Prefix, i)] else [];
    var x5 := if b[i].d.HasHead() then [Piece(Head, i)] else [];
    var m1 := if own then Run(Cmds(b, i, Prefix, code), m) else m;
    assert !b[i].d.HasHead() ==> Run(Cmds(b, i, Head, code), m1) == m1;
    hide RunItems;
    RunItemsConcat(b, [Load(i)] + x4, x5, code, m);
    RunItemsConcat(b, [Load(i)], x4, code, m);
    RunOptional(b, true, Load(i), code, m);
    NoCmds(b, Load(i), code);
    RunOptional(b, own, Piece(Prefix, i), code, m);
    RunOptional(b, b[i].d.HasHead(), Piece(Head, i), code, m1);
  }

  lemma {:induction false} RunBodyItems(b: Batch, h: Hosting, s: Scan, i: nat, code: Code, m: Mem)
    requires i < |b| == |h.hosted| == |h.host|
    ensures var own := b[i].d.HasPrefix() && !h.hosted[i] && !Early(b, h, s, i);
            var m1 := if own then Run(Cmds(b, i, Prefix, code), m) else m;
            var m2 := Run(Cmds(b, i, Head, code), m1);
            var m3 := if IsHost(b, h, i) then Run(Cmds(b, h.host[i], Prefix, code), m2) else m2;
            RunItems(b, BodyItems(b, h, s, i), code, m) == Run(Cmds(b, i, Body, code), m3)
  {
    var own := b[i].d.HasPrefix() && !h.hosted[i] && !Early(b, h, s, i);
    var x6 := if IsHost(b, h, i) then [Piece(Prefix, h.host[i])] else [];
    assert BodyItems(b, h, s, i) == FrontItems(b, i, own) + x6 + [Piece(Body, i)];
    hide Early, BodyItems, FrontItems, RunItems;
    var m2 := RunItems(b, FrontItems(b, i, own), code, m);
    var m3 := if IsHost(b, h, i) then Run(Cmds(b, h.host[i], Prefix, code), m2) else m2;
    RunItemsConcat(b, FrontItems(b, i, own) + x6, [Piece(Body, i)], code, m);
    RunItemsConcat(b, FrontItems(b, i, own), x6, code, m);
    RunFront(b, i, own, code, m);
    RunOptional(b, IsHost(b, h, i), Piece(Prefix, if h.host[i] >= 0 then h.host[i] else 0), code, m2);
    RunOptional(b, true, Piece(Body, i), code, m3);
  }

  // ---------------------------------------------------------------- hosted prefixes commute

  lemma {:induction false} CommandsMembers(steps: seq<Step>, q: nat)
    requires q < |Commands(steps)|
    ensures exists p :: IsCmd(steps, p) && steps[p].cmd == Commands(steps)[q]
  {
    var first := if steps[0].Do? then [steps[0].cmd] else [];
    if q < |first| {
      assert IsCmd(steps, 0);
    } else {
      CommandsMembers(steps[1..], q - |first|);
      var p :| IsCmd(steps[1..], p) && steps[1..][p].cmd == Commands(steps[1..])[q - |first|];
      assert IsCmd(steps, p + 1) && steps[p + 1] == steps[1..][p];
    }
  }

  lemma {:induction false} SharedByte2(ss: seq<Range>, rs: seq<Range>, a: int)
    ensures Covers(ss, a) && Covers(rs, a) ==> Overlap(ss, rs)
  {
    if Covers(ss, a) && Covers(rs, a) { SharedByteHits(ss, rs, a); }
  }

  /** A prefix and a command of a dispatch that leaves SPAD_B alone and does not store to what the
      prefix loads do not touch each other's data. */
  lemma {:induction false} QuietIsIndependent(b: Batch, x: Cmd, c: Cmd, prefixLoads: seq<Range>, stores: seq<Range>,
                                              loads: seq<Range>)
    requires LoadsWithin(x, prefixLoads) && StoresWithin(x, []) && OnlySpadB(x)
    requires LoadsWithin(c, loads) && StoresWithin(c, stores) && !TouchesSpadB(c)
    requires !Overlap(stores, prefixLoads)
    ensures Independent(x, c)
  {
    assert forall a :: !Covers([], a);
    assert forall a :: Ddr(a) !in x.outs;
    forall l | l in x.outs ensures l !in c.outs && l !in c.ins {
      if l.Local? { assert l == Local(SpadB, l.word); }
    }
    forall l | l in x.ins ensures l !in c.outs {
      if l.Local? {
        assert l == Local(SpadB, l.word);
      } else {
        assert Covers(prefixLoads, l.addr);
        assert Ddr(l.addr) in c.outs ==> Covers(stores, l.addr);
        SharedByte2(stores, prefixLoads, l.addr);
      }
    }
  }

  lemma {:induction false} WindowCommutes(b: Batch, code: Code, j: int, k: nat, i: nat, kind: Kind)
    requires AllDeclared(b, code) && GoodHost(b, j, k) && j <= i < k && kind != Prefix
    ensures AllIndependent(Cmds(b, k, Prefix, code), Cmds(b, i, kind, code))
  {
    var xs, cs := Cmds(b, k, Prefix, code), Cmds(b, i, kind, code);
    assert Declared(b[k].d, code) && Declared(b[i].d, code) && !b[i].d.spadB;
    assert PieceWithin(b[k].d, Prefix, code) && PieceWithin(b[i].d, kind, code);
    HostedIsClear(b, j, k, Piece(Body, i));
    hide GoodHost, Declared, Ordered, AllDeclared;
    forall p, q | 0 <= p < |xs| && 0 <= q < |cs| ensures Independent(xs[p], cs[q]) {
      CommandsMembers(PieceSteps(b[k].d, Prefix, code), p);
      CommandsMembers(PieceSteps(b[i].d, kind, code), q);
      QuietIsIndependent(b, xs[p], cs[q], b[k].d.prefixLoads, b[i].d.stores, b[i].d.loads);
    }
  }

  // ---------------------------------------------------------------- one turn

  /** Memory after the first i turns of the schedule. */
  function RunTurns(b: Batch, i: nat, code: Code, m: Mem): Mem
    requires i <= |b|
  {
    RunItems(b, ScanTo(b, i).items, code, m)
  }

  lemma {:induction false} RunTurn(b: Batch, i: nat, code: Code, m: Mem)
    requires i < |b|
    ensures var h := Hosts(b);
            var m1 := if b[i].d.HasPrefix() && !h.hosted[i] then Run(Cmds(b, i, Prefix, code), RunTurns(b, i, code, m))
                      else RunTurns(b, i, code, m);
            var m2 := Run(Cmds(b, i, Head, code), m1);
            var m3 := if IsHost(b, h, i) then Run(Cmds(b, h.host[i], Prefix, code), m2) else m2;
            RunTurns(b, i + 1, code, m) == Run(Cmds(b, i, Body, code), m3)
  {
    hide HostsTo, ScanStep, Cmds, IsHost, RunItems, FenceItems, BodyItems;
    var h, s := Hosts(b), ScanTo(b, i);
    EarlyHasPrefix(b, h, s, i);
    hide Early;
    ScanNext(b, i);
    RunItemsConcat(b, s.items, NextItems(b, i), code, m);
    var m0 := RunTurns(b, i, code, m);
    RunItemsConcat(b, FenceItems(b, h, s, i), BodyItems(b, h, s, i), code, m0);
    RunFenceItems(b, h, s, i, code, m0);
    RunBodyItems(b, h, s, i, code, RunItems(b, FenceItems(b, h, s, i), code, m0));
  }

  lemma {:induction false} NoPrefix(b: Batch, i: nat, code: Code, m: Mem)
    requires i < |b| && !b[i].d.HasPrefix()
    ensures Cmds(b, i, Prefix, code) == [] && Run([], m) == m
  {
  }

  /** A prefix in flight passes dispatch i's head and body. */
  lemma {:induction false} PassTurn(b: Batch, i: nat, k: nat, j: int, code: Code, m: Mem)
    requires AllDeclared(b, code) && GoodHost(b, j, k) && j <= i < k
    ensures var p, x, z := Cmds(b, k, Prefix, code), Cmds(b, i, Head, code), Cmds(b, i, Body, code);
            && Run(z, Run(x, Run(p, m))) == Run(p, Run(z, Run(x, m)))
            && Run(z, Run(p, Run(x, m))) == Run(p, Run(z, Run(x, m)))
  {
    var p, x, z := Cmds(b, k, Prefix, code), Cmds(b, i, Head, code), Cmds(b, i, Body, code);
    WindowCommutes(b, code, j, k, i, Head);
    WindowCommutes(b, code, j, k, i, Body);
    BlocksCommute(p, x, m);
    BlocksCommute(p, z, Run(x, m));
  }

  /** After i turns memory is what the first i dispatches alone leave, plus the prefix in flight. */
  ghost predicate InStep(b: Batch, i: nat, code: Code, m: Mem)
    requires i <= |b|
  {
    && ((forall k :: !InFlight(b, i, k)) ==> RunTurns(b, i, code, m) == RunFirst(b, i, code, m))
    && (forall k :: InFlight(b, i, k) ==>
          RunTurns(b, i, code, m) == Run(Cmds(b, k, Prefix, code), RunFirst(b, i, code, m)))
  }

  lemma {:induction false} StepInFlight(b: Batch, i: nat, k: nat, code: Code, m: Mem)
    requires i < |b| && AllDeclared(b, code) && InFlight(b, i, k) && InStep(b, i, code, m)
    ensures InStep(b, i + 1, code, m)
  {
    hide GoodHost, IsHost, Cmds, HostsTo, RunTurns, RunFirst, AllDeclared;
    WindowIsQuiet(b, code, i, k);
    HostedInFlight(b, i);
    RunTurn(b, i, code, m);
    RunFirstNext(b, i, code, m);
    if i < k {
      NoPrefix(b, i, code, RunFirst(b, i, code, m));
      var j :| GoodHost(b, j, k) && j < i;
      PassTurn(b, i, k, j, code, RunFirst(b, i, code, m));
    }
    var n := i + 1;
    forall k' | InFlight(b, n, k')
      ensures k' == k && i < k
    {
      NextInFlight(b, i, k');
      OneInFlight(b, code, i, k, k');
    }
    NextInFlight(b, i, k);
  }

  lemma {:induction false} StepQuiet(b: Batch, i: nat, code: Code, m: Mem)
    requires i < |b| && AllDeclared(b, code) && (forall k :: !InFlight(b, i, k)) && InStep(b, i, code, m)
    ensures InStep(b, i + 1, code, m)
  {
    hide GoodHost, Cmds, HostsTo, RunTurns, RunFirst, AllDeclared;
    HostedInFlight(b, i);
    RunTurn(b, i, code, m);
    RunFirstNext(b, i, code, m);
    if !b[i].d.HasPrefix() { NoPrefix(b, i, code, RunFirst(b, i, code, m)); }
    if IsHost(b, Hosts(b), i) {
      HostIsQuiet(b, code, i);
      NoPrefix(b, i, code, RunFirst(b, i, code, m));
      HostPasses(b, i, Hosts(b).host[i], code, RunFirst(b, i, code, m));
    }
    var n := i + 1;
    forall k | InFlight(b, n, k)
      ensures IsHost(b, Hosts(b), i) && k == Hosts(b).host[i]
    {
      NextInFlight(b, i, k);
    }
    if IsHost(b, Hosts(b), i) { NextInFlight(b, i, Hosts(b).host[i]); }
  }

  lemma {:induction false} HostPasses(b: Batch, i: nat, k: nat, code: Code, m: Mem)
    requires AllDeclared(b, code) && GoodHost(b, i, k)
    ensures var p, x, z := Cmds(b, k, Prefix, code), Cmds(b, i, Head, code), Cmds(b, i, Body, code);
            Run(z, Run(p, Run(x, m))) == Run(p, Run(z, Run(x, m)))
  {
    PassTurn(b, i, k, i, code, m);
  }

  lemma {:induction false} NoTurns(b: Batch, code: Code, m: Mem)
    ensures InStep(b, 0, code, m)
  {
    assert ScanTo(b, 0).items == [];
    hide ScanTo, HostsTo;
    var n := 0;
    assert forall k :: !InFlight(b, n, k);
  }

  lemma {:induction false} EveryTurnInStep(b: Batch, i: nat, code: Code, m: Mem)
    requires i <= |b| && AllDeclared(b, code)
    ensures InStep(b, i, code, m)
  {
    hide AllDeclared, ScanTo, HostsTo;
    if i == 0 {
      NoTurns(b, code, m);
    } else {
      EveryTurnInStep(b, i - 1, code, m);
      hide InStep;
      var n := i - 1;
      if k :| InFlight(b, n, k) {
        StepInFlight(b, n, k, code, m);
      } else {
        StepQuiet(b, n, code, m);
      }
    }
  }

  /** Moving prefixes into earlier dispatches and before FENCEs changes nothing. */
  lemma {:induction false} ScheduleMeansOneByOne(b: Batch, code: Code, m: Mem)
    requires AllDeclared(b, code)
    ensures Run(Commands(Flat(b, Schedule(b), code)), m) == RunFirst(b, |b|, code, m)
  {
    EveryTurnInStep(b, |b|, code, m);
    hide AllDeclared, ScanTo;
    assert forall k :: !InFlight(b, |b|, k);
  }

  /** The scheduler's contract. For every batch whose dispatches recorded without a barrier are
      settled, every template code, every initial memory and registers, and every order in which
      the machine may complete the merged list, memory ends exactly as if the dispatches had been
      submitted one list at a time. */
  lemma {:induction false} MergedListMeansOneByOne(b: Batch, code: Code, r: Regs, r': Regs, m: Mem, order: seq<int>)
    requires RegistersKept(b, code) && AllDeclared(b, code) && Settled(b)
    requires CompletionOrder(Decode(ListOf(b), r, code).steps, order)
    ensures Run(Pick(Decode(ListOf(b), r, code).steps, order), m) == OneByOne(b, |b|, code, r', m).0
  {
    hide RegistersKept, AllDeclared, Settled, CompletionOrder, Decode, ListOf, Pick, Ordered, Schedule;
    ListFeedsSchedule(b, code, r);
    ScheduleIsOrdered(b, code);
    EveryCompletionOrderAgrees(Flat(b, Schedule(b), code), order, m);
    ScheduleMeansOneByOne(b, code, m);
    OneByOneIs(b, |b|, code, r', m);
  }
}
