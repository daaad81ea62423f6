/** No FENCE is emitted that nothing needs, and no prefix stays behind that could have moved: on the items
of the schedule, what stands before each dispatch and where each prefix runs
(compiler/runtime/sa/sa_context.c:381-424). */
module BatchExact {
  import opened Ranges
  import opened BatchList
  import opened BatchFences
  import opened BatchPieces

  // ---------------------------------------------------------------- how many ranges are outstanding

  /** The number of ranges that the piece at p puts into a set. A dispatch's ranges come with its body; a
      prefix brings its own where it was moved to, and nothing right after its dispatch's SETREGs. */
  function Brings(b: Batch, items: seq<Item>, p: nat, st: bool): nat
    requires p < |items|
  {
    var it := items[p];
    if it.Piece? && (it.kind == Body || (it.kind == Prefix && !(p > 0 && items[p - 1] == Load(it.owner)))) then
      |RangesOf(b, it, st)|
    else 0
  }

  /** The number of ranges brought since the last FENCE with the bit. */
  function Outstanding(b: Batch, items: seq<Item>, st: bool): nat
    decreases |items|
  {
    if items == [] then 0
    else
      var n := |items| - 1;
      if items[n].Sync? && Bit(items[n].mask, st) then 0 else Outstanding(b, items[..n], st) + Brings(b, items, n, st)
  }

  lemma {:induction false} OutstandingNext(b: Batch, items: seq<Item>, it: Item, st: bool)
    ensures Outstanding(b, items + [it], st)
         == if it.Sync? && Bit(it.mask, st) then 0
            else Outstanding(b, items, st) + Brings(b, items + [it], |items|, st)
  {
    assert (items + [it])[..|items|] == items;
  }

  ghost predicate Counted(b: Batch, s: Scan) {
    |s.outL| == Outstanding(b, s.items, false) && |s.outS| == Outstanding(b, s.items, true)
  }

  /** One more item, and the ranges it adds. */
  lemma {:induction false} CountedNext(b: Batch, s: Scan, it: Item, t: Scan)
    requires Counted(b, s) && t.items == s.items + [it]
    requires |t.outL| == if it.Sync? && Bit(it.mask, false) then 0 else |s.outL| + Brings(b, t.items, |s.items|, false)
    requires |t.outS| == if it.Sync? && Bit(it.mask, true) then 0 else |s.outS| + Brings(b, t.items, |s.items|, true)
    ensures Counted(b, t)
  {
    hide Brings, Outstanding, Bit;
    OutstandingNext(b, s.items, it, false);
    OutstandingNext(b, s.items, it, true);
  }

  /** A piece or SETREGs that may be left out. */
  lemma {:induction false} CountedIf(b: Batch, s: Scan, c: bool, it: Item, loads: seq<Range>, stores: seq<Range>)
    requires Counted(b, s) && !it.Sync?
    requires c ==> Brings(b, s.items + [it], |s.items|, false) == |loads|
    requires c ==> Brings(b, s.items + [it], |s.items|, true) == |stores|
    ensures Counted(b, Plus(s, c, it, loads, stores))
  {
    hide Brings, Counted, Bit;
    if c { CountedNext(b, s, it, Plus(s, c, it, loads, stores)); } else { PlusNothing(s, it, loads, stores); }
  }

  function Plus(s: Scan, c: bool, it: Item, loads: seq<Range>, stores: seq<Range>): Scan {
    if c then Scan(s.items + [it], s.outL + loads, s.outS + stores) else s
  }

  lemma {:induction false} PlusNothing(s: Scan, it: Item, loads: seq<Range>, stores: seq<Range>)
    ensures Plus(s, false, it, loads, stores) == s
  {
  }

  /** The last item before a turn is the body of the dispatch before. */
  lemma {:induction false} LastIsBody(b: Batch, i: nat)
    requires i <= |b|
    ensures var xs := ScanTo(b, i).items;
            if i == 0 then xs == [] else xs != [] && xs[|xs| - 1] == Piece(Body, i - 1)
  {
    hide HostsTo, Early, FenceMask;
    if i > 0 {
      ScanNext(b, i - 1);
      var its := NextItems(b, i - 1);
      assert its != [] && its[|its| - 1] == Piece(Body, i - 1);
    }
  }

  lemma {:induction false} MovedBrings(b: Batch, items: seq<Item>, k: nat)
    requires k < |b| && (items == [] || !items[|items| - 1].Load?)
    ensures var zs := items + [Piece(Prefix, k)];
            Brings(b, zs, |items|, false) == |b[k].d.prefixLoads| && Brings(b, zs, |items|, true) == 0
  {
  }

  function AfterSync(u: Scan, mask: nat): Scan {
    Scan(u.items + [Sync(mask)], if mask % 2 == 1 then [] else u.outL, if mask >= 2 then [] else u.outS)
  }

  lemma {:induction false} SyncCounted(b: Batch, u: Scan, mask: nat)
    requires Counted(b, u) && mask <= 3
    ensures Counted(b, AfterSync(u, mask))
  {
    hide Counted;
    CountedNext(b, u, Sync(mask), AfterSync(u, mask));
  }

  lemma {:induction false} FenceStepIs(b: Batch, h: Hosting, s: Scan, i: nat)
    requires i < |b| == |h.hosted|
    ensures var early, mask := Early(b, h, s, i), FenceMask(b, s, i);
            FenceStep(b, h, s, i)
            == if mask == 0 then s else AfterSync(Plus(s, early, Piece(Prefix, i), b[i].d.prefixLoads, []), mask)
  {
    EarlyHasMask(b, h, s, i);
    hide Early, FenceMask;
  }

  lemma {:induction false} FenceCounted(b: Batch, h: Hosting, s: Scan, i: nat)
    requires i < |b| == |h.hosted| && Counted(b, s) && (s.items == [] || s.items[|s.items| - 1].Piece?)
    ensures Counted(b, FenceStep(b, h, s, i))
  {
    hide *;
    MaskRange(b, s, i);
    FenceStepIs(b, h, s, i);
    MovedBrings(b, s.items, i);
    var early, it := Early(b, h, s, i), Piece(Prefix, i);
    CountedIf(b, s, early, it, b[i].d.prefixLoads, []);
    SyncCounted(b, Plus(s, early, it, b[i].d.prefixLoads, []), FenceMask(b, s, i));
  }

  lemma {:induction false} EarlyHasMask(b: Batch, h: Hosting, s: Scan, i: nat)
    requires i < |b| == |h.hosted|
    ensures Early(b, h, s, i) ==> FenceMask(b, s, i) != 0
  {
  }

  lemma {:induction false} BodyItemsAre(b: Batch, h: Hosting, f: Scan, s: Scan, i: nat)
    requires i < |b| == |h.hosted| == |h.host|
    ensures var d, k := b[i].d, if IsHost(b, h, i) then h.host[i] else 0;
            var loads := if IsHost(b, h, i) then b[k].d.prefixLoads else [];
            var t1 := Plus(Plus(f, true, Load(i), [], []), OwnPrefixHere(b, h, s, i), Piece(Prefix, i), [], []);
            var t2 := Plus(t1, d.HasHead(), Piece(Head, i), [], []);
            var t3 := Plus(t2, IsHost(b, h, i), Piece(Prefix, k), loads, []);
            Plus(t3, true, Piece(Body, i), d.loads, d.stores)
            == Scan(f.items + BodyItems(b, h, s, i), f.outL + loads + d.loads, f.outS + d.stores)
  {
    hide Early;
  }

  lemma {:induction false} BodyCounted(b: Batch, h: Hosting, f: Scan, s: Scan, i: nat)
    requires i < |b| == |h.hosted| == |h.host| && Counted(b, f)
    ensures var hosted := if IsHost(b, h, i) then b[h.host[i]].d.prefixLoads else [];
            Counted(b, Scan(f.items + BodyItems(b, h, s, i), f.outL + hosted + b[i].d.loads, f.outS + b[i].d.stores))
  {
    hide Early, Counted, Brings, HostedPrefix;
    var d, own := b[i].d, OwnPrefixHere(b, h, s, i);
    var t0 := Plus(f, true, Load(i), [], []);
    NothingBrought(b, f.items, Load(i));
    CountedIf(b, f, true, Load(i), [], []);
    var t1 := Plus(t0, own, Piece(Prefix, i), [], []);
    HereBrings(b, t0.items, i);
    CountedIf(b, t0, own, Piece(Prefix, i), [], []);
    var t2 := Plus(t1, d.HasHead(), Piece(Head, i), [], []);
    NothingBrought(b, t1.items, Piece(Head, i));
    CountedIf(b, t1, d.HasHead(), Piece(Head, i), [], []);
    var k := if IsHost(b, h, i) then h.host[i] else 0;
    var loads := if IsHost(b, h, i) then b[k].d.prefixLoads else [];
    if IsHost(b, h, i) { MovedBrings(b, t2.items, k); }
    var t3 := Plus(t2, IsHost(b, h, i), Piece(Prefix, k), loads, []);
    CountedIf(b, t2, IsHost(b, h, i), Piece(Prefix, k), loads, []);
    BodyBrings(b, t3.items, i);
    CountedIf(b, t3, true, Piece(Body, i), d.loads, d.stores);
    var t4 := Plus(t3, true, Piece(Body, i), d.loads, d.stores);
    hide *;
    BodyItemsAre(b, h, f, s, i);
  }

  lemma {:induction false} NothingBrought(b: Batch, items: seq<Item>, it: Item)
    requires it.Load? || (it.Piece? && it.kind == Head)
    ensures forall st :: Brings(b, items + [it], |items|, st) == 0
  {
  }

  lemma {:induction false} HereBrings(b: Batch, items: seq<Item>, i: nat)
    requires items != [] && items[|items| - 1] == Load(i)
    ensures forall st :: Brings(b, items + [Piece(Prefix, i)], |items|, st) == 0
  {
  }

  lemma {:induction false} BodyBrings(b: Batch, items: seq<Item>, i: nat)
    requires i < |b|
    ensures var zs := items + [Piece(Body, i)];
            Brings(b, zs, |items|, false) == |b[i].d.loads| && Brings(b, zs, |items|, true) == |b[i].d.stores|
  {
  }

  /** The range sets have as many ranges as the schedule brought. */
  lemma {:induction false} ScanIsCounted(b: Batch, i: nat)
    requires i <= |b|
    ensures Counted(b, ScanTo(b, i))
  {
    hide FenceStep, BodyItems, HostsTo, Counted;
    if i > 0 {
      ScanIsCounted(b, i - 1);
      LastIsBody(b, i - 1);
      var h, s := Hosts(b), ScanTo(b, i - 1);
      FenceCounted(b, h, s, i - 1);
      BodyCounted(b, h, FenceStep(b, h, s, i - 1), s, i - 1);
    } else {
      NothingCounted(b);
    }
  }

  lemma {:induction false} NothingCounted(b: Batch)
    ensures Counted(b, Scan([], [], []))
  {
  }

  // ---------------------------------------------------------------- the FENCE before a dispatch

  /** Something outstanding after the items xs meets rs, or more is outstanding than a set of 256 ranges
      can tell apart. */
  ghost predicate MustWait(b: Batch, xs: seq<Item>, rs: seq<Range>, st: bool) {
    || (exists p :: 0 <= p < |xs| && !FencedAfter(xs, p, st) && Overlap(RangesOf(b, xs[p], st), rs))
    || (Outstanding(b, xs, st) > 256 && rs != [])
  }

  lemma {:induction false} HitsIsWait(b: Batch, xs: seq<Item>, out: seq<Range>, rs: seq<Range>, st: bool)
    requires Live(b, xs, out, st) && Tracks(b, xs, out, st, -1) && |out| == Outstanding(b, xs, st)
    ensures Hits(out, rs) <==> MustWait(b, xs, rs, st)
  {
    hide Live, FencedAfter, RangesOf, Outstanding;
    if Overlap(out, rs) {
      var p := OutstandingPiece(b, xs, st, out, rs);
    }
    if p :| 0 <= p < |xs| && !FencedAfter(xs, p, st) && Overlap(RangesOf(b, xs[p], st), rs) {
      PieceHasRanges(b, xs[p], st);
      OverlapOutstanding(RangesOf(b, xs[p], st), out, rs);
    }
  }

  lemma {:induction false} PieceHasRanges(b: Batch, it: Item, st: bool)
    ensures RangesOf(b, it, st) != [] ==> it.Piece?
  {
  }

  /** Both bits of the FENCE a dispatch recorded with a barrier needs. */
  lemma {:induction false} MaskIsNeeded(b: Batch, i: nat)
    requires i < |b| && PrefixesDeclared(b)
    ensures var s, d := ScanTo(b, i), b[i].d;
            var st := b[i].barrier && i > 0
              && (MustWait(b, s.items, d.loads, true) || MustWait(b, s.items, d.stores, true));
            var ld := b[i].barrier && i > 0 && MustWait(b, s.items, d.stores, false);
            && FenceMask(b, s, i) == (if st then 2 else 0) + (if ld then 1 else 0)
            && (Hits(s.outS, d.prefixLoads) <==> MustWait(b, s.items, d.prefixLoads, true))
  {
    hide ScanTo, MustWait, Hits, Live, Tracks, Outstanding;
    var s, d := ScanTo(b, i), b[i].d;
    ScanIsExact(b, i);
    ScanIsCounted(b, i);
    HitsIsWait(b, s.items, s.outS, d.loads, true);
    HitsIsWait(b, s.items, s.outS, d.stores, true);
    HitsIsWait(b, s.items, s.outS, d.prefixLoads, true);
    HitsIsWait(b, s.items, s.outL, d.stores, false);
  }

  /** i's prefix has run before i's turn exactly when another dispatch hosts it. */
  lemma {:induction false} HostedRanBefore(b: Batch, i: nat)
    requires i < |b|
    ensures Hosts(b).hosted[i] <==> Piece(Prefix, i) in ScanTo(b, i).items
  {
    hide ScanTo, HostsTo, NextItems;
    HostingIsValid(b, |b|);
    BeforeTurn(b, i, i);
    var h, xs := Hosts(b), ScanTo(b, i).items;
    if h.hosted[i] {
      var j :| 0 <= j < |b| && h.host[j] == i;
      assert GoodHost(b, j, i);
      NextMembers(b, j, Piece(Prefix, i));
      ScanHas(b, j, i, Piece(Prefix, i));
    }
  }

  lemma {:induction false} LoadsOfTurn(b: Batch, i: nat, x: Item)
    requires i < |b| && x.Load? && x in NextItems(b, i)
    ensures x == Load(i)
  {
    hide ScanTo, HostsTo, Early, FenceMask;
    var h, s := Hosts(b), ScanTo(b, i);
    assert x in FenceItems(b, h, s, i) || x in BodyItems(b, h, s, i);
  }

  /** The SETREGs of a dispatch stand in its turn, after the FENCE. */
  lemma {:induction false} LoadAt(b: Batch, i: nat)
    requires i < |b|
    ensures var a, l := |ScanTo(b, i).items|, |FenceStep(b, Hosts(b), ScanTo(b, i), i).items|;
            && a <= l < |Schedule(b)| && Schedule(b)[l] == Load(i)
            && Schedule(b)[..a] == ScanTo(b, i).items
            && Schedule(b)[a..l] == FenceItems(b, Hosts(b), ScanTo(b, i), i)
  {
    hide ScanTo, HostsTo, Early, FenceMask, FenceItems;
    var h, s, items := Hosts(b), ScanTo(b, i), Schedule(b);
    ScanNext(b, i);
    ScanGrows(b, i + 1, |b|);
    var zs := ScanTo(b, i + 1).items;
    assert zs == items[..|zs|];
    var u, v := FenceItems(b, h, s, i), BodyItems(b, h, s, i);
    assert zs == s.items + u + v && v[0] == Load(i);
    assert zs[|s.items| + |u|] == Load(i);
    assert zs[|s.items|..|s.items| + |u|] == u;
  }

  lemma {:induction false} LoadOnce(b: Batch, n: nat, i: nat, q: nat)
    requires n <= |b| && q < |ScanTo(b, n).items| && ScanTo(b, n).items[q] == Load(i)
    ensures i < n && |ScanTo(b, i).items| <= q < |ScanTo(b, i + 1).items|
  {
    hide ScanStep, NextItems;
    ScanNext(b, n - 1);
    var m := |ScanTo(b, n - 1).items|;
    if q < m {
      LoadOnce(b, n - 1, i, q);
    } else {
      assert NextItems(b, n - 1)[q - m] == Load(i);
      LoadsOfTurn(b, n - 1, Load(i));
    }
  }

  lemma {:induction false} LoadInTurnOnce(b: Batch, i: nat, q: nat)
    requires i < |b| && q < |NextItems(b, i)| && NextItems(b, i)[q] == Load(i)
    ensures q == |FenceItems(b, Hosts(b), ScanTo(b, i), i)|
  {
    hide ScanTo, HostsTo, Early, FenceMask;
    var h, s := Hosts(b), ScanTo(b, i);
    var u, v := FenceItems(b, h, s, i), BodyItems(b, h, s, i);
    if q >= |u| {
      assert v[q - |u|] == Load(i);
      OneLoad(b, h, s, i, q - |u|);
    }
  }

  lemma {:induction false} OneLoad(b: Batch, h: Hosting, s: Scan, i: nat, q: nat)
    requires i < |b| == |h.hosted| == |h.host| && q < |BodyItems(b, h, s, i)| && BodyItems(b, h, s, i)[q] == Load(i)
    ensures q == 0
  {
    hide Early;
  }

  /** The only SETREGs of dispatch i are at l. */
  lemma {:induction false} LoadIsAt(b: Batch, i: nat, q: nat)
    requires i < |b| && q < |Schedule(b)| && Schedule(b)[q] == Load(i)
    ensures q == |FenceStep(b, Hosts(b), ScanTo(b, i), i).items|
  {
    hide ScanTo, HostsTo, Early, FenceMask, FenceItems, NextItems;
    LoadOnce(b, |b|, i, q);
    ScanNext(b, i);
    ScanGrows(b, i + 1, |b|);
    var m := |ScanTo(b, i).items|;
    assert ScanTo(b, i + 1).items[q] == Load(i);
    assert NextItems(b, i)[q - m] == Load(i);
    LoadInTurnOnce(b, i, q - m);
  }

  /** What stands between the dispatch before and the SETREGs of dispatch i, which are at l: a FENCE exactly
      when i was recorded with a barrier and must wait, for the stores so far (bit 1) if its loads or stores
      must, for the loads so far (bit 0) if its stores must; and before it i's prefix, exactly when it has
      not run yet and need not wait itself. */
  lemma {:induction false} FencesAreNeeded(b: Batch, i: nat) returns (a: nat, l: nat)
    requires i < |b| && PrefixesDeclared(b)
    ensures a <= l < |Schedule(b)| && Schedule(b)[l] == Load(i)
    ensures if i == 0 then a == 0 else a > 0 && Schedule(b)[a - 1] == Piece(Body, i - 1)
    ensures forall q :: 0 <= q < |Schedule(b)| && Schedule(b)[q] == Load(i) ==> q == l
    ensures var xs, d := Schedule(b)[..a], b[i].d;
            var st := b[i].barrier && i > 0 && (MustWait(b, xs, d.loads, true) || MustWait(b, xs, d.stores, true));
            var ld := b[i].barrier && i > 0 && MustWait(b, xs, d.stores, false);
            var early := (st || ld) && d.HasPrefix() && Piece(Prefix, i) !in xs
              && !MustWait(b, xs, d.prefixLoads, true);
            Schedule(b)[a..l] == (if early then [Piece(Prefix, i)] else [])
                                 + (if st && ld then [Sync(3)] else if st then [Sync(2)]
                                    else if ld then [Sync(1)] else [])
  {
    hide ScanTo, HostsTo, FenceStep, FenceMask, MustWait, Hits;
    var s := ScanTo(b, i);
    a, l := |s.items|, |FenceStep(b, Hosts(b), s, i).items|;
    LoadAt(b, i);
    LastIsBody(b, i);
    MaskIsNeeded(b, i);
    HostedRanBefore(b, i);
    forall q | 0 <= q < |Schedule(b)| && Schedule(b)[q] == Load(i) ensures q == l { LoadIsAt(b, i, q); }
  }

  // ---------------------------------------------------------------- where a prefix runs

  /** k's prefix runs right after j's head. */
  ghost predicate RunsInside(items: seq<Item>, j: nat, k: nat) {
    exists p :: 0 <= p && p + 1 < |items| && items[p] == Piece(Head, j) && items[p + 1] == Piece(Prefix, k)
  }

  /** The head of dispatch j and what follows it. */
  lemma {:induction false} AfterHead(b: Batch, h: Hosting, s: Scan, j: nat, q: nat)
    requires j < |b| == |h.hosted| == |h.host| && q < |BodyItems(b, h, s, j)|
             && BodyItems(b, h, s, j)[q] == Piece(Head, j)
    ensures q + 1 < |BodyItems(b, h, s, j)|
    ensures BodyItems(b, h, s, j)[q + 1] == if IsHost(b, h, j) then Piece(Prefix, h.host[j]) else Piece(Body, j)
  {
    hide Early;
    var x := [Load(j)] + if OwnPrefixHere(b, h, s, j) then [Piece(Prefix, j)] else [];
    var y := if b[j].d.HasHead() then [Piece(Head, j)] else [];
    var z := (if IsHost(b, h, j) then [Piece(Prefix, h.host[j])] else []) + [Piece(Body, j)];
    assert BodyItems(b, h, s, j) == x + y + z;
    assert forall t :: 0 <= t < |x| ==> x[t] != Piece(Head, j);
    assert forall t :: 0 <= t < |z| ==> z[t] != Piece(Head, j);
    assert q == |x| && |y| == 1;
    assert (x + y + z)[q + 1] == z[0];
  }

  lemma {:induction false} HasHeadItem(b: Batch, h: Hosting, s: Scan, j: nat) returns (q: nat)
    requires j < |b| == |h.hosted| == |h.host| && b[j].d.HasHead()
    ensures q < |BodyItems(b, h, s, j)| && BodyItems(b, h, s, j)[q] == Piece(Head, j)
  {
    hide Early;
    var x := [Load(j)] + if OwnPrefixHere(b, h, s, j) then [Piece(Prefix, j)] else [];
    var z := (if IsHost(b, h, j) then [Piece(Prefix, h.host[j])] else []) + [Piece(Body, j)];
    q := |x|;
    assert BodyItems(b, h, s, j) == x + [Piece(Head, j)] + z;
  }

  /** A head stands in its own dispatch's turn. */
  lemma {:induction false} HeadAt(b: Batch, n: nat, j: nat, p: nat)
    requires n <= |b| && p < |ScanTo(b, n).items| && ScanTo(b, n).items[p] == Piece(Head, j)
    ensures j < n && var l := |FenceStep(b, Hosts(b), ScanTo(b, j), j).items|;
            l <= p < l + |BodyItems(b, Hosts(b), ScanTo(b, j), j)|
            && BodyItems(b, Hosts(b), ScanTo(b, j), j)[p - l] == Piece(Head, j)
  {
    hide ScanStep, FenceItems, BodyItems, HostsTo;
    ScanNext(b, n - 1);
    var m, h, s := |ScanTo(b, n - 1).items|, Hosts(b), ScanTo(b, n - 1);
    if p < m {
      HeadAt(b, n - 1, j, p);
    } else {
      var u := FenceItems(b, h, s, n - 1);
      assert NextItems(b, n - 1)[p - m] == Piece(Head, j);
      NextMembers(b, n - 1, Piece(Head, j));
      if p - m < |u| {
        assert Piece(Head, j) in u;
        FenceMembers(b, h, s, n - 1, Piece(Head, j));
        assert false;
      }
    }
  }

  lemma {:induction false} TurnInSchedule(b: Batch, j: nat, q: nat)
    requires j < |b| && q < |BodyItems(b, Hosts(b), ScanTo(b, j), j)|
    ensures var l := |FenceStep(b, Hosts(b), ScanTo(b, j), j).items|;
            l + q < |Schedule(b)| && Schedule(b)[l + q] == BodyItems(b, Hosts(b), ScanTo(b, j), j)[q]
  {
    hide ScanTo, HostsTo, FenceItems, BodyItems;
    ScanNext(b, j);
    ScanGrows(b, j + 1, |b|);
    var zs, u := ScanTo(b, j + 1).items, FenceItems(b, Hosts(b), ScanTo(b, j), j);
    assert zs[|ScanTo(b, j).items| + |u| + q] == BodyItems(b, Hosts(b), ScanTo(b, j), j)[q];
  }

  /** The marks say where prefixes run. */
  lemma {:induction false} RunsInsideIs(b: Batch, j: nat, k: nat)
    ensures RunsInside(Schedule(b), j, k) <==> j < |b| && Hosts(b).host[j] == k
  {
    hide ScanTo, HostsTo, FenceStep, BodyItems;
    HostingIsValid(b, |b|);
    var h, items := Hosts(b), Schedule(b);
    if p :| 0 <= p && p + 1 < |items| && items[p] == Piece(Head, j) && items[p + 1] == Piece(Prefix, k) {
      HeadAt(b, |b|, j, p);
      var s := ScanTo(b, j);
      var q := p - |FenceStep(b, h, s, j).items|;
      AfterHead(b, h, s, j, q);
      TurnInSchedule(b, j, q + 1);
    }
    if j < |b| && h.host[j] == k {
      assert GoodHost(b, j, k);
      var s := ScanTo(b, j);
      var q := HasHeadItem(b, h, s, j);
      AfterHead(b, h, s, j, q);
      TurnInSchedule(b, j, q);
      TurnInSchedule(b, j, q + 1);
      assert items[|FenceStep(b, h, s, j).items| + q + 1] == Piece(Prefix, k);
    }
  }

  /** The dispatches of b store nothing that k's prefix loads, and no more than 256 ranges altogether unless
      it loads nothing. */
  ghost predicate LoadsClear(b: Batch, k: nat)
    requires k < |b|
  {
    && (forall i :: 0 <= i < |b| ==> !Overlap(b[i].d.stores, b[k].d.prefixLoads))
    && (b[k].d.prefixLoads == [] || StoreCount(b) <= 256)
  }

  function StoreCount(b: Batch): nat {
    if b == [] then 0 else StoreCount(b[..|b| - 1]) + |b[|b| - 1].d.stores|
  }

  lemma {:induction false} AllStoresAre(b: Batch, rs: seq<Range>)
    ensures |AllStores(b)| == StoreCount(b)
    ensures Overlap(AllStores(b), rs) <==> exists i :: 0 <= i < |b| && Overlap(b[i].d.stores, rs)
  {
    if b != [] {
      hide Overlap;
      var n := |b| - 1;
      AllStoresAre(b[..n], rs);
      OverlapConcat(AllStores(b[..n]), b[n].d.stores, rs);
      if i :| 0 <= i < n && Overlap(b[..n][i].d.stores, rs) { assert Overlap(b[i].d.stores, rs); }
      if i :| 0 <= i < |b| && Overlap(b[i].d.stores, rs) && i != n { assert Overlap(b[..n][i].d.stores, rs); }
    }
  }

  lemma {:induction false} ClearIs(b: Batch, k: nat)
    requires k < |b|
    ensures LoadsClear(b, k) <==> !Hits(AllStores(b), b[k].d.prefixLoads)
  {
    hide Overlap, StoreCount, AllStores;
    AllStoresAre(b, b[k].d.prefixLoads);
    EmptyMeetsNothing(b);
  }

  lemma {:induction false} EmptyMeetsNothing(b: Batch)
    ensures forall i :: 0 <= i < |b| ==> !Overlap(b[i].d.stores, [])
  {
  }

  /** k's prefix could run inside j: j has a head, nothing from j up to k touches SPAD_B, and j is not the
      host of an earlier dispatch's prefix. */
  ghost predicate CanHost(b: Batch, items: seq<Item>, j: int, k: nat) {
    && 0 <= j < k < |b| && b[j].d.HasHead() && (forall t :: j <= t < k ==> !b[t].d.spadB)
    && forall e: nat :: e < k ==> !RunsInside(items, j, e)
  }

  /** A mark once made stays, and later steps mark later dispatches only. */
  lemma {:induction false} MarksStay(b: Batch, k: nat, n: nat, j: nat)
    requires k <= n <= |b| && j < |b|
    ensures var x, y := HostsTo(b, k).host[j], HostsTo(b, n).host[j];
            && (x == -1 || 0 <= x < k) && (x >= 0 ==> y == x) && (0 <= y < k ==> x == y) && (x < 0 && y >= 0 ==> y >= k)
    decreases n
  {
    hide Hits, AllStores;
    if k < n {
      MarksStay(b, k, n - 1, j);
      StepMarks(b, HostsTo(b, n - 1), n - 1, j);
      FreshHost(b, n - 1, j);
    } else if k > 0 {
      MarksStay(b, k - 1, k - 1, j);
      StepMarks(b, HostsTo(b, k - 1), k - 1, j);
    }
  }

  lemma {:induction false} FreshHost(b: Batch, n: nat, j: nat)
    requires n < |b| && j < |b|
    ensures HostsTo(b, n).host[j] >= 0 ==> HostsTo(b, n + 1).host[j] == HostsTo(b, n).host[j]
  {
    var h := HostsTo(b, n);
    hide HostsTo, Hits;
    StepMarks(b, h, n, j);
    NextHosts(b, n);
  }

  lemma {:induction false} NextHosts(b: Batch, n: nat)
    requires n < |b|
    ensures HostsTo(b, n + 1) == HostStep(b, HostsTo(b, n), n)
  {
  }

  lemma {:induction false} StepMarks(b: Batch, h: Hosting, k: nat, j: nat)
    requires k < |b| == |h.host| == |h.hosted| && j < |b|
    ensures var r := HostStep(b, h, k).host[j]; r == h.host[j] || (h.host[j] < 0 && r == k)
  {
    hide Hits, BestHost;
    BestHostIs(b, h.host, k - 1, -1, k);
  }

  /** The step that places k's prefix. */
  lemma {:induction false} StepPlaces(b: Batch, k: nat, j: nat)
    requires k < |b| && j < |b|
    ensures var x, z := HostsTo(b, k).host, Hosts(b).host;
            && (z[j] == k <==> HostStep(b, HostsTo(b, k), k).host[j] == k)
            && (x[j] < 0 <==> !(0 <= z[j] < k))
  {
    hide HostStep;
    MarksStay(b, k, |b|, j);
    MarksStay(b, k + 1, |b|, j);
    NextHosts(b, k);
  }

  /** j is free for k's prefix: as the marks have it before k's step, and on the schedule. */
  lemma {:induction false} CanHostIs(b: Batch, j: nat, k: nat)
    requires k < |b|
    ensures CanHost(b, Schedule(b), j, k) <==>
              j < k && b[j].d.HasHead() && HostsTo(b, k).host[j] < 0 && forall t :: j <= t < k ==> !b[t].d.spadB
  {
    hide Schedule, RunsInside, HostsTo;
    if j < k {
      StepPlaces(b, k, j);
      forall e: nat | e < k ensures RunsInside(Schedule(b), j, e) <==> Hosts(b).host[j] == e { RunsInsideIs(b, j, e); }
      if 0 <= Hosts(b).host[j] < k { assert RunsInside(Schedule(b), j, Hosts(b).host[j]); }
    }
  }

  lemma {:induction false} StepChooses(b: Batch, h: Hosting, k: nat, j: nat)
    requires k < |b| == |h.host| == |h.hosted| && j < |b| && h.host[j] != k
    ensures HostStep(b, h, k).host[j] == k <==>
              b[k].d.HasPrefix() && !Hits(AllStores(b), b[k].d.prefixLoads) && BestHost(b, h.host, k - 1, -1) == j
  {
    hide Hits, BestHost, AllStores;
  }

  /** A prefix runs inside j exactly when nothing stores what it loads and j is the first dispatch that
      could host it. */
  lemma {:induction false} PrefixRunsInside(b: Batch, j: nat, k: nat)
    requires k < |b|
    ensures RunsInside(Schedule(b), j, k) <==>
              && b[k].d.HasPrefix() && LoadsClear(b, k) && CanHost(b, Schedule(b), j, k)
              && forall t: nat :: t < j ==> !CanHost(b, Schedule(b), t, k)
  {
    hide Schedule, RunsInside, HostsTo, CanHost, LoadsClear, Hits, HostStep, BestHost, AllStores;
    var h := HostsTo(b, k);
    RunsInsideIs(b, j, k);
    ClearIs(b, k);
    BestHostIs(b, h.host, k - 1, -1, k);
    forall t: nat | t < k && CanHost(b, Schedule(b), t, k) ensures 0 <= BestHost(b, h.host, k - 1, -1) <= t {
      CanHostIs(b, t, k);
      BestHostIsEarliest(b, h.host, k - 1, -1, t);
    }
    var best := BestHost(b, h.host, k - 1, -1);
    if best >= 0 { CanHostIs(b, best, k); }
    BelowOnly(b, j, k);
    if j < |b| {
      StepPlaces(b, k, j);
      MarksStay(b, k, |b|, j);
      StepChooses(b, h, k, j);
    }
  }

  lemma {:induction false} BelowOnly(b: Batch, j: nat, k: nat)
    ensures CanHost(b, Schedule(b), j, k) ==> j < k < |b|
  {
  }

  /** So a prefix is moved into another dispatch exactly when its loads are clear and some dispatch could
      host it. */
  lemma {:induction false} PrefixIsHostedIff(b: Batch, k: nat)
    requires k < |b| && b[k].d.HasPrefix()
    ensures (exists j :: RunsInside(Schedule(b), j, k)) <==>
              LoadsClear(b, k) && exists j :: CanHost(b, Schedule(b), j, k)
  {
    hide Schedule, RunsInside, CanHost, LoadsClear;
    if j: nat :| RunsInside(Schedule(b), j, k) { PrefixRunsInside(b, j, k); }
    if j :| CanHost(b, Schedule(b), j, k) && LoadsClear(b, k) {
      CanHostIsNat(b, j, k);
      var t := FirstHost(b, j, k);
      PrefixRunsInside(b, t, k);
    }
  }

  lemma {:induction false} CanHostIsNat(b: Batch, j: int, k: nat)
    ensures CanHost(b, Schedule(b), j, k) ==> j >= 0
  {
  }

  lemma {:induction false} FirstHost(b: Batch, j: nat, k: nat) returns (t: nat)
    requires CanHost(b, Schedule(b), j, k)
    ensures CanHost(b, Schedule(b), t, k) && forall e: nat :: e < t ==> !CanHost(b, Schedule(b), e, k)
    decreases j
  {
    hide CanHost, Schedule;
    if e: nat :| e < j && CanHost(b, Schedule(b), e, k) {
      t := FirstHost(b, e, k);
    } else {
      t := j;
    }
  }
}
