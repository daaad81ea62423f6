/** The FENCEs the scheduler keeps are enough exactly when the dispatches recorded without a
barrier need none (compiler/runtime/sa/sa_context.c:397-447). */
module BatchFences {
  import opened Ranges
  import opened BatchList

  /** The FENCE mask's ST bit (st) or LD bit. */
  predicate Bit(mask: nat, st: bool) {
    if st then mask / 2 % 2 == 1 else mask % 2 == 1
  }

  /** The DDR a piece is declared to store to (st) or load from. */
  function RangesOf(b: Batch, it: Item, st: bool): seq<Range> {
    if !it.Piece? || it.owner >= |b| then []
    else if it.kind == Prefix then (if st then [] else b[it.owner].d.prefixLoads)
    else if st then b[it.owner].d.stores else b[it.owner].d.loads
  }

  ghost predicate FencedAfter(items: seq<Item>, p: int, st: bool) {
    exists f :: p < f < |items| && 0 <= f && items[f].Sync? && Bit(items[f].mask, st)
  }

  ghost predicate FenceBetween(items: seq<Item>, p: int, q: int, st: bool) {
    exists f :: 0 <= f && p < f < q && f < |items| && items[f].Sync? && Bit(items[f].mask, st)
  }

  /** A later access the stores (st) or the loads of an earlier piece must be finished for. */
  ghost predicate Clash(b: Batch, x: Item, y: Item, st: bool) {
    Overlap(RangesOf(b, x, st), RangesOf(b, y, true)) || (st && Overlap(RangesOf(b, x, true), RangesOf(b, y, false)))
  }

  /** A clash between different dispatches has a FENCE of the right engine in between. */
  ghost predicate SeparatedPair(b: Batch, items: seq<Item>, p: int, q: int, st: bool)
    requires 0 <= p < q < |items|
  {
    items[p].Piece? && items[q].Piece? && items[p].owner != items[q].owner && Clash(b, items[p], items[q], st)
    ==> FenceBetween(items, p, q, st)
  }

  ghost predicate Separated(b: Batch, items: seq<Item>) {
    forall p, q, st :: 0 <= p < q < |items| ==> SeparatedPair(b, items, p, q, st)
  }

  /** Dispatch d clashes with nothing that is still outstanding. */
  ghost predicate NoClash(outL: seq<Range>, outS: seq<Range>, d: Dispatch) {
    !Overlap(outS, d.loads) && !Overlap(outS, d.stores) && !Overlap(outL, d.stores)
  }

  /** Every dispatch recorded without a barrier would not have needed a FENCE. */
  ghost predicate Settled(b: Batch) {
    forall i :: 0 < i < |b| && !b[i].barrier ==> NoClash(ScanTo(b, i).outL, ScanTo(b, i).outS, b[i].d)
  }

  /** The declared loads of a dispatch include its prefix's. */
  ghost predicate PrefixesDeclared(b: Batch) {
    forall i, r :: 0 <= i < |b| && r in b[i].d.prefixLoads ==> r in b[i].d.loads
  }

  // ---------------------------------------------------------------- what the range sets know

  /** out holds every range still outstanding, those of dispatch skip aside. */
  ghost predicate Tracks(b: Batch, items: seq<Item>, out: seq<Range>, st: bool, skip: int) {
    forall p, r | 0 <= p < |items| && !items[p].Sync? && items[p].owner != skip && r in RangesOf(b, items[p], st) ::
      FencedAfter(items, p, st) || r in out
  }

  /** Every range in out is still outstanding. */
  ghost predicate Live(b: Batch, items: seq<Item>, out: seq<Range>, st: bool) {
    forall r :: r in out ==> exists p ::
      0 <= p < |items| && r in RangesOf(b, items[p], st) && !FencedAfter(items, p, st)
  }

  lemma {:induction false} FencedAfterAppend(items: seq<Item>, it: Item, p: int, st: bool)
    requires 0 <= p < |items|
    ensures FencedAfter(items + [it], p, st) <==> FencedAfter(items, p, st) || (it.Sync? && Bit(it.mask, st))
  {
    var zs := items + [it];
    if FencedAfter(items, p, st) {
      var f :| p < f < |items| && 0 <= f && items[f].Sync? && Bit(items[f].mask, st);
      assert zs[f] == items[f];
    }
    if it.Sync? && Bit(it.mask, st) {
      assert zs[|items|] == it;
    }
  }

  lemma {:induction false} TracksAppend(b: Batch, items: seq<Item>, it: Item, out: seq<Range>, out': seq<Range>,
                                        st: bool, skip: int)
    requires Tracks(b, items, out, st, skip)
    requires (it.Sync? && Bit(it.mask, st)) || forall r :: r in out ==> r in out'
    requires it.Sync? || it.owner == skip || forall r :: r in RangesOf(b, it, st) ==> r in out'
    ensures Tracks(b, items + [it], out', st, skip)
  {
    var zs := items + [it];
    forall p, r | 0 <= p < |zs| && !zs[p].Sync? && zs[p].owner != skip && r in RangesOf(b, zs[p], st)
                  && !FencedAfter(zs, p, st)
      ensures r in out'
    {
      if p < |items| { FencedAfterAppend(items, it, p, st); }
    }
  }

  lemma {:induction false} LiveAppend(b: Batch, items: seq<Item>, it: Item, out: seq<Range>, out': seq<Range>, st: bool)
    requires Live(b, items, out, st)
    requires it.Sync? && Bit(it.mask, st) ==> out' == []
    requires forall r :: r in out' ==> r in out || r in RangesOf(b, it, st)
    ensures Live(b, items + [it], out', st)
  {
    var zs := items + [it];
    forall r | r in out'
      ensures exists p :: 0 <= p < |zs| && r in RangesOf(b, zs[p], st) && !FencedAfter(zs, p, st)
    {
      if r in RangesOf(b, it, st) {
        assert zs[|items|] == it && !FencedAfter(zs, |items|, st);
      } else {
        var p :| 0 <= p < |items| && r in RangesOf(b, items[p], st) && !FencedAfter(items, p, st);
        FencedAfterAppend(items, it, p, st);
        assert zs[p] == items[p];
      }
    }
  }

  /** Both range sets know exactly what is outstanding. */
  ghost predicate Exact(b: Batch, s: Scan) {
    && Tracks(b, s.items, s.outL, false, -1) && Tracks(b, s.items, s.outS, true, -1)
    && Live(b, s.items, s.outL, false) && Live(b, s.items, s.outS, true)
  }

  lemma {:induction false} ExactAppend(b: Batch, s: Scan, it: Item, s': Scan)
    requires Exact(b, s) && s'.items == s.items + [it]
    requires it.Sync? ==> s'.outL == (if Bit(it.mask, false) then [] else s.outL)
                          && s'.outS == if Bit(it.mask, true) then [] else s.outS
    requires !it.Sync? ==> s'.outL == s.outL + RangesOf(b, it, false) && s'.outS == s.outS + RangesOf(b, it, true)
    ensures Exact(b, s')
  {
    TracksAppend(b, s.items, it, s.outL, s'.outL, false, -1);
    TracksAppend(b, s.items, it, s.outS, s'.outS, true, -1);
    LiveAppend(b, s.items, it, s.outL, s'.outL, false);
    LiveAppend(b, s.items, it, s.outS, s'.outS, true);
  }

  /** The scan after one more item, every piece adding its own ranges. */
  function Push(b: Batch, s: Scan, it: Item): Scan {
    if it.Sync? then Scan(s.items + [it], if Bit(it.mask, false) then [] else s.outL,
      if Bit(it.mask, true) then [] else s.outS)
    else Scan(s.items + [it], s.outL + RangesOf(b, it, false), s.outS + RangesOf(b, it, true))
  }

  function PushAll(b: Batch, s: Scan, items: seq<Item>): Scan
    decreases items
  {
    if items == [] then s else PushAll(b, Push(b, s, items[0]), items[1..])
  }

  ghost predicate SameRanges(xs: seq<Range>, ys: seq<Range>) {
    forall r :: r in xs <==> r in ys
  }

  ghost predicate SameScan(s: Scan, t: Scan) {
    s.items == t.items && SameRanges(s.outL, t.outL) && SameRanges(s.outS, t.outS)
  }

  lemma {:induction false} ExactPushAll(b: Batch, s: Scan, items: seq<Item>)
    requires Exact(b, s)
    ensures Exact(b, PushAll(b, s, items))
    decreases items
  {
    if items != [] {
      ExactAppend(b, s, items[0], Push(b, s, items[0]));
      ExactPushAll(b, Push(b, s, items[0]), items[1..]);
    }
  }

  lemma {:induction false} PushAllConcat(b: Batch, s: Scan, xs: seq<Item>, ys: seq<Item>)
    ensures PushAll(b, s, xs + ys) == PushAll(b, PushAll(b, s, xs), ys)
    decreases xs
  {
    if xs == [] {
      assert xs + ys == ys;
    } else {
      assert (xs + ys)[1..] == xs[1..] + ys;
      PushAllConcat(b, Push(b, s, xs[0]), xs[1..], ys);
    }
  }

  lemma {:induction false} PushOne(b: Batch, s: Scan, it: Item)
    ensures PushAll(b, s, [it]) == Push(b, s, it)
  {
    assert [it][1..] == [];
  }

  function PushIf(b: Batch, s: Scan, c: bool, it: Item): Scan {
    if c then Push(b, s, it) else s
  }

  lemma {:induction false} PushIfIs(b: Batch, s: Scan, xs: seq<Item>, c: bool, it: Item)
    ensures PushAll(b, s, xs + if c then [it] else []) == PushIf(b, PushAll(b, s, xs), c, it)
  {
    PushAllConcat(b, s, xs, if c then [it] else []);
    PushOne(b, PushAll(b, s, xs), it);
  }

  lemma {:induction false} MaskRange(b: Batch, s: Scan, i: nat)
    requires i < |b|
    ensures FenceMask(b, s, i) <= 3
  {
  }

  function PushFence(b: Batch, s: Scan, i: nat, early: bool, mask: nat): Scan {
    PushIf(b, PushIf(b, s, early, Piece(Prefix, i)), mask != 0, Sync(mask))
  }

  lemma {:induction false} PushFenceIs(b: Batch, h: Hosting, s: Scan, i: nat)
    requires i < |b| == |h.hosted|
    ensures PushAll(b, s, FenceItems(b, h, s, i)) == PushFence(b, s, i, Early(b, h, s, i), FenceMask(b, s, i))
  {
    hide FenceMask, Early, PushAll, Push;
    var mask := FenceMask(b, s, i);
    var xs := if Early(b, h, s, i) then [Piece(Prefix, i)] else [];
    PushIfIs(b, s, [], Early(b, h, s, i), Piece(Prefix, i));
    PushIfIs(b, s, xs, mask != 0, Sync(mask));
    assert [] + xs == xs && PushAll(b, s, []) == s by { PushNone(b, s); }
    assert FenceItems(b, h, s, i) == xs + if mask != 0 then [Sync(mask)] else [];
  }

  lemma {:induction false} FenceStepPushes(b: Batch, h: Hosting, s: Scan, i: nat)
    requires i < |b| == |h.hosted|
    ensures SameScan(PushAll(b, s, FenceItems(b, h, s, i)), FenceStep(b, h, s, i))
  {
    var mask := FenceMask(b, s, i);
    MaskRange(b, s, i);
    assert Early(b, h, s, i) ==> mask != 0;
    assert mask == 0 || mask == 1 || mask == 2 || mask == 3;
    PushFenceIs(b, h, s, i);
    hide FenceMask, Early, PushAll;
  }

  lemma {:induction false} PushNone(b: Batch, s: Scan)
    ensures PushAll(b, s, []) == s
  {
  }

  predicate OwnPrefixHere(b: Batch, h: Hosting, s: Scan, i: nat)
    requires i < |b| == |h.hosted|
  {
    b[i].d.HasPrefix() && !h.hosted[i] && !Early(b, h, s, i)
  }

  function HostedPrefix(b: Batch, h: Hosting, i: nat): Item
    requires i < |b| == |h.host|
  {
    Piece(Prefix, if h.host[i] >= 0 then h.host[i] else 0)
  }

  function PushBody(b: Batch, h: Hosting, f: Scan, s: Scan, i: nat): Scan
    requires i < |b| == |h.hosted| == |h.host|
  {
    var u1 := PushIf(b, Push(b, f, Load(i)), OwnPrefixHere(b, h, s, i), Piece(Prefix, i));
    var u2 := PushIf(b, u1, b[i].d.HasHead(), Piece(Head, i));
    var u3 := PushIf(b, u2, IsHost(b, h, i), HostedPrefix(b, h, i));
    Push(b, u3, Piece(Body, i))
  }

  lemma {:induction false} PushBodyIs(b: Batch, h: Hosting, f: Scan, s: Scan, i: nat)
    requires i < |b| == |h.hosted| == |h.host|
    ensures PushAll(b, f, BodyItems(b, h, s, i)) == PushBody(b, h, f, s, i)
  {
    hide Push, PushAll, Early;
    var c1, c2, c3 := OwnPrefixHere(b, h, s, i), b[i].d.HasHead(), IsHost(b, h, i);
    var x1 := [Load(i)] + if c1 then [Piece(Prefix, i)] else [];
    var x2 := x1 + if c2 then [Piece(Head, i)] else [];
    var x3 := x2 + if c3 then [HostedPrefix(b, h, i)] else [];
    PushOne(b, f, Load(i));
    PushIfIs(b, f, [Load(i)], c1, Piece(Prefix, i));
    PushIfIs(b, f, x1, c2, Piece(Head, i));
    PushIfIs(b, f, x2, c3, HostedPrefix(b, h, i));
    PushIfIs(b, f, x3, true, Piece(Body, i));
    assert BodyItems(b, h, s, i) == x3 + [Piece(Body, i)];
  }

  lemma {:induction false} PushAllItems(b: Batch, s: Scan, items: seq<Item>)
    ensures PushAll(b, s, items).items == s.items + items
    decreases items
  {
    if items != [] { PushAllItems(b, Push(b, s, items[0]), items[1..]); }
  }

  /** Pushing the pieces of one dispatch one by one leaves the ranges the scheduler adds at its end. */
  lemma {:induction false} BodyItemsPush(b: Batch, h: Hosting, f: Scan, s: Scan, i: nat)
    requires i < |b| == |h.hosted| == |h.host|
    requires forall r :: r in b[i].d.prefixLoads ==> r in b[i].d.loads
    ensures var t := PushAll(b, f, BodyItems(b, h, s, i));
            && t.items == f.items + BodyItems(b, h, s, i)
            && SameRanges(t.outL, f.outL + (if IsHost(b, h, i) then b[h.host[i]].d.prefixLoads else []) + b[i].d.loads)
            && SameRanges(t.outS, f.outS + b[i].d.stores)
  {
    hide Early, BodyItems;
    PushBodyIs(b, h, f, s, i);
    PushAllItems(b, f, BodyItems(b, h, s, i));
  }

  lemma {:induction false} ExactSame(b: Batch, s: Scan, t: Scan)
    requires Exact(b, s) && SameScan(s, t)
    ensures Exact(b, t)
  {
  }

  lemma {:induction false} StartIsExact(b: Batch)
    ensures Exact(b, Scan([], [], [])) && Separated(b, [])
  {
  }

  lemma {:induction false} ScanIsExact(b: Batch, i: nat)
    requires i <= |b| && PrefixesDeclared(b)
    ensures Exact(b, ScanTo(b, i))
  {
    hide Exact, FenceStep, BodyItems, Hosts;
    StartIsExact(b);
    if i > 0 {
      ScanIsExact(b, i - 1);
      var h, s := Hosts(b), ScanTo(b, i - 1);
      var f := FenceStep(b, h, s, i - 1);
      FenceStepIsExact(b, i - 1);
      BodyItemsPush(b, h, f, s, i - 1);
      ExactPushAll(b, f, BodyItems(b, h, s, i - 1));
      ExactSame(b, PushAll(b, f, BodyItems(b, h, s, i - 1)), ScanTo(b, i));
    }
  }

  lemma {:induction false} FenceStepIsExact(b: Batch, i: nat)
    requires i < |b| && Exact(b, ScanTo(b, i))
    ensures Exact(b, FenceStep(b, Hosts(b), ScanTo(b, i), i))
  {
    var h, s := Hosts(b), ScanTo(b, i);
    FenceStepPushes(b, h, s, i);
    ExactPushAll(b, s, FenceItems(b, h, s, i));
    ExactSame(b, PushAll(b, s, FenceItems(b, h, s, i)), FenceStep(b, h, s, i));
  }

  // ---------------------------------------------------------------- enough FENCEs

  lemma {:induction false} OverlapOutstanding(ss: seq<Range>, out: seq<Range>, rs: seq<Range>)
    requires forall r :: r in ss ==> r in out
    ensures Overlap(ss, rs) ==> Overlap(out, rs)
  {
    if Overlap(ss, rs) {
      var i, j :| 0 <= i < |ss| && 0 <= j < |rs| && Meets(rs[j], ss[i]);
      assert ss[i] in out;
      var k :| 0 <= k < |out| && out[k] == ss[i];
      assert Meets(rs[j], out[k]);
    }
  }

  lemma {:induction false} FenceStays(items: seq<Item>, it: Item, p: int, q: int, st: bool)
    requires 0 <= p < q <= |items| && FenceBetween(items, p, q, st)
    ensures FenceBetween(items + [it], p, q, st)
  {
    var f :| 0 <= f && p < f < q && f < |items| && items[f].Sync? && Bit(items[f].mask, st);
    assert (items + [it])[f] == items[f];
  }

  lemma {:induction false} SeparatedAppend(b: Batch, items: seq<Item>, it: Item)
    requires Separated(b, items)
    requires it.Piece? ==> forall p, st | 0 <= p < |items| && items[p].Piece? && items[p].owner != it.owner ::
               Clash(b, items[p], it, st) ==> FencedAfter(items, p, st)
    ensures Separated(b, items + [it])
  {
    var zs := items + [it];
    forall p, q, st | 0 <= p < q < |zs|
      ensures SeparatedPair(b, zs, p, q, st)
    {
      if q < |items| {
        assert SeparatedPair(b, items, p, q, st);
        if FenceBetween(items, p, q, st) { FenceStays(items, it, p, q, st); }
      } else if FencedAfter(items, p, st) {
        assert FenceBetween(items, p, q, st);
        FenceStays(items, it, p, q, st);
      }
    }
  }

  /** What a dispatch clashes with among everything outstanding that is not its own. */
  ghost predicate Guarded(b: Batch, items: seq<Item>, outL: seq<Range>, outS: seq<Range>, i: nat) {
    Separated(b, items) && Tracks(b, items, outL, false, i) && Tracks(b, items, outS, true, i)
  }

  lemma {:induction false} OwnPiece(b: Batch, items: seq<Item>, outL: seq<Range>, outS: seq<Range>, it: Item)
    requires it.Piece? && Guarded(b, items, outL, outS, it.owner)
    requires !Overlap(outS, RangesOf(b, it, false)) && !Overlap(outS, RangesOf(b, it, true))
    requires !Overlap(outL, RangesOf(b, it, true))
    ensures Guarded(b, items + [it], outL, outS, it.owner)
  {
    forall p, st | 0 <= p < |items| && items[p].Piece? && items[p].owner != it.owner && Clash(b, items[p], it, st)
      ensures FencedAfter(items, p, st)
    {
      if !FencedAfter(items, p, st) {
        var ss, out := RangesOf(b, items[p], st), if st then outS else outL;
        assert forall r :: r in ss ==> r in out;
        OverlapOutstanding(ss, out, RangesOf(b, it, true));
        OverlapOutstanding(ss, out, RangesOf(b, it, false));
        assert false;
      }
    }
    SeparatedAppend(b, items, it);
    TracksAppend(b, items, it, outL, outL, false, it.owner);
    TracksAppend(b, items, it, outS, outS, true, it.owner);
  }

  lemma {:induction false} NotAPiece(b: Batch, items: seq<Item>, outL: seq<Range>, outS: seq<Range>, it: Item, i: nat)
    requires !it.Piece? && Guarded(b, items, outL, outS, i)
    ensures var s := Push(b, Scan(items, outL, outS), it); Guarded(b, s.items, s.outL, s.outS, i)
  {
    var s := Push(b, Scan(items, outL, outS), it);
    SeparatedAppend(b, items, it);
    TracksAppend(b, items, it, outL, s.outL, false, i);
    TracksAppend(b, items, it, outS, s.outS, true, i);
  }

  // ---------------------------------------------------------------- hosted prefixes

  lemma {:induction false} AllStoresHas(b: Batch, i: nat, r: Range)
    requires i < |b| && r in b[i].d.stores
    ensures r in AllStores(b)
  {
    if i < |b| - 1 {
      AllStoresHas(b[..|b|-1], i, r);
    }
  }

  /** No piece stores to what a hosted prefix loads. */
  lemma {:induction false} HostedIsClear(b: Batch, j: int, k: int, x: Item)
    requires GoodHost(b, j, k)
    ensures !Overlap(RangesOf(b, x, true), b[k].d.prefixLoads)
  {
    var ss := RangesOf(b, x, true);
    forall r | r in ss ensures r in AllStores(b) { AllStoresHas(b, x.owner, r); }
    OverlapOutstanding(ss, AllStores(b), b[k].d.prefixLoads);
  }

  lemma {:induction false} OverlapFlip(xs: seq<Range>, ys: seq<Range>)
    ensures Overlap(xs, ys) <==> Overlap(ys, xs)
  {
    if Overlap(xs, ys) {
      var i, j :| 0 <= i < |xs| && 0 <= j < |ys| && Meets(ys[j], xs[i]);
      assert Meets(xs[i], ys[j]);
    }
    if Overlap(ys, xs) {
      var i, j :| 0 <= i < |ys| && 0 <= j < |xs| && Meets(xs[j], ys[i]);
      assert Meets(ys[i], xs[j]);
    }
  }

  lemma {:induction false} HostedPiece(b: Batch, items: seq<Item>, outL: seq<Range>, outS: seq<Range>, i: nat, k: nat)
    requires Guarded(b, items, outL, outS, i) && GoodHost(b, i, k)
    ensures Guarded(b, items + [Piece(Prefix, k)], outL + b[k].d.prefixLoads, outS, i)
  {
    var it := Piece(Prefix, k);
    forall p, st | 0 <= p < |items|
      ensures !Clash(b, items[p], it, st)
    {
      HostedIsClear(b, i, k, items[p]);
    }
    SeparatedAppend(b, items, it);
    TracksAppend(b, items, it, outL, outL + b[k].d.prefixLoads, false, i);
    TracksAppend(b, items, it, outS, outS, true, i);
  }

  // ---------------------------------------------------------------- one dispatch

  lemma {:induction false} FenceGuards(b: Batch, h: Hosting, s: Scan, i: nat)
    requires i < |b| == |h.hosted| && Guarded(b, s.items, s.outL, s.outS, i)
    ensures var mask := FenceMask(b, s, i);
            Guarded(b, FenceStep(b, h, s, i).items, if mask % 2 == 1 then [] else s.outL,
              if mask >= 2 then [] else s.outS, i)
  {
    var mask := FenceMask(b, s, i);
    var items := s.items;
    if Early(b, h, s, i) {
      OwnPiece(b, items, s.outL, s.outS, Piece(Prefix, i));
      items := items + [Piece(Prefix, i)];
    }
    if mask != 0 {
      NotAPiece(b, items, s.outL, s.outS, Sync(mask), i);
      items := items + [Sync(mask)];
    }
    assert items == FenceStep(b, h, s, i).items;
  }

  lemma {:induction false} BodyGuards(b: Batch, h: Hosting, f: Scan, s: Scan, i: nat, outL: seq<Range>,
                                      outS: seq<Range>)
    requires i < |b| == |h.hosted| == |h.host| && HostsGood(b, h.host)
    requires Guarded(b, f.items, outL, outS, i) && NoClash(outL, outS, b[i].d)
    requires forall r :: r in b[i].d.prefixLoads ==> r in b[i].d.loads
    ensures Separated(b, f.items + BodyItems(b, h, s, i))
  {
    var items := f.items + [Load(i)];
    NotAPiece(b, f.items, outL, outS, Load(i), i);
    assert outL + [] == outL && outS + [] == outS;
    OverlapFlip(outS, b[i].d.loads);
    OverlapFlip(outS, b[i].d.prefixLoads);
    OverlapOutstanding(b[i].d.prefixLoads, b[i].d.loads, outS);
    if b[i].d.HasPrefix() && !h.hosted[i] && !Early(b, h, s, i) {
      OwnPiece(b, items, outL, outS, Piece(Prefix, i));
      items := items + [Piece(Prefix, i)];
    }
    if b[i].d.HasHead() {
      OwnPiece(b, items, outL, outS, Piece(Head, i));
      items := items + [Piece(Head, i)];
    }
    var outL' := outL;
    if IsHost(b, h, i) {
      var k := h.host[i];
      HostedPiece(b, items, outL, outS, i, k);
      HostedIsClear(b, i, k, Piece(Body, i));
      OverlapFlip(b[i].d.stores, b[k].d.prefixLoads);
      OverlapConcat(outL, b[k].d.prefixLoads, b[i].d.stores);
      items, outL' := items + [Piece(Prefix, k)], outL + b[k].d.prefixLoads;
    }
    OwnPiece(b, items, outL', outS, Piece(Body, i));
    assert items + [Piece(Body, i)] == f.items + BodyItems(b, h, s, i);
  }

  lemma {:induction false} OwnSkipped(b: Batch, s: Scan, i: nat)
    requires Exact(b, s)
    ensures Tracks(b, s.items, s.outL, false, i) && Tracks(b, s.items, s.outS, true, i)
  {
  }

  lemma {:induction false} MissesAreClear(ss: seq<Range>, rs: seq<Range>)
    ensures Overlap(ss, rs) ==> Hits(ss, rs) && ss != []
  {
  }

  /** After its FENCE (or by Settled, without one) a dispatch clashes with nothing outstanding. */
  lemma {:induction false} MaskClears(b: Batch, s: Scan, i: nat)
    requires i < |b|
    requires (i == 0 && s.outL == [] && s.outS == []) || (i > 0 && b[i].barrier) || NoClash(s.outL, s.outS, b[i].d)
    ensures var mask := FenceMask(b, s, i);
            NoClash(if mask % 2 == 1 then [] else s.outL, if mask >= 2 then [] else s.outS, b[i].d)
  {
    var mask := FenceMask(b, s, i);
    MissesAreClear(if mask >= 2 then [] else s.outS, b[i].d.loads);
    MissesAreClear(if mask >= 2 then [] else s.outS, b[i].d.stores);
    MissesAreClear(if mask % 2 == 1 then [] else s.outL, b[i].d.stores);
  }

  lemma {:induction false} SeparatesNext(b: Batch, i: nat)
    requires i < |b| && PrefixesDeclared(b) && Separated(b, ScanTo(b, i).items) && Exact(b, ScanTo(b, i))
    requires i == 0 || b[i].barrier || NoClash(ScanTo(b, i).outL, ScanTo(b, i).outS, b[i].d)
    ensures Separated(b, ScanTo(b, i + 1).items)
  {
    var h, s := Hosts(b), ScanTo(b, i);
    OwnSkipped(b, s, i);
    FenceGuards(b, h, s, i);
    MaskClears(b, s, i);
    HostingIsValid(b, |b|);
    var mask := FenceMask(b, s, i);
    BodyGuards(b, h, FenceStep(b, h, s, i), s, i, if mask % 2 == 1 then [] else s.outL,
      if mask >= 2 then [] else s.outS);
  }

  lemma {:induction false} SettledSeparates(b: Batch, i: nat)
    requires i <= |b| && PrefixesDeclared(b) && Settled(b)
    ensures Separated(b, ScanTo(b, i).items)
  {
    hide Exact, ScanStep, Hosts, Separated;
    StartIsExact(b);
    if i > 0 {
      SettledSeparates(b, i - 1);
      ScanIsExact(b, i - 1);
      SeparatesNext(b, i - 1);
    }
  }

  // ---------------------------------------------------------------- never more than needed is missing

  lemma {:induction false} GrowsFurther(xs: seq<Item>, ys: seq<Item>, its: seq<Item>, zs: seq<Item>)
    requires xs <= ys && zs == ys + its
    ensures xs <= zs
  {
  }

  lemma {:induction false} ScanGrows(b: Batch, i: nat, n: nat)
    requires i <= n <= |b|
    ensures ScanTo(b, i).items <= ScanTo(b, n).items
    decreases n
  {
    hide ScanStep;
    if i < n {
      ScanGrows(b, i, n - 1);
      ScanNext(b, n - 1);
      GrowsFurther(ScanTo(b, i).items, ScanTo(b, n - 1).items, NextItems(b, n - 1), ScanTo(b, n).items);
    }
  }

  /** A piece seen before dispatch i belongs to an earlier dispatch or is a hosted prefix. */
  ghost predicate SeenBefore(b: Batch, it: Item, i: nat) {
    it.Piece? && it.owner >= i ==> it.kind == Prefix && exists j ::
      0 <= j < i && j < |b| && Hosts(b).host[j] == it.owner
  }

  lemma {:induction false} NextOwners(b: Batch, i: nat, p: nat)
    requires i < |b| && p < |NextItems(b, i)|
    ensures SeenBefore(b, NextItems(b, i)[p], i + 1)
  {
    hide ScanTo, Early, GoodHost, HostsTo;
    HostingIsValid(b, |b|);
    var h := Hosts(b);
    var x := NextItems(b, i)[p];
    assert x in FenceItems(b, h, ScanTo(b, i), i) || x in BodyItems(b, h, ScanTo(b, i), i);
  }

  lemma {:induction false} ScanOwners(b: Batch, i: nat, p: nat)
    requires i <= |b| && p < |ScanTo(b, i).items|
    ensures SeenBefore(b, ScanTo(b, i).items[p], i)
  {
    hide ScanStep;
    if i > 0 {
      ScanNext(b, i - 1);
      var n := |ScanTo(b, i - 1).items|;
      if p < n {
        ScanOwners(b, i - 1, p);
        assert ScanTo(b, i).items[p] == ScanTo(b, i - 1).items[p];
      } else {
        NextOwners(b, i - 1, p - n);
        assert ScanTo(b, i).items[p] == NextItems(b, i - 1)[p - n];
      }
    }
  }

  lemma {:induction false} SeparatedShorter(b: Batch, xs: seq<Item>, ys: seq<Item>)
    requires xs <= ys && Separated(b, ys)
    ensures Separated(b, xs)
  {
    forall p, q, st | 0 <= p < q < |xs|
      ensures SeparatedPair(b, xs, p, q, st)
    {
      assert SeparatedPair(b, ys, p, q, st);
      if FenceBetween(ys, p, q, st) {
        var f :| 0 <= f && p < f < q && f < |ys| && ys[f].Sync? && Bit(ys[f].mask, st);
        assert xs[f] == ys[f];
      }
    }
  }

  lemma {:induction false} NoFenceIn(xs: seq<Item>, its: seq<Item>, p: nat, st: bool)
    requires p < |xs| && !FencedAfter(xs, p, st) && forall x :: x in its ==> !x.Sync?
    ensures !FenceBetween(xs + its, p, |xs + its| - 1, st)
  {
    var zs := xs + its;
    forall f | p < f < |zs|
      ensures !(zs[f].Sync? && Bit(zs[f].mask, st))
    {
      if f >= |xs| { assert zs[f] in its; }
    }
  }

  /** Without a barrier, nothing outstanding has a FENCE between it and the next body. */
  lemma {:induction false} NoFenceBeforeBody(b: Batch, i: nat)
    requires i < |b| && !b[i].barrier
    ensures forall x :: x in NextItems(b, i) ==> !x.Sync?
    ensures NextItems(b, i) != [] && NextItems(b, i)[|NextItems(b, i)|-1] == Piece(Body, i)
  {
    assert FenceItems(b, Hosts(b), ScanTo(b, i), i) == [];
  }

  lemma {:induction false} OutstandingOwner(b: Batch, i: nat, x: Item, st: bool, rs: seq<Range>)
    requires i < |b| && SeenBefore(b, x, i)
    requires rs == b[i].d.stores || (st && rs == b[i].d.loads)
    requires Overlap(RangesOf(b, x, st), rs)
    ensures x.Piece? && x.owner != i
  {
    if x == Piece(Prefix, i) {
      var j :| 0 <= j < i && j < |b| && Hosts(b).host[j] == i;
      HostingIsValid(b, |b|);
      HostedIsClear(b, j, i, Piece(Body, i));
      OverlapFlip(b[i].d.stores, b[i].d.prefixLoads);
    }
  }

  lemma {:induction false} OutstandingPiece(b: Batch, xs: seq<Item>, st: bool, out: seq<Range>, rs: seq<Range>)
    returns (p: nat)
    requires Live(b, xs, out, st) && Overlap(out, rs)
    ensures p < |xs| && !FencedAfter(xs, p, st) && Overlap(RangesOf(b, xs[p], st), rs)
  {
    hide RangesOf, FencedAfter;
    var u, v :| 0 <= u < |out| && 0 <= v < |rs| && Meets(rs[v], out[u]);
    assert out[u] in out;
    p :| 0 <= p < |xs| && out[u] in RangesOf(b, xs[p], st) && !FencedAfter(xs, p, st);
    var ss := RangesOf(b, xs[p], st);
    var w :| 0 <= w < |ss| && ss[w] == out[u];
    assert Meets(rs[v], ss[w]);
  }

  /** An outstanding range that clashes makes a pair without a FENCE. */
  lemma {:induction false} OutstandingClash(b: Batch, xs: seq<Item>, its: seq<Item>, i: nat, st: bool,
                                            out: seq<Range>, rs: seq<Range>)
    requires i < |b| && Live(b, xs, out, st) && forall p :: 0 <= p < |xs| ==> SeenBefore(b, xs[p], i)
    requires its != [] && its[|its|-1] == Piece(Body, i) && forall x :: x in its ==> !x.Sync?
    requires rs == b[i].d.stores || (st && rs == b[i].d.loads)
    ensures Overlap(out, rs) ==> !Separated(b, xs + its)
  {
    if Overlap(out, rs) {
      hide Live, Overlap, FencedAfter, FenceBetween, SeenBefore;
      var zs := xs + its;
      var p := OutstandingPiece(b, xs, st, out, rs);
      OutstandingOwner(b, i, xs[p], st, rs);
      NoFenceIn(xs, its, p, st);
      assert zs[p] == xs[p] && zs[|zs|-1] == Piece(Body, i);
      assert !SeparatedPair(b, zs, p, |zs| - 1, st);
    }
  }

  lemma {:induction false} SeparatedSettles(b: Batch, i: nat)
    requires i < |b| && !b[i].barrier && PrefixesDeclared(b) && Separated(b, ScanTo(b, i + 1).items)
    ensures NoClash(ScanTo(b, i).outL, ScanTo(b, i).outS, b[i].d)
  {
    var s, its := ScanTo(b, i), NextItems(b, i);
    ScanNext(b, i);
    ScanIsExact(b, i);
    NoFenceBeforeBody(b, i);
    forall p | 0 <= p < |s.items| ensures SeenBefore(b, s.items[p], i) { ScanOwners(b, i, p); }
    OutstandingClash(b, s.items, its, i, true, s.outS, b[i].d.loads);
    OutstandingClash(b, s.items, its, i, true, s.outS, b[i].d.stores);
    OutstandingClash(b, s.items, its, i, false, s.outL, b[i].d.stores);
  }

  /** The list separates every two dispatches that clash exactly when each dispatch recorded
      without a barrier clashes with nothing that is outstanding at its turn. */
  lemma {:induction false} FencesAreEnough(b: Batch)
    requires PrefixesDeclared(b)
    ensures Separated(b, Schedule(b)) <==> Settled(b)
  {
    hide ScanTo, Hosts, Separated;
    if Settled(b) { SettledSeparates(b, |b|); }
    if Separated(b, Schedule(b)) {
      forall i | 0 < i < |b| && !b[i].barrier
        ensures NoClash(ScanTo(b, i).outL, ScanTo(b, i).outS, b[i].d)
      {
        ScanGrows(b, i + 1, |b|);
        SeparatedShorter(b, ScanTo(b, i + 1).items, Schedule(b));
        SeparatedSettles(b, i);
      }
    }
  }
}
