/** The batch of a context: dispatches recorded, the list built and submitted at flush
(compiler/runtime/sa/sa_context.c:329-463). */
module BatchBuild {
  import opened Ranges
  import opened BatchList
  import opened BatchFences

  const MAX_REGS := 24
  const MAX_RANGES := 16
  const MIN_CAPACITY := 16     // room for the largest dispatch and END

  datatype Status = Ok | OutOfRange

  /** A recorded dispatch with the scheduler's marks. */
  datatype Entry = Entry(d: Dispatch, barrier: bool, host: int, hosted: bool)

  function RecordedOf(es: seq<Entry>): (b: Batch)
    ensures |b| == |es| && forall i :: 0 <= i < |es| ==> b[i] == Recorded(es[i].d, es[i].barrier)
  {
    seq(|es|, i requires 0 <= i < |es| => Recorded(es[i].d, es[i].barrier))
  }

  /** The descriptors set aside for one dispatch. */
  function Need(d: Dispatch): nat {
    (|d.regs| + 3) / 3 + 1 + 3 + 2
  }

  function Needs(b: Batch): nat {
    if b == [] then 0 else Needs(b[..|b|-1]) + Need(b[|b|-1].d)
  }

  predicate Fits(d: Dispatch) {
    |d.regs| <= MAX_REGS && |d.loads| <= MAX_RANGES && |d.stores| <= MAX_RANGES && |d.prefixLoads| <= MAX_RANGES
  }

  // ---------------------------------------------------------------- the budget

  lemma {:induction false} SetRegsLength(regs: seq<Setting>)
    ensures |SetRegs(regs)| == (|regs| + 2) / 3
  {
    if |regs| > 3 { SetRegsLength(regs[3..]); }
  }

  function Length(b: Batch, items: seq<Item>): nat {
    |Lower(b, items)|
  }

  lemma {:induction false} LengthConcat(b: Batch, xs: seq<Item>, ys: seq<Item>)
    ensures Length(b, xs + ys) == Length(b, xs) + Length(b, ys)
  {
    LowerConcat(b, xs, ys);
  }

  lemma {:induction false} LengthOptional(b: Batch, c: bool, it: Item)
    ensures Length(b, if c then [it] else []) == if c then |LowerItem(b, it)| else 0
  {
    assert [it][1..] == [];
    assert Lower(b, [it]) == LowerItem(b, it) + Lower(b, []);
  }

  lemma {:induction false} LengthFive(b: Batch, u: seq<Item>, v: seq<Item>, x: seq<Item>, y: seq<Item>, z: seq<Item>)
    ensures Length(b, u + v + x + y + z) == Length(b, u) + Length(b, v) + Length(b, x) + Length(b, y) + Length(b, z)
  {
    hide Length;
    LengthConcat(b, u + v + x + y, z);
    LengthConcat(b, u + v + x, y);
    LengthConcat(b, u + v, x);
    LengthConcat(b, u, v);
  }

  lemma {:induction false} FenceLength(b: Batch, h: Hosting, s: Scan, i: nat)
    requires i < |b| == |h.hosted|
    ensures Length(b, FenceItems(b, h, s, i))
            == (if Early(b, h, s, i) then 2 else 0) + if FenceMask(b, s, i) != 0 then 1 else 0
  {
    hide Early, FenceMask, Length;
    var early, mask := Early(b, h, s, i), FenceMask(b, s, i);
    LengthConcat(b, if early then [Piece(Prefix, i)] else [], if mask != 0 then [Sync(mask)] else []);
    LengthOptional(b, early, Piece(Prefix, i));
    LengthOptional(b, mask != 0, Sync(mask));
  }

  lemma {:induction false} BodyLength(b: Batch, h: Hosting, s: Scan, i: nat)
    requires i < |b| == |h.hosted| == |h.host|
    ensures Length(b, BodyItems(b, h, s, i))
            == (|b[i].d.regs| + 2) / 3
               + (if b[i].d.HasPrefix() && !h.hosted[i] && !Early(b, h, s, i) then 2 else 0)
               + (if b[i].d.HasHead() then 1 else 0) + (if IsHost(b, h, i) then 2 else 0) + 1
  {
    hide Early, Length, SetRegs;
    var own := b[i].d.HasPrefix() && !h.hosted[i] && !Early(b, h, s, i);
    var x4 := if own then [Piece(Prefix, i)] else [];
    var x5 := if b[i].d.HasHead() then [Piece(Head, i)] else [];
    var x6 := if IsHost(b, h, i) then [Piece(Prefix, h.host[i])] else [];
    assert BodyItems(b, h, s, i) == [Load(i)] + x4 + x5 + x6 + [Piece(Body, i)];
    LengthFive(b, [Load(i)], x4, x5, x6, [Piece(Body, i)]);
    LengthOptional(b, true, Load(i));
    LengthOptional(b, own, Piece(Prefix, i));
    LengthOptional(b, b[i].d.HasHead(), Piece(Head, i));
    LengthOptional(b, IsHost(b, h, i), Piece(Prefix, if h.host[i] >= 0 then h.host[i] else 0));
    LengthOptional(b, true, Piece(Body, i));
    SetRegsLength(b[i].d.regs);
  }

  /** A host's turn can take one descriptor more than was set aside for it; the turn of the dispatch it
      hosts for takes at least one less. */
  lemma {:induction false} TurnFits(b: Batch, h: Hosting, s: Scan, i: nat)
    requires i < |b| == |h.hosted| == |h.host|
    ensures Length(b, FenceItems(b, h, s, i)) + Length(b, BodyItems(b, h, s, i)) + (if h.hosted[i] then 1 else 0)
            <= Need(b[i].d) + if h.host[i] >= 0 then 1 else 0
  {
    assert Early(b, h, s, i) ==> b[i].d.HasPrefix() && !h.hosted[i];
    assert IsHost(b, h, i) ==> h.host[i] >= 0 && b[i].d.HasHead();
    hide Early, FenceMask, FenceItems, BodyItems, Length;
    FenceLength(b, h, s, i);
    BodyLength(b, h, s, i);
  }

  lemma {:induction false} NoLength(b: Batch)
    ensures Length(b, []) == 0
  {
  }

  /** Hosts among the first n dispatches. */
  function HostCount(host: seq<int>, n: nat): nat
    requires n <= |host|
  {
    if n == 0 then 0 else HostCount(host, n - 1) + if host[n - 1] >= 0 then 1 else 0
  }

  /** Dispatches among the first n whose prefix is hosted. */
  function HostedCount(hosted: seq<bool>, n: nat): nat
    requires n <= |hosted|
  {
    if n == 0 then 0 else HostedCount(hosted, n - 1) + if hosted[n - 1] then 1 else 0
  }

  lemma {:induction false} OneHostMore(host: seq<int>, j: nat, k: nat, n: nat)
    requires j < |host| && n <= |host| && host[j] < 0
    ensures HostCount(host[j := k], n) == HostCount(host, n) + if j < n then 1 else 0
  {
    if n > 0 { OneHostMore(host, j, k, n - 1); }
  }

  lemma {:induction false} OneHostedMore(hosted: seq<bool>, k: nat, n: nat)
    requires k < |hosted| && n <= |hosted| && !hosted[k]
    ensures HostedCount(hosted[k := true], n) == HostedCount(hosted, n) + if k < n then 1 else 0
  {
    if n > 0 { OneHostedMore(hosted, k, n - 1); }
  }

  lemma {:induction false} NoHosts(n: nat, m: nat)
    requires m <= n
    ensures HostCount(seq(n, _ => -1), m) == 0 && HostedCount(seq(n, _ => false), m) == 0
  {
    if m > 0 { NoHosts(n, m - 1); }
  }

  /** As many dispatches are hosts as have a hosted prefix. */
  lemma {:induction false} HostsMatch(b: Batch, k: nat)
    requires k <= |b|
    ensures HostCount(HostsTo(b, k).host, |b|) == HostedCount(HostsTo(b, k).hosted, |b|)
  {
    if k == 0 {
      NoHosts(|b|, |b|);
    } else {
      HostsMatch(b, k - 1);
      HostingIsValid(b, k - 1);
      var h, best := HostsTo(b, k - 1), BestHost(b, HostsTo(b, k - 1).host, k - 2, -1);
      BestHostIs(b, h.host, k - 2, -1, k - 1);
      assert !h.hosted[k - 1];
      hide HostsTo, HostingValid, BestHost, Hits, AllStores;
      if best >= 0 { OneHostMore(h.host, best, k - 1, |b|); }
      OneHostedMore(h.hosted, k - 1, |b|);
    }
  }

  lemma {:induction false} ScanFits(b: Batch, i: nat)
    requires i <= |b|
    ensures Length(b, ScanTo(b, i).items) + HostedCount(Hosts(b).hosted, i)
            <= Needs(b[..i]) + HostCount(Hosts(b).host, i)
  {
    NoLength(b);
    hide ScanStep, NextItems, HostsTo, Length, Need;
    if i > 0 {
      ScanFits(b, i - 1);
      NextLength(b, i - 1);
      TurnFits(b, Hosts(b), ScanTo(b, i - 1), i - 1);
      ScanNext(b, i - 1);
      LengthConcat(b, ScanTo(b, i - 1).items, NextItems(b, i - 1));
      assert b[..i][..i-1] == b[..i-1] && b[..i][i-1] == b[i-1];
    }
  }

  lemma {:induction false} NextLength(b: Batch, i: nat)
    requires i < |b|
    ensures var h, s := Hosts(b), ScanTo(b, i);
            Length(b, NextItems(b, i)) == Length(b, FenceItems(b, h, s, i)) + Length(b, BodyItems(b, h, s, i))
  {
    hide ScanTo, FenceItems, BodyItems, HostsTo, Length;
    LengthConcat(b, FenceItems(b, Hosts(b), ScanTo(b, i), i), BodyItems(b, Hosts(b), ScanTo(b, i), i));
  }

  /** The list of any batch fits what was set aside for its dispatches. */
  lemma {:induction false} ListFits(b: Batch)
    ensures Length(b, Schedule(b)) <= Needs(b)
  {
    hide ScanTo, HostsTo, Length, Needs;
    ScanFits(b, |b|);
    HostsMatch(b, |b|);
    assert b[..|b|] == b;
  }

  /** So does everything emitted up to any dispatch. */
  lemma {:induction false} EveryPrefixFits(b: Batch, i: nat)
    requires i <= |b|
    ensures Length(b, ScanTo(b, i).items) <= Needs(b)
  {
    hide ScanTo, HostsTo, Needs;
    ListFits(b);
    ScanGrows(b, i, |b|);
    var xs, ys := ScanTo(b, i).items, ScanTo(b, |b|).items;
    assert ys == xs + ys[|xs|..];
    LengthConcat(b, xs, ys[|xs|..]);
  }

  // ---------------------------------------------------------------- one turn's share

  /** A dispatch with a prefix and a head that is not marked as touching SPAD_B, between one that
      stores what it loads and one whose prefix it can host. */
  function TightBatch(): Batch {
    var r, w := Range(0, 16), Range(64, 80);
    [Recorded(Dispatch(0, 0, 1, 0, [], true, [], [r], []), false),
     Recorded(Dispatch(5, 6, 7, 0, [Setting(0, 0)], false, [r], [], [r]), true),
     Recorded(Dispatch(8, 0, 9, 0, [], true, [w], [], [w]), true)]
  }

  lemma {:induction false} TightStores()
    ensures AllStores(TightBatch()) == [Range(0, 16)]
  {
    var b := TightBatch();
    assert b[..2][..1] == b[..1] && b[..1][..0] == [];
    assert AllStores(b[..1]) == [] + [Range(0, 16)];
    assert AllStores(b[..2]) == AllStores(b[..1]) + [];
    assert AllStores(b) == AllStores(b[..2]) + [];
  }

  lemma {:induction false} TightHosts()
    ensures Hosts(TightBatch()) == Hosting([-1, 2, -1], [false, false, true])
  {
    var b := TightBatch();
    TightStores();
    var all := AllStores(b);
    assert Overlap(all, b[1].d.prefixLoads) by { assert Meets(b[1].d.prefixLoads[0], all[0]); }
    assert !Hits(all, b[2].d.prefixLoads);
    var h0 := Hosting([-1, -1, -1], [false, false, false]);
    assert HostsTo(b, 0) == h0;
    assert HostsTo(b, 1) == h0;
    assert HostsTo(b, 2) == h0;
    assert BestHost(b, h0.host, 0, 1) == 1;
    assert BestHost(b, h0.host, 1, -1) == 1;
    assert HostsTo(b, 3) == Hosting(h0.host[1 := 2], h0.hosted[2 := true]);
  }

  lemma {:induction false} TightScan()
    ensures ScanTo(TightBatch(), 1).outS == [Range(0, 16)] && ScanTo(TightBatch(), 1).outL == []
  {
    var b := TightBatch();
    TightHosts();
    assert ScanTo(b, 0) == Scan([], [], []);
    assert FenceMask(b, ScanTo(b, 0), 0) == 0;
  }

  lemma {:induction false} TightMask(s: Scan)
    requires s.outS == [Range(0, 16)] && s.outL == []
    ensures var b, h := TightBatch(), Hosts(TightBatch());
            && FenceMask(b, s, 1) == 2 && !Early(b, h, s, 1) && IsHost(b, h, 1) && !h.hosted[1]
            && b[1].d.HasPrefix() && b[1].d.HasHead() && |b[1].d.regs| == 1
  {
    TightHosts();
    hide HostsTo;
    var d := TightBatch()[1].d;
    assert Overlap(s.outS, d.loads) && Overlap(s.outS, d.prefixLoads) by { assert Meets(d.loads[0], s.outS[0]); }
  }

  /** One turn alone can exceed its own share: this dispatch runs its own prefix after a FENCE and hosts
      another one. The dispatch it hosts for leaves at least as much unused. */
  lemma {:induction false} TurnOverShare()
    ensures var b := TightBatch();
            Length(b, NextItems(b, 1)) == Need(b[1].d) + 1 && Length(b, NextItems(b, 2)) < Need(b[2].d)
  {
    TightScan();
    TightHosts();
    hide ScanTo, HostsTo, Length, FenceItems, BodyItems;
    var b := TightBatch();
    var h, s := Hosts(b), ScanTo(b, 1);
    TightMask(s);
    hide TightBatch, Early, FenceMask, IsHost;
    FenceLength(b, h, s, 1);
    BodyLength(b, h, s, 1);
    NextLength(b, 1);
    NextLength(b, 2);
    TurnFits(b, h, ScanTo(b, 2), 2);
  }
}
