/** Every template of every dispatch runs exactly once, in the order prefix, head, body
(compiler/runtime/sa/sa_context.c:382-443). */
module BatchPieces {
  import opened Ranges
  import opened BatchList
  import opened BatchFences

  function Rank(kind: Kind): nat {
    match kind case Prefix => 0 case Head => 1 case Body => 2
  }

  ghost predicate SamePiece(x: Item, y: Item) {
    x.Piece? && y.Piece? && x.owner == y.owner
  }

  /** The pieces of one dispatch come in the order prefix, head, body, each at most once. */
  ghost predicate OwnOrder(items: seq<Item>) {
    forall s, t :: 0 <= s < t < |items| && SamePiece(items[s], items[t]) ==> Rank(items[s].kind) < Rank(items[t].kind)
  }

  ghost predicate OwnBelow(items: seq<Item>, i: nat, rank: nat) {
    forall s :: 0 <= s < |items| && items[s].Piece? && items[s].owner == i ==> Rank(items[s].kind) < rank
  }

  lemma {:induction false} OrderAppend(items: seq<Item>, it: Item)
    requires OwnOrder(items) && it.Piece? && OwnBelow(items, it.owner, Rank(it.kind))
    ensures OwnOrder(items + [it]) && OwnBelow(items + [it], it.owner, Rank(it.kind) + 1)
  {
  }

  lemma {:induction false} OrderSkip(items: seq<Item>, it: Item, i: nat, rank: nat)
    requires OwnBelow(items, i, rank) && (!it.Piece? || it.owner != i)
    ensures OwnBelow(items + [it], i, rank)
    ensures OwnOrder(items) && !it.Piece? ==> OwnOrder(items + [it])
  {
  }

  /** Before dispatch i's turn only its prefix can have run, and only as a hosted one. */
  lemma {:induction false} BeforeTurn(b: Batch, i: nat, k: nat)
    requires i <= k < |b|
    ensures OwnBelow(ScanTo(b, i).items, k, if Hosts(b).hosted[k] then 1 else 0)
    ensures forall j :: i <= j < |b| && Hosts(b).host[j] == k ==> OwnBelow(ScanTo(b, i).items, k, 0)
  {
    hide ScanTo, HostsTo;
    HostingIsValid(b, |b|);
    var items := ScanTo(b, i).items;
    forall s | 0 <= s < |items| && items[s].Piece? && items[s].owner == k
      ensures items[s].kind == Prefix && exists j :: 0 <= j < i && Hosts(b).host[j] == k
    {
      ScanOwners(b, i, s);
    }
  }

  lemma {:induction false} FenceItemsOrder(b: Batch, h: Hosting, s: Scan, i: nat)
    requires i < |b| == |h.hosted|
    requires OwnOrder(s.items) && OwnBelow(s.items, i, if h.hosted[i] then 1 else 0)
    ensures var z := s.items + FenceItems(b, h, s, i);
            OwnOrder(z) && OwnBelow(z, i, if h.hosted[i] || Early(b, h, s, i) then 1 else 0)
  {
    var z := s.items;
    if Early(b, h, s, i) {
      OrderAppend(z, Piece(Prefix, i));
      z := z + [Piece(Prefix, i)];
    }
    if FenceMask(b, s, i) != 0 {
      OrderSkip(z, Sync(FenceMask(b, s, i)), i, if h.hosted[i] || Early(b, h, s, i) then 1 else 0);
      z := z + [Sync(FenceMask(b, s, i))];
    }
    assert z == s.items + FenceItems(b, h, s, i);
  }

  lemma {:induction false} BodyItemsOrder(b: Batch, h: Hosting, s: Scan, items: seq<Item>, i: nat)
    requires i < |b| == |h.hosted| == |h.host|
    requires OwnOrder(items) && OwnBelow(items, i, if h.hosted[i] || Early(b, h, s, i) then 1 else 0)
    requires IsHost(b, h, i) ==> h.host[i] != i && OwnBelow(items, h.host[i], 0)
    ensures OwnOrder(items + BodyItems(b, h, s, i))
  {
    hide Early, OwnOrder, OwnBelow;
    var z := items + [Load(i)];
    var k := if IsHost(b, h, i) then h.host[i] else i + 1;
    var r := if h.hosted[i] || Early(b, h, s, i) then 1 else 0;
    OrderSkip(items, Load(i), i, r);
    if IsHost(b, h, i) { OrderSkip(items, Load(i), k, 0); }
    if b[i].d.HasPrefix() && !h.hosted[i] && !Early(b, h, s, i) {
      OrderAppend(z, Piece(Prefix, i));
      if IsHost(b, h, i) { OrderSkip(z, Piece(Prefix, i), k, 0); }
      z, r := z + [Piece(Prefix, i)], 1;
    }
    OwnBelowMore(z, i, r, 1);
    OwnBelowMore(z, i, 1, 2);
    if b[i].d.HasHead() {
      OrderAppend(z, Piece(Head, i));
      if IsHost(b, h, i) { OrderSkip(z, Piece(Head, i), k, 0); }
      z := z + [Piece(Head, i)];
    }
    if IsHost(b, h, i) {
      OrderAppend(z, Piece(Prefix, k));
      OrderSkip(z, Piece(Prefix, k), i, 2);
      z := z + [Piece(Prefix, k)];
    }
    OrderAppend(z, Piece(Body, i));
    assert z + [Piece(Body, i)] == items + BodyItems(b, h, s, i);
  }

  lemma {:induction false} OwnBelowMore(items: seq<Item>, i: nat, r: nat, rank: nat)
    requires r <= rank && OwnBelow(items, i, r)
    ensures OwnBelow(items, i, rank)
  {
  }

  lemma {:induction false} NextOrder(b: Batch, i: nat)
    requires i < |b| && OwnOrder(ScanTo(b, i).items)
    ensures OwnOrder(ScanTo(b, i).items + NextItems(b, i))
  {
    hide ScanTo, FenceItems, BodyItems, Early, HostsTo, OwnOrder, OwnBelow;
    HostingIsValid(b, |b|);
    var h, s := Hosts(b), ScanTo(b, i);
    BeforeTurn(b, i, i);
    FenceItemsOrder(b, h, s, i);
    var z := s.items + FenceItems(b, h, s, i);
    if IsHost(b, h, i) {
      var k := h.host[i];
      BeforeTurn(b, i, k);
      NoneOfHosted(b, h, s, i, k);
    }
    BodyItemsOrder(b, h, s, z, i);
    assert z + BodyItems(b, h, s, i) == s.items + NextItems(b, i);
  }

  lemma {:induction false} NoneOfHosted(b: Batch, h: Hosting, s: Scan, i: nat, k: nat)
    requires i < k < |b| == |h.hosted| && OwnBelow(s.items, k, 0)
    ensures OwnBelow(s.items + FenceItems(b, h, s, i), k, 0)
  {
  }

  lemma {:induction false} ScanOrder(b: Batch, i: nat)
    requires i <= |b|
    ensures OwnOrder(ScanTo(b, i).items)
  {
    hide ScanStep, NextItems;
    if i > 0 {
      ScanOrder(b, i - 1);
      NextOrder(b, i - 1);
      ScanNext(b, i - 1);
    }
  }

  // ---------------------------------------------------------------- nothing is forgotten

  lemma {:induction false} OptionalMember(c: bool, y: Item, x: Item)
    ensures x in (if c then [y] else []) <==> c && x == y
  {
  }

  lemma {:induction false} FenceMembers(b: Batch, h: Hosting, s: Scan, i: nat, x: Item)
    requires i < |b| == |h.hosted| && x.Piece?
    ensures x in FenceItems(b, h, s, i) <==> Early(b, h, s, i) && x == Piece(Prefix, i)
  {
    hide Early, FenceMask;
    var u := if Early(b, h, s, i) then [Piece(Prefix, i)] else [];
    var v := if FenceMask(b, s, i) != 0 then [Sync(FenceMask(b, s, i))] else [];
    OptionalMember(Early(b, h, s, i), Piece(Prefix, i), x);
    OptionalMember(FenceMask(b, s, i) != 0, Sync(FenceMask(b, s, i)), x);
    assert x in u + v <==> x in u || x in v;
  }

  lemma {:induction false} BodyMembers(b: Batch, h: Hosting, s: Scan, i: nat, x: Item)
    requires i < |b| == |h.hosted| == |h.host| && x.Piece?
    ensures x in BodyItems(b, h, s, i) <==>
              || x == Piece(Body, i)
              || (b[i].d.HasHead() && x == Piece(Head, i))
              || (b[i].d.HasPrefix() && !h.hosted[i] && !Early(b, h, s, i) && x == Piece(Prefix, i))
              || (IsHost(b, h, i) && x == Piece(Prefix, h.host[i]))
  {
    hide Early;
    var u := if b[i].d.HasPrefix() && !h.hosted[i] && !Early(b, h, s, i) then [Piece(Prefix, i)] else [];
    var v := if b[i].d.HasHead() then [Piece(Head, i)] else [];
    var w := if IsHost(b, h, i) then [Piece(Prefix, h.host[i])] else [];
    OptionalMember(b[i].d.HasPrefix() && !h.hosted[i] && !Early(b, h, s, i), Piece(Prefix, i), x);
    OptionalMember(b[i].d.HasHead(), Piece(Head, i), x);
    assert x in [Load(i)] + u <==> x in [Load(i)] || x in u;
    assert x in [Load(i)] + u + v <==> x in [Load(i)] + u || x in v;
    assert x in [Load(i)] + u + v + w <==> x in [Load(i)] + u + v || x in w;
    assert x in BodyItems(b, h, s, i) <==> x in [Load(i)] + u + v + w || x in [Piece(Body, i)];
  }

  /** The pieces a dispatch's turn adds. */
  lemma {:induction false} NextMembers(b: Batch, i: nat, x: Item)
    requires i < |b| && x.Piece?
    ensures x in NextItems(b, i) <==>
              || x == Piece(Body, i)
              || (b[i].d.HasHead() && x == Piece(Head, i))
              || (b[i].d.HasPrefix() && !Hosts(b).hosted[i] && x == Piece(Prefix, i))
              || (IsHost(b, Hosts(b), i) && x == Piece(Prefix, Hosts(b).host[i]))
  {
    EarlyHasPrefix(b, Hosts(b), ScanTo(b, i), i);
    hide Early, BodyItems, FenceItems, HostsTo, ScanTo;
    var h, s := Hosts(b), ScanTo(b, i);
    FenceMembers(b, h, s, i, x);
    BodyMembers(b, h, s, i, x);
    assert x in NextItems(b, i) <==> x in FenceItems(b, h, s, i) || x in BodyItems(b, h, s, i);
  }

  lemma {:induction false} NextPrefix(b: Batch, i: nat, k: nat)
    requires i < |b| && Piece(Prefix, k) in NextItems(b, i)
    ensures k < |b| && b[k].d.HasPrefix()
  {
    NextMembers(b, i, Piece(Prefix, k));
    hide NextItems, HostsTo;
    HostingIsValid(b, |b|);
  }

  lemma {:induction false} EarlyHasPrefix(b: Batch, h: Hosting, s: Scan, i: nat)
    requires i < |b| == |h.hosted|
    ensures Early(b, h, s, i) ==> b[i].d.HasPrefix() && !h.hosted[i]
  {
  }

  lemma {:induction false} ScanHas(b: Batch, i: nat, n: nat, x: Item)
    requires i < n <= |b| && x in NextItems(b, i)
    ensures x in ScanTo(b, n).items
  {
    hide ScanTo, NextItems;
    ScanNext(b, i);
    ScanGrows(b, i + 1, n);
    var y, z := ScanTo(b, i).items, ScanTo(b, n).items;
    var p :| 0 <= p < |NextItems(b, i)| && NextItems(b, i)[p] == x;
    assert z[|y| + p] == x;
  }

  lemma {:induction false} ScanPieces(b: Batch, n: nat, x: Item)
    requires n <= |b| && x in ScanTo(b, n).items
    ensures exists i :: 0 <= i < n && x in NextItems(b, i)
  {
    hide ScanStep, NextItems;
    if n > 0 {
      ScanNext(b, n - 1);
      if x !in NextItems(b, n - 1) { ScanPieces(b, n - 1, x); }
    }
  }

  lemma {:induction false} DispatchRuns(b: Batch, i: nat)
    requires i < |b|
    ensures var z := ScanTo(b, i + 1).items;
            && Piece(Body, i) in z
            && (Piece(Head, i) in z <==> b[i].d.HasHead())
            && (Piece(Prefix, i) in z <==> b[i].d.HasPrefix())
  {
    hide ScanTo, NextItems, HostsTo;
    HostingIsValid(b, |b|);
    var z, h := ScanTo(b, i + 1).items, Hosts(b);
    NextMembers(b, i, Piece(Body, i));
    NextMembers(b, i, Piece(Head, i));
    NextMembers(b, i, Piece(Prefix, i));
    ScanHas(b, i, i + 1, Piece(Body, i));
    if b[i].d.HasHead() { ScanHas(b, i, i + 1, Piece(Head, i)); }
    if Piece(Head, i) in z {
      ScanPieces(b, i + 1, Piece(Head, i));
      var j :| 0 <= j < i + 1 && Piece(Head, i) in NextItems(b, j);
      NextMembers(b, j, Piece(Head, i));
    }
    if b[i].d.HasPrefix() {
      if h.hosted[i] {
        var j :| 0 <= j < |b| && h.host[j] == i;
        assert GoodHost(b, j, i);
        NextMembers(b, j, Piece(Prefix, i));
        ScanHas(b, j, i + 1, Piece(Prefix, i));
      } else {
        ScanHas(b, i, i + 1, Piece(Prefix, i));
      }
    }
    if Piece(Prefix, i) in z {
      ScanPieces(b, i + 1, Piece(Prefix, i));
      var j :| 0 <= j < i + 1 && Piece(Prefix, i) in NextItems(b, j);
      NextPrefix(b, j, i);
    }
  }

  /** Position s of the schedule is dispatch i's body: by then its prefix and head, if it has
      them, have run; no piece of any dispatch runs twice. */
  lemma {:induction false} EveryPieceOnce(b: Batch)
    ensures OwnOrder(Schedule(b))
    ensures forall i :: 0 <= i < |b| ==>
              && Piece(Body, i) in Schedule(b)
              && (Piece(Head, i) in Schedule(b) <==> b[i].d.HasHead())
              && (Piece(Prefix, i) in Schedule(b) <==> b[i].d.HasPrefix())
  {
    hide ScanTo, NextItems, HostsTo, OwnOrder;
    ScanOrder(b, |b|);
    forall i | 0 <= i < |b|
      ensures Piece(Body, i) in Schedule(b) && (Piece(Head, i) in Schedule(b) <==> b[i].d.HasHead())
              && (Piece(Prefix, i) in Schedule(b) <==> b[i].d.HasPrefix())
    {
      DispatchRuns(b, i);
      ScanGrows(b, i + 1, |b|);
      if Piece(Head, i) in Schedule(b) {
        ScanPieces(b, |b|, Piece(Head, i));
        var j :| 0 <= j < |b| && Piece(Head, i) in NextItems(b, j);
        NextMembers(b, j, Piece(Head, i));
      }
      if Piece(Prefix, i) in Schedule(b) {
        ScanPieces(b, |b|, Piece(Prefix, i));
        var j :| 0 <= j < |b| && Piece(Prefix, i) in NextItems(b, j);
        NextPrefix(b, j, i);
      }
    }
  }
}
