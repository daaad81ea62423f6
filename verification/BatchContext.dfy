/** The context's batch as the driver keeps it: entries recorded in place, the list built into a
fixed buffer at flush (compiler/runtime/sa/sa_context.c:220-463). */
module BatchContext {
  import opened Ranges
  import opened BatchList
  import opened BatchBuild

  lemma {:induction false} SetRegsStep(rs: seq<Setting>, n: nat)
    requires rs != [] && n == if |rs| < 3 then |rs| else 3
    ensures SetRegs(rs) == [SetReg(rs[..n])] + SetRegs(rs[n..])
  {
    if |rs| <= 3 {
      assert rs[..n] == rs && rs[n..] == [];
      assert [SetReg(rs)] + [] == [SetReg(rs)];
    }
  }

  /** Descriptors appended to a list buffer. */
  class ListBuffer {
    const w: array<Desc>
    var k: nat

    ghost predicate Valid()
      reads this
    {
      k <= w.Length
    }

    ghost function Contents(): seq<Desc>
      requires Valid()
      reads this, w
    {
      w[..k]
    }

    constructor (capacity: nat)
      ensures Valid() && fresh(w) && w.Length == capacity && k == 0
    {
      w := new Desc[capacity](_ => End(0));
      k := 0;
    }

    method Emit(d: Desc)
      requires Valid() && k < w.Length
      modifies this`k, w
      ensures Valid() && k == old(k) + 1 && Contents() == old(Contents()) + [d]
    {
      w[k] := d;
      k := k + 1;
    }

    /** SETREGs of up to three registers each. */
    method EmitSetRegs(regs: seq<Setting>)
      requires Valid() && k + (|regs| + 2) / 3 <= w.Length
      modifies this`k, w
      ensures Valid() && k == old(k) + |SetRegs(regs)| && Contents() == old(Contents()) + SetRegs(regs)
    {
      var i := 0;
      while i < |regs|
        invariant 0 <= i <= |regs| && Valid()
        invariant k + (|regs| - i + 2) / 3 <= w.Length
        invariant k + |SetRegs(regs[i..])| == old(k) + |SetRegs(regs)|
        invariant Contents() + SetRegs(regs[i..]) == old(Contents()) + SetRegs(regs)
      {
        var n := if |regs| - i < 3 then |regs| - i else 3;
        ghost var before := Contents();
        assert regs[i..][..n] == regs[i..i+n] && regs[i..][n..] == regs[i+n..];
        SetRegsStep(regs[i..], n);
        Emit(SetReg(regs[i..i+n]));
        assert before + ([SetReg(regs[i..i+n])] + SetRegs(regs[i+n..])) == Contents() + SetRegs(regs[i+n..]);
        i := i + n;
      }
      assert regs[i..] == [];
    }

    method EmitPrefix(d: Dispatch)
      requires Valid() && k + 2 <= w.Length
      modifies this`k, w
      ensures Valid() && k == old(k) + 2 && Contents() == old(Contents()) + PrefixCall(d)
    {
      Emit(SetReg([Setting(BASE15, d.prefixBase)]));
      Emit(Call(d.prefixPhys));
    }
  }

  lemma {:induction false} LowerOptional(b: Batch, c: bool, it: Item)
    ensures Lower(b, if c then [it] else []) == if c then LowerItem(b, it) else []
  {
    assert [it][1..] == [];
    assert LowerItem(b, it) + Lower(b, []) == LowerItem(b, it);
  }

  lemma {:induction false} FenceLowers(b: Batch, h: Hosting, s: Scan, i: nat)
    requires i < |b| == |h.hosted|
    ensures Lower(b, FenceItems(b, h, s, i))
            == (if Early(b, h, s, i) then PrefixCall(b[i].d) else [])
               + (if FenceMask(b, s, i) != 0 then [Fence(FenceMask(b, s, i))] else [])
  {
    hide Early, FenceMask, Lower;
    var early, mask := Early(b, h, s, i), FenceMask(b, s, i);
    LowerConcat(b, if early then [Piece(Prefix, i)] else [], if mask != 0 then [Sync(mask)] else []);
    LowerOptional(b, early, Piece(Prefix, i));
    LowerOptional(b, mask != 0, Sync(mask));
  }

  lemma {:induction false} BodyLowers(b: Batch, h: Hosting, s: Scan, i: nat)
    requires i < |b| == |h.hosted| == |h.host|
    ensures Lower(b, BodyItems(b, h, s, i))
            == SetRegs(b[i].d.regs)
               + (if b[i].d.HasPrefix() && !h.hosted[i] && !Early(b, h, s, i) then PrefixCall(b[i].d) else [])
               + (if b[i].d.HasHead() then [Call(b[i].d.headPhys)] else [])
               + (if IsHost(b, h, i) then PrefixCall(b[h.host[i]].d) else [])
               + [Call(b[i].d.bodyPhys)]
  {
    hide Early, Lower;
    var own := b[i].d.HasPrefix() && !h.hosted[i] && !Early(b, h, s, i);
    var x4 := if own then [Piece(Prefix, i)] else [];
    var x5 := if b[i].d.HasHead() then [Piece(Head, i)] else [];
    var x6 := if IsHost(b, h, i) then [Piece(Prefix, h.host[i])] else [];
    assert BodyItems(b, h, s, i) == [Load(i)] + x4 + x5 + x6 + [Piece(Body, i)];
    LowerConcat(b, [Load(i)] + x4 + x5 + x6, [Piece(Body, i)]);
    LowerConcat(b, [Load(i)] + x4 + x5, x6);
    LowerConcat(b, [Load(i)] + x4, x5);
    LowerConcat(b, [Load(i)], x4);
    LowerOptional(b, true, Load(i));
    LowerOptional(b, own, Piece(Prefix, i));
    LowerOptional(b, b[i].d.HasHead(), Piece(Head, i));
    LowerOptional(b, IsHost(b, h, i), Piece(Prefix, if h.host[i] >= 0 then h.host[i] else 0));
    LowerOptional(b, true, Piece(Body, i));
  }

  lemma {:induction false} AppendTwo<T>(o: seq<T>, a: seq<T>, b: seq<T>)
    ensures o + a + b == o + (a + b)
  {
  }

  lemma {:induction false} AppendFive<T>(o: seq<T>, a: seq<T>, b: seq<T>, c: seq<T>, d: seq<T>, e: seq<T>)
    ensures o + a + b + c + d + e == o + (a + b + c + d + e)
  {
  }

  function DispatchesOf(b: Batch): seq<Dispatch> {
    if b == [] then [] else DispatchesOf(b[..|b|-1]) + [b[|b|-1].d]
  }

  function Joined(bs: seq<Batch>): Batch {
    if bs == [] then [] else Joined(bs[..|bs|-1]) + bs[|bs|-1]
  }

  function ListsOf(bs: seq<Batch>): seq<seq<Desc>> {
    if bs == [] then [] else ListsOf(bs[..|bs|-1]) + [ListOf(bs[|bs|-1])]
  }

  lemma {:induction false} FlushedMore(bs: seq<Batch>, b: Batch)
    ensures Joined(bs + [b]) + [] == Joined(bs) + b
    ensures ListsOf(bs + [b]) == ListsOf(bs) + [ListOf(b)]
  {
    assert (bs + [b])[..|bs|] == bs;
  }

  lemma {:induction false} OneMore(b: Batch, c: Batch, x: Recorded)
    ensures DispatchesOf(b + (c + [x])) == DispatchesOf(b + c) + [x.d]
    ensures Needs(c + [x]) == Needs(c) + Need(x.d)
  {
    assert b + (c + [x]) == (b + c) + [x];
    assert ((b + c) + [x])[..|b + c|] == b + c && (c + [x])[..|c|] == c;
  }

  lemma {:induction false} RecordedMore(es: seq<Entry>, e: Entry)
    ensures RecordedOf(es + [e]) == RecordedOf(es) + [Recorded(e.d, e.barrier)]
  {
  }

  /** The batch half of a context. */
  class Context {
    const entries: array<Entry>
    var entryCount: nat
    var entryDescriptors: nat    // set aside for the recorded dispatches
    var batch: ListBuffer
    var batchFence: bool         // a barrier before the next dispatch
    var lists: seq<seq<Desc>>    // the lists submitted so far
    ghost var recorded: Batch    // the dispatches of the list being built
    ghost var flushed: seq<Batch> // the dispatches of each submitted list

    ghost predicate Valid()
      reads this, entries, batch, batch.w
    {
      && 0 < entries.Length && entryCount <= entries.Length
      && batch.Valid() && MIN_CAPACITY <= batch.w.Length
      && recorded == RecordedOf(entries[..entryCount])
      && entryDescriptors == Needs(recorded) && entryDescriptors + 1 <= batch.w.Length
      && (forall i :: 0 <= i < entryCount ==> entries[i].host == -1 && !entries[i].hosted)
      && lists == ListsOf(flushed)
    }

    /** Every dispatch ever added, in order. */
    ghost function Added(): seq<Dispatch>
      reads this
    {
      DispatchesOf(Joined(flushed) + recorded)
    }

    constructor (capacity: nat, descriptors: nat)
      requires 0 < capacity && MIN_CAPACITY <= descriptors
      ensures Valid() && Added() == [] && lists == [] && !batchFence
      ensures entries.Length == capacity && batch.w.Length == descriptors && fresh(entries) && fresh(batch)
              && fresh(batch.w)
    {
      entries := new Entry[capacity](_ => Entry(Dispatch(0, 0, 0, 0, [], false, [], [], []), false, -1, false));
      batch := new ListBuffer(descriptors);
      entryCount, entryDescriptors, batchFence, lists, recorded, flushed := 0, 0, false, [], [], [];
    }

    /** The next dispatch depends on the previous ones through DDR. */
    method Barrier()
      requires Valid()
      modifies this`batchFence
      ensures Valid() && batchFence
    {
      batchFence := true;
    }

    /** The entries carry the marks of h. */
    ghost predicate Marked(h: Hosting)
      reads this, entries
    {
      && entryCount <= entries.Length && recorded == RecordedOf(entries[..entryCount])
      && |h.host| == |h.hosted| == entryCount
      && forall i :: 0 <= i < entryCount ==> entries[i].host == h.host[i] && entries[i].hosted == h.hosted[i]
    }

    lemma {:induction false} StartUnmarked()
      requires Valid()
      ensures Marked(HostsTo(recorded, 0)) && entryCount == |recorded|
    {
    }

    /** Which prefixes run inside which earlier dispatch, marked in the entries. */
    method PlacePrefixes()
      requires Valid()
      modifies entries
      ensures Marked(Hosts(recorded))
    {
      StartUnmarked();
      var writtenAll := new RangeSet();
      CollectStores(writtenAll);
      PlaceAll(writtenAll);
    }

    method PlaceAll(writtenAll: RangeSet)
      requires writtenAll.Valid() && writtenAll.contents == AllStores(recorded)
      requires entryCount == |recorded| && Marked(HostsTo(recorded, 0))
      modifies entries
      ensures Marked(Hosts(recorded))
    {
      hide HostsTo, Marked, AllStores, RangeSet.Valid;
      var k := 0;
      while k < entryCount
        invariant 0 <= k <= entryCount
        invariant writtenAll.Valid()
        invariant Marked(HostsTo(recorded, k))
      {
        PlaceOne(writtenAll, k);
        k := k + 1;
      }
    }

    method PlaceOne(writtenAll: RangeSet, k: nat)
      requires writtenAll.Valid() && writtenAll.contents == AllStores(recorded)
      requires k < entryCount && k < |recorded| && Marked(HostsTo(recorded, k))
      modifies entries
      ensures Marked(HostsTo(recorded, k + 1))
    {
      var blocked := writtenAll.Overlaps(entries[k].d.prefixLoads);
      if entries[k].d.prefixPhys == 0 || blocked { return; }
      ghost var h := HostsTo(recorded, k);
      var best := FindHost(k, h);
      if best >= 0 {
        MarkHost(best, k);
      }
    }

    method CollectStores(s: RangeSet)
      requires Valid() && s.Valid() && s.contents == []
      modifies s, s.r
      ensures s.Valid() && s.contents == AllStores(recorded)
    {
      for i := 0 to entryCount
        invariant s.Valid() && s.contents == AllStores(recorded[..i])
      {
        s.Add(entries[i].d.stores);
        assert recorded[..i+1][..i] == recorded[..i];
      }
      assert recorded[..entryCount] == recorded;
    }

    method FindHost(k: nat, ghost h: Hosting) returns (best: int)
      requires k < entryCount <= entries.Length && recorded == RecordedOf(entries[..entryCount])
      requires |h.host| == entryCount && forall i :: 0 <= i < entryCount ==> entries[i].host == h.host[i]
      ensures best == BestHost(recorded, h.host, k - 1, -1) && -1 <= best < k
    {
      best := -1;
      var j := k - 1;
      while j >= 0 && !entries[j].d.spadB
        invariant -1 <= j < k && -1 <= best < k
        invariant BestHost(recorded, h.host, j, best) == BestHost(recorded, h.host, k - 1, -1)
      {
        if entries[j].d.headPhys != 0 && entries[j].host < 0 { best := j; }
        j := j - 1;
      }
    }

    method MarkHost(best: nat, k: nat)
      requires best < entryCount <= entries.Length && k < entryCount && best != k
      requires recorded == RecordedOf(entries[..entryCount])
      modifies entries
      ensures recorded == RecordedOf(entries[..entryCount])
      ensures forall i :: 0 <= i < entryCount ==>
                && entries[i].host == (if i == best then k else old(entries[i].host))
                && entries[i].hosted == (i == k || old(entries[i].hosted))
    {
      entries[best] := entries[best].(host := k);
      entries[k] := entries[k].(hosted := true);
    }

    /** FENCE engines dispatch i needs: bit 0 LD, bit 1 ST (0: no FENCE). */
    method ConflictMask(i: nat, loads: RangeSet, stores: RangeSet, ghost s: Scan) returns (mask: nat)
      requires i < entryCount <= entries.Length && recorded == RecordedOf(entries[..entryCount])
      requires loads.Valid() && stores.Valid() && loads.contents == s.outL && stores.contents == s.outS
      ensures mask == FenceMask(recorded, s, i)
    {
      mask := 0;
      if entries[i].barrier && i > 0 {
        var x := entries[i].d;
        var a := stores.Overlaps(x.loads);
        var b := stores.Overlaps(x.stores);
        if a || b { mask := mask + 2; }
        var c := loads.Overlaps(x.stores);
        if c { mask := mask + 1; }
      }
    }

    /** A prefix run before its FENCE. */
    method EmitEarly(early: bool, x: Dispatch, loads: RangeSet)
      requires loads.Valid() && batch.Valid() && (early ==> batch.k + 2 <= batch.w.Length)
      modifies batch`k, batch.w, loads, loads.r
      ensures batch.Valid() && batch.Contents() == old(batch.Contents()) + if early then PrefixCall(x) else []
      ensures batch.k == old(batch.k) + if early then 2 else 0
      ensures loads.Valid() && loads.contents == old(loads.contents) + if early then x.prefixLoads else []
    {
      if early {
        batch.EmitPrefix(x);
        loads.Add(x.prefixLoads);
      }
    }

    method EmitSync(mask: nat, loads: RangeSet, stores: RangeSet)
      requires loads.Valid() && stores.Valid() && loads != stores && loads.r != stores.r
      requires batch.Valid() && (mask != 0 ==> batch.k < batch.w.Length)
      modifies batch`k, batch.w, loads, stores
      ensures batch.Valid() && batch.Contents() == old(batch.Contents()) + if mask != 0 then [Fence(mask)] else []
      ensures batch.k == old(batch.k) + if mask != 0 then 1 else 0
      ensures loads.Valid() && loads.contents == if mask % 2 == 1 then [] else old(loads.contents)
      ensures stores.Valid() && stores.contents == if mask >= 2 then [] else old(stores.contents)
    {
      if mask != 0 {
        batch.Emit(Fence(mask));
        if mask >= 2 { stores.Clear(); }
        if mask % 2 == 1 { loads.Clear(); }
      }
    }

    /** The FENCE before dispatch i when a DDR conflict needs one, its prefix first if that may
        run before it. */
    method EmitFence(i: nat, loads: RangeSet, stores: RangeSet, ghost s: Scan, ghost h: Hosting) returns (early: bool)
      requires Marked(h) && i < entryCount
      requires loads.Valid() && stores.Valid() && loads != stores && loads.r != stores.r
      requires loads.contents == s.outL && stores.contents == s.outS
      requires batch.Valid() && batch.k + Length(recorded, FenceItems(recorded, h, s, i)) <= batch.w.Length
      modifies batch`k, batch.w, loads, loads.r, stores
      ensures early == Early(recorded, h, s, i)
      ensures batch.Valid() && batch.Contents()
              == old(batch.Contents()) + Lower(recorded, FenceItems(recorded, h, s, i))
      ensures batch.k == old(batch.k) + Length(recorded, FenceItems(recorded, h, s, i))
      ensures loads.Valid() && loads.contents == FenceStep(recorded, h, s, i).outL
      ensures stores.Valid() && stores.contents == FenceStep(recorded, h, s, i).outS
    {
      var x := entries[i].d;
      var mask := ConflictMask(i, loads, stores, s);
      var blocked := stores.Overlaps(x.prefixLoads);
      early := mask != 0 && x.prefixPhys != 0 && !entries[i].hosted && !blocked;
      assert early == Early(recorded, h, s, i);
      FenceLowers(recorded, h, s, i);
      FenceLength(recorded, h, s, i);
      hide FenceMask, Early, Lower, FenceItems, Hits, RangeSet.Valid, Marked, Length, PrefixCall;
      AppendTwo(batch.Contents(), if early then PrefixCall(x) else [], if mask != 0 then [Fence(mask)] else []);
      EmitEarly(early, x, loads);
      EmitSync(mask, loads, stores);
    }

    /** The SETREGs of dispatch i, and its own prefix (own). */
    method EmitFront(x: Dispatch, own: bool)
      requires batch.Valid() && batch.k + |SetRegs(x.regs)| + (if own then 2 else 0) <= batch.w.Length
      modifies batch`k, batch.w
      ensures batch.Valid()
      ensures batch.Contents() == old(batch.Contents()) + SetRegs(x.regs) + if own then PrefixCall(x) else []
      ensures batch.k == old(batch.k) + |SetRegs(x.regs)| + if own then 2 else 0
    {
      SetRegsLength(x.regs);
      batch.EmitSetRegs(x.regs);
      if own {
        batch.EmitPrefix(x);
      }
    }

    /** The head of dispatch i, then the prefix it hosts. */
    method EmitHead(i: nat, loads: RangeSet, ghost h: Hosting)
      requires Marked(h) && i < entryCount && forall j :: 0 <= j < |h.host| ==> h.host[j] < entryCount
      requires loads.Valid() && batch.Valid()
      requires batch.k + (if recorded[i].d.HasHead() then 1 else 0) + (if IsHost(recorded, h, i) then 2 else 0)
               <= batch.w.Length
      modifies batch`k, batch.w, loads, loads.r
      ensures batch.Valid()
      ensures batch.Contents() == old(batch.Contents())
              + (if recorded[i].d.HasHead() then [Call(recorded[i].d.headPhys)] else [])
                                  + (if IsHost(recorded, h, i) then PrefixCall(recorded[h.host[i]].d) else [])
      ensures batch.k == old(batch.k) + (if recorded[i].d.HasHead() then 1 else 0) + if IsHost(recorded, h, i) then 2
              else 0
      ensures loads.Valid()
      ensures loads.contents == old(loads.contents) + if IsHost(recorded, h, i) then recorded[h.host[i]].d.prefixLoads
              else []
    {
      hide RangeSet.Valid;
      var x := entries[i].d;
      if x.headPhys != 0 {
        batch.Emit(Call(x.headPhys));
        if entries[i].host >= 0 {
          var p := entries[entries[i].host].d;
          batch.EmitPrefix(p);
          loads.Add(p.prefixLoads);
        }
      }
    }

    /** The SETREGs and CALLs of dispatch i, and of the prefix it hosts. */
    method EmitBody(i: nat, early: bool, loads: RangeSet, ghost s: Scan, ghost h: Hosting)
      requires Marked(h) && i < entryCount && early == Early(recorded, h, s, i)
      requires forall j :: 0 <= j < |h.host| ==> h.host[j] < entryCount
      requires loads.Valid()
      requires batch.Valid() && batch.k + Length(recorded, BodyItems(recorded, h, s, i)) <= batch.w.Length
      modifies batch`k, batch.w, loads, loads.r
      ensures batch.Valid() && batch.Contents() == old(batch.Contents()) + Lower(recorded, BodyItems(recorded, h, s, i))
      ensures batch.k == old(batch.k) + Length(recorded, BodyItems(recorded, h, s, i))
      ensures loads.Valid()
      ensures loads.contents == old(loads.contents)
                                + if IsHost(recorded, h, i) then recorded[h.host[i]].d.prefixLoads else []
    {
      BodyLowers(recorded, h, s, i);
      hide Early, Lower, BodyItems, RangeSet.Valid, SetRegs, IsHost, Length, PrefixCall;
      var x := entries[i].d;
      var own := x.prefixPhys != 0 && !entries[i].hosted && !early;
      ghost var front, own2 := SetRegs(x.regs), if own then PrefixCall(x) else [];
      ghost var head := if x.HasHead() then [Call(x.headPhys)] else [];
      ghost var hosted := if IsHost(recorded, h, i) then PrefixCall(recorded[h.host[i]].d) else [];
      AppendFive(batch.Contents(), front, own2, head, hosted, [Call(x.bodyPhys)]);
      BodyLength(recorded, h, s, i);
      SetRegsLength(x.regs);
      EmitFront(x, own);
      EmitHead(i, loads, h);
      batch.Emit(Call(x.bodyPhys));
    }

    /** Everything emitted for dispatch i, and the ranges it leaves outstanding. */
    method EmitTurn(i: nat, loads: RangeSet, stores: RangeSet, ghost s: Scan, ghost h: Hosting)
      requires Marked(h) && i < entryCount && forall j :: 0 <= j < |h.host| ==> h.host[j] < entryCount
      requires loads.Valid() && stores.Valid() && loads != stores && loads.r != stores.r
      requires loads.contents == s.outL && stores.contents == s.outS
      requires batch.Valid() && batch.Contents() == Lower(recorded, s.items)
      requires batch.k + Length(recorded, FenceItems(recorded, h, s, i))
               + Length(recorded, BodyItems(recorded, h, s, i))
               <= batch.w.Length
      modifies batch`k, batch.w, loads, loads.r, stores, stores.r
      ensures batch.Valid() && batch.Contents() == Lower(recorded, ScanStep(recorded, h, s, i).items)
      ensures batch.k == old(batch.k) + Length(recorded, FenceItems(recorded, h, s, i))
                         + Length(recorded, BodyItems(recorded, h, s, i))
      ensures loads.Valid() && loads.contents == ScanStep(recorded, h, s, i).outL
      ensures stores.Valid() && stores.contents == ScanStep(recorded, h, s, i).outS
    {
      LowerConcat(recorded, s.items, FenceItems(recorded, h, s, i));
      LowerConcat(recorded, s.items + FenceItems(recorded, h, s, i), BodyItems(recorded, h, s, i));
      hide Early, Lower, FenceItems, BodyItems, RangeSet.Valid, Length, IsHost, FenceMask;
      var early := EmitFence(i, loads, stores, s, h);
      EmitBody(i, early, loads, s, h);
      loads.Add(entries[i].d.loads);
      stores.Add(entries[i].d.stores);
    }

    /** Builds the list of the recorded dispatches into the buffer. */
    method Build()
      requires Valid()
      modifies entries, batch`k, batch.w
      ensures batch.Valid() && batch.Contents() == ListOf(recorded)
      ensures batch.k <= entryDescriptors + 1
    {
      PlacePrefixes();
      batch.k := 0;
      var loads := new RangeSet();
      var stores := new RangeSet();
      EmitAll(loads, stores);
      batch.Emit(End(END_VALUE));
    }

    method EmitAll(loads: RangeSet, stores: RangeSet)
      requires Marked(Hosts(recorded)) && entryDescriptors == Needs(recorded) && entryDescriptors + 1 <= batch.w.Length
      requires loads.Valid() && stores.Valid() && loads != stores && loads.r != stores.r
      requires loads.contents == stores.contents == [] && batch.Valid() && batch.k == 0
      modifies batch`k, batch.w, loads, loads.r, stores, stores.r
      ensures batch.Valid() && batch.Contents() == Lower(recorded, Schedule(recorded)) && batch.k <= entryDescriptors
    {
      hide *;
      StartEmpty();
      var i := 0;
      while i < entryCount
        invariant 0 <= i <= entryCount == |recorded| && Marked(Hosts(recorded))
        invariant loads.Valid() && loads.contents == ScanTo(recorded, i).outL
        invariant stores.Valid() && stores.contents == ScanTo(recorded, i).outS
        invariant batch.Valid() && batch.Contents() == Lower(recorded, ScanTo(recorded, i).items)
        invariant batch.k == Length(recorded, ScanTo(recorded, i).items)
      {
        EmitNext(i, loads, stores);
        i := i + 1;
      }
      EverythingScheduled();
      EveryPrefixFits(recorded, |recorded|);
    }

    lemma {:induction false} StartEmpty()
      requires Marked(Hosts(recorded)) && batch.Valid() && batch.k == 0
      ensures ScanTo(recorded, 0).outL == ScanTo(recorded, 0).outS == [] && entryCount == |recorded|
      ensures batch.Contents() == Lower(recorded, ScanTo(recorded, 0).items)
      ensures batch.k == Length(recorded, ScanTo(recorded, 0).items)
    {
      assert batch.Contents() == [];
    }

    /** The next turn: its scan, its length and the room for it. */
    lemma {:induction false} TurnRoom(i: nat)
      requires i < |recorded|
      ensures ScanTo(recorded, i + 1) == ScanStep(recorded, Hosts(recorded), ScanTo(recorded, i), i)
      ensures forall j :: 0 <= j < |Hosts(recorded).host| ==> Hosts(recorded).host[j] < |recorded|
      ensures var h, s := Hosts(recorded), ScanTo(recorded, i);
              var n := Length(recorded, s.items) + Length(recorded, FenceItems(recorded, h, s, i))
                       + Length(recorded, BodyItems(recorded, h, s, i));
              n == Length(recorded, ScanTo(recorded, i + 1).items) <= Needs(recorded)
    {
      HostingIsValid(recorded, |recorded|);
      hide HostsTo, Lower, ScanStep, Needs, Need, HostsGood, HostedOnce, HostedExactly, FenceItems, BodyItems, Length;
      EveryPrefixFits(recorded, i + 1);
      NextLength(recorded, i);
      ScanNext(recorded, i);
      LengthConcat(recorded, ScanTo(recorded, i).items, NextItems(recorded, i));
    }

    lemma {:induction false} EverythingScheduled()
      ensures Schedule(recorded) == ScanTo(recorded, |recorded|).items
    {
    }

    method EmitNext(i: nat, loads: RangeSet, stores: RangeSet)
      requires i < entryCount == |recorded| && Marked(Hosts(recorded)) && entryDescriptors == Needs(recorded)
               && entryDescriptors + 1 <= batch.w.Length
      requires loads.Valid() && loads.contents == ScanTo(recorded, i).outL
      requires stores.Valid() && stores.contents == ScanTo(recorded, i).outS && loads != stores && loads.r != stores.r
      requires batch.Valid() && batch.Contents() == Lower(recorded, ScanTo(recorded, i).items)
      requires batch.k == Length(recorded, ScanTo(recorded, i).items)
      modifies batch`k, batch.w, loads, loads.r, stores, stores.r
      ensures loads.Valid() && loads.contents == ScanTo(recorded, i + 1).outL
      ensures stores.Valid() && stores.contents == ScanTo(recorded, i + 1).outS
      ensures batch.Valid() && batch.Contents() == Lower(recorded, ScanTo(recorded, i + 1).items)
      ensures batch.k == Length(recorded, ScanTo(recorded, i + 1).items)
    {
      hide *;
      TurnRoom(i);
      EmitTurn(i, loads, stores, ScanTo(recorded, i), Hosts(recorded));
    }

    /** Submits the list of the recorded dispatches, if there are any. */
    method Flush()
      requires Valid()
      modifies this, entries, batch`k, batch.w
      ensures Valid() && recorded == [] && !batchFence && batch == old(batch) && Added() == old(Added())
      ensures lists == old(lists) + if old(recorded) == [] then [] else [ListOf(old(recorded))]
    {
      hide ListOf, Needs, Need;
      if entryCount == 0 {
        batchFence := false;
        return;
      }
      Build();
      FlushedMore(flushed, recorded);
      lists := lists + [batch.w[..batch.k]];
      flushed := flushed + [recorded];
      entryCount, entryDescriptors, batchFence, recorded := 0, 0, false, [];
      EmptyNeeds();
    }

    /** Records a dispatch; a full batch is flushed first. */
    method Add(x: Dispatch) returns (status: Status)
      requires Valid()
      modifies this, entries, batch`k, batch.w
      ensures Valid() && batch == old(batch)
      ensures status == Ok <==> Fits(x)
      ensures status != Ok ==> Added() == old(Added()) && recorded == old(recorded) && lists == old(lists)
      ensures status == Ok ==> Added() == old(Added()) + [x] && !batchFence
      ensures status == Ok ==>
                var full := old(entryCount) == entries.Length || old(entryDescriptors) + Need(x) + 1 > batch.w.Length;
                && (full ==> recorded == [Recorded(x, false)]
                             && lists == old(lists) + if old(recorded) == [] then [] else [ListOf(old(recorded))])
                && (!full ==> recorded == old(recorded) + [Recorded(x, old(batchFence))] && lists == old(lists))
    {
      if !Fits(x) { return OutOfRange; }
      var need := Need(x);
      assert need <= 15;
      if entryCount == entries.Length || entryDescriptors + need + 1 > batch.w.Length {
        Flush();
        EmptyNeeds();
      }
      Append(x, need);
      return Ok;
    }

    method Append(x: Dispatch, need: nat)
      requires Valid() && need == Need(x)
      requires entryCount < entries.Length && entryDescriptors + need + 1 <= batch.w.Length
      modifies this, entries
      ensures Valid() && batch == old(batch) && lists == old(lists) && flushed == old(flushed) && !batchFence
      ensures recorded == old(recorded) + [Recorded(x, old(batchFence))] && Added() == old(Added()) + [x]
    {
      hide Need, Needs, ListOf, ListsOf, Joined, DispatchesOf;
      OneMore(Joined(flushed), recorded, Recorded(x, batchFence));
      RecordedMore(entries[..entryCount], Entry(x, batchFence, -1, false));
      hide RecordedOf;
      ghost var before := entries[..entryCount];
      entries[entryCount] := Entry(x, batchFence, -1, false);
      assert entries[..entryCount+1] == before + [Entry(x, batchFence, -1, false)];
      recorded := recorded + [Recorded(x, batchFence)];
      entryCount := entryCount + 1;
      batchFence := false;
      entryDescriptors := entryDescriptors + need;
    }

    lemma {:induction false} EmptyNeeds()
      ensures Needs([]) == 0 && RecordedOf([]) == [] && ListsOf([]) == []
    {
    }
  }
}
