/** What the batch scheduler builds: where prefixes run, which FENCEs are emitted and the
descriptor list (compiler/runtime/sa/sa_context.c:329-451), as functions of the recorded
dispatches. */
module BatchList {
  import opened Ranges

  const END_VALUE := 0x5A
  const BASE15 := 15
  const NREGS := 24

  datatype Setting = Setting(reg: nat, value: int)

  /** One dispatch: its templates (0: none), register values and declared DDR ranges. */
  datatype Dispatch = Dispatch(
    prefixPhys: int, headPhys: int, bodyPhys: int, prefixBase: int, regs: seq<Setting>, spadB: bool,
    loads: seq<Range>, stores: seq<Range>, prefixLoads: seq<Range>)
  {
    predicate HasPrefix() { prefixPhys != 0 }
    predicate HasHead() { headPhys != 0 }
  }

  /** A recorded dispatch and whether a barrier came before it. */
  datatype Recorded = Recorded(d: Dispatch, barrier: bool)

  type Batch = seq<Recorded>

  datatype Desc = SetReg(settings: seq<Setting>) | Call(phys: int) | Fence(mask: nat) | End(value: int)

  // ---------------------------------------------------------------- hosting

  /** host[j]: the dispatch whose prefix runs inside j (-1: none); hosted[k]: k's prefix runs
      inside an earlier dispatch. */
  datatype Hosting = Hosting(host: seq<int>, hosted: seq<bool>)

  function AllStores(b: Batch): seq<Range> {
    if b == [] then [] else AllStores(b[..|b|-1]) + b[|b|-1].d.stores
  }

  /** The scan backwards from j over dispatches that leave SPAD_B alone, keeping the last
      (earliest) free one with a head. */
  function BestHost(b: Batch, host: seq<int>, j: int, best: int): int
    requires -1 <= j < |b| == |host|
    decreases j + 1
  {
    if j < 0 || b[j].d.spadB then best
    else BestHost(b, host, j - 1, if b[j].d.HasHead() && host[j] < 0 then j else best)
  }

  function HostStep(b: Batch, h: Hosting, k: nat): (r: Hosting)
    requires k < |b| == |h.host| == |h.hosted|
    ensures |r.host| == |r.hosted| == |b|
  {
    if !b[k].d.HasPrefix() || Hits(AllStores(b), b[k].d.prefixLoads) then h
    else
      var best := BestHost(b, h.host, k - 1, -1);
      if 0 <= best < |b| then Hosting(h.host[best := k], h.hosted[k := true]) else h
  }

  function HostsTo(b: Batch, k: nat): (h: Hosting)
    requires k <= |b|
    ensures |h.host| == |h.hosted| == |b|
  {
    if k == 0 then Hosting(seq(|b|, _ => -1), seq(|b|, _ => false)) else HostStep(b, HostsTo(b, k - 1), k - 1)
  }

  function Hosts(b: Batch): (h: Hosting)
    ensures |h.host| == |h.hosted| == |b|
  {
    HostsTo(b, |b|)
  }

  // ---------------------------------------------------------------- the schedule

  datatype Kind = Prefix | Head | Body

  /** Load(i): the SETREGs of dispatch i. Piece: the CALL of one of a dispatch's templates. */
  datatype Item = Load(owner: nat) | Piece(kind: Kind, owner: nat) | Sync(mask: nat)

  /** The schedule so far, and every range read / written since the last FENCE of that engine. */
  datatype Scan = Scan(items: seq<Item>, outL: seq<Range>, outS: seq<Range>)

  /** FENCE engines a dispatch needs: bit 0 LD, bit 1 ST. */
  function Mask(s: Scan, d: Dispatch): nat {
    (if Hits(s.outS, d.loads) || Hits(s.outS, d.stores) then 2 else 0) + if Hits(s.outL, d.stores) then 1 else 0
  }

  function FenceMask(b: Batch, s: Scan, i: nat): nat
    requires i < |b|
  {
    if b[i].barrier && i > 0 then Mask(s, b[i].d) else 0
  }

  /** i's own prefix runs before its FENCE. */
  predicate Early(b: Batch, h: Hosting, s: Scan, i: nat)
    requires i < |b| == |h.hosted|
  {
    FenceMask(b, s, i) != 0 && b[i].d.HasPrefix() && !h.hosted[i] && !Hits(s.outS, b[i].d.prefixLoads)
  }

  /** The prefix that runs inside i, between its head and its body. */
  predicate IsHost(b: Batch, h: Hosting, i: nat)
    requires i < |b| == |h.host|
  {
    b[i].d.HasHead() && 0 <= h.host[i] < |b|
  }

  function FenceItems(b: Batch, h: Hosting, s: Scan, i: nat): seq<Item>
    requires i < |b| == |h.hosted|
  {
    (if Early(b, h, s, i) then [Piece(Prefix, i)] else []) +
    if FenceMask(b, s, i) != 0 then [Sync(FenceMask(b, s, i))] else []
  }

  function BodyItems(b: Batch, h: Hosting, s: Scan, i: nat): seq<Item>
    requires i < |b| == |h.hosted| == |h.host|
  {
    [Load(i)] +
    (if b[i].d.HasPrefix() && !h.hosted[i] && !Early(b, h, s, i) then [Piece(Prefix, i)] else []) +
    (if b[i].d.HasHead() then [Piece(Head, i)] else []) +
    (if IsHost(b, h, i) then [Piece(Prefix, h.host[i])] else []) +
    [Piece(Body, i)]
  }

  function FenceStep(b: Batch, h: Hosting, s: Scan, i: nat): Scan
    requires i < |b| == |h.hosted|
  {
    var mask := FenceMask(b, s, i);
    Scan(s.items + FenceItems(b, h, s, i),
         if mask % 2 == 1 then [] else s.outL + if Early(b, h, s, i) then b[i].d.prefixLoads else [],
         if mask >= 2 then [] else s.outS)
  }

  function ScanStep(b: Batch, h: Hosting, s: Scan, i: nat): Scan
    requires i < |b| == |h.hosted| == |h.host|
  {
    var f := FenceStep(b, h, s, i);
    Scan(f.items + BodyItems(b, h, s, i),
         f.outL + (if IsHost(b, h, i) then b[h.host[i]].d.prefixLoads else []) + b[i].d.loads,
         f.outS + b[i].d.stores)
  }

  function ScanTo(b: Batch, i: nat): Scan
    requires i <= |b|
  {
    if i == 0 then Scan([], [], []) else ScanStep(b, Hosts(b), ScanTo(b, i - 1), i - 1)
  }

  function NextItems(b: Batch, i: nat): seq<Item>
    requires i < |b|
  {
    FenceItems(b, Hosts(b), ScanTo(b, i), i) + BodyItems(b, Hosts(b), ScanTo(b, i), i)
  }

  lemma {:induction false} ScanNext(b: Batch, i: nat)
    requires i < |b|
    ensures ScanTo(b, i + 1).items == ScanTo(b, i).items + NextItems(b, i)
  {
    var s := ScanTo(b, i);
    assert (s.items + FenceItems(b, Hosts(b), s, i)) + BodyItems(b, Hosts(b), s, i) == s.items + NextItems(b, i);
  }

  function Schedule(b: Batch): seq<Item> {
    ScanTo(b, |b|).items
  }

  // ---------------------------------------------------------------- descriptors

  /** SETREGs of up to three registers each. */
  function SetRegs(regs: seq<Setting>): seq<Desc> {
    if |regs| == 0 then [] else if |regs| <= 3 then [SetReg(regs)] else [SetReg(regs[..3])] + SetRegs(regs[3..])
  }

  function PrefixCall(d: Dispatch): seq<Desc> {
    [SetReg([Setting(BASE15, d.prefixBase)]), Call(d.prefixPhys)]
  }

  function LowerItem(b: Batch, it: Item): seq<Desc> {
    match it
    case Sync(mask) => [Fence(mask)]
    case Load(i) => if i < |b| then SetRegs(b[i].d.regs) else []
    case Piece(kind, i) =>
      if i >= |b| then []
      else match kind
           case Prefix => PrefixCall(b[i].d)
           case Head => [Call(b[i].d.headPhys)]
           case Body => [Call(b[i].d.bodyPhys)]
  }

  function Lower(b: Batch, items: seq<Item>): seq<Desc> {
    if items == [] then [] else LowerItem(b, items[0]) + Lower(b, items[1..])
  }

  lemma {:induction false} LowerConcat(b: Batch, xs: seq<Item>, ys: seq<Item>)
    ensures Lower(b, xs + ys) == Lower(b, xs) + Lower(b, ys)
  {
    if xs == [] {
      assert xs + ys == ys;
    } else {
      assert (xs + ys)[1..] == xs[1..] + ys;
      LowerConcat(b, xs[1..], ys);
    }
  }

  /** The list of a batch. */
  function ListOf(b: Batch): seq<Desc> {
    Lower(b, Schedule(b)) + [End(END_VALUE)]
  }

  /** The list of one dispatch run on its own (sa_context.c:252-286). */
  function DispatchList(d: Dispatch): seq<Desc> {
    SetRegs(d.regs) +
    (if d.HasPrefix() then PrefixCall(d) else []) +
    (if d.HasHead() then [Call(d.headPhys)] else []) +
    [Call(d.bodyPhys), End(END_VALUE)]
  }

  // ---------------------------------------------------------------- hosting facts

  lemma {:induction false} BestHostIs(b: Batch, host: seq<int>, j: int, best: int, k: int)
    requires -1 <= j < k <= |b| == |host|
    requires best == -1 || (j < best < k && b[best].d.HasHead() && host[best] < 0)
    requires forall t :: j < t < k ==> !b[t].d.spadB
    ensures var r := BestHost(b, host, j, best);
            r == -1 || (0 <= r < k && b[r].d.HasHead() && host[r] < 0 && forall t :: r <= t < k ==> !b[t].d.spadB)
    decreases j + 1
  {
    if j >= 0 && !b[j].d.spadB {
      BestHostIs(b, host, j - 1, if b[j].d.HasHead() && host[j] < 0 then j else best, k);
    }
  }

  /** The host found is the earliest dispatch that could have been one. */
  lemma {:induction false} BestHostIsEarliest(b: Batch, host: seq<int>, j: int, best: int, t: int)
    requires -1 <= j < |b| == |host| && 0 <= t <= j
    requires b[t].d.HasHead() && host[t] < 0 && forall u :: t <= u <= j ==> !b[u].d.spadB
    ensures 0 <= BestHost(b, host, j, best) <= t
    decreases j
  {
    var best' := if b[j].d.HasHead() && host[j] < 0 then j else best;
    if t < j {
      BestHostIsEarliest(b, host, j - 1, best', t);
    } else {
      BestHostBelow(b, host, j - 1, j);
    }
  }

  lemma {:induction false} BestHostBelow(b: Batch, host: seq<int>, j: int, best: int)
    requires -1 <= j < best < |b| == |host|
    ensures 0 <= BestHost(b, host, j, best) <= best
    decreases j + 1
  {
    if j >= 0 && !b[j].d.spadB {
      BestHostBelow(b, host, j - 1, if b[j].d.HasHead() && host[j] < 0 then j else best);
    }
  }

  /** j hosts k: between j's head and k's body nothing touches SPAD_B, and no dispatch of the
      batch writes what k's prefix reads. */
  ghost predicate GoodHost(b: Batch, j: int, k: int) {
    && 0 <= j < k < |b|
    && b[j].d.HasHead() && b[k].d.HasPrefix()
    && !Hits(AllStores(b), b[k].d.prefixLoads)
    && forall t :: j <= t < k ==> !b[t].d.spadB
  }

  ghost predicate HostsGood(b: Batch, host: seq<int>) {
    |host| == |b| && forall j :: 0 <= j < |host| && host[j] >= 0 ==> GoodHost(b, j, host[j])
  }

  /** Each prefix runs inside at most one dispatch. */
  ghost predicate HostedOnce(host: seq<int>) {
    forall j, j' :: 0 <= j < j' < |host| && host[j] >= 0 ==> host[j] != host[j']
  }

  ghost predicate HostedExactly(h: Hosting) {
    && (forall k :: 0 <= k < |h.hosted| && h.hosted[k] ==> k in h.host)
    && (forall j :: 0 <= j < |h.host| && h.host[j] >= 0 ==> h.host[j] < |h.hosted| && h.hosted[h.host[j]])
  }

  ghost predicate HostsBelow(host: seq<int>, n: nat) {
    forall j :: 0 <= j < |host| ==> host[j] < n
  }

  lemma {:induction false} UpdateHosts(b: Batch, h: Hosting, best: nat, k: nat)
    requires best < k < |b| == |h.host| == |h.hosted| && h.host[best] < 0 && HostsBelow(h.host, k)
    requires HostsGood(b, h.host) && HostedOnce(h.host) && HostedExactly(h) && GoodHost(b, best, k)
    ensures var h' := Hosting(h.host[best := k], h.hosted[k := true]);
            HostsGood(b, h'.host) && HostedOnce(h'.host) && HostedExactly(h') && HostsBelow(h'.host, k + 1)
  {
    var h' := Hosting(h.host[best := k], h.hosted[k := true]);
    forall i | 0 <= i < |h'.hosted| && h'.hosted[i] ensures i in h'.host {
      if i == k {
        assert h'.host[best] == k;
      } else {
        var j :| 0 <= j < |h.host| && h.host[j] == i;
        assert h'.host[j] == i;
      }
    }
  }

  ghost predicate HostingValid(b: Batch, h: Hosting, n: nat) {
    |h.hosted| == |b| && HostsGood(b, h.host) && HostedOnce(h.host) && HostedExactly(h) && HostsBelow(h.host, n)
  }

  lemma {:induction false} HostStepValid(b: Batch, h: Hosting, k: nat)
    requires k < |b| && HostingValid(b, h, k)
    ensures HostingValid(b, HostStep(b, h, k), k + 1)
  {
    BestHostIs(b, h.host, k - 1, -1, k);
    var best := BestHost(b, h.host, k - 1, -1);
    if b[k].d.HasPrefix() && !Hits(AllStores(b), b[k].d.prefixLoads) && best >= 0 {
      assert GoodHost(b, best, k);
      UpdateHosts(b, h, best, k);
    }
  }

  lemma {:induction false} HostingIsValid(b: Batch, n: nat)
    requires n <= |b|
    ensures HostingValid(b, HostsTo(b, n), n)
  {
    if n > 0 {
      hide HostStep, HostingValid;
      HostingIsValid(b, n - 1);
      HostStepValid(b, HostsTo(b, n - 1), n - 1);
    }
  }
}
