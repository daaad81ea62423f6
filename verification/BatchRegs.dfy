/** Decoding a list: SETREGs, template CALLs and FENCEs become the steps the machine is fed.
Merged, every template still runs with the register values of its own dispatch. */
module BatchRegs {
  import opened Ranges
  import opened BatchList
  import Machine

  type Regs = r: seq<int> | |r| == NREGS witness seq(NREGS, _ => 0)

  /** What a template does when called: the steps it feeds, and the registers it leaves. */
  datatype Outcome = Outcome(steps: seq<Machine.Step>, regs: Regs)

  type Code = (int, Regs) -> Outcome

  function Write(regs: Regs, settings: seq<Setting>): Regs
    decreases settings
  {
    if settings == [] then regs
    else Write(if settings[0].reg < NREGS then regs[settings[0].reg := settings[0].value] else regs, settings[1..])
  }

  function Decode(ds: seq<Desc>, regs: Regs, code: Code): Outcome {
    if ds == [] then Outcome([], regs)
    else match ds[0]
      case SetReg(settings) => Decode(ds[1..], Write(regs, settings), code)
      case Call(phys) =>
        var o := code(phys, regs);
        var r := Decode(ds[1..], o.regs, code);
        Outcome(o.steps + r.steps, r.regs)
      case Fence(mask) =>
        var r := Decode(ds[1..], regs, code);
        Outcome([Machine.Sync(mask)] + r.steps, r.regs)
      case End(_) => Outcome([], regs)
  }

  ghost predicate NoEnd(ds: seq<Desc>) {
    forall i :: 0 <= i < |ds| ==> !ds[i].End?
  }

  lemma {:induction false} DecodeConcat(xs: seq<Desc>, ys: seq<Desc>, regs: Regs, code: Code)
    requires NoEnd(xs)
    ensures var o := Decode(xs, regs, code); var p := Decode(ys, o.regs, code);
            Decode(xs + ys, regs, code) == Outcome(o.steps + p.steps, p.regs)
    decreases xs
  {
    if xs == [] {
      assert xs + ys == ys;
      assert [] + Decode(ys, regs, code).steps == Decode(ys, regs, code).steps;
    } else {
      assert (xs + ys)[0] == xs[0] && (xs + ys)[1..] == xs[1..] + ys;
      match xs[0]
      case SetReg(settings) => DecodeConcat(xs[1..], ys, Write(regs, settings), code);
      case Call(phys) =>
        var o := code(phys, regs);
        DecodeConcat(xs[1..], ys, o.regs, code);
        var a := Decode(xs[1..], o.regs, code);
        var p := Decode(ys, a.regs, code);
        assert o.steps + (a.steps + p.steps) == (o.steps + a.steps) + p.steps;
      case Fence(mask) =>
        DecodeConcat(xs[1..], ys, regs, code);
        var a := Decode(xs[1..], regs, code);
        var p := Decode(ys, a.regs, code);
        assert [Machine.Sync(mask)] + (a.steps + p.steps) == ([Machine.Sync(mask)] + a.steps) + p.steps;
    }
  }

  // ---------------------------------------------------------------- a dispatch's own steps

  const ZERO: Regs := seq(NREGS, _ => 0)

  function PrefixSteps(d: Dispatch, code: Code): seq<Machine.Step> {
    if d.HasPrefix() then code(d.prefixPhys, ZERO[BASE15 := d.prefixBase]).steps else []
  }

  function HeadOutcome(d: Dispatch, code: Code): Outcome {
    var r := Write(ZERO, d.regs);
    if d.HasHead() then code(d.headPhys, r) else Outcome([], r)
  }

  function BodySteps(d: Dispatch, code: Code): seq<Machine.Step> {
    code(d.bodyPhys, HeadOutcome(d, code).regs).steps
  }

  function PieceSteps(d: Dispatch, kind: Kind, code: Code): seq<Machine.Step> {
    match kind
    case Prefix => PrefixSteps(d, code)
    case Head => HeadOutcome(d, code).steps
    case Body => BodySteps(d, code)
  }

  function OwnSteps(d: Dispatch, code: Code): seq<Machine.Step> {
    PrefixSteps(d, code) + HeadOutcome(d, code).steps + BodySteps(d, code)
  }

  ghost predicate AgreeOn(live: set<int>, r: Regs, s: Regs) {
    forall k :: k in live && 0 <= k < NREGS ==> r[k] == s[k]
  }

  function SetBy(settings: seq<Setting>): set<int> {
    set i | 0 <= i < |settings| :: settings[i].reg
  }

  ghost predicate Determines(code: Code, phys: int, live: set<int>, live': set<int>) {
    forall r: Regs, s: Regs | AgreeOn(live, r, s) ::
      code(phys, r).steps == code(phys, s).steps && AgreeOn(live', code(phys, r).regs, code(phys, s).regs)
  }

  /** Head and body depend only on registers the dispatch sets, BASE15 not among them. */
  ghost predicate OwnRegisters(d: Dispatch, code: Code) {
    && (forall i :: 0 <= i < |d.regs| ==> d.regs[i].reg < NREGS && d.regs[i].reg != BASE15)
    && exists live: set<int> ::
         && BASE15 !in live
         && Determines(code, d.bodyPhys, live, {})
         && if d.HasHead() then Determines(code, d.headPhys, SetBy(d.regs), live) else live == SetBy(d.regs)
  }

  /** A prefix depends on BASE15 only and leaves the registers alone. */
  ghost predicate PrefixRegisters(d: Dispatch, code: Code) {
    d.HasPrefix() ==> forall r: Regs ::
      code(d.prefixPhys, r) == Outcome(code(d.prefixPhys, ZERO[BASE15 := r[BASE15]]).steps, r)
  }

  ghost predicate RegistersKept(b: Batch, code: Code) {
    forall i :: 0 <= i < |b| ==> OwnRegisters(b[i].d, code) && PrefixRegisters(b[i].d, code)
  }

  // ---------------------------------------------------------------- the steps of a schedule

  function ItemSteps(b: Batch, it: Item, code: Code): seq<Machine.Step> {
    match it
    case Load(_) => []
    case Sync(mask) => [Machine.Sync(mask)]
    case Piece(kind, i) => if i < |b| then PieceSteps(b[i].d, kind, code) else []
  }

  function Flat(b: Batch, items: seq<Item>, code: Code): seq<Machine.Step> {
    if items == [] then [] else ItemSteps(b, items[0], code) + Flat(b, items[1..], code)
  }

  lemma {:induction false} FlatConcat(b: Batch, xs: seq<Item>, ys: seq<Item>, code: Code)
    ensures Flat(b, xs + ys, code) == Flat(b, xs, code) + Flat(b, ys, code)
    decreases xs
  {
    if xs == [] {
      assert xs + ys == ys;
    } else {
      assert (xs + ys)[0] == xs[0] && (xs + ys)[1..] == xs[1..] + ys;
      FlatConcat(b, xs[1..], ys, code);
      var f, u, v := ItemSteps(b, xs[0], code), Flat(b, xs[1..], code), Flat(b, ys, code);
      assert f + (u + v) == (f + u) + v;
    }
  }

  // ---------------------------------------------------------------- registers across a merged list

  lemma {:induction false} WriteConcat(r: Regs, xs: seq<Setting>, ys: seq<Setting>)
    ensures Write(r, xs + ys) == Write(Write(r, xs), ys)
    decreases xs
  {
    if xs == [] {
      assert xs + ys == ys;
    } else {
      assert (xs + ys)[0] == xs[0] && (xs + ys)[1..] == xs[1..] + ys;
      WriteConcat(if xs[0].reg < NREGS then r[xs[0].reg := xs[0].value] else r, xs[1..], ys);
    }
  }

  lemma {:induction false} WriteAgrees(r: Regs, s: Regs, settings: seq<Setting>, live: set<int>)
    requires AgreeOn(live, r, s)
    ensures AgreeOn(live + SetBy(settings), Write(r, settings), Write(s, settings))
    decreases settings
  {
    if settings == [] {
      assert live + SetBy(settings) == live;
    } else {
      var k := settings[0].reg;
      var r' := if k < NREGS then r[k := settings[0].value] else r;
      var s' := if k < NREGS then s[k := settings[0].value] else s;
      assert AgreeOn(live + {k}, r', s');
      WriteAgrees(r', s', settings[1..], live + {k});
      SetByCons(settings);
      assert live + SetBy(settings) == (live + {k}) + SetBy(settings[1..]);
    }
  }

  lemma {:induction false} SetByCons(settings: seq<Setting>)
    requires settings != []
    ensures SetBy(settings) == {settings[0].reg} + SetBy(settings[1..])
  {
    forall k | k in SetBy(settings)
      ensures k == settings[0].reg || k in SetBy(settings[1..])
    {
      var i :| 0 <= i < |settings| && settings[i].reg == k;
      if i > 0 { assert settings[1..][i-1].reg == k; }
    }
    forall k | k in SetBy(settings[1..])
      ensures k in SetBy(settings)
    {
      var i :| 0 <= i < |settings[1..]| && settings[1..][i].reg == k;
      assert settings[i+1].reg == k;
    }
  }

  /** ds has no END, feeds steps and takes the registers from r to r'. */
  ghost predicate Feeds(ds: seq<Desc>, code: Code, r: Regs, steps: seq<Machine.Step>, r': Regs) {
    NoEnd(ds) && Decode(ds, r, code) == Outcome(steps, r')
  }

  lemma {:induction false} FeedsNext(xs: seq<Desc>, ys: seq<Desc>, code: Code, r: Regs, r1: Regs, r2: Regs,
                  s: seq<Machine.Step>, t: seq<Machine.Step>)
    requires Feeds(xs, code, r, s, r1) && Feeds(ys, code, r1, t, r2)
    ensures Feeds(xs + ys, code, r, s + t, r2)
  {
    DecodeConcat(xs, ys, r, code);
  }

  lemma {:induction false} SetRegsFeeds(settings: seq<Setting>, code: Code, r: Regs)
    ensures Feeds(SetRegs(settings), code, r, [], Write(r, settings))
  {
    if |settings| == 0 {
    } else if |settings| <= 3 {
      assert [SetReg(settings)][1..] == [];
    } else {
      var a := [SetReg(settings[..3])];
      var r1 := Write(r, settings[..3]);
      assert a[1..] == [];
      SetRegsFeeds(settings[3..], code, r1);
      WriteConcat(r, settings[..3], settings[3..]);
      assert settings[..3] + settings[3..] == settings;
      FeedsNext(a, SetRegs(settings[3..]), code, r, r1, Write(r, settings), [], []);
    }
  }

  lemma {:induction false} CallFeeds(phys: int, code: Code, r: Regs)
    ensures Feeds([Call(phys)], code, r, code(phys, r).steps, code(phys, r).regs)
  {
    assert [Call(phys)][1..] == [];
    var steps := code(phys, r).steps;
    assert steps + [] == steps;
  }

  lemma {:induction false} PrefixFeeds(d: Dispatch, code: Code, r: Regs)
    requires d.HasPrefix() && PrefixRegisters(d, code)
    ensures Feeds(PrefixCall(d), code, r, PrefixSteps(d, code), r[BASE15 := d.prefixBase])
  {
    var one := [Setting(BASE15, d.prefixBase)];
    var r1 := r[BASE15 := d.prefixBase];
    SetRegsFeeds(one, code, r);
    assert Write(r, one) == r1 by { assert one[1..] == []; }
    CallFeeds(d.prefixPhys, code, r1);
    assert code(d.prefixPhys, r1) == Outcome(code(d.prefixPhys, ZERO[BASE15 := r1[BASE15]]).steps, r1);
    FeedsNext(SetRegs(one), [Call(d.prefixPhys)], code, r, r1, r1, [], PrefixSteps(d, code));
    assert SetRegs(one) + [Call(d.prefixPhys)] == PrefixCall(d);
    assert [] + PrefixSteps(d, code) == PrefixSteps(d, code);
  }

  /** The list items feed the steps of their dispatches, from any registers. */
  ghost predicate ItemsFeed(b: Batch, items: seq<Item>, code: Code, r: Regs, r': Regs) {
    Feeds(Lower(b, items), code, r, Flat(b, items, code), r')
  }

  lemma {:induction false} ItemsFeedNext(b: Batch, xs: seq<Item>, ys: seq<Item>, code: Code, r: Regs, r1: Regs,
                                         r2: Regs)
    requires ItemsFeed(b, xs, code, r, r1) && ItemsFeed(b, ys, code, r1, r2)
    ensures ItemsFeed(b, xs + ys, code, r, r2)
  {
    LowerConcat(b, xs, ys);
    FlatConcat(b, xs, ys, code);
    FeedsNext(Lower(b, xs), Lower(b, ys), code, r, r1, r2, Flat(b, xs, code), Flat(b, ys, code));
  }

  lemma {:induction false} OneItem(b: Batch, it: Item, code: Code)
    ensures Lower(b, [it]) == LowerItem(b, it) && Flat(b, [it], code) == ItemSteps(b, it, code)
  {
    assert [it][1..] == [];
    assert LowerItem(b, it) + [] == LowerItem(b, it);
    assert ItemSteps(b, it, code) + [] == ItemSteps(b, it, code);
  }

  lemma {:induction false} PrefixItemFeeds(b: Batch, k: nat, code: Code, r: Regs)
    requires k < |b| && b[k].d.HasPrefix() && RegistersKept(b, code)
    ensures ItemsFeed(b, [Piece(Prefix, k)], code, r, r[BASE15 := b[k].d.prefixBase])
  {
    OneItem(b, Piece(Prefix, k), code);
    PrefixFeeds(b[k].d, code, r);
  }

  lemma {:induction false} NothingFeeds(b: Batch, code: Code, r: Regs)
    ensures ItemsFeed(b, [], code, r, r)
  {
  }

  lemma {:induction false} LoadFeeds(b: Batch, i: nat, code: Code, r: Regs) returns (r': Regs)
    requires i < |b|
    ensures ItemsFeed(b, [Load(i)], code, r, r')
    ensures AgreeOn(SetBy(b[i].d.regs), r', Write(ZERO, b[i].d.regs))
  {
    r' := Write(r, b[i].d.regs);
    OneItem(b, Load(i), code);
    SetRegsFeeds(b[i].d.regs, code, r);
    WriteAgrees(r, ZERO, b[i].d.regs, {});
    assert {} + SetBy(b[i].d.regs) == SetBy(b[i].d.regs);
  }

  lemma {:induction false} FenceFeeds(b: Batch, mask: nat, code: Code, r: Regs)
    ensures ItemsFeed(b, [Sync(mask)], code, r, r)
  {
    OneItem(b, Sync(mask), code);
    assert [Fence(mask)][1..] == [];
    assert [Machine.Sync(mask)] + [] == [Machine.Sync(mask)];
  }

  // ---------------------------------------------------------------- one dispatch, then the batch

  /** r holds what d's body needs after its head. */
  ghost predicate BodyReady(d: Dispatch, code: Code, r: Regs) {
    exists live: set<int> :: BASE15 !in live && Determines(code, d.bodyPhys, live, {})
                             && AgreeOn(live, r, HeadOutcome(d, code).regs)
  }

  lemma {:induction false} HeadFeeds(b: Batch, i: nat, code: Code, r: Regs) returns (r': Regs)
    requires i < |b| && OwnRegisters(b[i].d, code) && AgreeOn(SetBy(b[i].d.regs), r, Write(ZERO, b[i].d.regs))
    ensures ItemsFeed(b, if b[i].d.HasHead() then [Piece(Head, i)] else [], code, r, r')
    ensures BodyReady(b[i].d, code, r')
  {
    var d := b[i].d;
    if d.HasHead() {
      r' := code(d.headPhys, r).regs;
      OneItem(b, Piece(Head, i), code);
      CallFeeds(d.headPhys, code, r);
    } else {
      r' := r;
      NothingFeeds(b, code, r);
    }
  }

  lemma {:induction false} BodyFeeds(b: Batch, i: nat, code: Code, r: Regs) returns (r': Regs)
    requires i < |b| && BodyReady(b[i].d, code, r)
    ensures ItemsFeed(b, [Piece(Body, i)], code, r, r')
  {
    var d := b[i].d;
    r' := code(d.bodyPhys, r).regs;
    OneItem(b, Piece(Body, i), code);
    CallFeeds(d.bodyPhys, code, r);
  }

  lemma {:induction false} SkipBase15(d: Dispatch, code: Code, r: Regs, v: int)
    requires BodyReady(d, code, r)
    ensures BodyReady(d, code, r[BASE15 := v])
  {
    var live: set<int> :| BASE15 !in live && Determines(code, d.bodyPhys, live, {})
                          && AgreeOn(live, r, HeadOutcome(d, code).regs);
    assert AgreeOn(live, r[BASE15 := v], HeadOutcome(d, code).regs);
  }

  lemma {:induction false} SetByOwn(d: Dispatch, code: Code)
    requires OwnRegisters(d, code)
    ensures BASE15 !in SetBy(d.regs)
  {
  }

  lemma {:induction false} BodyItemsFeed(b: Batch, h: Hosting, s: Scan, i: nat, code: Code, r: Regs) returns (r': Regs)
    requires i < |b| == |h.hosted| == |h.host| && RegistersKept(b, code) && HostsGood(b, h.host)
    ensures ItemsFeed(b, BodyItems(b, h, s, i), code, r, r')
  {
    hide ItemsFeed, Early;
    var d := b[i].d;
    var own := if d.HasPrefix() && !h.hosted[i] && !Early(b, h, s, i) then [Piece(Prefix, i)] else [];
    var head := if d.HasHead() then [Piece(Head, i)] else [];
    var hosted := if IsHost(b, h, i) then [Piece(Prefix, h.host[i])] else [];
    SetByOwn(d, code);
    var r1 := LoadFeeds(b, i, code, r);
    var r2 := if own != [] then r1[BASE15 := d.prefixBase] else r1;
    if own != [] { PrefixItemFeeds(b, i, code, r1); } else { NothingFeeds(b, code, r1); }
    ItemsFeedNext(b, [Load(i)], own, code, r, r1, r2);
    var r3 := HeadFeeds(b, i, code, r2);
    ItemsFeedNext(b, [Load(i)] + own, head, code, r, r2, r3);
    var r4 := r3;
    if IsHost(b, h, i) {
      r4 := r3[BASE15 := b[h.host[i]].d.prefixBase];
      PrefixItemFeeds(b, h.host[i], code, r3);
      SkipBase15(d, code, r3, b[h.host[i]].d.prefixBase);
    } else {
      NothingFeeds(b, code, r3);
    }
    ItemsFeedNext(b, [Load(i)] + own + head, hosted, code, r, r3, r4);
    r' := BodyFeeds(b, i, code, r4);
    ItemsFeedNext(b, [Load(i)] + own + head + hosted, [Piece(Body, i)], code, r, r4, r');
  }

  lemma {:induction false} FenceItemsFeed(b: Batch, h: Hosting, s: Scan, i: nat, code: Code, r: Regs) returns (r': Regs)
    requires i < |b| == |h.hosted| && RegistersKept(b, code)
    ensures ItemsFeed(b, FenceItems(b, h, s, i), code, r, r')
  {
    hide ItemsFeed;
    var own := if Early(b, h, s, i) then [Piece(Prefix, i)] else [];
    var fence := if FenceMask(b, s, i) != 0 then [Sync(FenceMask(b, s, i))] else [];
    r' := if own != [] then r[BASE15 := b[i].d.prefixBase] else r;
    if own != [] { PrefixItemFeeds(b, i, code, r); } else { NothingFeeds(b, code, r); }
    if fence != [] { FenceFeeds(b, FenceMask(b, s, i), code, r'); } else { NothingFeeds(b, code, r'); }
    ItemsFeedNext(b, own, fence, code, r, r', r');
  }

  lemma {:induction false} NextFeeds(b: Batch, i: nat, code: Code, r: Regs) returns (r': Regs)
    requires i < |b| && RegistersKept(b, code)
    ensures ItemsFeed(b, NextItems(b, i), code, r, r')
  {
    hide ItemsFeed, FenceItems, BodyItems, ScanTo;
    var h, s := Hosts(b), ScanTo(b, i);
    HostingIsValid(b, |b|);
    var r1 := FenceItemsFeed(b, h, s, i, code, r);
    r' := BodyItemsFeed(b, h, s, i, code, r1);
    ItemsFeedNext(b, FenceItems(b, h, s, i), BodyItems(b, h, s, i), code, r, r1, r');
  }

  lemma {:induction false} ScanFeeds(b: Batch, i: nat, code: Code, r: Regs) returns (r': Regs)
    requires i <= |b| && RegistersKept(b, code)
    ensures ItemsFeed(b, ScanTo(b, i).items, code, r, r')
  {
    hide ItemsFeed, ScanStep, RegistersKept, NextItems;
    if i == 0 {
      NothingFeeds(b, code, r);
      r' := r;
    } else {
      var r1 := ScanFeeds(b, i - 1, code, r);
      r' := NextFeeds(b, i - 1, code, r1);
      ItemsFeedNext(b, ScanTo(b, i - 1).items, NextItems(b, i - 1), code, r, r1, r');
      ScanNext(b, i - 1);
    }
  }

  lemma {:induction false} EndsThere(xs: seq<Desc>, code: Code, r: Regs)
    requires NoEnd(xs)
    ensures Decode(xs + [End(END_VALUE)], r, code).steps == Decode(xs, r, code).steps
  {
    DecodeConcat(xs, [End(END_VALUE)], r, code);
    var steps := Decode(xs, r, code).steps;
    assert steps + [] == steps;
  }

  /** Whatever the registers hold before, the merged list feeds each dispatch's own steps, in
      schedule order: no template sees another dispatch's register values. */
  lemma {:induction false} ListFeedsSchedule(b: Batch, code: Code, r: Regs)
    requires RegistersKept(b, code)
    ensures Decode(ListOf(b), r, code).steps == Flat(b, Schedule(b), code)
  {
    hide ScanTo;
    var _ := ScanFeeds(b, |b|, code, r);
    EndsThere(Lower(b, Schedule(b)), code, r);
  }

  lemma {:induction false} SetupFeeds(d: Dispatch, code: Code, r: Regs) returns (r': Regs)
    requires OwnRegisters(d, code) && PrefixRegisters(d, code)
    ensures Feeds(SetRegs(d.regs) + if d.HasPrefix() then PrefixCall(d) else [], code, r, PrefixSteps(d, code), r')
    ensures AgreeOn(SetBy(d.regs), r', Write(ZERO, d.regs))
  {
    hide Feeds, SetRegs;
    var r1 := Write(r, d.regs);
    SetRegsFeeds(d.regs, code, r);
    WriteAgrees(r, ZERO, d.regs, {});
    assert {} + SetBy(d.regs) == SetBy(d.regs);
    SetByOwn(d, code);
    r' := if d.HasPrefix() then r1[BASE15 := d.prefixBase] else r1;
    if d.HasPrefix() { PrefixFeeds(d, code, r1); } else { NoneFeed(code, r1); }
    FeedsNext(SetRegs(d.regs), if d.HasPrefix() then PrefixCall(d) else [], code, r, r1, r', [], PrefixSteps(d, code));
    assert [] + PrefixSteps(d, code) == PrefixSteps(d, code);
  }

  lemma {:induction false} HeadBodyFeeds(d: Dispatch, code: Code, r: Regs) returns (r': Regs)
    requires OwnRegisters(d, code) && AgreeOn(SetBy(d.regs), r, Write(ZERO, d.regs))
    ensures Feeds((if d.HasHead() then [Call(d.headPhys)] else []) + [Call(d.bodyPhys)], code, r,
                  HeadOutcome(d, code).steps + BodySteps(d, code), r')
  {
    hide Feeds;
    var r1 := if d.HasHead() then code(d.headPhys, r).regs else r;
    if d.HasHead() { CallFeeds(d.headPhys, code, r); } else { NoneFeed(code, r); }
    CallFeeds(d.bodyPhys, code, r1);
    r' := code(d.bodyPhys, r1).regs;
    FeedsNext(if d.HasHead() then [Call(d.headPhys)] else [], [Call(d.bodyPhys)], code, r, r1, r',
              HeadOutcome(d, code).steps, BodySteps(d, code));
  }

  /** Run on its own, a dispatch feeds its prefix, head and body. */
  lemma {:induction false} DispatchFeeds(d: Dispatch, code: Code, r: Regs)
    requires OwnRegisters(d, code) && PrefixRegisters(d, code)
    ensures Decode(DispatchList(d), r, code).steps == OwnSteps(d, code)
  {
    hide Feeds, Decode, SetRegs, OwnRegisters, PrefixRegisters, AgreeOn;
    var setup := SetRegs(d.regs) + if d.HasPrefix() then PrefixCall(d) else [];
    var calls := (if d.HasHead() then [Call(d.headPhys)] else []) + [Call(d.bodyPhys)];
    var r1 := SetupFeeds(d, code, r);
    var r2 := HeadBodyFeeds(d, code, r1);
    FeedsNext(setup, calls, code, r, r1, r2, PrefixSteps(d, code), HeadOutcome(d, code).steps + BodySteps(d, code));
    assert PrefixSteps(d, code) + (HeadOutcome(d, code).steps + BodySteps(d, code)) == OwnSteps(d, code);
    FeedsSteps(setup + calls, code, r, OwnSteps(d, code), r2);
    assert (setup + calls) + [End(END_VALUE)] == DispatchList(d);
  }

  lemma {:induction false} NoneFeed(code: Code, r: Regs)
    ensures Feeds([], code, r, [], r)
  {
  }

  lemma {:induction false} FeedsSteps(ds: seq<Desc>, code: Code, r: Regs, steps: seq<Machine.Step>, r': Regs)
    requires Feeds(ds, code, r, steps, r')
    ensures Decode(ds + [End(END_VALUE)], r, code).steps == steps
  {
    EndsThere(ds, code, r);
  }
}
