/** From FENCEs between dispatches to ordered commands: in a separated schedule every two
commands that conflict, through DDR or local memory, keep their list order. */
module BatchOrder {
  import opened Ranges
  import opened BatchList
  import opened BatchFences
  import opened BatchRegs
  import opened Machine

  // ---------------------------------------------------------------- declared footprints

  ghost predicate LoadsWithin(c: Cmd, rs: seq<Range>) {
    forall a :: Ddr(a) in c.ins ==> Covers(rs, a) && c.engine == LD
  }

  ghost predicate StoresWithin(c: Cmd, rs: seq<Range>) {
    forall a :: Ddr(a) in c.outs ==> Covers(rs, a) && c.engine == ST
  }

  /** A command touches SPAD_B. */
  ghost predicate TouchesSpadB(c: Cmd) {
    exists w :: Local(SpadB, w) in c.ins || Local(SpadB, w) in c.outs
  }

  ghost predicate OnlySpadB(c: Cmd) {
    forall l :: (l in c.ins || l in c.outs) && l.Local? ==> l.bank == SpadB
  }

  function LoadsOf(d: Dispatch, kind: Kind): seq<Range> {
    if kind == Prefix then d.prefixLoads else d.loads
  }

  function StoresOf(d: Dispatch, kind: Kind): seq<Range> {
    if kind == Prefix then [] else d.stores
  }

  ghost predicate PieceWithin(d: Dispatch, kind: Kind, code: Code) {
    var steps := PieceSteps(d, kind, code);
    forall p :: IsCmd(steps, p) ==>
      && LoadsWithin(steps[p].cmd, LoadsOf(d, kind))
      && StoresWithin(steps[p].cmd, StoresOf(d, kind))
      && (kind == Prefix ==> OnlySpadB(steps[p].cmd))
      && (kind != Prefix && !d.spadB ==> !TouchesSpadB(steps[p].cmd))
  }

  /** The declared ranges cover the commands; a dispatch's own list needs no further FENCE. */
  ghost predicate Declared(d: Dispatch, code: Code) {
    && PieceWithin(d, Prefix, code) && PieceWithin(d, Head, code) && PieceWithin(d, Body, code)
    && (d.HasPrefix() ==> d.spadB)
    && Ordered(OwnSteps(d, code))
  }

  ghost predicate AllDeclared(b: Batch, code: Code) {
    PrefixesDeclared(b) && forall i :: 0 <= i < |b| ==> Declared(b[i].d, code)
  }

  // ---------------------------------------------------------------- blocks of steps

  ghost predicate HasFence(xs: seq<Step>, lo: int, hi: int, e: Engine) {
    exists f :: lo <= f < hi && 0 <= f < |xs| && xs[f].Sync? && Waits(xs[f].mask, e)
  }

  /** Commands of x and of y that conflict are kept in order with mid between them. */
  ghost predicate Across(x: seq<Step>, mid: seq<Step>, y: seq<Step>) {
    forall p, q :: IsCmd(x, p) && IsCmd(y, q) && !Independent(x[p].cmd, y[q].cmd) ==>
      || LocalConflict(x[p].cmd, y[q].cmd)
      || HasFence(x, p + 1, |x|, x[p].cmd.engine)
      || HasFence(mid, 0, |mid|, x[p].cmd.engine)
      || HasFence(y, 0, q, x[p].cmd.engine)
  }

  lemma {:induction false} HasFenceAt(xs: seq<Step>, f: int, lo: int, hi: int, e: Engine)
    requires lo <= f < hi && 0 <= f < |xs| && xs[f].Sync? && Waits(xs[f].mask, e)
    ensures HasFence(xs, lo, hi, e)
  {
  }

  lemma {:induction false} FenceShift(x: seq<Step>, y: seq<Step>, z: seq<Step>, lo: int, hi: int, e: Engine)
    requires HasFence(y, lo, hi, e) && 0 <= lo
    ensures HasFence(x + y + z, |x| + lo, |x| + hi, e)
  {
    var f :| lo <= f < hi && 0 <= f < |y| && y[f].Sync? && Waits(y[f].mask, e);
    var zs := x + y + z;
    assert zs[|x| + f] == y[f];
    HasFenceAt(zs, |x| + f, |x| + lo, |x| + hi, e);
  }

  lemma {:induction false} HasFenceWider(xs: seq<Step>, lo: int, hi: int, lo': int, hi': int, e: Engine)
    requires HasFence(xs, lo, hi, e) && lo' <= lo && hi <= hi'
    ensures HasFence(xs, lo', hi', e)
  {
    var f :| lo <= f < hi && 0 <= f < |xs| && xs[f].Sync? && Waits(xs[f].mask, e);
    HasFenceAt(xs, f, lo', hi', e);
  }

  lemma {:induction false} OrderedPair(xs: seq<Step>, p: int, q: int)
    requires IsCmd(xs, p) && IsCmd(xs, q)
    ensures MustPrecede(xs, p, q) <==> LocalConflict(xs[p].cmd, xs[q].cmd) || HasFence(xs, p + 1, q, xs[p].cmd.engine)
  {
    if Fenced(xs, p, q) {
      var f :| p < f < q && xs[f].Sync? && Waits(xs[f].mask, xs[p].cmd.engine);
      HasFenceAt(xs, f, p + 1, q, xs[p].cmd.engine);
    }
    if HasFence(xs, p + 1, q, xs[p].cmd.engine) {
      var f :| p + 1 <= f < q && 0 <= f < |xs| && xs[f].Sync? && Waits(xs[f].mask, xs[p].cmd.engine);
    }
  }

  lemma {:induction false} OrderedConcatPair(x: seq<Step>, y: seq<Step>, p: int, q: int)
    requires Ordered(x) && Ordered(y) && Across(x, [], y)
    requires IsCmd(x + y, p) && IsCmd(x + y, q) && p < q && !Independent((x + y)[p].cmd, (x + y)[q].cmd)
    ensures MustPrecede(x + y, p, q)
  {
    var zs := x + y;
    var e := zs[p].cmd.engine;
    assert x + y + [] == zs && [] + x + y == zs;
    OrderedPair(zs, p, q);
    if q < |x| {
      assert x[p] == zs[p] && x[q] == zs[q];
      OrderedPair(x, p, q);
      if HasFence(x, p + 1, q, e) { FenceShift([], x, y, p + 1, q, e); }
    } else if p >= |x| {
      var p', q' := p - |x|, q - |x|;
      assert y[p'] == zs[p] && y[q'] == zs[q];
      OrderedPair(y, p', q');
      if HasFence(y, p' + 1, q', e) { FenceShift(x, y, [], p' + 1, q', e); }
    } else {
      var q' := q - |x|;
      assert x[p] == zs[p] && y[q'] == zs[q];
      if HasFence(x, p + 1, |x|, e) {
        FenceShift([], x, y, p + 1, |x|, e);
        HasFenceWider(zs, p + 1, |x|, p + 1, q, e);
      } else if HasFence(y, 0, q', e) {
        FenceShift(x, y, [], 0, q', e);
        HasFenceWider(zs, |x|, q, p + 1, q, e);
      }
    }
  }

  lemma {:induction false} OrderedConcat(x: seq<Step>, y: seq<Step>)
    requires Ordered(x) && Ordered(y) && Across(x, [], y)
    ensures Ordered(x + y)
  {
    var zs := x + y;
    forall p, q | IsCmd(zs, p) && IsCmd(zs, q) && p < q && !Independent(zs[p].cmd, zs[q].cmd)
      ensures MustPrecede(zs, p, q)
    {
      OrderedConcatPair(x, y, p, q);
    }
  }

  lemma {:induction false} AcrossJoin(x1: seq<Step>, x2: seq<Step>, y: seq<Step>)
    requires Across(x1, x2, y) && Across(x2, [], y)
    ensures Across(x1 + x2, [], y)
  {
    var x := x1 + x2;
    assert [] + x1 + x2 == x && x1 + x2 + [] == x;
    forall p, q | IsCmd(x, p) && IsCmd(y, q) && !Independent(x[p].cmd, y[q].cmd)
      ensures LocalConflict(x[p].cmd, y[q].cmd) || HasFence(x, p + 1, |x|, x[p].cmd.engine)
              || HasFence(y, 0, q, x[p].cmd.engine)
    {
      var e := x[p].cmd.engine;
      if p < |x1| {
        assert x1[p] == x[p];
        if HasFence(x1, p + 1, |x1|, e) {
          FenceShift([], x1, x2, p + 1, |x1|, e);
          HasFenceWider(x, p + 1, |x1|, p + 1, |x|, e);
        } else if HasFence(x2, 0, |x2|, e) {
          FenceShift(x1, x2, [], 0, |x2|, e);
          HasFenceWider(x, |x1|, |x|, p + 1, |x|, e);
        }
      } else {
        var p' := p - |x1|;
        assert x2[p'] == x[p];
        if HasFence(x2, p' + 1, |x2|, e) { FenceShift(x1, x2, [], p' + 1, |x2|, e); }
      }
    }
  }

  /** In an ordered list of three blocks, the outer two are in order across the middle one. */
  lemma {:induction false} AcrossParts(x: seq<Step>, mid: seq<Step>, y: seq<Step>)
    requires Ordered(x + mid + y)
    ensures Ordered(x) && Ordered(mid) && Ordered(y)
    ensures Across(x, mid, y) && Across(x, [], mid) && Across(mid, [], y)
  {
    hide Ordered, Across;
    var zs := x + mid + y;
    assert [] + x + (mid + y) == zs && x + mid + y == zs && (x + mid) + y + [] == zs;
    OrderedPart(zs, [], x, mid + y);
    OrderedPart(zs, x, mid, y);
    OrderedPart(zs, x + mid, y, []);
    assert [] + x + mid + y + [] == zs && [] + x + [] + mid + y == zs && x + mid + [] + y + [] == zs;
    AcrossPart(zs, [], x, mid, y, []);
    AcrossPart(zs, [], x, [], mid, y);
    AcrossPart(zs, x, mid, [], y, []);
  }

  lemma {:induction false} OrderedPart(zs: seq<Step>, u: seq<Step>, x: seq<Step>, v: seq<Step>)
    requires zs == u + x + v && Ordered(zs)
    ensures Ordered(x)
  {
    forall p, q | IsCmd(x, p) && IsCmd(x, q) && p < q && !Independent(x[p].cmd, x[q].cmd)
      ensures MustPrecede(x, p, q)
    {
      var e := x[p].cmd.engine;
      assert zs[|u| + p] == x[p] && zs[|u| + q] == x[q];
      assert MustPrecede(zs, |u| + p, |u| + q);
      OrderedPair(zs, |u| + p, |u| + q);
      OrderedPair(x, p, q);
      if HasFence(zs, |u| + p + 1, |u| + q, e) {
        var f :| |u| + p + 1 <= f < |u| + q && 0 <= f < |zs| && zs[f].Sync? && Waits(zs[f].mask, e);
        assert x[f - |u|] == zs[f];
        HasFenceAt(x, f - |u|, p + 1, q, e);
      }
    }
  }

  lemma {:induction false} AcrossPart(zs: seq<Step>, u: seq<Step>, x: seq<Step>, mid: seq<Step>,
                                    y: seq<Step>, v: seq<Step>)
    requires zs == u + x + mid + y + v && Ordered(zs)
    ensures Across(x, mid, y)
  {
    var o := |u| + |x| + |mid|;
    forall p, q | IsCmd(x, p) && IsCmd(y, q) && !Independent(x[p].cmd, y[q].cmd)
      ensures LocalConflict(x[p].cmd, y[q].cmd) || HasFence(x, p + 1, |x|, x[p].cmd.engine)
              || HasFence(mid, 0, |mid|, x[p].cmd.engine) || HasFence(y, 0, q, x[p].cmd.engine)
    {
      var e := x[p].cmd.engine;
      assert zs[|u| + p] == x[p] && zs[o + q] == y[q];
      assert MustPrecede(zs, |u| + p, o + q);
      OrderedPair(zs, |u| + p, o + q);
      if HasFence(zs, |u| + p + 1, o + q, e) {
        var f :| |u| + p + 1 <= f < o + q && 0 <= f < |zs| && zs[f].Sync? && Waits(zs[f].mask, e);
        if f < |u| + |x| {
          assert x[f - |u|] == zs[f];
          HasFenceAt(x, f - |u|, p + 1, |x|, e);
        } else if f < o {
          assert mid[f - |u| - |x|] == zs[f];
          HasFenceAt(mid, f - |u| - |x|, 0, |mid|, e);
        } else {
          assert y[f - o] == zs[f];
          HasFenceAt(y, f - o, 0, q, e);
        }
      }
    }
  }

  // ---------------------------------------------------------------- the pieces of a schedule

  /** Two pieces of a schedule, with everything between them. */
  ghost predicate AcrossPair(b: Batch, items: seq<Item>, s: int, t: int, code: Code)
    requires 0 <= s < t < |items|
  {
    Across(ItemSteps(b, items[s], code), Flat(b, items[s+1..t], code), ItemSteps(b, items[t], code))
  }

  lemma {:induction false} NoCommands(x: seq<Step>, mid: seq<Step>, y: seq<Step>)
    requires (forall p :: 0 <= p < |x| ==> x[p].Sync?) || (forall q :: 0 <= q < |y| ==> y[q].Sync?)
    ensures Across(x, mid, y)
  {
  }

  lemma {:induction false} FlatFrom(b: Batch, items: seq<Item>, s: nat, t: nat, y: seq<Step>, code: Code)
    requires s <= t < |items| && y == ItemSteps(b, items[t], code)
    requires forall u :: s <= u < t ==> AcrossPair(b, items, u, t, code)
    ensures Across(Flat(b, items[s..t], code), [], y)
    decreases t - s
  {
    if s == t {
      NoCommands(Flat(b, items[s..t], code), [], y);
    } else {
      FlatFrom(b, items, s + 1, t, y, code);
      assert items[s..t][0] == items[s] && items[s..t][1..] == items[s+1..t];
      assert AcrossPair(b, items, s, t, code);
      AcrossJoin(ItemSteps(b, items[s], code), Flat(b, items[s+1..t], code), y);
    }
  }

  lemma {:induction false} FlatSnoc(b: Batch, items: seq<Item>, t: nat, code: Code)
    requires t < |items|
    ensures Flat(b, items[..t+1], code) == Flat(b, items[..t], code) + ItemSteps(b, items[t], code)
  {
    assert items[..t+1] == items[..t] + [items[t]];
    FlatConcat(b, items[..t], [items[t]], code);
    OneItem(b, items[t], code);
  }

  lemma {:induction false} FlatOrdered(b: Batch, items: seq<Item>, n: nat, code: Code)
    requires n <= |items|
    requires forall s, t :: 0 <= s < t < |items| ==> AcrossPair(b, items, s, t, code)
    requires forall t :: 0 <= t < |items| ==> Ordered(ItemSteps(b, items[t], code))
    ensures Ordered(Flat(b, items[..n], code))
  {
    if n > 0 {
      hide Ordered, AcrossPair, Across, Flat;
      FlatOrdered(b, items, n - 1, code);
      var y := ItemSteps(b, items[n-1], code);
      FlatFrom(b, items, 0, n - 1, y, code);
      assert items[0..n-1] == items[..n-1];
      FlatSnoc(b, items, n - 1, code);
      OrderedConcat(Flat(b, items[..n-1], code), y);
    } else {
      assert items[..0] == [];
    }
  }

  lemma {:induction false} FlatSplit(b: Batch, items: seq<Item>, f: nat, code: Code)
    requires f < |items|
    ensures Flat(b, items, code) == Flat(b, items[..f], code) + ItemSteps(b, items[f], code)
            + Flat(b, items[f+1..], code)
  {
    hide ItemSteps, Flat;
    assert items == items[..f+1] + items[f+1..];
    FlatConcat(b, items[..f+1], items[f+1..], code);
    FlatSnoc(b, items, f, code);
  }

  /** A FENCE anywhere in a schedule is found in its steps. */
  lemma {:induction false} FenceInFlat(b: Batch, items: seq<Item>, f: nat, p: nat, e: Engine, code: Code)
    requires f < |items| && p < |ItemSteps(b, items[f], code)|
    requires ItemSteps(b, items[f], code)[p].Sync? && Waits(ItemSteps(b, items[f], code)[p].mask, e)
    ensures HasFence(Flat(b, items, code), 0, |Flat(b, items, code)|, e)
  {
    hide ItemSteps, Flat;
    FlatSplit(b, items, f, code);
    var x, y, z := Flat(b, items[..f], code), ItemSteps(b, items[f], code), Flat(b, items[f+1..], code);
    HasFenceAt(y, p, 0, |y|, e);
    FenceShift(x, y, z, 0, |y|, e);
    HasFenceWider(x + y + z, |x|, |x| + |y|, 0, |x + y + z|, e);
  }

  lemma {:induction false} FenceKept(b: Batch, items: seq<Item>, s: nat, t: nat, st: bool, e: Engine, code: Code)
    requires s < t < |items| && FenceBetween(items, s, t, st) && e == if st then ST else LD
    ensures HasFence(Flat(b, items[s+1..t], code), 0, |Flat(b, items[s+1..t], code)|, e)
  {
    var f :| 0 <= f && s < f < t && f < |items| && items[f].Sync? && Bit(items[f].mask, st);
    assert items[s+1..t][f-s-1] == items[f];
    FenceInFlat(b, items[s+1..t], f - s - 1, 0, e, code);
  }

  /** Two commands that only DDR relates share a byte one of them stores. */
  lemma {:induction false} SharedByte(a: Cmd, c: Cmd) returns (x: int)
    requires !Independent(a, c) && !LocalConflict(a, c)
    ensures (Ddr(x) in a.outs && (Ddr(x) in c.outs || Ddr(x) in c.ins)) || (Ddr(x) in a.ins && Ddr(x) in c.outs)
  {
    var l :| (l in a.outs && (l in c.outs || l in c.ins)) || (l in a.ins && l in c.outs);
    assert !OnLocal(l);
    x := l.addr;
  }

  lemma {:induction false} DeclaredPiece(b: Batch, it: Item, code: Code, p: int)
    requires AllDeclared(b, code) && it.Piece? && IsCmd(ItemSteps(b, it, code), p)
    ensures LoadsWithin(ItemSteps(b, it, code)[p].cmd, RangesOf(b, it, false))
    ensures StoresWithin(ItemSteps(b, it, code)[p].cmd, RangesOf(b, it, true))
  {
    var d := b[it.owner].d;
    assert Declared(d, code);
    assert PieceWithin(d, it.kind, code);
  }

  lemma {:induction false} DifferentOwners(b: Batch, items: seq<Item>, s: nat, t: nat, code: Code)
    requires AllDeclared(b, code) && Separated(b, items)
    requires s < t < |items| && items[s].Piece? && items[t].Piece? && items[s].owner != items[t].owner
    ensures AcrossPair(b, items, s, t, code)
  {
    var x, mid, y := ItemSteps(b, items[s], code), Flat(b, items[s+1..t], code), ItemSteps(b, items[t], code);
    forall p, q | IsCmd(x, p) && IsCmd(y, q) && !Independent(x[p].cmd, y[q].cmd) && !LocalConflict(x[p].cmd, y[q].cmd)
      ensures HasFence(mid, 0, |mid|, x[p].cmd.engine)
    {
      PairFenced(b, items, s, t, code, p, q);
    }
  }

  lemma {:induction false} PairFenced(b: Batch, items: seq<Item>, s: nat, t: nat, code: Code, p: int, q: int)
    requires AllDeclared(b, code) && Separated(b, items)
    requires s < t < |items| && items[s].Piece? && items[t].Piece? && items[s].owner != items[t].owner
    requires IsCmd(ItemSteps(b, items[s], code), p) && IsCmd(ItemSteps(b, items[t], code), q)
    requires !Independent(ItemSteps(b, items[s], code)[p].cmd, ItemSteps(b, items[t], code)[q].cmd)
    requires !LocalConflict(ItemSteps(b, items[s], code)[p].cmd, ItemSteps(b, items[t], code)[q].cmd)
    ensures HasFence(Flat(b, items[s+1..t], code), 0, |Flat(b, items[s+1..t], code)|,
            ItemSteps(b, items[s], code)[p].cmd.engine)
  {
    var a, c := ItemSteps(b, items[s], code)[p].cmd, ItemSteps(b, items[t], code)[q].cmd;
    DeclaredPiece(b, items[s], code, p);
    DeclaredPiece(b, items[t], code, q);
    hide ItemSteps, RangesOf, AllDeclared, Independent, LocalConflict, Flat, HasFence, Overlap, FenceBetween;
    var w := SharedByte(a, c);
    var st := Ddr(w) in a.outs;
    var ss := RangesOf(b, items[s], st);
    if Ddr(w) in c.outs {
      SharedByteHits(ss, RangesOf(b, items[t], true), w);
    } else {
      SharedByteHits(ss, RangesOf(b, items[t], false), w);
    }
    assert SeparatedPair(b, items, s, t, st);
    assert a.engine == if st then ST else LD;
    FenceKept(b, items, s, t, st, a.engine, code);
  }
}
