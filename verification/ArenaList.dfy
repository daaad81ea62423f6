/** The device arena (compiler/runtime/sa/sa_context.c) as a list of blocks: first fit over
    contiguous blocks, free runs merged forward when a scan or a free meets them. */
module ArenaList {

  /** off: address of the header from the heap's start; size includes the 16 bytes of the header. */
  datatype Block = Block(off: nat, size: nat, used: bool)

  const HEADER := 16
  const SPLIT := 64    // a remainder smaller than this stays in the block

  /** The blocks cover lo..hi without gap or overlap, in multiples of 16 bytes. */
  predicate Tiled(bs: seq<Block>, lo: nat, hi: nat) {
    if bs == [] then lo == hi
    else bs[0].off == lo && bs[0].size >= HEADER && bs[0].size % 16 == 0 && Tiled(bs[1..], lo + bs[0].size, hi)
  }

  function Total(bs: seq<Block>): nat {
    if bs == [] then 0 else bs[0].size + Total(bs[1..])
  }

  function UsedBytes(bs: seq<Block>): nat {
    if bs == [] then 0 else (if bs[0].used then bs[0].size else 0) + UsedBytes(bs[1..])
  }

  /** The first block, free, takes in the free blocks right after it. */
  function Absorb(bs: seq<Block>): (m: seq<Block>)
    requires |bs| > 0
    ensures 0 < |m| <= |bs| && m[0].off == bs[0].off && m[0].used == bs[0].used && m[0].size >= bs[0].size
    decreases |bs|
  {
    if |bs| > 1 && !bs[1].used then Absorb([bs[0].(size := bs[0].size + bs[1].size)] + bs[2..]) else bs
  }

  /** The first block of a list takes a request, split when 64 bytes or more are left over. */
  function Place(m: seq<Block>, need: nat): seq<Block>
    requires |m| > 0 && m[0].size >= need
  {
    var b := m[0];
    if b.size - need >= SPLIT then
      [Block(b.off, need, true), Block(b.off + need, b.size - need, false)] + m[1..]
    else
      [b.(used := true)] + m[1..]
  }

  /** First fit: the blocks afterwards, and the header of the block taken or -1. */
  function Alloc(bs: seq<Block>, need: nat): (r: (seq<Block>, int))
    ensures r.1 >= -1
    decreases |bs|
  {
    if bs == [] then ([], -1)
    else
      var m := if bs[0].used then bs else Absorb(bs);
      if m[0].used || m[0].size < need then
        var r := Alloc(m[1..], need);
        ([m[0]] + r.0, r.1)
      else
        (Place(m, need), m[0].off)
  }

  function Free(bs: seq<Block>, k: nat): seq<Block>
    requires k < |bs|
  {
    bs[..k] + Absorb([bs[k].(used := false)] + bs[k + 1..])
  }

  /** Position of the block with p strictly inside, header start excluded; |bs| if none. */
  function Find(bs: seq<Block>, p: int): (k: nat)
    ensures k <= |bs|
    ensures k < |bs| ==> bs[k].off < p < bs[k].off + bs[k].size
  {
    if bs == [] then 0
    else if bs[0].off < p < bs[0].off + bs[0].size then 0
    else 1 + Find(bs[1..], p)
  }

  // ---------------------------------------------------------------- tiling

  lemma {:induction false} TiledBoth(a: seq<Block>, b: seq<Block>, lo: nat, hi: nat)
    ensures Tiled(a + b, lo, hi) <==> Tiled(a, lo, lo + Total(a)) && Tiled(b, lo + Total(a), hi)
  {
    if a == [] {
      assert a + b == b;
    } else {
      assert (a + b)[1..] == a[1..] + b;
      TiledBoth(a[1..], b, lo + a[0].size, hi);
    }
  }

  lemma {:induction false} TiledTotal(bs: seq<Block>, lo: nat, hi: nat)
    requires Tiled(bs, lo, hi)
    ensures lo + Total(bs) == hi
  {
    if bs != [] { TiledTotal(bs[1..], lo + bs[0].size, hi); }
  }

  lemma {:induction false} TiledAt(bs: seq<Block>, lo: nat, hi: nat, k: nat)
    requires Tiled(bs, lo, hi) && k < |bs|
    ensures lo <= bs[k].off && bs[k].off + bs[k].size <= hi
    ensures bs[k].size >= HEADER && bs[k].size % 16 == 0 && (bs[k].off - lo) % 16 == 0
    ensures Tiled(bs[k + 1..], bs[k].off + bs[k].size, hi)
  {
    if k == 0 {
      TiledTotal(bs[1..], lo + bs[0].size, hi);
    } else {
      TiledAt(bs[1..], lo + bs[0].size, hi, k - 1);
      assert bs[1..][k..] == bs[k + 1..];
    }
  }

  /** Blocks are disjoint, in address order, and 16-byte aligned. */
  lemma {:induction false} TiledApart(bs: seq<Block>, lo: nat, hi: nat, j: nat, k: nat)
    requires Tiled(bs, lo, hi) && j < k < |bs|
    ensures bs[j].off + bs[j].size <= bs[k].off
    ensures k == j + 1 ==> bs[j].off + bs[j].size == bs[k].off
  {
    TiledAt(bs, lo, hi, j);
    TiledAt(bs[j + 1..], bs[j].off + bs[j].size, hi, k - j - 1);
  }

  lemma {:induction false} AbsorbTiles(bs: seq<Block>, lo: nat, hi: nat)
    requires |bs| > 0 && Tiled(bs, lo, hi)
    ensures Tiled(Absorb(bs), lo, hi)
    decreases |bs|
  {
    if |bs| > 1 && !bs[1].used {
      var t := [bs[0].(size := bs[0].size + bs[1].size)] + bs[2..];
      assert bs[1..][1..] == bs[2..] == t[1..];
      AbsorbTiles(t, lo, hi);
    }
  }

  lemma {:induction false} PlaceTiles(m: seq<Block>, need: nat, lo: nat, hi: nat)
    requires |m| > 0 && m[0].size >= need && Tiled(m, lo, hi) && need >= HEADER && need % 16 == 0
    ensures Tiled(Place(m, need), lo, hi)
  {
    var t := Place(m, need);
    if m[0].size - need >= SPLIT {
      assert t[1..][1..] == m[1..];
    } else {
      assert t[1..] == m[1..];
    }
  }

  /** Allocation keeps the tiling. */
  lemma {:induction false} AllocTiles(bs: seq<Block>, need: nat, lo: nat, hi: nat)
    requires Tiled(bs, lo, hi) && need >= HEADER && need % 16 == 0
    ensures Tiled(Alloc(bs, need).0, lo, hi)
    decreases |bs|
  {
    if bs != [] {
      if !bs[0].used { AbsorbTiles(bs, lo, hi); }
      var m := if bs[0].used then bs else Absorb(bs);
      if m[0].used || m[0].size < need {
        AllocTiles(m[1..], need, lo + m[0].size, hi);
        assert ([m[0]] + Alloc(m[1..], need).0)[1..] == Alloc(m[1..], need).0;
      } else {
        PlaceTiles(m, need, lo, hi);
      }
    }
  }

  lemma {:induction false} FreeTiles(bs: seq<Block>, k: nat, lo: nat, hi: nat)
    requires k < |bs| && Tiled(bs, lo, hi)
    ensures Tiled(Free(bs, k), lo, hi)
  {
    var t := [bs[k].(used := false)] + bs[k + 1..];
    assert bs == bs[..k] + bs[k..] && t[1..] == bs[k..][1..];
    TiledBoth(bs[..k], bs[k..], lo, hi);
    AbsorbTiles(t, lo + Total(bs[..k]), hi);
    TiledBoth(bs[..k], Absorb(t), lo, hi);
  }

  // ---------------------------------------------------------------- used blocks

  /** Merging free blocks touches no used one. */
  lemma {:induction false} AbsorbKeepsUsed(bs: seq<Block>, b: Block)
    requires |bs| > 0 && !bs[0].used && b.used
    ensures b in Absorb(bs) <==> b in bs
    ensures UsedBytes(Absorb(bs)) == UsedBytes(bs)
    decreases |bs|
  {
    if |bs| > 1 && !bs[1].used {
      var t := [bs[0].(size := bs[0].size + bs[1].size)] + bs[2..];
      assert bs == [bs[0], bs[1]] + bs[2..] && bs[1..][1..] == bs[2..] == t[1..];
      AbsorbKeepsUsed(t, b);
    }
  }

  /** The block a successful allocation adds. */
  function New(bs: seq<Block>, need: nat): (b: Block)
    requires Alloc(bs, need).1 >= 0
    ensures b.off == Alloc(bs, need).1 && b.used && need <= b.size < need + SPLIT
    decreases |bs|
  {
    var m := if bs[0].used then bs else Absorb(bs);
    if m[0].used || m[0].size < need then New(m[1..], need) else Place(m, need)[0]
  }

  /** A successful allocation adds one used block, of at least the size asked and less than 64 bytes
      more, and changes no other used block; a failed one changes none. */
  lemma {:induction false} AllocAddsOne(bs: seq<Block>, need: nat, b: Block)
    requires b.used
    ensures var r := Alloc(bs, need);
            && (b in r.0 <==> b in bs || (r.1 >= 0 && b == New(bs, need)))
            && UsedBytes(r.0) == UsedBytes(bs) + if r.1 >= 0 then New(bs, need).size else 0
    decreases |bs|
  {
    if bs != [] {
      if !bs[0].used { AbsorbKeepsUsed(bs, b); }
      var m := if bs[0].used then bs else Absorb(bs);
      assert m == [m[0]] + m[1..];
      if m[0].used || m[0].size < need {
        AllocAddsOne(m[1..], need, b);
        assert ([m[0]] + Alloc(m[1..], need).0)[1..] == Alloc(m[1..], need).0;
      } else {
        PlaceUses(m, need, b);
      }
    }
  }

  lemma {:induction false} PlaceUses(m: seq<Block>, need: nat, b: Block)
    requires |m| > 0 && m[0].size >= need && !m[0].used && b.used
    ensures var t := Place(m, need);
            && (b in t <==> b in m[1..] || b == t[0])
            && UsedBytes(t) == UsedBytes(m) + t[0].size
  {
    var t := Place(m, need);
    if m[0].size - need >= SPLIT {
      assert t[1..][1..] == m[1..];
    } else {
      assert t[1..] == m[1..];
    }
  }

  lemma {:induction false} UsedBoth(a: seq<Block>, b: seq<Block>)
    ensures UsedBytes(a + b) == UsedBytes(a) + UsedBytes(b)
  {
    if a == [] {
      assert a + b == b;
    } else {
      assert (a + b)[1..] == a[1..] + b;
      UsedBoth(a[1..], b);
    }
  }

  /** A free takes one block out of the used ones and changes no other. */
  lemma {:induction false} FreeTakesOne(bs: seq<Block>, k: nat, lo: nat, hi: nat, b: Block)
    requires k < |bs| && Tiled(bs, lo, hi) && bs[k].used && b.used
    ensures b in Free(bs, k) <==> b in bs && b != bs[k]
    ensures UsedBytes(Free(bs, k)) == UsedBytes(bs) - bs[k].size
  {
    var t := [bs[k].(used := false)] + bs[k + 1..];
    assert bs == bs[..k] + bs[k..] && t[1..] == bs[k..][1..] == bs[k + 1..];
    AbsorbKeepsUsed(t, b);
    UsedBoth(bs[..k], bs[k..]);
    UsedBoth(bs[..k], Absorb(t));
    forall j | 0 <= j < |bs| && j != k ensures bs[j] != bs[k] {
      if j < k { TiledApart(bs, lo, hi, j, k); TiledAt(bs, lo, hi, j); }
      else { TiledApart(bs, lo, hi, k, j); TiledAt(bs, lo, hi, k); }
    }
  }

  // ---------------------------------------------------------------- first fit

  /** Blocks i..j are free. */
  predicate FreeRun(bs: seq<Block>, i: int, j: int) {
    0 <= i < j <= |bs| && forall k :: i <= k < j ==> !bs[k].used
  }

  function RunBytes(bs: seq<Block>, i: int, j: int): nat
    requires 0 <= i <= j <= |bs|
  {
    Total(bs[i..j])
  }

  lemma {:induction false} TotalBoth(a: seq<Block>, b: seq<Block>)
    ensures Total(a + b) == Total(a) + Total(b)
  {
    if a == [] {
      assert a + b == b;
    } else {
      assert (a + b)[1..] == a[1..] + b;
      TotalBoth(a[1..], b);
    }
  }

  lemma {:induction false} TotalCons(b: Block, bs: seq<Block>)
    ensures Total([b] + bs) == b.size + Total(bs)
  {
    assert ([b] + bs)[1..] == bs;
  }

  /** Merging the first two blocks shifts the runs from the front by one. */
  lemma {:induction false} FrontRun(bs: seq<Block>, t: seq<Block>, g: nat)
    requires |bs| > 1 && !bs[1].used && t == [bs[0].(size := bs[0].size + bs[1].size)] + bs[2..]
    requires !bs[0].used && FreeRun(t, 0, g)
    ensures FreeRun(bs, 0, g + 1) && RunBytes(bs, 0, g + 1) == RunBytes(t, 0, g)
    ensures t[g..] == bs[g + 1..] && (g < |t| ==> t[g] == bs[g + 1])
  {
    var f := g + 1;
    forall k | 0 <= k < f ensures !bs[k].used {
      if k > 1 { assert bs[k] == t[k - 1]; }
    }
    assert t[0..g] == [t[0]] + bs[2..f];
    assert bs[0..f] == [bs[0]] + ([bs[1]] + bs[2..f]);
    hide Total, FreeRun;
    TotalCons(t[0], bs[2..f]);
    TotalCons(bs[1], bs[2..f]);
    TotalCons(bs[0], [bs[1]] + bs[2..f]);
  }

  /** Absorb takes in exactly the free run at the front. */
  lemma {:induction false} AbsorbIs(bs: seq<Block>) returns (f: nat)
    requires |bs| > 0 && !bs[0].used
    ensures var m := Absorb(bs);
            && f == |bs| - |m| + 1 && FreeRun(bs, 0, f) && (f < |bs| ==> bs[f].used)
            && m[1..] == bs[f..] && m[0].size == RunBytes(bs, 0, f)
    decreases |bs|
  {
    hide Total, RunBytes;
    if |bs| > 1 && !bs[1].used {
      var t := [bs[0].(size := bs[0].size + bs[1].size)] + bs[2..];
      var g := AbsorbIs(t);
      f := g + 1;
      FrontRun(bs, t, g);
    } else {
      f := 1;
      OneBlock(bs);
    }
  }

  lemma {:induction false} OneBlock(bs: seq<Block>)
    requires |bs| > 0
    ensures RunBytes(bs, 0, 1) == bs[0].size
  {
    assert bs[0..1] == [bs[0]] + [];
    TotalCons(bs[0], []);
  }

  lemma {:induction false} RunInside(bs: seq<Block>, i: int, j: int, f: int)
    requires 0 <= i <= j <= f <= |bs|
    ensures RunBytes(bs, i, j) <= RunBytes(bs, 0, f)
  {
    assert bs[0..f] == bs[0..i] + (bs[i..j] + bs[j..f]);
    TotalBoth(bs[0..i], bs[i..j] + bs[j..f]);
    TotalBoth(bs[i..j], bs[j..f]);
  }

  /** A run of the list without its first f blocks. */
  lemma {:induction false} RunLater(bs: seq<Block>, f: nat, i: int, j: int)
    requires f <= |bs| && i >= f
    ensures FreeRun(bs, i, j) <==> FreeRun(bs[f..], i - f, j - f)
    ensures FreeRun(bs, i, j) ==> RunBytes(bs, i, j) == RunBytes(bs[f..], i - f, j - f)
  {
    var t := bs[f..];
    if FreeRun(bs, i, j) {
      assert t[i - f..j - f] == bs[i..j];
    }
    if FreeRun(t, i - f, j - f) {
      forall k | i <= k < j ensures !bs[k].used { assert bs[k] == t[k - f]; }
    }
  }

  /** How far a scan gets past the front of the list: over one used block or over one free run. */
  function Stride(bs: seq<Block>): nat
    requires |bs| > 0
  {
    if bs[0].used then 1 else |bs| - |Absorb(bs)| + 1
  }

  /** Every run of the list is inside the front run or after it. */
  lemma {:induction false} RunsSplit(bs: seq<Block>, i: int, j: int)
    requires |bs| > 0 && FreeRun(bs, i, j)
    ensures var f := Stride(bs);
            if i < f then !bs[0].used && j <= f && RunBytes(bs, i, j) <= Absorb(bs)[0].size
            else FreeRun(bs[f..], i - f, j - f) && RunBytes(bs, i, j) == RunBytes(bs[f..], i - f, j - f)
  {
    var f := Stride(bs);
    if bs[0].used {
      RunLater(bs, 1, i, j);
    } else {
      var g := AbsorbIs(bs);
      if i < f { RunInside(bs, i, j, f); } else { RunLater(bs, f, i, j); }
    }
  }

  /** Allocation fails only if every run of adjacent free blocks is too small. */
  lemma {:induction false} FailsWhenAllRunsSmall(bs: seq<Block>, need: nat, i: int, j: int)
    requires Alloc(bs, need).1 == -1 && FreeRun(bs, i, j)
    ensures RunBytes(bs, i, j) < need
    decreases |bs|
  {
    var m := if bs[0].used then bs else Absorb(bs);
    var f := Stride(bs);
    RunsSplit(bs, i, j);
    if i >= f {
      if !bs[0].used { var g := AbsorbIs(bs); }
      FailsWhenAllRunsSmall(bs[f..], need, i - f, j - f);
    }
  }

  /** The run an allocation takes: it starts right after a used block or at the front, it is large
      enough, and every run before it is too small. */
  lemma {:induction false} TakesFirstFit(bs: seq<Block>, need: nat) returns (i: nat, j: nat)
    requires Alloc(bs, need).1 >= 0
    ensures FreeRun(bs, i, j) && bs[i].off == Alloc(bs, need).1 && RunBytes(bs, i, j) >= need
    ensures i > 0 ==> bs[i - 1].used
    ensures forall x, y :: FreeRun(bs, x, y) && x < i ==> RunBytes(bs, x, y) < need
    decreases |bs|
  {
    hide RunBytes, Place;
    var f := Stride(bs);
    if !bs[0].used { var g := AbsorbIs(bs); }
    var m := if bs[0].used then bs else Absorb(bs);
    if m[0].used || m[0].size < need {
      i, j := TakesFirstFit(bs[f..], need);
      i, j := i + f, j + f;
      RunLater(bs, f, i, j);
      assert bs[f..][i - f] == bs[i];
      if i > f { assert bs[f..][i - f - 1] == bs[i - 1]; }
      forall x, y | FreeRun(bs, x, y) && x < i ensures RunBytes(bs, x, y) < need { RunsSplit(bs, x, y); }
    } else {
      i, j := 0, f;
    }
  }

  /** Bytes a block keeps of a run that is taken. */
  function Taken(run: nat, need: nat): nat {
    if run >= need + SPLIT then need else run
  }

  /** The whole of a maximal free run is taken, or cut to the size asked. */
  lemma {:induction false} TakenSize(bs: seq<Block>, need: nat) returns (i: nat, j: nat)
    requires Alloc(bs, need).1 >= 0
    ensures FreeRun(bs, i, j) && (i > 0 ==> bs[i - 1].used) && (j < |bs| ==> bs[j].used)
    ensures bs[i].off == Alloc(bs, need).1 && New(bs, need).size == Taken(RunBytes(bs, i, j), need)
    decreases |bs|
  {
    hide RunBytes;
    var f := Stride(bs);
    if !bs[0].used { var g := AbsorbIs(bs); }
    var m := if bs[0].used then bs else Absorb(bs);
    if m[0].used || m[0].size < need {
      i, j := TakenSize(bs[f..], need);
      i, j := i + f, j + f;
      RunLater(bs, f, i, j);
      assert bs[f..][i - f] == bs[i];
      if i > f { assert bs[f..][i - f - 1] == bs[i - 1]; }
      if j < |bs| { assert bs[f..][j - f] == bs[j]; }
    } else {
      i, j := 0, f;
    }
  }

  /** An allocation succeeds exactly when some run of adjacent free blocks is large enough. */
  lemma {:induction false} AllocSucceedsIff(bs: seq<Block>, need: nat)
    ensures Alloc(bs, need).1 >= 0 <==> exists i, j :: FreeRun(bs, i, j) && RunBytes(bs, i, j) >= need
  {
    if Alloc(bs, need).1 >= 0 {
      var i, j := TakesFirstFit(bs, need);
    } else {
      forall i, j | FreeRun(bs, i, j) ensures RunBytes(bs, i, j) < need {
        FailsWhenAllRunsSmall(bs, need, i, j);
      }
    }
  }

  // ---------------------------------------------------------------- pointers

  /** At most one block holds a pointer. */
  lemma {:induction false} FindIs(bs: seq<Block>, p: int, lo: nat, hi: nat, k: nat)
    requires Tiled(bs, lo, hi) && k < |bs| && bs[k].off < p < bs[k].off + bs[k].size
    ensures Find(bs, p) == k
  {
    if k > 0 {
      TiledApart(bs, lo, hi, 0, k);
      FindIs(bs[1..], p, lo + bs[0].size, hi, k - 1);
    }
  }

  lemma {:induction false} FoundNowhere(bs: seq<Block>, p: int, lo: nat, hi: nat)
    requires Tiled(bs, lo, hi) && (p == lo || p == hi || p < lo || p > hi)
    ensures Find(bs, p) == |bs|
  {
    if bs != [] {
      TiledTotal(bs, lo, hi);
      if p == lo {
        FoundBelow(bs[1..], p, lo + bs[0].size, hi);
      } else if bs[1..] != [] || p < lo {
        TiledTotal(bs[1..], lo + bs[0].size, hi);
        FoundNowhere(bs[1..], p, lo + bs[0].size, hi);
      }
    }
  }

  lemma {:induction false} FoundBelow(bs: seq<Block>, p: int, lo: nat, hi: nat)
    requires Tiled(bs, lo, hi) && p < lo
    ensures Find(bs, p) == |bs|
  {
    if bs != [] { FoundBelow(bs[1..], p, lo + bs[0].size, hi); }
  }

  lemma {:induction false} FindSkips(bs: seq<Block>, p: int, lo: nat, hi: nat, k: nat)
    requires Tiled(bs, lo, hi) && k <= |bs| && (k < |bs| ==> p >= bs[k].off) && (k == |bs| ==> p >= hi)
    ensures Find(bs, p) == k + Find(bs[k..], p)
  {
    if k > 0 {
      assert bs[1..][k - 1..] == bs[k..];
      TiledTotal(bs[1..], lo + bs[0].size, hi);
      if k < |bs| { TiledApart(bs, lo, hi, 0, k); }
      FindSkips(bs[1..], p, lo + bs[0].size, hi, k - 1);
    } else {
      assert bs[0..] == bs;
    }
  }

  /** The pointer an allocation returns is found again exactly when its block is larger than its
      header, so never after a request of 0 bytes that took a block of 16. */
  lemma {:induction false} OwnPointer(bs: seq<Block>, lo: nat, hi: nat, k: nat)
    requires Tiled(bs, lo, hi) && k < |bs|
    ensures var p := bs[k].off + HEADER;
            Find(bs, p) == if bs[k].size > HEADER then k else |bs|
  {
    TiledAt(bs, lo, hi, k);
    var p := bs[k].off + HEADER;
    if bs[k].size > HEADER {
      FindIs(bs, p, lo, hi, k);
    } else {
      if k + 1 < |bs| { TiledApart(bs, lo, hi, k, k + 1); } else { TiledTotal(bs[k + 1..], p, hi); }
      FindSkips(bs, p, lo, hi, k + 1);
      FoundNowhere(bs[k + 1..], p, p, hi);
    }
  }
}
