/** The step table the host writes once (compiler/runtime/sa/sa_rvsched.c): one copy of every item,
    and the words of it that differ between buckets with their value in each. */
module RvTable {
  import opened Fp32
  import opened RvHost

  /** Every bucket has the same items but for their words' values. */
  predicate SameShape(c: Schedule) {
    && |c.buckets| > 0
    && forall k :: 0 <= k < |c.buckets| ==> LikeFirst(c, k)
  }

  predicate LikeFirst(c: Schedule, k: nat)
    requires k < |c.buckets|
  {
    var x, y := c.buckets[0].items, c.buckets[k].items;
    |x| == |y| && forall i :: 0 <= i < |x| ==> |x[i].words| == |y[i].words| && x[i].code == y[i].code
  }

  predicate Spot(c: Schedule, i: int, w: int)
    requires |c.buckets| > 0
  {
    0 <= i < |c.buckets[0].items| && 0 <= w < |c.buckets[0].items[i].words|
  }

  function WordOf(c: Schedule, k: nat, i: int, w: int): U32
    requires SameShape(c) && k < |c.buckets| && Spot(c, i, w)
  {
    assert LikeFirst(c, k);
    c.buckets[k].items[i].words[w]
  }

  predicate Differs(c: Schedule, i: int, w: int)
    requires SameShape(c) && Spot(c, i, w)
  {
    exists k :: 1 <= k < |c.buckets| && WordOf(c, k, i, w) != WordOf(c, 0, i, w)
  }

  /** 64-byte alignment, in words. */
  function Align(x: nat): (r: nat)
    ensures x <= r < x + 16 && r % 16 == 0
  {
    (x + 15) / 16 * 16
  }

  /** The copies of the items follow each other in the table. */
  predicate LaidOut(c: Schedule, off: seq<nat>, end: nat)
    requires |c.buckets| > 0
  {
    var items := c.buckets[0].items;
    && |off| == |items|
    && (forall i :: 0 <= i < |off| ==> off[i] + |items[i].words| <= end)
    && (forall i, j :: 0 <= i < j < |off| ==> off[i] + |items[i].words| <= off[j])
  }

  /** The word of the table at spot (i, w). */
  function Address(off: seq<nat>, i: int, w: int): int
    requires 0 <= i < |off|
  {
    off[i] + w
  }

  lemma {:induction false} SpotsApart(c: Schedule, off: seq<nat>, end: nat, i: int, w: int, j: int, v: int)
    requires |c.buckets| > 0 && LaidOut(c, off, end) && Spot(c, i, w) && Spot(c, j, v)
    ensures 0 <= Address(off, i, w) < end
    ensures Address(off, i, w) == Address(off, j, v) ==> i == j && w == v
  {
    if i < j { assert off[i] + |c.buckets[0].items[i].words| <= off[j]; }
    if j < i { assert off[j] + |c.buckets[0].items[j].words| <= off[i]; }
  }

  /** Copy i starts at the next multiple of 64 bytes after copy i - 1, the first after the header's 24 words. */
  predicate Placement(c: Schedule, off: seq<nat>, i: nat)
    requires i < |off| && |c.buckets| > 0 && |off| <= |c.buckets[0].items|
  {
    var last := if i == 0 then 24 else off[i - 1] + |c.buckets[0].items[i - 1].words|;
    last <= off[i] < last + 16
  }

  /** Offsets of the copies, each 64-byte aligned, after the header. */
  method Layout(c: Schedule) returns (off: seq<nat>, end: nat)
    requires |c.buckets| > 0
    ensures LaidOut(c, off, end) && forall i :: 0 <= i < |off| ==> off[i] % 16 == 0
    ensures forall i :: 0 <= i < |off| ==> Placement(c, off, i)
  {
    var items := c.buckets[0].items;
    off, end := [], Align(24);
    for i := 0 to |items|
      invariant |off| == i && end % 16 == 0
      invariant forall j :: 0 <= j < i ==> off[j] + |items[j].words| <= end && off[j] % 16 == 0
      invariant forall h, j :: 0 <= h < j < i ==> off[h] + |items[h].words| <= off[j]
      invariant var last := if i == 0 then 24 else off[i - 1] + |items[i - 1].words|; last <= end < last + 16
      invariant forall j :: 0 <= j < i ==> Placement(c, off, j)
    {
      ghost var before := off;
      off := off + [end];
      forall j | 0 <= j < i ensures Placement(c, off, j) { assert Placement(c, before, j); }
      end := Align(end + |items[i].words|);
    }
  }

  /** Whether the word at a spot differs in any bucket. */
  method AnyDiffers(c: Schedule, i: nat, w: nat) returns (r: bool)
    requires SameShape(c) && Spot(c, i, w)
    ensures r <==> Differs(c, i, w)
  {
    for k := 1 to |c.buckets|
      invariant forall h :: 1 <= h < k ==> WordOf(c, h, i, w) == WordOf(c, 0, i, w)
    {
      if WordOf(c, k, i, w) != WordOf(c, 0, i, w) { return true; }
    }
    r := false;
  }

  /** The spots listed are exactly those at which some bucket differs from the first. */
  ghost predicate Lists(c: Schedule, idx: seq<(nat, nat)>)
    requires SameShape(c)
  {
    && (forall i: nat, w: nat :: Spot(c, i, w) && Differs(c, i, w) ==> (i, w) in idx)
    && (forall n :: 0 <= n < |idx| ==> Spot(c, idx[n].0, idx[n].1) && Differs(c, idx[n].0, idx[n].1))
  }

  /** Those of the first w words of item i, and of the first i items, in the order of the table. */
  function ItemDiffs(c: Schedule, i: nat, w: nat): seq<(nat, nat)>
    requires SameShape(c) && i < |c.buckets[0].items| && w <= |c.buckets[0].items[i].words|
  {
    if w == 0 then [] else ItemDiffs(c, i, w - 1) + if Differs(c, i, w - 1) then [(i, w - 1)] else []
  }

  function Diffs(c: Schedule, i: nat): seq<(nat, nat)>
    requires SameShape(c) && i <= |c.buckets[0].items|
  {
    if i == 0 then [] else Diffs(c, i - 1) + ItemDiffs(c, i - 1, |c.buckets[0].items[i - 1].words|)
  }

  function AllDiffs(c: Schedule): seq<(nat, nat)>
    requires SameShape(c)
  {
    Diffs(c, |c.buckets[0].items|)
  }

  method DiffItem(c: Schedule, i: nat, before: seq<(nat, nat)>) returns (idx: seq<(nat, nat)>)
    requires SameShape(c) && i < |c.buckets[0].items|
    ensures forall i', w :: (i', w) in idx <==> (i', w) in before || (i' == i && Spot(c, i, w) && Differs(c, i, w))
    ensures idx == before + ItemDiffs(c, i, |c.buckets[0].items[i].words|)
  {
    idx := before;
    for w := 0 to |c.buckets[0].items[i].words|
      invariant forall i', v :: (i', v) in idx <==>
                  (i', v) in before || (i' == i && v < w && Spot(c, i, v) && Differs(c, i, v))
      invariant idx == before + ItemDiffs(c, i, w)
    {
      var d := AnyDiffers(c, i, w);
      if d { idx := idx + [(i, w)]; }
    }
  }

  /** The spots that differ between buckets. */
  method Diff(c: Schedule) returns (idx: seq<(nat, nat)>)
    requires SameShape(c)
    ensures Lists(c, idx) && idx == AllDiffs(c)
  {
    idx := [];
    for i := 0 to |c.buckets[0].items|
      invariant forall j, w :: (j, w) in idx <==> j < i && Spot(c, j, w) && Differs(c, j, w)
      invariant idx == Diffs(c, i)
    {
      idx := DiffItem(c, i, idx);
    }
    forall n | 0 <= n < |idx| ensures Spot(c, idx[n].0, idx[n].1) && Differs(c, idx[n].0, idx[n].1) {
      assert (idx[n].0, idx[n].1) in idx;
    }
  }

  /** The check of the recordings' shapes. */
  method CheckShape(c: Schedule) returns (ok: bool)
    ensures ok <==> SameShape(c)
  {
    if |c.buckets| == 0 { return false; }
    var x := c.buckets[0].items;
    for k := 0 to |c.buckets|
      invariant forall h :: 0 <= h < k ==> LikeFirst(c, h)
    {
      var y := c.buckets[k].items;
      if |y| != |x| {
        assert !LikeFirst(c, k);
        return false;
      }
      for i := 0 to |x|
        invariant forall j :: 0 <= j < i ==> |x[j].words| == |y[j].words| && x[j].code == y[j].code
      {
        if |y[i].words| != |x[i].words| || y[i].code != x[i].code {
          assert !LikeFirst(c, k);
          return false;
        }
      }
    }
    ok := true;
  }

  // ---------------------------------------------------------------- the table

  /** The copies in the table are bucket k's items. */
  ghost predicate ImageIs(c: Schedule, off: seq<nat>, img: seq<U32>, k: nat)
    requires SameShape(c) && LaidOut(c, off, |img|) && k < |c.buckets|
  {
    forall i, w :: Spot(c, i, w) ==> Shows(c, off, img, k, i, w)
  }

  predicate Shows(c: Schedule, off: seq<nat>, img: seq<U32>, k: nat, i: int, w: int)
    requires SameShape(c) && LaidOut(c, off, |img|) && k < |c.buckets| && Spot(c, i, w)
  {
    SpotsApart(c, off, |img|, i, w, i, w);
    img[Address(off, i, w)] == WordOf(c, k, i, w)
  }

  /** Words that no bucket changes are as recorded. */
  ghost predicate RestIsCommon(c: Schedule, off: seq<nat>, img: seq<U32>)
    requires SameShape(c) && LaidOut(c, off, |img|)
  {
    forall i, w :: Spot(c, i, w) && !Differs(c, i, w) ==> Shows(c, off, img, 0, i, w)
  }

  /** Address and value in each bucket of every listed word. */
  ghost predicate Patches(c: Schedule, off: seq<nat>, end: nat, idx: seq<(nat, nat)>, words: seq<nat>,
                          values: seq<seq<U32>>)
    requires SameShape(c) && LaidOut(c, off, end)
  {
    && Lists(c, idx) && |words| == |idx| && |values| == |c.buckets|
    && (forall n :: 0 <= n < |idx| ==> words[n] == Address(off, idx[n].0, idx[n].1))
    && (forall k :: 0 <= k < |values| ==> |values[k]| == |idx|)
    && (forall k, n :: 0 <= k < |values| && 0 <= n < |idx| ==> values[k][n] == WordOf(c, k, idx[n].0, idx[n].1))
  }

  lemma {:induction false} PatchOne(c: Schedule, off: seq<nat>, img: seq<U32>, k: nat, i: int, w: int)
    requires SameShape(c) && LaidOut(c, off, |img|) && k < |c.buckets| && Spot(c, i, w)
    ensures 0 <= Address(off, i, w) < |img|
    ensures var img' := img[Address(off, i, w) := WordOf(c, k, i, w)];
            && Shows(c, off, img', k, i, w)
            && forall j, v, h: nat :: Spot(c, j, v) && h < |c.buckets| && (j != i || v != w) ==>
                 Shows(c, off, img', h, j, v) == Shows(c, off, img, h, j, v)
  {
    SpotsApart(c, off, |img|, i, w, i, w);
    var img' := img[Address(off, i, w) := WordOf(c, k, i, w)];
    forall j, v, h: nat | Spot(c, j, v) && h < |c.buckets| && (j != i || v != w)
      ensures Shows(c, off, img', h, j, v) == Shows(c, off, img, h, j, v)
    {
      SpotsApart(c, off, |img|, i, w, j, v);
    }
  }

  class Table {
    const img: array<U32>          // the table's words
    const off: seq<nat>            // RVS_T_ITEMS: each item's copy
    const words: seq<nat>          // RVS_T_WORDS: the words that differ
    const values: seq<seq<U32>>    // RVS_T_VALUES: their values in each bucket
    const idx: seq<(nat, nat)>     // the spots they are at

    /** The table serves the recorded schedule. */
    ghost predicate For(c: Schedule)
      reads img
    {
      && SameShape(c) && LaidOut(c, off, img.Length)
      && Patches(c, off, img.Length, idx, words, values)
      && RestIsCommon(c, off, img[..])
    }

    /** The copies of the items are bucket k's. */
    ghost predicate At(c: Schedule, k: nat)
      requires SameShape(c) && LaidOut(c, off, img.Length) && k < |c.buckets|
      reads img
    {
      ImageIs(c, off, img[..], k)
    }

    constructor (c: Schedule, img: array<U32>, off: seq<nat>, idx: seq<(nat, nat)>, words: seq<nat>,
                 values: seq<seq<U32>>)
      requires SameShape(c) && LaidOut(c, off, img.Length)
      requires Patches(c, off, img.Length, idx, words, values) && ImageIs(c, off, img[..], 0)
      ensures this.img == img && this.idx == idx && For(c) && At(c, 0)
    {
      this.img, this.off, this.idx, this.words, this.values := img, off, idx, words, values;
    }

    /** A bucket's values patched into the copies: they are then its recorded items, whatever bucket
        they were before. */
    method Patch(c: Schedule, k: nat)
      requires For(c) && k < |c.buckets|
      modifies img
      ensures For(c) && At(c, k)
    {
      hide WordOf, Differs, SameShape;
      for n := 0 to |words|
        invariant RestIsCommon(c, off, img[..])
        invariant forall h :: 0 <= h < n ==> Shows(c, off, img[..], k, idx[h].0, idx[h].1)
      {
        ghost var i, w, was := idx[n].0, idx[n].1, img[..];
        PatchOne(c, off, was, k, i, w);
        img[words[n]] := values[k][n];
        assert img[..] == was[Address(off, i, w) := WordOf(c, k, i, w)];
      }
      forall i, w | Spot(c, i, w) ensures Shows(c, off, img[..], k, i, w) {
        PatchedOrCommon(c, off, img[..], idx, k, i, w);
      }
    }
  }

  lemma {:induction false} PatchedOrCommon(c: Schedule, off: seq<nat>, img: seq<U32>, idx: seq<(nat, nat)>, k: nat,
                                           i: int, w: int)
    requires SameShape(c) && LaidOut(c, off, |img|) && k < |c.buckets| && Spot(c, i, w) && Lists(c, idx)
    requires RestIsCommon(c, off, img)
    requires forall h :: 0 <= h < |idx| ==> Shows(c, off, img, k, idx[h].0, idx[h].1)
    ensures Shows(c, off, img, k, i, w)
  {
    if Differs(c, i, w) {
      var i', w': nat := i, w;
      assert (i', w') in idx;
      var h :| 0 <= h < |idx| && idx[h] == (i', w');
    } else {
      assert k > 0 ==> WordOf(c, k, i, w) == WordOf(c, 0, i, w);
      assert Shows(c, off, img, 0, i, w);
    }
  }

  /** An item's slice of the table is its recorded words. */
  lemma {:induction false} SliceIs(c: Schedule, off: seq<nat>, img: seq<U32>, k: nat, i: nat)
    requires SameShape(c) && LaidOut(c, off, |img|) && k < |c.buckets| && ImageIs(c, off, img, k)
    requires i < |c.buckets[0].items|
    ensures LikeFirst(c, k) && i < |c.buckets[k].items|
    ensures img[off[i]..off[i] + |c.buckets[0].items[i].words|] == c.buckets[k].items[i].words
  {
    assert LikeFirst(c, k);
    var len := |c.buckets[0].items[i].words|;
    var s := img[off[i]..off[i] + len];
    forall w | 0 <= w < len ensures s[w] == c.buckets[k].items[i].words[w] {
      assert Spot(c, i, w) && Shows(c, off, img, k, i, w);
    }
  }

  /** The copy of one item, word by word. */
  method CopyItem(c: Schedule, img: array<U32>, off: seq<nat>, i: nat)
    requires SameShape(c) && LaidOut(c, off, img.Length) && i < |c.buckets[0].items|
    requires forall j, v :: Spot(c, j, v) && j < i ==> Shows(c, off, img[..], 0, j, v)
    modifies img
    ensures forall j, v :: Spot(c, j, v) && j <= i ==> Shows(c, off, img[..], 0, j, v)
  {
    var ws := c.buckets[0].items[i].words;
    for w := 0 to |ws|
      invariant forall j, v :: Spot(c, j, v) && (j < i || (j == i && v < w)) ==> Shows(c, off, img[..], 0, j, v)
    {
      ghost var was := img[..];
      PatchOne(c, off, was, 0, i, w);
      img[off[i] + w] := ws[w];
      assert img[..] == was[Address(off, i, w) := WordOf(c, 0, i, w)];
    }
  }

  /** The listed words' addresses and values. */
  method PatchLists(c: Schedule, off: seq<nat>, end: nat, idx: seq<(nat, nat)>)
    returns (words: seq<nat>, values: seq<seq<U32>>)
    requires SameShape(c) && LaidOut(c, off, end) && Lists(c, idx)
    ensures Patches(c, off, end, idx, words, values)
  {
    words, values := [], [];
    for n := 0 to |idx|
      invariant |words| == n && forall h :: 0 <= h < n ==> words[h] == Address(off, idx[h].0, idx[h].1)
    {
      words := words + [off[idx[n].0] + idx[n].1];
    }
    for k := 0 to |c.buckets|
      invariant |values| == k && forall h :: 0 <= h < k ==> |values[h]| == |idx|
      invariant forall h, n :: 0 <= h < k && 0 <= n < |idx| ==> values[h][n] == WordOf(c, h, idx[n].0, idx[n].1)
    {
      var v: seq<U32> := [];
      for n := 0 to |idx|
        invariant |v| == n && forall h :: 0 <= h < n ==> v[h] == WordOf(c, k, idx[h].0, idx[h].1)
      {
        v := v + [WordOf(c, k, idx[n].0, idx[n].1)];
      }
      values := values + [v];
    }
  }

  // ---------------------------------------------------------------- the two passes

  /** Room kept after the first pass for the words that differ: a quarter more, and 64. */
  function Room(first: Schedule): nat
    requires SameShape(first)
  {
    var n := |AllDiffs(first)|;
    n + n / 4 + 64
  }

  /** The second pass recorded the first one's items: their number, and the code and size of each. */
  predicate SameItems(first: Schedule, c: Schedule)
    requires |first.buckets| > 0 && |c.buckets| > 0
  {
    var x, y := first.buckets[0].items, c.buckets[0].items;
    |x| == |y| && forall i :: 0 <= i < |x| ==> |x[i].words| == |y[i].words| && x[i].code == y[i].code
  }

  method CheckItems(first: Schedule, c: Schedule) returns (ok: bool)
    requires |first.buckets| > 0 && |c.buckets| > 0
    ensures ok <==> SameItems(first, c)
  {
    var x, y := first.buckets[0].items, c.buckets[0].items;
    if |x| != |y| { return false; }
    for i := 0 to |x|
      invariant forall j :: 0 <= j < i ==> |x[j].words| == |y[j].words| && x[j].code == y[j].code
    {
      if |x[i].words| != |y[i].words| || x[i].code != y[i].code { return false; }
    }
    ok := true;
  }

  /** Both passes: the first fixes the items, their copies' places and the room; the second recording makes
      the table when it has the same items, its buckets agree in shape and the words that differ fit. */
  method WriteTable(first: Schedule, c: Schedule) returns (t: Table?)
    requires |first.buckets| == |c.buckets|
    ensures t != null <==> SameShape(first) && SameItems(first, c) && SameShape(c) && |AllDiffs(c)| <= Room(first)
    ensures t != null ==> fresh(t) && fresh(t.img) && t.For(c) && t.At(c, 0) && t.idx == AllDiffs(c)
  {
    t := null;
    var ok := CheckShape(first);
    if !ok { return; }
    var found := Diff(first);
    var cap := |found| + |found| / 4 + 64;
    var off, end := Layout(first);
    ok := CheckItems(first, c);
    if !ok { return; }
    ok := CheckShape(c);
    if !ok { return; }
    var idx := Diff(c);
    if |idx| > cap { return; }
    t := Written(c, off, end, idx);
  }

  method Written(c: Schedule, off: seq<nat>, end: nat, idx: seq<(nat, nat)>) returns (t: Table)
    requires SameShape(c) && LaidOut(c, off, end) && Lists(c, idx)
    ensures fresh(t) && fresh(t.img) && t.For(c) && t.At(c, 0) && t.idx == idx
  {
    var img := new U32[end](i => 0);
    for i := 0 to |c.buckets[0].items|
      invariant forall j, v :: Spot(c, j, v) && j < i ==> Shows(c, off, img[..], 0, j, v)
    {
      CopyItem(c, img, off, i);
    }
    var words, values := PatchLists(c, off, end, idx);
    t := new Table(c, img, off, idx, words, values);
  }
}
