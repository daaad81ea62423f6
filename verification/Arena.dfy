/** The device arena as the code has it: block headers in the heap itself, read and written in
    place. One cell a byte; a 64-bit header word is kept in the cell of its first byte. */
module Arena {
  import opened ArenaList

  const WORD := 0x1_0000_0000_0000_0000

  /** Block size for a request, in uint64 arithmetic. */
  function Need(bytes: nat): nat {
    ((bytes + HEADER) % WORD + 15) % WORD / 16 * 16
  }

  /** The block size covers the request and its header exactly when the arithmetic does not wrap. */
  lemma {:induction false} NeedIsEnough(bytes: nat)
    requires bytes < WORD
    ensures Need(bytes) % 16 == 0
    ensures Need(bytes) >= bytes + HEADER <==> bytes + 31 < WORD
    ensures bytes + 31 < WORD ==> HEADER <= Need(bytes) < bytes + HEADER + 16
  {
    if bytes + HEADER >= WORD {
      assert (bytes + HEADER) % WORD == bytes + HEADER - WORD;
    }
  }

  function Flag(used: bool): int {
    if used then 1 else 0
  }

  /** The headers in memory are those of the blocks. */
  predicate Headers(m: seq<int>, bs: seq<Block>) {
    forall k :: 0 <= k < |bs| ==>
      bs[k].off + 8 < |m| && m[bs[k].off] == bs[k].size && m[bs[k].off + 8] == Flag(bs[k].used)
  }

  /** The cells of the used blocks of bs are alike in both memories. */
  predicate Kept(m: seq<int>, m': seq<int>, bs: seq<Block>) {
    && |m'| == |m|
    && forall k, i :: 0 <= k < |bs| && bs[k].used && bs[k].off <= i < bs[k].off + bs[k].size && i < |m| ==>
         m'[i] == m[i]
  }

  /** Two lists have the same used blocks. */
  ghost predicate SameUsed(bs: seq<Block>, cs: seq<Block>) {
    forall b: Block :: b.used ==> (b in bs <==> b in cs)
  }

  lemma {:induction false} KeptOn(m0: seq<int>, m: seq<int>, m': seq<int>, bs: seq<Block>, cs: seq<Block>)
    requires Kept(m0, m, bs) && Kept(m, m', cs) && SameUsed(bs, cs)
    ensures Kept(m0, m', bs)
  {
    forall k, i | 0 <= k < |bs| && bs[k].used && bs[k].off <= i < bs[k].off + bs[k].size && i < |m0|
      ensures m'[i] == m0[i]
    {
      assert bs[k] in cs;
      var j :| 0 <= j < |cs| && cs[j] == bs[k];
    }
  }

  /** Writing inside a free block keeps what the used blocks hold. */
  lemma {:induction false} WriteInFree(m: seq<int>, m': seq<int>, bs: seq<Block>, f: nat, hi: nat)
    requires Tiled(bs, 0, hi) && f < |bs| && !bs[f].used && |m'| == |m|
    requires forall i :: 0 <= i < |m| && !(bs[f].off <= i < bs[f].off + bs[f].size) ==> m'[i] == m[i]
    ensures Kept(m, m', bs)
  {
    forall k, i | 0 <= k < |bs| && bs[k].used && bs[k].off <= i < bs[k].off + bs[k].size && i < |m|
      ensures m'[i] == m[i]
    {
      if k < f { TiledApart(bs, 0, hi, k, f); } else { TiledApart(bs, 0, hi, f, k); }
    }
  }

  /** Two blocks of a tiling are at least a header apart. */
  lemma {:induction false} Spaced(bs: seq<Block>, hi: nat, j: nat, k: nat)
    requires Tiled(bs, 0, hi) && j < |bs| && k < |bs| && j != k
    ensures bs[j].off + HEADER <= bs[j].off + bs[j].size <= bs[k].off
         || bs[k].off + HEADER <= bs[k].off + bs[k].size <= bs[j].off
  {
    TiledAt(bs, 0, hi, j);
    TiledAt(bs, 0, hi, k);
    if j < k { TiledApart(bs, 0, hi, j, k); } else { TiledApart(bs, 0, hi, k, j); }
  }

  /** The front block of rest with the next one taken in. */
  function Joined(rest: seq<Block>): seq<Block>
    requires |rest| > 1
  {
    [rest[0].(size := rest[0].size + rest[1].size)] + rest[2..]
  }

  lemma {:induction false} JoinedAt(done: seq<Block>, rest: seq<Block>, k: nat)
    requires |rest| > 1 && k < |done| + |rest| - 1
    ensures (done + Joined(rest))[k] ==
            if k < |done| then (done + rest)[k]
            else if k == |done| then rest[0].(size := rest[0].size + rest[1].size)
            else (done + rest)[k + 1]
  {
  }

  lemma {:induction false} JoinSameUsed(rest: seq<Block>, b: Block)
    requires |rest| > 1 && !rest[0].used && !rest[1].used && b.used
    ensures b in rest <==> b in Joined(rest)
  {
    if b in rest {
      var i :| 0 <= i < |rest| && rest[i] == b;
      assert Joined(rest)[i - 1] == b;
    }
  }

  lemma {:induction false} JoinKeepsTiles(done: seq<Block>, rest: seq<Block>, hi: nat)
    requires |rest| > 1 && !rest[0].used && !rest[1].used && Tiled(done + rest, 0, hi)
    ensures Tiled(done + Joined(rest), 0, hi) && SameUsed(done + rest, done + Joined(rest))
  {
    TiledBoth(done, rest, 0, hi);
    TiledBoth(done, Joined(rest), 0, hi);
    assert rest[1..][1..] == Joined(rest)[1..];
    assert Tiled(Joined(rest), Total(done), hi);
    hide Tiled, Joined;
    forall b: Block | b.used ensures b in done + rest <==> b in done + Joined(rest) {
      JoinSameUsed(rest, b);
    }
  }

  lemma {:induction false} JoinKeepsHeaders(m: seq<int>, done: seq<Block>, rest: seq<Block>, hi: nat)
    requires |rest| > 1 && Tiled(done + rest, 0, hi) && Headers(m, done + rest)
    ensures rest[0].off < |m| && Headers(m[rest[0].off := rest[0].size + rest[1].size], done + Joined(rest))
  {
    hide Tiled, Joined;
    var bs, f := done + rest, |done|;
    assert bs[f] == rest[0] && bs[f + 1] == rest[1];
    var m' := m[rest[0].off := rest[0].size + rest[1].size];
    forall k | 0 <= k < |done + Joined(rest)|
      ensures var b := (done + Joined(rest))[k];
              b.off + 8 < |m'| && m'[b.off] == b.size && m'[b.off + 8] == Flag(b.used)
    {
      JoinedLength(done, rest);
      JoinedAt(done, rest, k);
      if k < f { Spaced(bs, hi, k, f); } else if k > f { Spaced(bs, hi, k + 1, f); }
    }
  }

  lemma {:induction false} JoinedLength(done: seq<Block>, rest: seq<Block>)
    requires |rest| > 1
    ensures |done + Joined(rest)| == |done| + |rest| - 1
  {
  }

  /** The block at the front of rest is replaced by t; t's headers are written, the others' kept. */
  lemma {:induction false} ReplaceHeaders(m: seq<int>, m': seq<int>, done: seq<Block>, b: Block, t: seq<Block>,
                                          tail: seq<Block>, hi: nat)
    requires Tiled(done + ([b] + tail), 0, hi) && Headers(m, done + ([b] + tail)) && |m'| == |m|
    requires Headers(m', t)
    requires forall i :: 0 <= i < |m| && !(b.off <= i < b.off + b.size) ==> m'[i] == m[i]
    ensures Headers(m', done + (t + tail))
  {
    hide Tiled;
    var bs, f := done + ([b] + tail), |done|;
    assert bs[f] == b;
    forall k | 0 <= k < |done + (t + tail)|
      ensures var c := (done + (t + tail))[k]; c.off + 8 < |m'| && m'[c.off] == c.size && m'[c.off + 8] == Flag(c.used)
    {
      if k < f {
        assert (done + (t + tail))[k] == bs[k];
        Spaced(bs, hi, k, f);
      } else if k < f + |t| {
        assert (done + (t + tail))[k] == t[k - f];
      } else {
        var o := k - |t| + 1;
        assert (done + (t + tail))[k] == bs[o];
        Spaced(bs, hi, o, f);
      }
    }
  }

  lemma {:induction false} SameSlice(m: seq<int>, m': seq<int>, lo: nat, hi: nat)
    requires lo <= hi <= |m| == |m'| && forall i :: lo <= i < hi ==> m'[i] == m[i]
    ensures m'[lo..hi] == m[lo..hi]
  {
  }

  lemma {:induction false} SplitAt(bs: seq<Block>, k: nat) returns (done: seq<Block>, c: seq<Block>, t: seq<Block>)
    requires k < |bs|
    ensures bs == done + c && |done| == k && |c| > 0 && c[0] == bs[k]
    ensures t == [c[0].(used := false)] + c[1..] && Free(bs, k) == done + Absorb(t)
  {
    done, c := bs[..k], bs[k..];
    assert c[1..] == bs[k + 1..];
    t := [c[0].(used := false)] + c[1..];
  }

  lemma {:induction false} KeptAlone(m: seq<int>, bs: seq<Block>)
    ensures Kept(m, m, bs)
  {
  }

  lemma {:induction false} HeaderAt(m: seq<int>, done: seq<Block>, rest: seq<Block>)
    requires rest != [] && Headers(m, done + rest)
    ensures var b := rest[0]; b.off + 8 < |m| && m[b.off] == b.size && m[b.off + 8] == Flag(b.used)
  {
    assert (done + rest)[|done|] == rest[0];
  }

  /** Merging at the front of rest changes nothing the scan decides by. */
  lemma {:induction false} MergedScan(bs: seq<Block>, need: nat, done: seq<Block>, rest: seq<Block>)
    requires rest != [] && !rest[0].used && SameUsed(bs, done + rest) && SameUsed(done + rest, done + Absorb(rest))
    ensures SameUsed(bs, done + Absorb(rest))
    ensures UsedBytes(done + Absorb(rest)) == UsedBytes(done + rest)
    ensures Alloc(Absorb(rest), need) == Alloc(rest, need)
  {
    AbsorbKeepsUsed(rest, Block(0, 0, true));
    UsedBoth(done, rest);
    UsedBoth(done, Absorb(rest));
    AbsorbTwice(rest);
  }

  lemma {:induction false} AbsorbTwice(rest: seq<Block>)
    requires rest != [] && !rest[0].used
    ensures Absorb(Absorb(rest)) == Absorb(rest)
  {
    var f := AbsorbIs(rest);
    var m := Absorb(rest);
    assert |m| > 1 ==> m[1] == rest[f];
  }

  /** A merged front block that is large enough is taken. */
  lemma {:induction false} AllocTakes(need: nat, done: seq<Block>, m: seq<Block>)
    requires m != [] && !m[0].used && m[0].size >= need && Absorb(m) == m
    ensures Alloc(m, need) == (Place(m, need), m[0].off)
    ensures UsedBytes(done + Place(m, need)) == UsedBytes(done + m) + Place(m, need)[0].size
  {
    PlaceUses(m, need, Place(m, need)[0]);
    UsedBoth(done, m);
    UsedBoth(done, Place(m, need));
  }

  /** A used front block, or a merged one that is too small, is passed over. */
  lemma {:induction false} AllocPasses(need: nat, done: seq<Block>, m: seq<Block>)
    requires m != [] && (m[0].used || (Absorb(m) == m && m[0].size < need))
    ensures (done + Alloc(m, need).0, Alloc(m, need).1)
         == ((done + [m[0]]) + Alloc(m[1..], need).0, Alloc(m[1..], need).1)
  {
    assert done + ([m[0]] + Alloc(m[1..], need).0) == (done + [m[0]]) + Alloc(m[1..], need).0;
  }

  lemma {:induction false} StartOfScan(bs: seq<Block>, m: seq<int>, need: nat)
    ensures [] + bs == bs && SameUsed(bs, bs) && Kept(m, m, bs)
    ensures Alloc(bs, need) == ([] + Alloc(bs, need).0, Alloc(bs, need).1)
  {
    assert [] + Alloc(bs, need).0 == Alloc(bs, need).0;
  }

  lemma {:induction false} FirstAtStart(bs: seq<Block>, hi: nat)
    requires bs != [] && Tiled(bs, 0, hi)
    ensures bs[0].off == 0
  {
  }

  /** Place in two steps: the cut of the front block, then its use. */
  function Cut(m: seq<Block>, need: nat): (c: seq<Block>)
    requires |m| > 0 && m[0].size >= need
    ensures |c| > 0 && c[0].off == m[0].off && c[0].used == m[0].used
  {
    if m[0].size - need >= SPLIT then
      [m[0].(size := need), Block(m[0].off + need, m[0].size - need, false)] + m[1..]
    else m
  }

  lemma {:induction false} CutThenUse(done: seq<Block>, m: seq<Block>, need: nat, hi: nat)
    requires |m| > 0 && !m[0].used && m[0].size >= need && need >= HEADER && need % 16 == 0 && Tiled(done + m, 0, hi)
    ensures var c := Cut(m, need);
            && Tiled(done + c, 0, hi) && Place(m, need) == [c[0].(used := true)] + c[1..]
            && SameUsed(done + m, done + c)
  {
    var c := Cut(m, need);
    assert m == [m[0]] + m[1..];
    TiledBoth(done, m, 0, hi);
    if m[0].size - need >= SPLIT {
      assert c[1..][1..] == m[1..];
    }
    TiledBoth(done, c, 0, hi);
    hide Tiled;
    forall b: Block | b.used ensures b in done + m <==> b in done + c {
      assert b in m <==> b in m[1..];
      assert b in c <==> b in m[1..];
    }
  }

  lemma {:induction false} FrontInside(done: seq<Block>, m: seq<Block>, hi: nat)
    requires |m| > 0 && Tiled(done + m, 0, hi)
    ensures m[0].off + m[0].size <= hi && m[0].size >= HEADER
  {
    assert (done + m)[|done|] == m[0];
    TiledAt(done + m, 0, hi, |done|);
  }

  /** The header written for the rest of a block that is cut, and the block's own shortened. */
  lemma {:induction false} CutHeaders(m0: seq<int>, done: seq<Block>, m: seq<Block>, need: nat, hi: nat)
    requires |m| > 0 && !m[0].used && need >= HEADER && m[0].size - need >= SPLIT && |m0| == hi
    requires Tiled(done + m, 0, hi) && Headers(m0, done + m)
    ensures var b := m[0].off;
            && b + need + 8 < |m0|
            && var m1 := m0[b + need := m[0].size - need][b + need + 8 := 0][b := need];
               Headers(m1, done + Cut(m, need)) && Kept(m0, m1, done + m)
  {
    var b := m[0].off;
    var t := [m[0].(size := need), Block(b + need, m[0].size - need, false)];
    FrontInside(done, m, hi);
    HeaderAt(m0, done, m);
    assert m == [m[0]] + m[1..] && (done + m)[|done|] == m[0];
    hide Tiled;
    var m1 := m0[b + need := m[0].size - need][b + need + 8 := 0][b := need];
    assert Headers(m1, t);
    hide Headers;
    ReplaceHeaders(m0, m1, done, m[0], t, m[1..], hi);
    WriteInFree(m0, m1, done + m, |done|, hi);
  }

  /** The flag written for the block that becomes used. */
  lemma {:induction false} UseHeaders(m0: seq<int>, done: seq<Block>, c: seq<Block>, hi: nat)
    requires |c| > 0 && !c[0].used && |m0| == hi && Tiled(done + c, 0, hi) && Headers(m0, done + c)
    ensures var t := [c[0].(used := true)] + c[1..];
            && c[0].off + 8 < |m0| && Tiled(done + t, 0, hi)
            && Headers(m0[c[0].off + 8 := 1], done + t) && Kept(m0, m0[c[0].off + 8 := 1], done + c)
  {
    var t := [c[0].(used := true)] + c[1..];
    assert t[1..] == c[1..];
    TiledBoth(done, c, 0, hi);
    TiledBoth(done, t, 0, hi);
    FrontInside(done, c, hi);
    HeaderAt(m0, done, c);
    assert c == [c[0]] + c[1..] && (done + c)[|done|] == c[0];
    hide Tiled;
    var m1 := m0[c[0].off + 8 := 1];
    assert Headers(m1, [c[0].(used := true)]);
    hide Headers;
    ReplaceHeaders(m0, m1, done, c[0], [c[0].(used := true)], c[1..], hi);
    WriteInFree(m0, m1, done + c, |done|, hi);
  }

  lemma {:induction false} EndOfScan(need: nat, done: seq<Block>)
    ensures Alloc([], need) == ([], -1) && done + [] == done
  {
  }

  /** A pointer as an offset from the heap's start. */
  datatype Ptr = Null | At(off: int)

  /** Some used block holds the pointer. */
  predicate Holds(bs: seq<Block>, p: Ptr) {
    p.At? && Find(bs, p.off) < |bs| && bs[Find(bs, p.off)].used
  }

  datatype Status = Ok | Exhausted | Foreign

  /** Only the cells p .. p + n may differ. */
  predicate Changed(m: seq<int>, m': seq<int>, p: int, n: int) {
    |m'| == |m| && forall i :: 0 <= i < |m| && !(p <= i < p + n) ==> m'[i] == m[i]
  }

  /** The cells of every block but block k are alike in both memories. */
  predicate KeptBut(m: seq<int>, m': seq<int>, bs: seq<Block>, k: nat) {
    && |m'| == |m|
    && forall j, i :: 0 <= j < |bs| && j != k && bs[j].off <= i < bs[j].off + bs[j].size && i < |m| ==> m'[i] == m[i]
  }

  /** Bytes from a pointer to the end of the block that holds it. */
  function Room(bs: seq<Block>, p: Ptr): nat
    requires Holds(bs, p)
  {
    var b := bs[Find(bs, p.off)];
    b.off + b.size - p.off
  }

  /** Position of the block that holds the pointer, 0 if none. */
  function Held(bs: seq<Block>, p: Ptr): (k: nat)
    ensures bs != [] ==> k < |bs|
  {
    if Holds(bs, p) then Find(bs, p.off) else 0
  }

  /** Where the block an allocation adds is, and that it was not a used block before. */
  lemma {:induction false} NewBlock(bs: seq<Block>, need: nat, hi: nat) returns (k: nat)
    requires Tiled(bs, 0, hi) && need >= HEADER && need % 16 == 0 && Alloc(bs, need).1 >= 0
    ensures var r := Alloc(bs, need);
            && Tiled(r.0, 0, hi) && k < |r.0| && r.0[k] == New(bs, need) && r.0[k] !in bs
            && r.0[k].off + r.0[k].size <= hi
  {
    hide Alloc, New;
    var r, nb := Alloc(bs, need), New(bs, need);
    AllocTiles(bs, need, 0, hi);
    AllocAddsOne(bs, need, nb);
    k :| 0 <= k < |r.0| && r.0[k] == nb;
    TiledAt(r.0, 0, hi, k);
    var i, j := TakesFirstFit(bs, need);
    forall x | 0 <= x < |bs| ensures bs[x] != nb {
      if x != i { Spaced(bs, hi, x, i); }
    }
  }

  /** A used block stays where it was through an allocation, apart from the new block. */
  lemma {:induction false} StaysUsed(bs: seq<Block>, need: nat, hi: nat, j: nat) returns (o: nat)
    requires Tiled(bs, 0, hi) && need >= HEADER && need % 16 == 0 && j < |bs| && bs[j].used
    ensures var r := Alloc(bs, need);
            Tiled(r.0, 0, hi) && o < |r.0| && r.0[o] == bs[j] && (r.1 >= 0 ==> r.0[o] != New(bs, need))
  {
    hide Alloc, New;
    var r := Alloc(bs, need);
    AllocTiles(bs, need, 0, hi);
    AllocAddsOne(bs, need, bs[j]);
    o :| 0 <= o < |r.0| && r.0[o] == bs[j];
    if r.1 >= 0 { var k := NewBlock(bs, need, hi); }
  }

  /** The new allocation is 16-byte aligned, inside the heap, and overlaps no live one. */
  lemma {:induction false} NewIsApart(bs: seq<Block>, need: nat, hi: nat, j: nat)
    requires Tiled(bs, 0, hi) && need >= HEADER && need % 16 == 0 && Alloc(bs, need).1 >= 0 && j < |bs| && bs[j].used
    ensures var b := New(bs, need);
            && b.off % 16 == 0 && b.off + b.size <= hi
            && (bs[j].off + bs[j].size <= b.off || b.off + b.size <= bs[j].off)
  {
    hide Alloc, New;
    var k := NewBlock(bs, need, hi);
    var o := StaysUsed(bs, need, hi, j);
    var r := Alloc(bs, need).0;
    TiledAt(r, 0, hi, k);
    Spaced(r, hi, o, k);
  }

  /** Whether the pointer returned for a request is found again: always for a request of at least a byte,
      and for one of 0 bytes exactly when the free run it takes, i .. j, is neither exactly a header nor
      large enough to be cut. */
  lemma {:induction false} RequestFound(bs: seq<Block>, bytes: nat, hi: nat) returns (i: nat, j: nat)
    requires Tiled(bs, 0, hi) && bytes + 31 < WORD && Alloc(bs, Need(bytes)).1 >= 0
    ensures FreeRun(bs, i, j) && (i > 0 ==> bs[i - 1].used) && (j < |bs| ==> bs[j].used)
    ensures bs[i].off == Alloc(bs, Need(bytes)).1
    ensures var r := Alloc(bs, Need(bytes));
            Find(r.0, r.1 + HEADER) < |r.0| <==> bytes > 0 || HEADER < RunBytes(bs, i, j) < HEADER + SPLIT
  {
    var need := Need(bytes);
    NeedIsEnough(bytes);
    assert bytes == 0 ==> need == HEADER;
    hide Alloc, New, RunBytes, Need, Find;
    var k := NewBlock(bs, need, hi);
    i, j := TakenSize(bs, need);
    AllocTiles(bs, need, 0, hi);
    OwnPointer(Alloc(bs, need).0, 0, hi, k);
    TiledAt(Alloc(bs, need).0, 0, hi, k);
  }

  /** What the client writes into its new block leaves the old used blocks alone. */
  lemma {:induction false} OthersKept(m0: seq<int>, m1: seq<int>, m2: seq<int>, bs: seq<Block>, need: nat, k: nat,
                                      hi: nat)
    requires Tiled(bs, 0, hi) && need >= HEADER && need % 16 == 0 && Alloc(bs, need).1 >= 0
    requires var r := Alloc(bs, need); k < |r.0| && r.0[k] == New(bs, need) && KeptBut(m1, m2, r.0, k)
    requires Kept(m0, m1, bs)
    ensures Kept(m0, m2, bs)
  {
    forall j, i | 0 <= j < |bs| && bs[j].used && bs[j].off <= i < bs[j].off + bs[j].size && i < |m0|
      ensures m2[i] == m0[i]
    {
      var o := StaysUsed(bs, need, hi, j);
      assert o != k;
    }
  }

  /** The cells of the used blocks of bs are alike in both memories, except those of block x. */
  predicate KeptExcept(m: seq<int>, m': seq<int>, bs: seq<Block>, x: nat) {
    && |m'| == |m|
    && forall k, i :: 0 <= k < |bs| && k != x && bs[k].used && bs[k].off <= i < bs[k].off + bs[k].size && i < |m| ==>
         m'[i] == m[i]
  }

  /** The block has room for the request, or the pointer is in no used block. */
  predicate Stays(bs: seq<Block>, from: Ptr, n: nat) {
    from.At? && (!Holds(bs, from) || Room(bs, from) >= n)
  }

  /** A moved allocation: after allocating (blocks r) the old block is freed (blocks cs), the bytes
      from the pointer to the old block's end are at the new address, and no other used block changed. */
  predicate Moved(m0: seq<int>, m: seq<int>, bs: seq<Block>, r: seq<Block>, cs: seq<Block>, from: Ptr, to: int) {
    && Holds(bs, from) && Holds(r, from) && r[Find(r, from.off)] == bs[Find(bs, from.off)]
    && cs == Free(r, Find(r, from.off))
    && var have := Room(bs, from);
       && from.off >= 0 && to >= 0 && from.off + have <= |m0| && to + have <= |m|
       && m[to..to + have] == m0[from.off..from.off + have]
       && KeptExcept(m0, m, bs, Find(bs, from.off))
  }

  lemma {:induction false} HeaderOf(m: seq<int>, bs: seq<Block>, k: nat)
    requires Headers(m, bs) && k < |bs|
    ensures var b := bs[k]; b.off + 8 < |m| && m[b.off] == b.size && m[b.off + 8] == Flag(b.used)
  {
  }

  /** A held pointer is inside its block, and the block inside the heap. */
  lemma {:induction false} RoomOf(bs: seq<Block>, p: Ptr, hi: nat)
    requires Tiled(bs, 0, hi) && Holds(bs, p)
    ensures var b := bs[Find(bs, p.off)]; b.off < p.off && p.off + Room(bs, p) == b.off + b.size <= hi
  {
    TiledAt(bs, 0, hi, Find(bs, p.off));
  }

  /** Where the new block and the block the pointer is in are after the allocation. */
  lemma {:induction false} MovePositions(bs: seq<Block>, need: nat, hi: nat, p: Ptr) returns (k: nat, o: nat)
    requires Tiled(bs, 0, hi) && need >= HEADER && need % 16 == 0 && Alloc(bs, need).1 >= 0 && Holds(bs, p)
    ensures var r := Alloc(bs, need).0;
            && Tiled(r, 0, hi) && k < |r| && r[k] == New(bs, need) && r[k] !in bs && r[k].off + r[k].size <= hi
            && o < |r| && o != k && r[o] == bs[Find(bs, p.off)] && Holds(r, p) && Find(r, p.off) == o
            && Room(r, p) == Room(bs, p)
  {
    hide Alloc, New, Tiled;
    k := NewBlock(bs, need, hi);
    var f := Find(bs, p.off);
    o := StaysUsed(bs, need, hi, f);
    FindIs(Alloc(bs, need).0, p.off, 0, hi, o);
  }

  /** Through allocation, copy and free: the copied bytes arrive and no other allocation changes. */
  lemma {:induction false} MovedCells(m0: seq<int>, m1: seq<int>, m2: seq<int>, m3: seq<int>, bs: seq<Block>,
                                      need: nat, hi: nat, p: Ptr, o: nat, k: nat)
    requires Tiled(bs, 0, hi) && need >= HEADER && need % 16 == 0 && Alloc(bs, need).1 >= 0 && Holds(bs, p)
    requires |m0| == |m1| == |m2| == |m3| == hi
    requires var r := Alloc(bs, need).0;
             && Tiled(r, 0, hi) && k < |r| && r[k] == New(bs, need) && r[k] !in bs
             && o < |r| && o != k && r[o] == bs[Find(bs, p.off)]
             && KeptBut(m1, m2, r, k) && Kept(m2, m3, Free(r, o))
    requires Kept(m0, m1, bs)
    requires Holds(Alloc(bs, need).0, p) && Find(Alloc(bs, need).0, p.off) == o
    requires var a, have := New(bs, need).off + HEADER, Room(bs, p);
             && p.off >= 0 && have + HEADER <= New(bs, need).size && a + have <= hi && p.off + have <= hi
             && m2[a..a + have] == m1[p.off..p.off + have]
    ensures Moved(m0, m3, bs, Alloc(bs, need).0, Free(Alloc(bs, need).0, o), p, New(bs, need).off + HEADER)
  {
    hide Alloc, Find, Tiled, Free, New;
    var r, f := Alloc(bs, need).0, Find(bs, p.off);
    assert r[o] == bs[f];
    forall j, i | 0 <= j < |bs| && j != f && bs[j].used && bs[j].off <= i < bs[j].off + bs[j].size && i < hi
      ensures m3[i] == m0[i]
    {
      var x := StaysUsed(bs, need, hi, j);
      Spaced(bs, hi, j, f);
      StillUsed(m2, m3, r, o, x, hi);
    }
    Spaced(r, hi, o, k);
    StillUsed(m2, m3, r, o, k, hi);
    var a, have := New(bs, need).off + HEADER, Room(bs, p);
    SameSlice(m2, m3, a, a + have);
    SameSlice(m0, m1, p.off, p.off + have);
  }

  /** A block that is not the freed one keeps its cells. */
  lemma {:induction false} StillUsed(m2: seq<int>, m3: seq<int>, r: seq<Block>, o: nat, x: nat, hi: nat)
    requires Tiled(r, 0, hi) && o < |r| && r[o].used && x < |r| && r[x].used && r[x] != r[o] && Kept(m2, m3, Free(r, o))
    ensures forall i :: r[x].off <= i < r[x].off + r[x].size && i < |m2| ==> m3[i] == m2[i]
  {
    hide Free;
    FreeTakesOne(r, o, 0, hi, r[x]);
    var y :| 0 <= y < |Free(r, o)| && Free(r, o)[y] == r[x];
  }

  /** The flag cleared for the block that is freed. */
  lemma {:induction false} FreeHeaders(m0: seq<int>, done: seq<Block>, c: seq<Block>, hi: nat)
    requires |c| > 0 && |m0| == hi && Tiled(done + c, 0, hi) && Headers(m0, done + c)
    ensures var t := [c[0].(used := false)] + c[1..];
            && c[0].off + 8 < |m0| && Tiled(done + t, 0, hi)
            && Headers(m0[c[0].off + 8 := 0], done + t) && Kept(m0, m0[c[0].off + 8 := 0], done + t)
  {
    var t := [c[0].(used := false)] + c[1..];
    assert t[1..] == c[1..];
    TiledBoth(done, c, 0, hi);
    TiledBoth(done, t, 0, hi);
    FrontInside(done, c, hi);
    HeaderAt(m0, done, c);
    assert c == [c[0]] + c[1..] && (done + t)[|done|] == t[0];
    hide Tiled;
    var m1 := m0[c[0].off + 8 := 0];
    assert Headers(m1, [c[0].(used := false)]);
    hide Headers;
    ReplaceHeaders(m0, m1, done, c[0], [c[0].(used := false)], c[1..], hi);
    WriteInFree(m0, m1, done + t, |done|, hi);
  }

  lemma {:induction false} UsedAtLeast(bs: seq<Block>, k: nat)
    requires k < |bs| && bs[k].used
    ensures UsedBytes(bs) >= bs[k].size
  {
    if k > 0 { UsedAtLeast(bs[1..], k - 1); }
  }

  lemma {:induction false} KeptAfterMerge(m0: seq<int>, m1: seq<int>, m2: seq<int>, bs: seq<Block>, cs: seq<Block>)
    requires Kept(m0, m1, bs) && Kept(m1, m2, bs) && SameUsed(bs, cs)
    ensures Kept(m0, m2, cs)
  {
    forall k, i | 0 <= k < |cs| && cs[k].used && cs[k].off <= i < cs[k].off + cs[k].size && i < |m0|
      ensures m2[i] == m0[i]
    {
      assert cs[k] in bs;
      var j :| 0 <= j < |bs| && bs[j] == cs[k];
    }
  }

  /** Writes inside the payload of one block keep all headers and all other blocks. */
  lemma {:induction false} WriteInPayload(m: seq<int>, m': seq<int>, bs: seq<Block>, k: nat, hi: nat)
    requires Tiled(bs, 0, hi) && k < |bs| && |m'| == |m| && Headers(m, bs)
    requires forall i :: 0 <= i < |m| && !(bs[k].off + HEADER <= i < bs[k].off + bs[k].size) ==> m'[i] == m[i]
    ensures Headers(m', bs)
    ensures forall j, i :: 0 <= j < |bs| && j != k && bs[j].off <= i < bs[j].off + bs[j].size && i < |m| ==>
              m'[i] == m[i]
  {
    hide Tiled;
    forall j | 0 <= j < |bs| && j != k
      ensures forall i :: bs[j].off <= i < bs[j].off + bs[j].size && i < |m| ==> m'[i] == m[i]
      ensures m'[bs[j].off] == bs[j].size && m'[bs[j].off + 8] == Flag(bs[j].used)
    {
      Spaced(bs, hi, j, k);
    }
  }

  // ---------------------------------------------------------------- the heap

  class Heap {
    const mem: array<int>       // heap_begin .. heap_end
    var heapUsed: nat
    var heapPeak: nat
    ghost var blocks: seq<Block>

    ghost predicate Valid()
      reads this, mem
    {
      && Shape(blocks)
      && heapUsed == UsedBytes(blocks) && heapUsed <= heapPeak
    }

    /** The headers in memory describe a tiling. */
    ghost predicate Shape(bs: seq<Block>)
      reads mem
    {
      bs != [] && Tiled(bs, 0, mem.Length) && Headers(mem[..], bs)
    }

    /** One free block. */
    constructor (cells: array<int>)
      requires cells.Length >= HEADER && cells.Length % 16 == 0
      modifies cells
      ensures mem == cells && Valid() && blocks == [Block(0, cells.Length, false)]
      ensures heapUsed == 0 && heapPeak == 0
    {
      mem := cells;
      heapUsed, heapPeak := 0, 0;
      blocks := [Block(0, cells.Length, false)];
      new;
      cells[0], cells[8] := cells.Length, 0;
    }

    /** Offset of the block after b, -1 past the last one. */
    method Next(b: nat, ghost bs: seq<Block>, ghost k: nat) returns (n: int)
      requires Shape(bs) && k < |bs| && bs[k].off == b
      ensures n == if k + 1 < |bs| then bs[k + 1].off else -1
    {
      TiledAt(bs, 0, mem.Length, k);
      if k + 1 < |bs| { TiledApart(bs, 0, mem.Length, k, k + 1); TiledAt(bs, 0, mem.Length, k + 1); }
      else { TiledTotal(bs[k + 1..], bs[k].off + bs[k].size, mem.Length); }
      assert mem[..][bs[k].off] == bs[k].size;
      n := b + mem[b];
      if n >= mem.Length { n := -1; }
    }

    /** The free block at b takes in the free blocks after it. */
    method Merge(b: nat, ghost done: seq<Block>, ghost rest: seq<Block>)
      requires |rest| > 0 && rest[0].off == b && !rest[0].used && Shape(done + rest)
      modifies mem
      ensures Shape(done + Absorb(rest)) && SameUsed(done + rest, done + Absorb(rest))
      ensures Kept(old(mem[..]), mem[..], done + rest)
    {
      ghost var r := rest;
      ghost var bs := done + rest;
      var n := Next(b, bs, |done|);
      while n >= 0 && mem[n + 8] == 0
        invariant |r| > 0 && r[0].off == b && !r[0].used && Absorb(r) == Absorb(rest)
        invariant Shape(done + r) && SameUsed(bs, done + r) && Kept(old(mem[..]), mem[..], bs)
        invariant n == if |r| > 1 then r[1].off else -1
        invariant 0 <= n ==> n + 8 < mem.Length
        decreases |r|
      {
        n, r := Join(b, n, done, r, bs, old(mem[..]));
      }
      assert |r| > 1 ==> (done + r)[|done| + 1] == r[1];
    }

    /** One step of the merge. */
    method Join(b: nat, n: nat, ghost done: seq<Block>, ghost r: seq<Block>, ghost bs: seq<Block>, ghost m0: seq<int>)
      returns (n': int, ghost t: seq<Block>)
      requires |r| > 1 && r[0].off == b && !r[0].used && n == r[1].off && n + 8 < mem.Length && mem[n + 8] == 0
      requires Shape(done + r) && SameUsed(bs, done + r) && Kept(m0, mem[..], bs)
      modifies mem
      ensures !r[1].used && t == Joined(r)
      ensures Shape(done + t) && SameUsed(bs, done + t) && Kept(m0, mem[..], bs)
      ensures n' == if |t| > 1 then t[1].off else -1
      ensures 0 <= n' ==> n' + 8 < mem.Length
    {
      t := Joined(r);
      ghost var f, m := |done|, mem[..];
      assert (done + r)[f] == r[0] && (done + r)[f + 1] == r[1];
      JoinKeepsTiles(done, r, mem.Length);
      JoinKeepsHeaders(m, done, r, mem.Length);
      mem[b] := mem[b] + mem[n];
      assert mem[..] == m[b := r[0].size + r[1].size];
      TiledAt(done + r, 0, mem.Length, f);
      WriteInFree(m, mem[..], done + r, f, mem.Length);
      KeptOn(m0, m, mem[..], bs, done + r);
      n' := Next(b, done + t, f);
      assert |t| > 1 ==> (done + t)[f + 1] == t[1];
    }

    /** The free block at b is cut to the size asked when 64 bytes or more are left over. */
    method Split(b: nat, need: nat, ghost done: seq<Block>, ghost m: seq<Block>)
      requires |m| > 0 && m[0].off == b && !m[0].used && m[0].size >= need && need >= HEADER && need % 16 == 0
      requires Shape(done + m)
      modifies mem
      ensures Shape(done + Cut(m, need)) && Kept(old(mem[..]), mem[..], done + m)
    {
      hide Tiled, Headers, Kept;
      CutThenUse(done, m, need, mem.Length);
      HeaderAt(mem[..], done, m);
      ghost var m0 := mem[..];
      KeptAlone(m0, done + m);
      if mem[b] - need >= SPLIT {
        CutHeaders(m0, done, m, need, mem.Length);
        hide Cut;
        mem[b + need], mem[b + need + 8] := mem[b] - need, 0;
        mem[b] := need;
        assert mem[..] == m0[b + need := m[0].size - need][b + need + 8 := 0][b := need];
      }
    }

    /** The free block at b becomes used, split when 64 bytes or more are left over. */
    method Take(b: nat, need: nat, ghost done: seq<Block>, ghost m: seq<Block>)
      requires |m| > 0 && m[0].off == b && !m[0].used && m[0].size >= need && need >= HEADER && need % 16 == 0
      requires Shape(done + m)
      modifies mem, this`heapUsed, this`heapPeak
      ensures Shape(done + Place(m, need)) && Kept(old(mem[..]), mem[..], done + m)
      ensures heapUsed == old(heapUsed) + Place(m, need)[0].size
      ensures heapPeak == if heapUsed > old(heapPeak) then heapUsed else old(heapPeak)
    {
      hide Tiled, Headers, Kept, SameUsed, Cut, Place;
      CutThenUse(done, m, need, mem.Length);
      Split(b, need, done, m);
      ghost var m1, c := mem[..], Cut(m, need);
      UseHeaders(m1, done, c, mem.Length);
      HeaderAt(m1, done, c);
      mem[b + 8] := 1;
      assert mem[..] == m1[b + 8 := 1];
      heapUsed := heapUsed + mem[b];
      if heapUsed > heapPeak { heapPeak := heapUsed; }
      KeptOn(old(mem[..]), m1, mem[..], done + m, done + c);
    }

    /** What the scan has done so far: free blocks of done + rest may be merged further than those
        of bs, and what is left to do is the rest. */
    ghost predicate Scanning(bs: seq<Block>, m0: seq<int>, need: nat, done: seq<Block>, rest: seq<Block>)
      reads mem
    {
      && SameUsed(bs, done + rest) && UsedBytes(done + rest) == UsedBytes(bs) && Kept(m0, mem[..], bs)
      && Alloc(bs, need) == (done + Alloc(rest, need).0, Alloc(rest, need).1)
    }

    /** One block of the scan: a used block is passed over; a free one takes in its neighbours and,
        if large enough, the request. */
    method ScanBlock(b: nat, need: nat, ghost done: seq<Block>, ghost rest: seq<Block>, ghost bs: seq<Block>,
                     ghost m0: seq<int>)
      returns (taken: bool, next: int, ghost done': seq<Block>, ghost rest': seq<Block>)
      requires rest != [] && rest[0].off == b && need >= HEADER && need % 16 == 0
      requires Shape(done + rest) && Scanning(bs, m0, need, done, rest) && heapUsed == UsedBytes(bs)
      modifies mem, this`heapUsed, this`heapPeak
      ensures Shape(done' + rest') && Kept(m0, mem[..], bs)
      ensures heapUsed == UsedBytes(done' + rest')
      ensures heapPeak == if heapUsed > old(heapPeak) && taken then heapUsed else old(heapPeak)
      ensures taken ==> Alloc(bs, need) == (done' + rest', b)
      ensures !taken ==>
                && (next >= 0 ==> rest' != [] && rest'[0].off == next) && (next < 0 ==> rest' == [] && next == -1)
                && Scanning(bs, m0, need, done', rest') && |rest'| < |rest| && heapUsed == old(heapUsed)
    {
      hide Tiled, Headers, Alloc, Place, SameUsed, Kept, UsedBytes, Absorb;
      next, done', taken := -1, done, false;
      ghost var m := rest;
      HeaderAt(mem[..], done, rest);
      if mem[b + 8] == 0 {
        Merge(b, done, rest);
        m := Absorb(rest);
        MergedScan(bs, need, done, rest);
        AbsorbTwice(rest);
        KeptOn(m0, old(mem[..]), mem[..], bs, done + rest);
        HeaderAt(mem[..], done, m);
        if mem[b] >= need {
          AllocTakes(need, done, m);
          ghost var m1 := mem[..];
          Take(b, need, done, m);
          rest' := Place(m, need);
          taken := true;
          next := b;
          KeptOn(m0, m1, mem[..], bs, done + m);
          return;
        }
      }
      AllocPasses(need, done, m);
      done', rest' := done + [m[0]], m[1..];
      assert (done + m)[|done|] == m[0] && done' + rest' == done + m;
      next := Next(b, done + m, |done|);
      assert |m| > 1 ==> (done + m)[|done| + 1] == m[1];
    }

    /** First fit over the blocks; the address after the header of the block taken, or -1. */
    method Allocate(bytes: nat) returns (p: int)
      requires Valid() && bytes + 31 < WORD
      modifies this, mem
      ensures Valid() && heapPeak == if heapUsed > old(heapPeak) && p >= 0 then heapUsed else old(heapPeak)
      ensures (blocks, if p < 0 then -1 else p - HEADER) == Alloc(old(blocks), Need(bytes))
      ensures p == -1 || p >= HEADER
      ensures Kept(old(mem[..]), mem[..], old(blocks))
    {
      hide Tiled, Headers, Alloc, Place, Absorb, SameUsed, Kept, UsedBytes;
      NeedIsEnough(bytes);
      var need := Need(bytes);
      ghost var bs, m0 := blocks, mem[..];
      ghost var done: seq<Block>, rest := [], blocks;
      var b := 0;
      FirstAtStart(blocks, mem.Length);
      assert [] + blocks == blocks;
      assert Scanning(bs, m0, need, [], blocks) by { StartOfScan(bs, m0, need); }
      while b >= 0
        invariant b >= 0 ==> rest != [] && rest[0].off == b
        invariant b < 0 ==> rest == [] && b == -1
        invariant Shape(done + rest) && Scanning(bs, m0, need, done, rest)
        invariant heapUsed == old(heapUsed) == UsedBytes(bs) && heapPeak == old(heapPeak) && blocks == bs
        decreases |rest|, b
      {
        var taken, n;
        taken, n, done, rest := ScanBlock(b, need, done, rest, bs, m0);
        if taken {
          blocks := done + rest;
          p := b + HEADER;
          return;
        }
        b := n;
      }
      EndOfScan(need, done);
      blocks := done;
      assert done + rest == done;
      p := -1;
    }

    /** The header of the used block that holds address p, or -1. */
    method Lookup(p: int) returns (b: int)
      requires Valid()
      ensures var k := Find(blocks, p);
              b == if k < |blocks| && blocks[k].used then blocks[k].off else -1
    {
      hide Tiled, UsedBytes;
      FirstAtStart(blocks, mem.Length);
      b := 0;
      ghost var k := 0;
      assert blocks[0..] == blocks;
      while b >= 0
        invariant k <= |blocks| && b == (if k < |blocks| then blocks[k].off else -1)
        invariant Find(blocks, p) == k + Find(blocks[k..], p)
        decreases |blocks| - k, b
      {
        assert mem[..][blocks[k].off] == blocks[k].size && mem[..][blocks[k].off + 8] == Flag(blocks[k].used);
        assert blocks[k..][0] == blocks[k] && blocks[k..][1..] == blocks[k + 1..];
        if b < p < b + mem[b] {
          if mem[b + 8] == 0 { b := -1; }
          return;
        }
        b := Next(b, blocks, k);
        k := k + 1;
      }
    }

    /** The block that holds the pointer becomes free and takes in the free blocks after it; any
        other pointer is ignored. */
    method Release(p: Ptr)
      requires Valid()
      modifies this, mem
      ensures Valid() && heapPeak == old(heapPeak) && Kept(old(mem[..]), mem[..], blocks)
      ensures blocks == if Holds(old(blocks), p) then Free(old(blocks), Find(old(blocks), p.off)) else old(blocks)
      ensures !Holds(old(blocks), p) ==> mem[..] == old(mem[..]) && heapUsed == old(heapUsed)
    {
      hide Tiled, Headers, Kept, UsedBytes, SameUsed, Absorb, Free, Find;
      KeptAlone(mem[..], blocks);
      if p == Null { return; }
      var b := Lookup(p.off);
      if b < 0 { return; }
      ghost var k, m0 := Find(blocks, p.off), mem[..];
      ghost var done, c, t := SplitAt(blocks, k);
      HeaderAt(m0, done, c);
      FreeHeaders(m0, done, c, mem.Length);
      FreeTakesOne(blocks, k, 0, mem.Length, c[0]);
      UsedAtLeast(blocks, k);
      mem[b + 8] := 0;
      assert mem[..] == m0[b + 8 := 0];
      heapUsed := heapUsed - mem[b];
      ghost var m1 := mem[..];
      Merge(b, done, t);
      blocks := done + Absorb(t);
      KeptAfterMerge(m0, m1, mem[..], done + t, blocks);
    }

    /** A client's write inside its allocation. */
    method Store(p: nat, v: int, ghost k: nat)
      requires Valid() && k < |blocks| && blocks[k].used
      requires blocks[k].off + HEADER <= p < blocks[k].off + blocks[k].size && p < mem.Length
      modifies mem
      ensures Valid() && mem[..] == old(mem[..])[p := v]
    {
      hide Tiled, UsedBytes;
      ghost var m0 := mem[..];
      mem[p] := v;
      WriteInPayload(m0, mem[..], blocks, k, mem.Length);
    }

    /** The first n bytes after an allocation's header are zeroed. */
    method Fill(p: nat, n: nat, ghost k: nat)
      requires Valid() && k < |blocks| && blocks[k].used
      requires blocks[k].off + HEADER == p && p + n <= blocks[k].off + blocks[k].size <= mem.Length
      modifies mem
      ensures Valid() && Changed(old(mem[..]), mem[..], p, n)
      ensures forall i :: p <= i < p + n ==> mem[i] == 0
      ensures KeptBut(old(mem[..]), mem[..], blocks, k)
    {
      hide Tiled, UsedBytes, Headers;
      ghost var m0 := mem[..];
      for i := 0 to n
        invariant Changed(m0, mem[..], p, n) && forall j :: p <= j < p + i ==> mem[j] == 0
      {
        mem[p + i] := 0;
      }
      WriteInPayload(m0, mem[..], blocks, k, mem.Length);
    }

    /** The first n bytes after an allocation's header are copied from elsewhere. */
    method Copy(p: nat, q: nat, n: nat, ghost k: nat)
      requires Valid() && k < |blocks| && blocks[k].used
      requires blocks[k].off + HEADER == p && p + n <= blocks[k].off + blocks[k].size <= mem.Length
      requires q + n <= p || p + n <= q <= q + n <= mem.Length
      modifies mem
      ensures Valid() && Changed(old(mem[..]), mem[..], p, n)
      ensures mem[p..p + n] == old(mem[q..q + n])
      ensures KeptBut(old(mem[..]), mem[..], blocks, k)
    {
      hide Tiled, UsedBytes, Headers;
      ghost var m0 := mem[..];
      for i := 0 to n
        invariant Changed(m0, mem[..], p, n) && mem[p..p + i] == m0[q..q + i]
      {
        mem[p + i] := mem[q + i];
        assert mem[p..p + i + 1] == mem[p..p + i] + [m0[q + i]];
        assert m0[q..q + i + 1] == m0[q..q + i] + [m0[q + i]];
      }
      WriteInPayload(m0, mem[..], blocks, k, mem.Length);
    }

    /** MALLOC and, with zeroing, CALLOC. */
    method Malloc(n: nat, zero: bool) returns (st: Status, p: Ptr)
      requires Valid() && n + 31 < WORD
      modifies this, mem
      ensures Valid() && Kept(old(mem[..]), mem[..], old(blocks))
      ensures blocks == Alloc(old(blocks), Need(n)).0
      ensures var at := Alloc(old(blocks), Need(n)).1;
              if at < 0 then st == Exhausted && p == Null else st == Ok && p == At(at + HEADER)
      ensures st == Ok && zero ==> p.off >= 0 && p.off + n <= mem.Length && forall i :: p.off <= i < p.off + n ==>
                mem[i] == 0
    {
      hide Tiled, Headers, Kept, KeptBut, UsedBytes, SameUsed, Alloc, Need;
      NeedIsEnough(n);
      ghost var bs, m0 := blocks, mem[..];
      var a := Allocate(n);
      if a < 0 { return Exhausted, Null; }
      st, p := Ok, At(a);
      if zero {
        ghost var k := NewBlock(bs, Need(n), mem.Length);
        ghost var m1 := mem[..];
        Fill(a, n, k);
        OthersKept(m0, m1, mem[..], bs, Need(n), k, mem.Length);
      }
    }

    /** REALLOC: a block that is large enough stays; otherwise a new one is taken, the old contents
        up to the old block's end are copied, and the old one is freed. */
    method Realloc(from: Ptr, n: nat) returns (st: Status, p: Ptr)
      requires Valid() && n + 31 < WORD
      modifies this, mem
      ensures Valid()
      ensures st == Foreign <==> from.At? && !Holds(old(blocks), from)
      ensures Stays(old(blocks), from, n) ==> p == from && blocks == old(blocks) && mem[..] == old(mem[..])
      ensures !Stays(old(blocks), from, n) ==>
                var bs := old(blocks);
                var r := Alloc(bs, Need(n));
                if r.1 < 0 then
                  st == Exhausted && p == from && blocks == r.0 && Kept(old(mem[..]), mem[..], bs)
                else
                  && st == Ok && p == At(r.1 + HEADER)
                  && (from == Null ==> blocks == r.0 && Kept(old(mem[..]), mem[..], bs))
                  && (from.At? ==> Moved(old(mem[..]), mem[..], bs, r.0, blocks, from, p.off))
    {
      hide Tiled, Headers, Kept, KeptBut, UsedBytes, SameUsed, Alloc, Need, Find, New, Free;
      ghost var bs, m0 := blocks, mem[..];
      p := from;
      var have: nat := 0;
      if from.At? {
        var ob := Lookup(from.off);
        if ob < 0 { return Foreign, from; }
        ghost var f := Find(bs, from.off);
        RoomOf(bs, from, mem.Length);
        assert mem[..][bs[f].off] == bs[f].size by { HeaderOf(mem[..], bs, f); }
        have := ob + mem[ob] - from.off;
        assert have == Room(bs, from);
        if have >= n { return Ok, from; }
      }
      var a := Allocate(n);
      if a < 0 { return Exhausted, from; }
      p, st := At(a), Ok;
      if from.At? {
        Move(from, a, have, n, bs, m0);
      }
    }

    /** The copy and the free of a block that moves. */
    method Move(from: Ptr, a: nat, have: nat, n: nat, ghost bs: seq<Block>, ghost m0: seq<int>)
      requires Valid() && Tiled(bs, 0, mem.Length) && n + 31 < WORD && have < n && Kept(m0, mem[..], bs)
      requires Holds(bs, from) && have == Room(bs, from) && |m0| == mem.Length
      requires Alloc(bs, Need(n)) == (blocks, a - HEADER) && a >= HEADER
      modifies this, mem
      ensures Valid() && Moved(m0, mem[..], bs, Alloc(bs, Need(n)).0, blocks, from, a)
    {
      hide Tiled, Headers, KeptBut, UsedBytes, SameUsed, Alloc, Need, Find, New, Free, Kept, KeptExcept, Moved;
      NeedIsEnough(n);
      var need := Need(n);
      ghost var hi, m1, as_ := mem.Length, mem[..], blocks;
      ghost var k, o := MovePositions(bs, need, hi, from);
      RoomOf(as_, from, hi);
      Spaced(as_, hi, o, k);
      Copy(a, from.off, have, k);
      ghost var m2 := mem[..];
      Release(from);
      MovedCells(m0, m1, m2, mem[..], bs, need, hi, from, o, k);
    }
  }
}
