/** The decode loop on the RISC-V core (firmware/include/rvsched.h, rvs_run): it patches the table
    when the bucket changes and otherwise sets one word of the mask, and must do what the host's
    loop over the recorded steps does. */
module RvCore {
  import opened Dyadic
  import opened Fp32
  import opened RvKey
  import opened RvHost
  import opened RvTable
  import opened RvTrace

  const NONE: U32 := 0xFFFF_FFFF
  const M32 := 0x1_0000_0000

  /** The mask of bucket k is 1.0 exactly at positions 0 .. pos of its length. */
  predicate MaskIs(c: Schedule, k: nat, m: seq<U32>, pos: int)
    requires k < |c.buckets| && InMemory(c, k, |m|)
  {
    var io := c.buckets[k].io;
    forall i :: io.valid <= i < io.valid + Length(c, c.b0 + k) ==> m[i] == if i - io.valid <= pos then ONE else 0
  }

  /** Setting one word of a right mask makes the next mask. */
  lemma {:induction false} OneWordMore(c: Schedule, k: nat, m: seq<U32>, pos: nat)
    requires k < |c.buckets| && InMemory(c, k, |m|) && pos < Length(c, c.b0 + k) && MaskIs(c, k, m, pos - 1)
    ensures var io := c.buckets[k].io;
            m[io.valid + pos := ONE] == Masked(m, io.valid, Length(c, c.b0 + k), pos)
  {
  }

  lemma {:induction false} MaskedIs(c: Schedule, k: nat, m: seq<U32>, pos: nat)
    requires k < |c.buckets| && InMemory(c, k, |m|)
    ensures MaskIs(c, k, Masked(m, c.buckets[k].io.valid, Length(c, c.b0 + k), pos), pos)
  {
  }

  /** Inputs are outside the mask. */
  lemma {:induction false} PreparedMask(c: Schedule, k: nat, m: seq<U32>, token: U32, pos: U32)
    requires Placed(c, |m|) && k < |c.buckets|
    ensures InMemory(c, k, |m|) && MaskIs(c, k, Prepared(c, k, m, token, pos), pos)
  {
    assert InMemory(c, k, |m|);
    MaskedIs(c, k, m, pos);
    var io, r := c.buckets[k].io, Prepared(c, k, m, token, pos);
    forall i | io.valid <= i < io.valid + Length(c, c.b0 + k)
      ensures r[i] == Masked(m, io.valid, Length(c, c.b0 + k), pos)[i]
    {
      assert InMask(c, k, i);
    }
  }

  /** Items keep the mask. */
  lemma {:induction false} ItemsKeepMask(c: Schedule, unit: Unit, k: nat, m: seq<U32>, pos: nat)
    requires Placed(c, |m|) && KeepsMasks(c, unit) && k < |c.buckets| && InMemory(c, k, |m|) && MaskIs(c, k, m, pos)
    ensures var r := RunItems(unit, c.buckets[k].items, 0, m); |r.m| == |m| && MaskIs(c, k, r.m, pos)
  {
    ItemsKeepMasks(c, unit, c.buckets[k].items, 0, m);
    var r := RunItems(unit, c.buckets[k].items, 0, m);
    var io := c.buckets[k].io;
    forall i | io.valid <= i < io.valid + Length(c, c.b0 + k) ensures r.m[i] == m[i] {
      assert InMask(c, k, i);
    }
  }

  /** n words from a on. */
  function Slice(m: seq<U32>, a: nat, n: nat): (s: seq<U32>)
    requires a + n <= |m|
    ensures |s| == n
  {
    m[a..a + n]
  }

  class Core {
    const t: Table
    const m: array<U32>     // the device's memory

    constructor (t: Table, m: array<U32>)
      ensures this.t == t && this.m == m
    {
      this.t, this.m := t, m;
    }

    ghost predicate Ready(c: Schedule)
      reads t, t.img, m
    {
      t.img != m && t.For(c) && Placed(c, m.Length)
    }

    /** The whole mask of bucket k. */
    method WriteMask(c: Schedule, k: nat, pos: nat)
      requires k < |c.buckets| && InMemory(c, k, m.Length)
      modifies m
      ensures m[..] == Masked(old(m[..]), c.buckets[k].io.valid, Length(c, c.b0 + k), pos)
    {
      var valid, length := c.buckets[k].io.valid, Length(c, c.b0 + k);
      for i := 0 to length
        invariant forall j :: 0 <= j < m.Length ==>
                    m[j] == if valid <= j < valid + i then (if j - valid <= pos then ONE else 0) else old(m[..])[j]
      {
        m[valid + i] := if i <= pos then ONE else 0;
      }
    }

    /** A step's inputs: the patched copies and the whole mask when the bucket changes, else one more
        word of the mask; then token and position. */
    method Prepare(c: Schedule, k: nat, change: bool, pos: U32, token: U32)
      requires Ready(c) && k < |c.buckets| && InMemory(c, k, m.Length) && pos < Length(c, c.b0 + k)
      requires !change ==> t.At(c, k) && MaskIs(c, k, m[..], pos - 1)
      modifies m, t.img
      ensures Ready(c) && t.At(c, k) && m[..] == Prepared(c, k, old(m[..]), token, pos)
      ensures InputsApart(c.buckets[k].io) ==> StartsFrom(c, k, old(m[..]), m[..], token, pos)
    {
      var io := c.buckets[k].io;
      if change {
        t.Patch(c, k);
        WriteMask(c, k, pos);
      } else {
        OneWordMore(c, k, m[..], pos);
        m[io.valid + pos] := ONE;
      }
      assert m[..] == Masked(old(m[..]), io.valid, Length(c, c.b0 + k), pos);
      m[io.token] := token;
      m[io.token + 1] := 0;
      m[io.pos] := pos;
      m[io.pos + 1] := 0;
      assert m[..] == Prepared(c, k, old(m[..]), token, pos);
      if InputsApart(io) { PreparedStarts(c, k, old(m[..]), token, pos); }
    }

    /** The items of the table in order, up to the first that fails. */
    method RunTable(c: Schedule, k: nat, unit: Unit) returns (status: U32, l: nat)
      requires Ready(c) && k < |c.buckets| && t.At(c, k) && KeepsMasks(c, unit)
      modifies m
      ensures Ready(c) && t.At(c, k)
      ensures RunItems(unit, c.buckets[k].items, 0, old(m[..])) == Ran(m[..], status, l)
    {
      status, l := 0, 0;
      assert LikeFirst(c, k);
      var items := c.buckets[0].items;
      while l < |items|
        invariant l <= |items| && Ready(c) && t.At(c, k) && status == 0
        invariant RunItems(unit, c.buckets[k].items, 0, old(m[..])) == RunItems(unit, c.buckets[k].items, l, m[..])
      {
        SliceIs(c, t.off, t.img[..], k, l);
        var ws := t.img[t.off[l]..t.off[l] + |items[l].words|];
        assert ws == t.img[..][t.off[l]..t.off[l] + |items[l].words|];
        var r := unit(items[l].code, ws, m[..]);
        Replace(r.0);
        status := r.1;
        if status != 0 { return; }
        l := l + 1;
      }
    }

    /** The memory an item leaves. */
    method Replace(r: seq<U32>)
      requires |r| == m.Length
      modifies m
      ensures m[..] == r
    {
      for i := 0 to m.Length
        invariant m[..i] == r[..i]
      {
        m[i] := r[i];
      }
    }

    /** One step at a position of bucket k. */
    method Turn(c: Schedule, k: nat, unit: Unit, cur: U32, pos: U32, token: U32)
      returns (status: U32, failed: nat, next: U32)
      requires Turning(this, c, cur, pos) && KeepsMasks(c, unit)
      requires c.pad > 0 && c.b0 <= BucketOf(c, pos) && k == BucketOf(c, pos) - c.b0 && k < |c.buckets|
               && InMemory(c, k, m.Length)
      modifies m, t.img
      ensures Ready(c)
      ensures RunItems(unit, c.buckets[k].items, 0, Prepared(c, k, old(m[..]), token, pos))
              == Ran(m[..], status, failed)
      ensures BucketOf(c, pos) < M32
      ensures status == 0 ==> Turning(this, c, BucketOf(c, pos), pos + 1) && next == NextToken(c, k, m[..])
    {
      hide Table.For, Table.At, KeepsMasks, NextToken, RunItems, BucketOf, Length;
      PositionFits(c, pos, m.Length);
      var b: U32 := BucketOf(c, pos);
      Prepare(c, k, b != cur, pos, token);
      PreparedMask(c, k, old(m[..]), token, pos);
      ItemsKeepMask(c, unit, k, m[..], pos);
      hide Prepared, InMemory, MaskIs, Placed;
      status, failed := RunTable(c, k, unit);
      next := 0;
      if status == 0 { next := Argmax(c, k); }
    }

    /** rvs_run: at most steps steps from pos with the given token. */
    method Run(c: Schedule, unit: Unit, pos0: nat, steps: nat, token0: U32, stop: U32)
      returns (tokens: seq<nat>, status: U32, failed: int)
      requires Ready(c) && KeepsMasks(c, unit)
      modifies m, t.img
      ensures Ready(c)
      ensures HostLoop(c, unit, old(m[..]), pos0, steps, token0, stop) == Outcome(tokens, status, failed, m[..])
      ensures AllApart(c) ==>
                HasTrace(c, unit, old(m[..]), pos0, steps, token0, stop, Outcome(tokens, status, failed, m[..]))
    {
      hide Table.For, Table.At, KeepsMasks, Placed, NextToken, Prepared, RunItems, InMemory, MaskIs, BucketOf,
           HostLoop, SameShape, LaidOut, HasTrace, AllApart;
      LoopHasTrace(c, unit, m[..], pos0, steps, token0, stop);
      ZeroSteps(c, unit, m[..], pos0, token0, stop);
      tokens, status, failed := [], 0, -1;
      var pos: nat, token: U32, cur: U32 := pos0, token0, NONE;
      for s := 0 to steps
        invariant pos == pos0 + s && Turning(this, c, cur, pos) && status == 0 && failed == -1
        invariant var rest := HostLoop(c, unit, m[..], pos, steps - s, token, stop);
                  HostLoop(c, unit, old(m[..]), pos0, steps, token0, stop) == rest.(tokens := tokens + rest.tokens)
      {
        SizeBelow(c, m.Length);
        HostTurn(c, unit, m[..], pos, steps - s, token, stop);
        var b := BucketOf(c, pos);
        if b < c.b0 || b - c.b0 >= |c.buckets| {
          status := RANGE;
          return;
        }
        PositionFits(c, pos, m.Length);
        var next, l;
        status, l, next := Turn(c, b - c.b0, unit, cur, pos, token);
        if status != 0 {
          failed := l;
          return;
        }
        tokens, token, cur, pos := tokens + [next], next, b, pos + 1;
        if token == stop { return; }
      }
      ZeroSteps(c, unit, m[..], pos, token, stop);
    }

    /** The first block with the largest maximum. */
    method LargestBlock(bm: nat, n: nat) returns (best: nat)
      requires n > 0 && bm + n <= m.Length
      ensures best < n && best == BestBlock(Slice(m[..], bm, n), n)
    {
      ghost var bmax := Slice(m[..], bm, n);
      var key := Key(m[bm]);
      best := 0;
      for j := 1 to n
        invariant best < j && best == BestBlock(bmax, j) && key == Key(bmax[best])
      {
        var f := Key(m[bm + j]);
        assert m[bm + j] == bmax[j];
        if f > key { key, best := f, j; }
      }
    }

    /** The first position holding the value, 0 if none. */
    method FirstEqual(lg: nat, size: nat, f: U32) returns (idx: nat)
      requires lg + size <= m.Length
      ensures idx == FirstHolding(Slice(m[..], lg, size), f, 0)
    {
      ghost var b := Slice(m[..], lg, size);
      for i := 0 to size
        invariant FirstHolding(b, f, 0) == FirstHolding(b, f, i)
      {
        assert m[lg + i] == b[i];
        if Same(m[lg + i], f) { return i; }
      }
      idx := 0;
    }

    /** The block of the largest maximum, then the first position in it holding that maximum. */
    method Argmax(c: Schedule, k: nat) returns (token: U32)
      requires Ready(c) && k < |c.buckets|
      ensures token == NextToken(c, k, m[..])
    {
      hide Table.For;
      assert InMemory(c, k, m.Length);
      var io := c.buckets[k].io;
      var best := LargestBlock(io.bmax, c.nblocks);
      var f, base := m[io.bmax + best], Pos(c.block, best, 0);
      TokenIs(c, k, m[..], best, base);
      hide BestBlock, FirstHolding, Ready, Placed, InMemory, NextToken, Slice, Pos;
      var idx := FirstEqual(io.logits + base, c.block, f);
      token := base + idx;
    }
  }

  lemma {:induction false} SizeBelow(c: Schedule, size: nat)
    requires Placed(c, size)
    ensures size < 0x4000_0000 && c.pad > 0
  {
  }

  /** What holds at the start of a turn: if the last step's bucket is known, the copies are its
      items and its mask is right up to the position before pos. */
  ghost predicate Turning(core: Core, c: Schedule, cur: U32, pos: nat)
    reads core, core.t, core.t.img, core.m
  {
    && core.Ready(c)
    && (cur != NONE ==>
          && pos > 0 && c.pad > 0 && cur == BucketOf(c, pos - 1) && c.b0 <= cur < c.b0 + |c.buckets|
          && core.t.At(c, cur - c.b0) && InMemory(c, cur - c.b0, core.m.Length)
          && MaskIs(c, cur - c.b0, core.m[..], pos - 1))
  }

  lemma {:induction false} SliceOfSlice(m: seq<U32>, a: nat, n: nat, lo: nat, hi: nat)
    requires a + n <= |m| && lo <= hi <= n
    ensures m[a..a + n][lo..hi] == m[a + lo..a + hi]
  {
    var s, t, u := m[a..a + n], m[a..a + n][lo..hi], m[a + lo..a + hi];
    forall i | 0 <= i < hi - lo ensures t[i] == u[i] {
      assert t[i] == s[lo + i] == m[a + (lo + i)];
    }
  }

  /** The next token from the block of the largest maximum, its logits read where they are. */
  lemma {:induction false} TokenIs(c: Schedule, k: nat, m: seq<U32>, best: nat, base: nat)
    requires Placed(c, |m|) && k < |c.buckets| && InMemory(c, k, |m|)
    requires best < c.nblocks && base == Pos(c.block, best, 0)
    ensures var io := c.buckets[k].io;
            && io.logits + base + c.block <= |m| && io.bmax + c.nblocks <= |m|
            && (best == BestBlock(Slice(m, io.bmax, c.nblocks), c.nblocks) ==>
                  NextToken(c, k, m) == base + FirstHolding(Slice(m, io.logits + base, c.block), m[io.bmax + best], 0))
  {
    hide BestBlock, FirstHolding;
    var io := c.buckets[k].io;
    BlockFits(best, c.nblocks, c.block);
    var n := c.nblocks * c.block;
    assert (best + 1) * c.block == base + c.block;
    SliceOfSlice(m, io.logits, n, base, base + c.block);
    assert m[io.bmax..io.bmax + c.nblocks][best] == m[io.bmax + best];
    PickIs(Logits(c, io, m), Maxima(c, io, m), c.block, best, base);
  }

  lemma {:induction false} PickIs(logits: seq<U32>, bmax: seq<U32>, size: nat, best: nat, base: nat)
    requires |bmax| > 0 && |logits| == |bmax| * size && best < |bmax| && base == best * size
    requires base + size <= |logits|
    ensures best == BestBlock(bmax, |bmax|) ==>
              Pick(logits, bmax, size) == base + FirstHolding(logits[base..base + size], bmax[best], 0)
  {
    hide BestBlock, FirstHolding;
    BlockFits(best, |bmax|, size);
  }
}
