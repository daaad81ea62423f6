/** Prefill against decode (compiler/frontend/qhf.py, hf_generic.py, export.py): chunks of M prompt
    rows taken through one layer at a time give what decode steps, one position through all layers
    at a time, give. */
module Prefill {
  import opened Dyadic
  import opened Attention

  // ---------------------------------------------------------------- what both compute

  /** Hidden state of position t entering layer l. */
  ghost function Hidden(net: Net, tokens: seq<int>, l: nat, t: nat): Vec
    requires t < |tokens|
    decreases l, 0
  {
    if l == 0 then net.embed(tokens[t])
    else
      var x := Hidden(net, tokens, l - 1, t);
      net.finish(l - 1, x, Attend(net, l - 1, net.project(l - 1, t, x).q, Keys(net, tokens, l - 1, t + 1),
        Values(net, tokens, l - 1, t + 1), t))
  }

  /** Key rows of positions 0 .. n - 1 in layer l. */
  ghost function Keys(net: Net, tokens: seq<int>, l: nat, n: nat): (K: seq<Row>)
    requires n <= |tokens|
    ensures |K| == n
    ensures forall t :: 0 <= t < n ==> K[t] == KeyRow(net, tokens, l, t)
    decreases l, 2, n
  {
    seq(n, (t: nat) requires 0 <= t < n => KeyRow(net, tokens, l, t))
  }

  ghost function Values(net: Net, tokens: seq<int>, l: nat, n: nat): (V: seq<Row>)
    requires n <= |tokens|
    ensures |V| == n
    ensures forall t :: 0 <= t < n ==> V[t] == ValueRow(net, tokens, l, t)
    decreases l, 2, n
  {
    seq(n, (t: nat) requires 0 <= t < n => ValueRow(net, tokens, l, t))
  }

  ghost function KeyRow(net: Net, tokens: seq<int>, l: nat, t: nat): Row
    requires t < |tokens|
    decreases l, 1
  {
    net.project(l, t, Hidden(net, tokens, l, t)).k
  }

  ghost function ValueRow(net: Net, tokens: seq<int>, l: nat, t: nat): Row
    requires t < |tokens|
    decreases l, 1
  {
    net.project(l, t, Hidden(net, tokens, l, t)).v
  }

  /** A position's state after a layer: from its own state and attention to the rows of all positions up to
      and with its own. */
  lemma {:induction false} NextHidden(net: Net, tokens: seq<int>, l: nat, t: nat)
    requires t < |tokens|
    ensures var x := Hidden(net, tokens, l, t);
            var K := seq(t + 1, (u: nat) requires u <= t => net.project(l, u, Hidden(net, tokens, l, u)).k);
            var V := seq(t + 1, (u: nat) requires u <= t => net.project(l, u, Hidden(net, tokens, l, u)).v);
            Hidden(net, tokens, l + 1, t) == net.finish(l, x, Full(net, l, net.project(l, t, x).q, K, V))
  {
    hide Attend, Full;
    var x := Hidden(net, tokens, l, t);
    var K := seq(t + 1, (u: nat) requires u <= t => net.project(l, u, Hidden(net, tokens, l, u)).k);
    var V := seq(t + 1, (u: nat) requires u <= t => net.project(l, u, Hidden(net, tokens, l, u)).v);
    AttendsToAllSoFar(net, l, net.project(l, t, x).q, K, V, t);
    assert K[..t + 1] == K && V[..t + 1] == V;
    assert Keys(net, tokens, l, t + 1) == K && Values(net, tokens, l, t + 1) == V;
  }

  // ---------------------------------------------------------------- chunks

  /** list(range(a, b, step)). */
  function Range(a: nat, b: int, step: nat): seq<nat>
    requires step > 0
    decreases b - a
  {
    if a >= b then [] else [a] + Range(a + step, b, step)
  }

  /** Chunk starts of a prompt of p tokens. */
  function Starts(p: nat, m: nat): (s: seq<nat>)
    requires 0 < m <= p
    ensures |s| > 0
  {
    Range(0, p - m, m) + [p - m]
  }

  lemma {:induction false} RangeAt(a: nat, b: int, step: nat, i: nat)
    requires step > 0 && i < |Range(a, b, step)|
    ensures Range(a, b, step)[i] == a + i * step < b
    decreases i
  {
    if i > 0 {
      RangeAt(a + step, b, step, i - 1);
      SumTimes(i - 1, 1, step);
    }
  }

  lemma {:induction false} RangeEnds(a: nat, b: int, step: nat)
    requires step > 0
    ensures a + |Range(a, b, step)| * step >= b
    decreases b - a
  {
    if a < b {
      RangeEnds(a + step, b, step);
      SumTimes(|Range(a + step, b, step)|, 1, step);
    }
  }

  /** The chunks cover the prompt: the first starts at 0, none starts after the end of the one before,
      all lie inside the prompt, and the last ends with the prompt's last token. */
  lemma {:induction false} StartsCover(p: nat, m: nat, i: nat)
    requires 0 < m <= p && i < |Starts(p, m)|
    ensures var s := Starts(p, m);
            && s[0] == 0 && s[i] + m <= p && (i > 0 ==> s[i - 1] < s[i] <= s[i - 1] + m) && s[|s| - 1] == p - m
  {
    var r := Range(0, p - m, m);
    RangeEnds(0, p - m, m);
    if i < |r| { RangeAt(0, p - m, m, i); }
    if i > 0 { RangeAt(0, p - m, m, i - 1); SumTimes(i - 1, 1, m); }
  }

  // ---------------------------------------------------------------- the cache

  /** The prompt has room in the cache, and a chunk's attention length (its end rounded up to d) too. */
  predicate Fits(tokens: seq<int>, seqLen: nat, d: nat) {
    d > 0 && |tokens| <= seqLen && seqLen % d == 0
  }

  /** n rounded up to a multiple of d. */
  function RoundUp(n: nat, d: nat): nat
    requires d > 0
  {
    (n + d - 1) / d * d
  }

  lemma {:induction false} RoundUpFits(n: nat, d: nat, seqLen: nat)
    requires d > 0 && n <= seqLen && seqLen % d == 0
    ensures n <= RoundUp(n, d) <= seqLen
  {
    var q, r := Divide(n + d - 1, d);
    var k, z := Divide(seqLen, d);
    if q > k { MulUp(k + 1, q, d); SumTimes(k, 1, d); }
  }

  /** One of the two caches: a row for each layer and position. */
  type Rows = seq<seq<Row>>

  predicate Shaped(net: Net, kc: Rows, vc: Rows, seqLen: nat) {
    && |kc| == |vc| == net.layers
    && forall l :: 0 <= l < net.layers ==> |kc[l]| == |vc[l]| == seqLen
  }

  /** Rows 0 .. n - 1 of layer l are the prompt's. */
  ghost predicate Holds(net: Net, tokens: seq<int>, kc: Rows, vc: Rows, l: nat, n: nat) {
    && l < |kc| && l < |vc| && n <= |tokens| && n <= |kc[l]| && n <= |vc[l]|
    && forall t: nat :: t < n ==> kc[l][t] == KeyRow(net, tokens, l, t) && vc[l][t] == ValueRow(net, tokens, l, t)
  }

  function UpTo(h: nat, l: nat, a: nat, b: nat): nat {
    if h < l then b else a
  }

  /** Layers below l hold b rows of the prompt, the others a. */
  ghost predicate Through(net: Net, tokens: seq<int>, kc: Rows, vc: Rows, l: nat, a: nat, b: nat) {
    forall h: nat :: h < net.layers ==> Holds(net, tokens, kc, vc, h, UpTo(h, l, a, b))
  }

  ghost predicate AllHold(net: Net, tokens: seq<int>, kc: Rows, vc: Rows, n: nat) {
    forall h: nat :: h < net.layers ==> Holds(net, tokens, kc, vc, h, n)
  }

  /** Only rows a .. b - 1 of layer l differ. */
  predicate OnlyRows(c: Rows, d: Rows, l: nat, a: nat, b: nat) {
    && |d| == |c|
    && (forall h :: 0 <= h < |c| && h != l ==> d[h] == c[h])
    && (l < |c| ==> |d[l]| == |c[l]| && forall t :: 0 <= t < |c[l]| && (t < a || t >= b) ==> d[l][t] == c[l][t])
  }

  /** Rows from n on are alike in every layer. */
  predicate RestKept(c: Rows, d: Rows, n: nat) {
    && |d| == |c|
    && forall l :: 0 <= l < |c| ==> |d[l]| == |c[l]| && forall t :: n <= t < |c[l]| ==> d[l][t] == c[l][t]
  }

  lemma {:induction false} OnlyThenRest(c0: Rows, c: Rows, d: Rows, l: nat, a: nat, b: nat)
    requires RestKept(c0, c, b) && OnlyRows(c, d, l, a, b)
    ensures RestKept(c0, d, b)
  {
    forall h | 0 <= h < |c0| ensures |d[h]| == |c0[h]| && forall t :: b <= t < |c0[h]| ==> d[h][t] == c0[h][t] {
    }
  }

  lemma {:induction false} RestThenRest(c0: Rows, c: Rows, d: Rows, n: nat, b: nat)
    requires RestKept(c0, c, n) && RestKept(c, d, b) && n <= b
    ensures RestKept(c0, d, b)
  {
  }

  lemma {:induction false} HoldsLess(net: Net, tokens: seq<int>, kc: Rows, vc: Rows, n: nat, k: nat)
    requires k <= n
    ensures forall l: nat :: Holds(net, tokens, kc, vc, l, n) ==> Holds(net, tokens, kc, vc, l, k)
    ensures AllHold(net, tokens, kc, vc, n) ==> AllHold(net, tokens, kc, vc, k)
  {
  }

  lemma {:induction false} ThroughEnds(net: Net, tokens: seq<int>, kc: Rows, vc: Rows, a: nat, b: nat)
    ensures AllHold(net, tokens, kc, vc, a) ==> Through(net, tokens, kc, vc, 0, a, b)
    ensures Through(net, tokens, kc, vc, net.layers, a, b) ==> AllHold(net, tokens, kc, vc, b)
  {
    hide Holds;
    if Through(net, tokens, kc, vc, net.layers, a, b) {
      forall h: nat | h < net.layers ensures Holds(net, tokens, kc, vc, h, b) {
        assert Holds(net, tokens, kc, vc, h, UpTo(h, net.layers, a, b));
      }
    }
  }

  lemma {:induction false} ThroughAt(net: Net, tokens: seq<int>, kc: Rows, vc: Rows, l: nat, a: nat, b: nat)
    requires Through(net, tokens, kc, vc, l, a, b) && l < net.layers
    ensures Holds(net, tokens, kc, vc, l, a)
  {
    assert Holds(net, tokens, kc, vc, l, UpTo(l, l, a, b));
  }

  /** After one more layer. */
  lemma {:induction false} ThroughNext(net: Net, tokens: seq<int>, kc: Rows, vc: Rows, kc': Rows, vc': Rows, l: nat,
                                       a: nat, b: nat)
    requires Through(net, tokens, kc, vc, l, a, b) && l < net.layers
    requires OnlyRows(kc, kc', l, a, b) && OnlyRows(vc, vc', l, a, b) && Holds(net, tokens, kc', vc', l, b)
    ensures Through(net, tokens, kc', vc', l + 1, a, b)
  {
    var next := l + 1;
    forall h: nat | h < net.layers ensures Holds(net, tokens, kc', vc', h, UpTo(h, next, a, b)) {
      assert Holds(net, tokens, kc, vc, h, UpTo(h, l, a, b));
    }
  }

  /** A row's attention over the prompt's rows up to it. */
  ghost function AttendedRow(net: Net, tokens: seq<int>, l: nat, t: nat): Vec
    requires t < |tokens|
  {
    Attend(net, l, net.project(l, t, Hidden(net, tokens, l, t)).q, Keys(net, tokens, l, t + 1),
      Values(net, tokens, l, t + 1), t)
  }

  /** Rows xs are the prompt's hidden states entering layer l, from position start on. */
  ghost predicate Entering(net: Net, tokens: seq<int>, l: nat, start: nat, xs: seq<Vec>) {
    start + |xs| <= |tokens| && forall m: nat :: m < |xs| ==> xs[m] == HiddenAt(net, tokens, l, start, m)
  }

  ghost function HiddenAt(net: Net, tokens: seq<int>, l: nat, start: nat, m: nat): Vec
    requires start + m < |tokens|
  {
    Hidden(net, tokens, l, start + m)
  }

  /** att are the prompt rows' attention in layer l. */
  ghost predicate Attended(net: Net, tokens: seq<int>, l: nat, start: nat, att: seq<Vec>) {
    start + |att| <= |tokens| && forall m: nat :: m < |att| ==> att[m] == AttendedAt(net, tokens, l, start, m)
  }

  ghost function AttendedAt(net: Net, tokens: seq<int>, l: nat, start: nat, m: nat): Vec
    requires start + m < |tokens|
  {
    AttendedRow(net, tokens, l, start + m)
  }

  /** The row-wise rest of a layer. */
  method Finish(net: Net, ghost tokens: seq<int>, l: nat, xs: seq<Vec>, att: seq<Vec>, ghost start: nat)
    returns (ys: seq<Vec>)
    requires |att| == |xs| && Entering(net, tokens, l, start, xs) && Attended(net, tokens, l, start, att)
    ensures |ys| == |xs| && Entering(net, tokens, l + 1, start, ys)
  {
    ys := [];
    for m := 0 to |xs|
      invariant |ys| == m && Entering(net, tokens, l + 1, start, ys)
    {
      assert xs[m] == HiddenAt(net, tokens, l, start, m) && att[m] == AttendedAt(net, tokens, l, start, m);
      ys := ys + [net.finish(l, xs[m], att[m])];
      assert ys[m] == HiddenAt(net, tokens, l + 1, start, m);
    }
  }

  /** A prompt row written into a layer that holds the rows before it. */
  lemma {:induction false} RowAdded(net: Net, tokens: seq<int>, kc: Rows, vc: Rows, l: nat, t: nat, p: Projection)
    requires Holds(net, tokens, kc, vc, l, t) && t < |tokens| && t < |kc[l]| && t < |vc[l]|
    requires p == net.project(l, t, Hidden(net, tokens, l, t))
    ensures Holds(net, tokens, kc[l := kc[l][t := p.k]], vc[l := vc[l][t := p.v]], l, t + 1)
  {
  }

  lemma {:induction false} OneRow(c0: Rows, c: Rows, l: nat, a: nat, b: nat, t: nat, r: Row)
    requires OnlyRows(c0, c, l, a, b) && l < |c| && a <= t < b && t < |c[l]|
    ensures OnlyRows(c0, c[l := c[l][t := r]], l, a, b)
  {
  }

  class Model {
    var kc: Rows
    var vc: Rows
    const seqLen: nat

    constructor (kc: Rows, vc: Rows, seqLen: nat)
      ensures this.kc == kc && this.vc == vc && this.seqLen == seqLen
    {
      this.kc, this.vc, this.seqLen := kc, vc, seqLen;
    }

    predicate Valid(net: Net)
      reads this
    {
      Shaped(net, kc, vc, seqLen)
    }

    /** A position's key and value row. */
    method Write(net: Net, l: nat, pos: nat, p: Projection)
      requires Valid(net) && l < net.layers && pos < seqLen
      modifies this
      ensures Valid(net)
      ensures kc == old(kc)[l := old(kc[l])[pos := p.k]] && vc == old(vc)[l := old(vc[l])[pos := p.v]]
    {
      kc := kc[l := kc[l][pos := p.k]];
      vc := vc[l := vc[l][pos := p.v]];
    }

    /** The attention of one row at its position, over the first len rows of the layer. */
    method AttendAt(net: Net, ghost tokens: seq<int>, l: nat, q: Vec, pos: nat, len: nat) returns (a: Vec)
      requires Valid(net) && MaskNeutral(net) && l < net.layers && pos < len <= seqLen && pos < |tokens|
      requires Holds(net, tokens, kc, vc, l, pos + 1)
      requires q == net.project(l, pos, Hidden(net, tokens, l, pos)).q
      ensures a == AttendedRow(net, tokens, l, pos)
    {
      hide MaskNeutral, Attend, KeyRow, ValueRow, Hidden;
      var K, V := kc[l][..len], vc[l][..len];
      LaterRowsNeverMatter(net, l, q, K, V, Keys(net, tokens, l, pos + 1), Values(net, tokens, l, pos + 1), pos);
      a := Attend(net, l, q, K, V, pos);
    }

    /** One layer of a decode step. */
    method DecodeLayer(net: Net, ghost tokens: seq<int>, l: nat, x: Vec, pos: nat, len: nat) returns (y: Vec)
      requires Valid(net) && MaskNeutral(net) && l < net.layers && pos < |tokens| && pos < len <= seqLen
      requires Through(net, tokens, kc, vc, l, pos, pos + 1) && x == Hidden(net, tokens, l, pos)
      modifies this
      ensures Valid(net) && Through(net, tokens, kc, vc, l + 1, pos, pos + 1) && y == Hidden(net, tokens, l + 1, pos)
      ensures OnlyRows(old(kc), kc, l, pos, pos + 1) && OnlyRows(old(vc), vc, l, pos, pos + 1)
    {
      hide Through, MaskNeutral, Holds;
      ThroughAt(net, tokens, kc, vc, l, pos, pos + 1);
      var p := net.project(l, pos, x);
      HoldsFits(net, tokens, kc, vc, l, pos);
      RowAdded(net, tokens, kc, vc, l, pos, p);
      Write(net, l, pos, p);
      var a := AttendAt(net, tokens, l, p.q, pos, len);
      y := net.finish(l, x, a);
      ThroughNext(net, tokens, old(kc), old(vc), kc, vc, l, pos, pos + 1);
    }

    /** A decode step: one position through all layers. */
    method Decode(net: Net, ghost tokens: seq<int>, token: int, pos: nat, len: nat) returns (x: Vec)
      requires Valid(net) && MaskNeutral(net) && pos < |tokens| && token == tokens[pos] && pos < len <= seqLen
      requires AllHold(net, tokens, kc, vc, pos)
      modifies this
      ensures Valid(net) && AllHold(net, tokens, kc, vc, pos + 1)
      ensures RestKept(old(kc), kc, pos + 1) && RestKept(old(vc), vc, pos + 1)
      ensures x == Hidden(net, tokens, net.layers, pos)
    {
      hide Through, AllHold, MaskNeutral, OnlyRows, Shaped, RestKept;
      x := net.embed(token);
      ThroughEnds(net, tokens, kc, vc, pos, pos + 1);
      RestSelf(kc, pos + 1);
      RestSelf(vc, pos + 1);
      for l := 0 to net.layers
        invariant Valid(net) && x == Hidden(net, tokens, l, pos) && Through(net, tokens, kc, vc, l, pos, pos + 1)
        invariant RestKept(old(kc), kc, pos + 1) && RestKept(old(vc), vc, pos + 1)
      {
        ghost var k, v := kc, vc;
        x := DecodeLayer(net, tokens, l, x, pos, len);
        OnlyThenRest(old(kc), k, kc, l, pos, pos + 1);
        OnlyThenRest(old(vc), v, vc, l, pos, pos + 1);
      }
      ThroughEnds(net, tokens, kc, vc, pos, pos + 1);
    }

    /** One layer of a chunk, each row's attention right after its cache row is written. */
    method LayerInterleaved(net: Net, ghost tokens: seq<int>, l: nat, xs: seq<Vec>, start: nat, len: nat)
      returns (ys: seq<Vec>)
      requires Valid(net) && MaskNeutral(net) && l < net.layers && Entering(net, tokens, l, start, xs)
      requires start + |xs| <= len <= seqLen && Holds(net, tokens, kc, vc, l, start)
      modifies this
      ensures Valid(net) && Holds(net, tokens, kc, vc, l, start + |xs|)
      ensures OnlyRows(old(kc), kc, l, start, start + |xs|) && OnlyRows(old(vc), vc, l, start, start + |xs|)
      ensures |ys| == |xs| && Entering(net, tokens, l + 1, start, ys)
    {
      hide MaskNeutral, Holds, OnlyRows, Shaped;
      var att: seq<Vec> := [];
      NoRows(kc, l, start, start + |xs|);
      NoRows(vc, l, start, start + |xs|);
      for m := 0 to |xs|
        invariant Valid(net) && Holds(net, tokens, kc, vc, l, start + m)
        invariant OnlyRows(old(kc), kc, l, start, start + |xs|) && OnlyRows(old(vc), vc, l, start, start + |xs|)
        invariant |att| == m && Attended(net, tokens, l, start, att)
      {
        var p := net.project(l, start + m, xs[m]);
        PutRow(net, tokens, l, xs, start, m, p, old(kc), old(vc));
        var a := AttendAt(net, tokens, l, p.q, start + m, len);
        att := att + [a];
        assert att[m] == AttendedAt(net, tokens, l, start, m);
      }
      ys := Finish(net, tokens, l, xs, att, start);
    }

    /** The cache row of row m of a chunk. */
    method PutRow(net: Net, ghost tokens: seq<int>, l: nat, ghost xs: seq<Vec>, start: nat, m: nat, p: Projection,
                  ghost k0: Rows, ghost v0: Rows)
      requires Valid(net) && l < net.layers && Entering(net, tokens, l, start, xs) && m < |xs| && start + |xs| <= seqLen
      requires p == net.project(l, start + m, xs[m]) && Holds(net, tokens, kc, vc, l, start + m)
      requires OnlyRows(k0, kc, l, start, start + |xs|) && OnlyRows(v0, vc, l, start, start + |xs|)
      modifies this
      ensures Valid(net) && Holds(net, tokens, kc, vc, l, start + m + 1)
      ensures OnlyRows(k0, kc, l, start, start + |xs|) && OnlyRows(v0, vc, l, start, start + |xs|)
      ensures xs[m] == Hidden(net, tokens, l, start + m)
    {
      assert xs[m] == HiddenAt(net, tokens, l, start, m);
      ghost var t, k, v := start + m, kc, vc;
      RowAdded(net, tokens, k, v, l, t, p);
      OneRow(k0, k, l, start, start + |xs|, t, p.k);
      OneRow(v0, v, l, start, start + |xs|, t, p.v);
      hide Holds, OnlyRows, Shaped;
      Write(net, l, start + m, p);
    }

    /** One layer of a chunk, the attention of all rows after all their cache rows are written. */
    method LayerTogether(net: Net, ghost tokens: seq<int>, l: nat, xs: seq<Vec>, start: nat, len: nat)
      returns (ys: seq<Vec>)
      requires Valid(net) && MaskNeutral(net) && l < net.layers && Entering(net, tokens, l, start, xs)
      requires start + |xs| <= len <= seqLen && Holds(net, tokens, kc, vc, l, start)
      modifies this
      ensures Valid(net) && Holds(net, tokens, kc, vc, l, start + |xs|)
      ensures OnlyRows(old(kc), kc, l, start, start + |xs|) && OnlyRows(old(vc), vc, l, start, start + |xs|)
      ensures |ys| == |xs| && Entering(net, tokens, l + 1, start, ys)
    {
      hide MaskNeutral, Holds, OnlyRows, Shaped;
      var qs: seq<Vec>, att: seq<Vec> := [], [];
      NoRows(kc, l, start, start + |xs|);
      NoRows(vc, l, start, start + |xs|);
      for m := 0 to |xs|
        invariant Valid(net) && Holds(net, tokens, kc, vc, l, start + m)
        invariant OnlyRows(old(kc), kc, l, start, start + |xs|) && OnlyRows(old(vc), vc, l, start, start + |xs|)
        invariant |qs| == m && Queries(net, tokens, l, start, qs)
      {
        var p := net.project(l, start + m, xs[m]);
        PutRow(net, tokens, l, xs, start, m, p, old(kc), old(vc));
        qs := qs + [p.q];
        assert qs[m] == QueryAt(net, tokens, l, start, m);
      }
      att := AttendAll(net, tokens, l, qs, start, len);
      ys := Finish(net, tokens, l, xs, att, start);
    }

    /** The attention of the rows of a chunk whose cache rows are all there. */
    method AttendAll(net: Net, ghost tokens: seq<int>, l: nat, qs: seq<Vec>, start: nat, len: nat)
      returns (att: seq<Vec>)
      requires Valid(net) && MaskNeutral(net) && l < net.layers && Queries(net, tokens, l, start, qs)
      requires start + |qs| <= len <= seqLen && Holds(net, tokens, kc, vc, l, start + |qs|)
      ensures |att| == |qs| && Attended(net, tokens, l, start, att)
    {
      hide MaskNeutral, Holds, Shaped;
      att := [];
      for m := 0 to |qs|
        invariant |att| == m && Attended(net, tokens, l, start, att)
      {
        HoldsLess(net, tokens, kc, vc, start + |qs|, start + m + 1);
        assert qs[m] == QueryAt(net, tokens, l, start, m);
        var a := AttendAt(net, tokens, l, qs[m], start + m, len);
        att := att + [a];
        assert att[m] == AttendedAt(net, tokens, l, start, m);
      }
    }

    /** One layer of a chunk, in either order. */
    method Layer(net: Net, ghost tokens: seq<int>, l: nat, xs: seq<Vec>, start: nat, len: nat, together: bool)
      returns (ys: seq<Vec>)
      requires Valid(net) && MaskNeutral(net) && l < net.layers && Entering(net, tokens, l, start, xs)
      requires start + |xs| <= len <= seqLen && Through(net, tokens, kc, vc, l, start, start + |xs|)
      modifies this
      ensures Valid(net) && Through(net, tokens, kc, vc, l + 1, start, start + |xs|)
      ensures OnlyRows(old(kc), kc, l, start, start + |xs|) && OnlyRows(old(vc), vc, l, start, start + |xs|)
      ensures |ys| == |xs| && Entering(net, tokens, l + 1, start, ys)
    {
      hide MaskNeutral, Holds, OnlyRows, Shaped, Through, Entering;
      ThroughAt(net, tokens, kc, vc, l, start, start + |xs|);
      if together {
        ys := LayerTogether(net, tokens, l, xs, start, len);
      } else {
        ys := LayerInterleaved(net, tokens, l, xs, start, len);
      }
      ThroughNext(net, tokens, old(kc), old(vc), kc, vc, l, start, start + |xs|);
    }

    /** A chunk of prompt tokens at start: all its rows through one layer after the other. */
    method Chunk(net: Net, ghost tokens: seq<int>, chunk: seq<int>, start: nat, len: nat, together: bool)
      returns (x: Vec)
      requires Valid(net) && MaskNeutral(net) && |chunk| > 0 && start + |chunk| <= |tokens|
      requires chunk == tokens[start..start + |chunk|] && start + |chunk| <= len <= seqLen
      requires AllHold(net, tokens, kc, vc, start)
      modifies this
      ensures Valid(net) && AllHold(net, tokens, kc, vc, start + |chunk|)
      ensures RestKept(old(kc), kc, start + |chunk|) && RestKept(old(vc), vc, start + |chunk|)
      ensures x == Hidden(net, tokens, net.layers, start + |chunk| - 1)
    {
      hide Through, AllHold, MaskNeutral, OnlyRows, Shaped, RestKept;
      var end := start + |chunk|;
      var xs := Embed(net, tokens, chunk, start);
      ThroughEnds(net, tokens, kc, vc, start, end);
      RestSelf(kc, end);
      RestSelf(vc, end);
      for l := 0 to net.layers
        invariant Valid(net) && |xs| == |chunk| && Entering(net, tokens, l, start, xs)
        invariant Through(net, tokens, kc, vc, l, start, end)
        invariant RestKept(old(kc), kc, end) && RestKept(old(vc), vc, end)
      {
        ghost var k, v := kc, vc;
        xs := Layer(net, tokens, l, xs, start, len, together);
        OnlyThenRest(old(kc), k, kc, l, start, end);
        OnlyThenRest(old(vc), v, vc, l, start, end);
      }
      ThroughEnds(net, tokens, kc, vc, start, end);
      x := xs[|chunk| - 1];
      assert x == HiddenAt(net, tokens, net.layers, start, |chunk| - 1);
    }

    /** The prompt by decode steps, and the last one's logits. */
    method DecodePrompt(net: Net, tokens: seq<int>, d: nat) returns (logits: Vec)
      requires Valid(net) && MaskNeutral(net) && |tokens| > 0 && Fits(tokens, seqLen, d)
      modifies this
      ensures Valid(net) && AllHold(net, tokens, kc, vc, |tokens|)
      ensures RestKept(old(kc), kc, |tokens|) && RestKept(old(vc), vc, |tokens|)
      ensures logits == net.classify(Hidden(net, tokens, net.layers, |tokens| - 1))
    {
      hide AllHold, MaskNeutral, Shaped, RestKept;
      var x: Vec := [];
      NothingYet(net, tokens, kc, vc, seqLen);
      for pos := 0 to |tokens|
        invariant Valid(net) && AllHold(net, tokens, kc, vc, pos)
        invariant RestKept(old(kc), kc, pos) && RestKept(old(vc), vc, pos)
        invariant pos > 0 ==> x == Hidden(net, tokens, net.layers, pos - 1)
      {
        ghost var k, v := kc, vc;
        RoundUpFits(pos + 1, d, seqLen);
        x := Decode(net, tokens, tokens[pos], pos, RoundUp(pos + 1, d));
        RestThenRest(old(kc), k, kc, pos, pos + 1);
        RestThenRest(old(vc), v, vc, pos, pos + 1);
      }
      logits := net.classify(x);
    }

    /** The prompt by chunks of m tokens, the last one overlapping, and the last row's logits. */
    method PrefillPrompt(net: Net, tokens: seq<int>, m: nat, d: nat, together: bool) returns (logits: Vec)
      requires Valid(net) && MaskNeutral(net) && 0 < m <= |tokens| && Fits(tokens, seqLen, d)
      modifies this
      ensures Valid(net) && AllHold(net, tokens, kc, vc, |tokens|)
      ensures RestKept(old(kc), kc, |tokens|) && RestKept(old(vc), vc, |tokens|)
      ensures logits == net.classify(Hidden(net, tokens, net.layers, |tokens| - 1))
    {
      hide AllHold, MaskNeutral, Shaped, RestKept, Starts, RoundUp;
      var starts := Starts(|tokens|, m);
      var x: Vec := [];
      NothingYet(net, tokens, kc, vc, seqLen);
      ghost var n := 0;
      StartsCover(|tokens|, m, 0);
      for i := 0 to |starts|
        invariant n == if i == 0 then 0 else starts[i - 1] + m
        invariant Valid(net) && AllHold(net, tokens, kc, vc, n)
        invariant RestKept(old(kc), kc, n) && RestKept(old(vc), vc, n)
        invariant n <= |tokens| && (i > 0 ==> n > 0)
        invariant i > 0 ==> x == Hidden(net, tokens, net.layers, n - 1)
      {
        StartsCover(|tokens|, m, i);
        var s := starts[i];
        ghost var k, v := kc, vc;
        RoundUpFits(s + m, d, seqLen);
        HoldsLess(net, tokens, kc, vc, n, s);
        x := Chunk(net, tokens, tokens[s..s + m], s, RoundUp(s + m, d), together);
        RestThenRest(old(kc), k, kc, n, s + m);
        RestThenRest(old(vc), v, vc, n, s + m);
        n := s + m;
      }
      StartsCover(|tokens|, m, |starts| - 1);
      logits := net.classify(x);
    }
  }

  /** The embedded rows of a chunk. */
  method Embed(net: Net, ghost tokens: seq<int>, chunk: seq<int>, ghost start: nat) returns (xs: seq<Vec>)
    requires start + |chunk| <= |tokens| && chunk == tokens[start..start + |chunk|]
    ensures |xs| == |chunk| && Entering(net, tokens, 0, start, xs)
  {
    xs := [];
    for m := 0 to |chunk|
      invariant |xs| == m && Entering(net, tokens, 0, start, xs)
    {
      xs := xs + [net.embed(chunk[m])];
      assert xs[m] == HiddenAt(net, tokens, 0, start, m);
    }
  }

  ghost function QueryAt(net: Net, tokens: seq<int>, l: nat, start: nat, m: nat): Vec
    requires start + m < |tokens|
  {
    net.project(l, start + m, Hidden(net, tokens, l, start + m)).q
  }

  ghost predicate Queries(net: Net, tokens: seq<int>, l: nat, start: nat, qs: seq<Vec>) {
    start + |qs| <= |tokens| && forall m: nat :: m < |qs| ==> qs[m] == QueryAt(net, tokens, l, start, m)
  }

  lemma {:induction false} NoRows(c: Rows, l: nat, a: nat, b: nat)
    ensures OnlyRows(c, c, l, a, b)
  {
  }

  lemma {:induction false} NothingYet(net: Net, tokens: seq<int>, kc: Rows, vc: Rows, seqLen: nat)
    requires Shaped(net, kc, vc, seqLen)
    ensures AllHold(net, tokens, kc, vc, 0) && RestKept(kc, kc, 0) && RestKept(vc, vc, 0)
  {
  }

  /** A cache that was c0 and now holds the prompt in its first rows, the rest as before. */
  ghost predicate Filled(net: Net, tokens: seq<int>, k0: Rows, v0: Rows, kc: Rows, vc: Rows) {
    AllHold(net, tokens, kc, vc, |tokens|) && RestKept(k0, kc, |tokens|) && RestKept(v0, vc, |tokens|)
  }

  /** Prefill and decode from the same caches end with the same caches: what each ensures leaves one
      possibility. */
  lemma {:induction false} SameCaches(net: Net, tokens: seq<int>, k0: Rows, v0: Rows, kc: Rows, vc: Rows, kd: Rows,
                                      vd: Rows)
    requires |k0| == |v0| == net.layers
    requires Filled(net, tokens, k0, v0, kc, vc) && Filled(net, tokens, k0, v0, kd, vd)
    ensures kc == kd && vc == vd
  {
    forall l | 0 <= l < net.layers ensures kc[l] == kd[l] && vc[l] == vd[l] {
      assert Holds(net, tokens, kc, vc, l, |tokens|) && Holds(net, tokens, kd, vd, l, |tokens|);
    }
  }

  lemma {:induction false} RestSelf(c: Rows, n: nat)
    ensures RestKept(c, c, n)
  {
  }

  lemma {:induction false} HoldsFits(net: Net, tokens: seq<int>, kc: Rows, vc: Rows, l: nat, n: nat)
    requires Holds(net, tokens, kc, vc, l, n)
    ensures l < |kc| && l < |vc| && n <= |tokens|
  {
  }
}
