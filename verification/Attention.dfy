/** Causal attention over a KV cache (compiler/frontend/qhf.py), with the arithmetic of a model left
    open: what is fixed is the order of the operations and the mask. */
module Attention {

  type Vec = seq<int>
  type Row = seq<int>

  datatype Projection = Projection(q: Vec, k: Row, v: Row)

  /** A model's functions on one row. project is a layer's norm, q / k / v projection, QK norm, RoPE
      at the position and int8 rows; finish its output projection and feed-forward part. */
  datatype Net = Net(
    layers: nat, heads: nat, width: nat,
    embed: int -> Vec,
    project: (nat, nat, Vec) -> Projection,
    score: (nat, nat, Vec, Row) -> int,
    lane: (nat, nat, Row) -> int,
    maxOf: (int, int) -> int, lowest: int,
    expOf: (int, int) -> int, zero: int,
    add: (int, int) -> int,
    recip: int -> int,
    weight: (int, int) -> int,
    scale: (nat, seq<Vec>) -> Vec,
    finish: (nat, Vec, Vec) -> Vec,
    classify: Vec -> Vec)

  /** The largest score among the first n rows, those after pos masked. */
  function Largest(net: Net, l: nat, h: nat, q: Vec, K: seq<Row>, pos: nat, n: nat): int
    requires n <= |K|
  {
    if n == 0 then net.lowest
    else net.maxOf(Largest(net, l, h, q, K, pos, n - 1),
                   if n - 1 <= pos then net.score(l, h, q, K[n - 1]) else net.lowest)
  }

  function Exp(net: Net, l: nat, h: nat, q: Vec, K: seq<Row>, pos: nat, m: int, t: nat): int
    requires t < |K|
  {
    if t <= pos then net.expOf(net.score(l, h, q, K[t]), m) else net.zero
  }

  function Sum(net: Net, l: nat, h: nat, q: Vec, K: seq<Row>, pos: nat, m: int, n: nat): int
    requires n <= |K|
  {
    if n == 0 then net.zero else net.add(Sum(net, l, h, q, K, pos, m, n - 1), Exp(net, l, h, q, K, pos, m, n - 1))
  }

  /** What the mask relies on: a maximum is not changed by -inf, a sum of exponentials not by 0.0, and
      a probability of 0.0 is the int8 weight 0. */
  ghost predicate MaskNeutral(net: Net) {
    && (forall x, y :: net.maxOf(net.maxOf(x, y), net.lowest) == net.maxOf(x, y))
    && (forall l: nat, h: nat, q, K, pos: nat, m, n: nat | pos < n <= |K| :: SumAbsorbs(net, l, h, q, K, pos, m, n))
    && (forall r :: net.weight(net.zero, r) == 0)
  }

  predicate SumAbsorbs(net: Net, l: nat, h: nat, q: Vec, K: seq<Row>, pos: nat, m: int, n: nat)
    requires n <= |K|
  {
    net.add(Sum(net, l, h, q, K, pos, m, n), net.zero) == Sum(net, l, h, q, K, pos, m, n)
  }

  /** The int8 weights times lane j of the value rows. */
  function Dot(net: Net, l: nat, h: nat, j: nat, q: Vec, K: seq<Row>, V: seq<Row>, pos: nat, m: int, r: int,
               n: nat): int
    requires n <= |K| == |V|
  {
    if n == 0 then 0
    else Dot(net, l, h, j, q, K, V, pos, m, r, n - 1)
         + net.weight(Exp(net, l, h, q, K, pos, m, n - 1), r) * net.lane(h, j, V[n - 1])
  }

  /** One head over all the rows of the cache slice. */
  function Head(net: Net, l: nat, h: nat, q: Vec, K: seq<Row>, V: seq<Row>, pos: nat): Vec
    requires |K| == |V|
  {
    var m := Largest(net, l, h, q, K, pos, |K|);
    var r := net.recip(Sum(net, l, h, q, K, pos, m, |K|));
    seq(net.width, (j: nat) => Dot(net, l, h, j, q, K, V, pos, m, r, |K|))
  }

  function Attend(net: Net, l: nat, q: Vec, K: seq<Row>, V: seq<Row>, pos: nat): Vec
    requires |K| == |V|
  {
    net.scale(l, seq(net.heads, (h: nat) => Head(net, l, h, q, K, V, pos)))
  }

  // ---------------------------------------------------------------- the mask

  /** Rows 0 .. pos agree. */
  predicate Agree(K: seq<Row>, J: seq<Row>, pos: nat) {
    pos < |K| && pos < |J| && forall t :: 0 <= t <= pos ==> K[t] == J[t]
  }

  lemma {:induction false} LargestAgrees(net: Net, l: nat, h: nat, q: Vec, K: seq<Row>, J: seq<Row>, pos: nat, n: nat)
    requires Agree(K, J, pos) && n <= pos + 1
    ensures Largest(net, l, h, q, K, pos, n) == Largest(net, l, h, q, J, pos, n)
  {
    if n > 0 { LargestAgrees(net, l, h, q, K, J, pos, n - 1); }
  }

  lemma {:induction false} LargestMasked(net: Net, l: nat, h: nat, q: Vec, K: seq<Row>, pos: nat, n: nat)
    requires MaskNeutral(net) && pos < n <= |K|
    ensures Largest(net, l, h, q, K, pos, n) == Largest(net, l, h, q, K, pos, pos + 1)
  {
    if n > pos + 1 { LargestMasked(net, l, h, q, K, pos, n - 1); }
  }

  lemma {:induction false} SumAgrees(net: Net, l: nat, h: nat, q: Vec, K: seq<Row>, J: seq<Row>, pos: nat, m: int,
                                     n: nat)
    requires Agree(K, J, pos) && n <= pos + 1
    ensures Sum(net, l, h, q, K, pos, m, n) == Sum(net, l, h, q, J, pos, m, n)
  {
    if n > 0 { SumAgrees(net, l, h, q, K, J, pos, m, n - 1); }
  }

  lemma {:induction false} SumMasked(net: Net, l: nat, h: nat, q: Vec, K: seq<Row>, pos: nat, m: int, n: nat)
    requires MaskNeutral(net) && pos < n <= |K|
    ensures Sum(net, l, h, q, K, pos, m, n) == Sum(net, l, h, q, K, pos, m, pos + 1)
  {
    if n > pos + 1 {
      SumMasked(net, l, h, q, K, pos, m, n - 1);
      assert SumAbsorbs(net, l, h, q, K, pos, m, n - 1);
    }
  }

  lemma {:induction false} DotAgrees(net: Net, l: nat, h: nat, j: nat, q: Vec, K: seq<Row>, V: seq<Row>, J: seq<Row>,
                                     W: seq<Row>, pos: nat, m: int, r: int, n: nat)
    requires Agree(K, J, pos) && Agree(V, W, pos) && |K| == |V| && |J| == |W| && n <= pos + 1
    ensures Dot(net, l, h, j, q, K, V, pos, m, r, n) == Dot(net, l, h, j, q, J, W, pos, m, r, n)
  {
    if n > 0 { DotAgrees(net, l, h, j, q, K, V, J, W, pos, m, r, n - 1); }
  }

  lemma {:induction false} DotMasked(net: Net, l: nat, h: nat, j: nat, q: Vec, K: seq<Row>, V: seq<Row>, pos: nat,
                                     m: int, r: int, n: nat)
    requires MaskNeutral(net) && pos < n <= |K| == |V|
    ensures Dot(net, l, h, j, q, K, V, pos, m, r, n) == Dot(net, l, h, j, q, K, V, pos, m, r, pos + 1)
  {
    if n > pos + 1 {
      DotMasked(net, l, h, j, q, K, V, pos, m, r, n - 1);
      assert net.weight(net.zero, r) == 0;
    }
  }

  lemma {:induction false} HeadAgrees(net: Net, l: nat, h: nat, q: Vec, K: seq<Row>, V: seq<Row>, J: seq<Row>,
                                      W: seq<Row>, pos: nat)
    requires MaskNeutral(net) && |K| == |V| && |J| == |W| && Agree(K, J, pos) && Agree(V, W, pos)
    ensures Head(net, l, h, q, K, V, pos) == Head(net, l, h, q, J, W, pos)
  {
    hide Largest, Sum, Dot, MaskNeutral;
    LargestMasked(net, l, h, q, K, pos, |K|);
    LargestMasked(net, l, h, q, J, pos, |J|);
    LargestAgrees(net, l, h, q, K, J, pos, pos + 1);
    var m := Largest(net, l, h, q, K, pos, |K|);
    SumMasked(net, l, h, q, K, pos, m, |K|);
    SumMasked(net, l, h, q, J, pos, m, |J|);
    SumAgrees(net, l, h, q, K, J, pos, m, pos + 1);
    var r := net.recip(Sum(net, l, h, q, K, pos, m, |K|));
    forall j: nat
      ensures Dot(net, l, h, j, q, K, V, pos, m, r, |K|) == Dot(net, l, h, j, q, J, W, pos, m, r, |J|)
    {
      DotMasked(net, l, h, j, q, K, V, pos, m, r, |K|);
      DotMasked(net, l, h, j, q, J, W, pos, m, r, |J|);
      DotAgrees(net, l, h, j, q, K, V, J, W, pos, m, r, pos + 1);
    }
  }

  /** Attention at a position depends on the cache rows up to it alone, whatever the padded length
      and whatever the later rows hold. */
  lemma {:induction false} LaterRowsNeverMatter(net: Net, l: nat, q: Vec, K: seq<Row>, V: seq<Row>, J: seq<Row>,
                                                W: seq<Row>, pos: nat)
    requires MaskNeutral(net) && |K| == |V| && |J| == |W| && Agree(K, J, pos) && Agree(V, W, pos)
    ensures Attend(net, l, q, K, V, pos) == Attend(net, l, q, J, W, pos)
  {
    hide Head, MaskNeutral;
    forall h: nat ensures Head(net, l, h, q, K, V, pos) == Head(net, l, h, q, J, W, pos) {
      HeadAgrees(net, l, h, q, K, V, J, W, pos);
    }
    assert seq(net.heads, (h: nat) => Head(net, l, h, q, K, V, pos))
      == seq(net.heads, (h: nat) => Head(net, l, h, q, J, W, pos));
  }

  // ---------------------------------------------------------------- without a mask

  function Scores(net: Net, l: nat, h: nat, q: Vec, K: seq<Row>): (s: seq<int>)
    ensures |s| == |K|
  {
    seq(|K|, (t: nat) requires t < |K| => net.score(l, h, q, K[t]))
  }

  function MaxOfAll(net: Net, xs: seq<int>): int {
    if xs == [] then net.lowest else net.maxOf(MaxOfAll(net, xs[..|xs| - 1]), xs[|xs| - 1])
  }

  function SumOfAll(net: Net, xs: seq<int>): int {
    if xs == [] then net.zero else net.add(SumOfAll(net, xs[..|xs| - 1]), xs[|xs| - 1])
  }

  function Exps(net: Net, xs: seq<int>): (es: seq<int>)
    ensures |es| == |xs|
  {
    var m := MaxOfAll(net, xs);
    seq(|xs|, (t: nat) requires t < |xs| => net.expOf(xs[t], m))
  }

  /** Lane j of all the value rows, each with the weight of its exponential. */
  function WeightedSum(net: Net, h: nat, j: nat, es: seq<int>, r: int, V: seq<Row>): int
    requires |es| == |V|
  {
    if es == [] then 0
    else
      var n := |es| - 1;
      WeightedSum(net, h, j, es[..n], r, V[..n]) + net.weight(es[n], r) * net.lane(h, j, V[n])
  }

  function FullHead(net: Net, l: nat, h: nat, q: Vec, K: seq<Row>, V: seq<Row>): Vec
    requires |K| == |V|
  {
    var es := Exps(net, Scores(net, l, h, q, K));
    var r := net.recip(SumOfAll(net, es));
    seq(net.width, (j: nat) => WeightedSum(net, h, j, es, r, V))
  }

  /** Attention to every row there is: softmax of all the scores, int8 weights, all the value rows. */
  function Full(net: Net, l: nat, q: Vec, K: seq<Row>, V: seq<Row>): Vec
    requires |K| == |V|
  {
    net.scale(l, seq(net.heads, (h: nat) => FullHead(net, l, h, q, K, V)))
  }

  lemma {:induction false} LargestOfAll(net: Net, l: nat, h: nat, q: Vec, K: seq<Row>, pos: nat, n: nat)
    requires n <= |K| && n <= pos + 1
    ensures Largest(net, l, h, q, K, pos, n) == MaxOfAll(net, Scores(net, l, h, q, K)[..n])
  {
    if n > 0 {
      LargestOfAll(net, l, h, q, K, pos, n - 1);
      var s := Scores(net, l, h, q, K);
      assert s[..n][..n - 1] == s[..n - 1];
    }
  }

  /** The exponentials of rows 0 .. pos. */
  predicate ExpsAre(net: Net, l: nat, h: nat, q: Vec, K: seq<Row>, pos: nat, m: int, es: seq<int>) {
    |es| == |K| && forall t :: 0 <= t < |K| && t <= pos ==> es[t] == Exp(net, l, h, q, K, pos, m, t)
  }

  lemma {:induction false} SumOfExps(net: Net, l: nat, h: nat, q: Vec, K: seq<Row>, pos: nat, m: int, es: seq<int>,
                                     n: nat)
    requires ExpsAre(net, l, h, q, K, pos, m, es) && n <= |K| && n <= pos + 1
    ensures Sum(net, l, h, q, K, pos, m, n) == SumOfAll(net, es[..n])
  {
    hide Exp;
    if n > 0 {
      SumOfExps(net, l, h, q, K, pos, m, es, n - 1);
      assert es[..n][..n - 1] == es[..n - 1];
    }
  }

  lemma {:induction false} DotOfExps(net: Net, l: nat, h: nat, j: nat, q: Vec, K: seq<Row>, V: seq<Row>, pos: nat,
                                     m: int, r: int, es: seq<int>, n: nat)
    requires ExpsAre(net, l, h, q, K, pos, m, es) && n <= |K| == |V| && n <= pos + 1
    ensures Dot(net, l, h, j, q, K, V, pos, m, r, n) == WeightedSum(net, h, j, es[..n], r, V[..n])
  {
    hide Exp;
    if n > 0 {
      DotOfExps(net, l, h, j, q, K, V, pos, m, r, es, n - 1);
      assert es[..n][..n - 1] == es[..n - 1] && V[..n][..n - 1] == V[..n - 1];
    }
  }

  lemma {:induction false} HeadIsFull(net: Net, l: nat, h: nat, q: Vec, K: seq<Row>, V: seq<Row>, pos: nat)
    requires |K| == |V| == pos + 1
    ensures Head(net, l, h, q, K, V, pos) == FullHead(net, l, h, q, K, V)
  {
    hide Largest, Sum, Dot, SumOfAll, WeightedSum;
    var n, s := |K|, Scores(net, l, h, q, K);
    LargestOfAll(net, l, h, q, K, pos, n);
    assert s[..n] == s;
    var m, es := Largest(net, l, h, q, K, pos, n), Exps(net, s);
    SumOfExps(net, l, h, q, K, pos, m, es, n);
    assert es[..n] == es && V[..n] == V;
    var r := net.recip(SumOfAll(net, es));
    forall j: nat ensures Dot(net, l, h, j, q, K, V, pos, m, r, n) == WeightedSum(net, h, j, es, r, V) {
      DotOfExps(net, l, h, j, q, K, V, pos, m, r, es, n);
    }
  }

  /** Attention at position pos over a padded cache slice is attention to rows 0 .. pos, all of them and no
      others. */
  lemma {:induction false} AttendsToAllSoFar(net: Net, l: nat, q: Vec, K: seq<Row>, V: seq<Row>, pos: nat)
    requires |K| == |V| > pos && (|K| > pos + 1 ==> MaskNeutral(net))
    ensures Attend(net, l, q, K, V, pos) == Full(net, l, q, K[..pos + 1], V[..pos + 1])
  {
    hide Head, FullHead, MaskNeutral;
    var J, W := K[..pos + 1], V[..pos + 1];
    if |K| > pos + 1 {
      LaterRowsNeverMatter(net, l, q, K, V, J, W, pos);
    } else {
      assert J == K && W == V;
    }
    forall h: nat ensures Head(net, l, h, q, J, W, pos) == FullHead(net, l, h, q, J, W) {
      HeadIsFull(net, l, h, q, J, W, pos);
    }
    assert seq(net.heads, (h: nat) => Head(net, l, h, q, J, W, pos))
        == seq(net.heads, (h: nat) => FullHead(net, l, h, q, J, W));
  }
}
