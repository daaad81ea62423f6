/** The steps of the decode loop one by one: what memory each step's items start from, what runs, and which
    token the next step gets (firmware/include/rvsched.h, rvs_run). */
module RvTrace {
  import opened Fp32
  import opened RvKey
  import opened RvHost

  /** One step: memory at its start, with its inputs written, after its items; and how the items ended. */
  datatype Step = Step(before: seq<U32>, start: seq<U32>, after: seq<U32>, status: U32, failed: nat)

  predicate InTable(c: Schedule, pos: nat) {
    c.pad > 0 && c.b0 <= pos / c.pad < c.b0 + |c.buckets|
  }

  function Index(c: Schedule, pos: nat): (k: nat)
    requires InTable(c, pos)
    ensures k < |c.buckets|
  {
    pos / c.pad - c.b0
  }

  // ---------------------------------------------------------------- the items of a step

  /** Item l ran from memory x, without failing, and left y. */
  predicate ItemRan(unit: Unit, item: Item, x: seq<U32>, y: seq<U32>) {
    unit(item.code, item.words, x) == (y, 0)
  }

  /** The items ran in order, each from what the one before left: all of them, or up to one that failed. */
  ghost predicate ItemsRan(unit: Unit, items: seq<Item>, start: seq<U32>, after: seq<U32>, status: U32, failed: nat,
                           ms: seq<seq<U32>>) {
    var n := if status == 0 then |items| else failed;
    && n <= |items| && (status != 0 ==> n < |items|) && |ms| == n + 1 && ms[0] == start
    && (forall l :: 0 <= l < n ==> ItemRan(unit, items[l], ms[l], ms[l + 1]))
    && (if status == 0 then after == ms[n] else unit(items[n].code, items[n].words, ms[n]) == (after, status))
  }

  lemma {:induction false} ItemsTrace(unit: Unit, items: seq<Item>, l: nat, m: seq<U32>) returns (ms: seq<seq<U32>>)
    requires l <= |items|
    ensures var r := RunItems(unit, items, l, m);
            && (r.status != 0 ==> l <= r.failed)
            && ItemsRan(unit, items[l..], m, r.m, r.status, if r.status == 0 then 0 else r.failed - l, ms)
    decreases |items| - l
  {
    if l == |items| {
      ms := [m];
    } else {
      var r := unit(items[l].code, items[l].words, m);
      if r.1 != 0 {
        ms := [m];
      } else {
        var rest := ItemsTrace(unit, items, l + 1, r.0);
        ms := [m] + rest;
        Earlier(unit, items, l, m, r.0, RunItems(unit, items, l + 1, r.0), rest);
      }
    }
  }

  lemma {:induction false} Earlier(unit: Unit, items: seq<Item>, l: nat, m: seq<U32>, y: seq<U32>, r: Ran,
                                   rest: seq<seq<U32>>)
    requires l < |items| && ItemRan(unit, items[l], m, y) && (r.status != 0 ==> l + 1 <= r.failed)
    requires ItemsRan(unit, items[l + 1..], y, r.m, r.status, if r.status == 0 then 0 else r.failed - (l + 1), rest)
    ensures ItemsRan(unit, items[l..], m, r.m, r.status, if r.status == 0 then 0 else r.failed - l, [m] + rest)
  {
    hide ItemRan;
    var xs, ms := items[l..], [m] + rest;
    assert xs[1..] == items[l + 1..];
    var n := if r.status == 0 then |xs| else r.failed - l;
    forall i | 0 <= i < n ensures ItemRan(unit, xs[i], ms[i], ms[i + 1]) {
      if i > 0 { assert ItemRan(unit, items[l + 1..][i - 1], rest[i - 1], rest[i]); }
    }
  }

  // ---------------------------------------------------------------- the steps of a run

  /** The token step s starts with: the one given, then the one picked in the step before. */
  function TokenIn(token: U32, tokens: seq<nat>, s: nat): nat
    requires s <= |tokens|
  {
    if s == 0 then token else tokens[s - 1]
  }

  /** The token picked is the first logit of the largest block with that block's maximum. */
  predicate Picked(c: Schedule, k: nat, m: seq<U32>, t: nat)
    requires k < |c.buckets|
  {
    var io := c.buckets[k].io;
    && c.nblocks > 0 && io.logits + c.nblocks * c.block <= |m| && io.bmax + c.nblocks <= |m|
    && t == Pick(m[io.logits..io.logits + c.nblocks * c.block], m[io.bmax..io.bmax + c.nblocks], c.block)
  }

  /** Step s of a run from pos0: at position pos0 + s, with the token of the step before, from the memory
      that step left. */
  ghost predicate StepIs(c: Schedule, unit: Unit, tr: seq<Step>, m: seq<U32>, pos0: nat, token: U32, r: Outcome, s: nat)
    requires s < |tr|
  {
    var x, pos := tr[s], pos0 + s;
    && s <= |r.tokens| && TokenIn(token, r.tokens, s) < 0x1_0000_0000 && InTable(c, pos)
    && x.before == (if s == 0 then m else tr[s - 1].after)
    && StartsFrom(c, Index(c, pos), x.before, x.start, TokenIn(token, r.tokens, s), pos)
    && (exists ms :: ItemsRan(unit, c.buckets[Index(c, pos)].items, x.start, x.after, x.status, x.failed, ms))
    && (s < |r.tokens| ==> x.status == 0 && Picked(c, Index(c, pos), x.after, r.tokens[s]))
    && (s == |r.tokens| ==> x.status != 0 && s == |tr| - 1 && r.status == x.status && r.failed == x.failed)
  }

  /** How the run ends: memory as the last step left it; status 0 with all steps made or the stop token
      picked; otherwise an item that failed, or a position outside the table. */
  predicate EndIs(c: Schedule, tr: seq<Step>, m: seq<U32>, pos0: nat, steps: nat, stop: U32, r: Outcome) {
    && |r.tokens| <= |tr| <= |r.tokens| + 1 && |tr| <= steps
    && r.m == (if tr == [] then m else tr[|tr| - 1].after)
    && (forall s :: 0 <= s < |r.tokens| && s < |tr| - 1 ==> r.tokens[s] != stop)
    && (|tr| == |r.tokens| ==>
          if (tr != [] && r.tokens[|tr| - 1] == stop) || |tr| == steps then r.status == 0 && r.failed == -1
          else r.status == 0xE000_0002 && r.failed == -1 && !InTable(c, pos0 + |tr|))
  }

  ghost predicate Traced(c: Schedule, unit: Unit, tr: seq<Step>, m: seq<U32>, pos0: nat, steps: nat, token: U32,
                         stop: U32, r: Outcome) {
    && (forall s :: 0 <= s < |tr| ==> StepIs(c, unit, tr, m, pos0, token, r, s))
    && EndIs(c, tr, m, pos0, steps, stop, r)
  }

  ghost predicate AllApart(c: Schedule) {
    forall k :: 0 <= k < |c.buckets| ==> InputsApart(c.buckets[k].io)
  }

  /** A step put before a traced run. */
  lemma {:induction false} StepBefore(c: Schedule, unit: Unit, x: Step, tr: seq<Step>, m: seq<U32>, pos0: nat,
                                      steps: nat, token: U32, stop: U32, t: U32, q: Outcome)
    requires Traced(c, unit, tr, x.after, pos0 + 1, steps, t, stop, q) && t != stop
    requires FirstIs(c, unit, x, m, pos0, token) && x.status == 0 && Picked(c, Index(c, pos0), x.after, t)
    ensures Traced(c, unit, [x] + tr, m, pos0, steps + 1, token, stop, Cons(t, q))
  {
    hide StartsFrom, ItemsRan, Picked, InTable, Index;
    var zs, r := [x] + tr, Cons(t, q);
    forall s | 0 <= s < |zs| ensures StepIs(c, unit, zs, m, pos0, token, r, s) {
      if s > 0 {
        assert StepIs(c, unit, tr, x.after, pos0 + 1, t, q, s - 1);
        assert pos0 + 1 + (s - 1) == pos0 + s && zs[s] == tr[s - 1];
      }
    }
    hide StepIs;
    forall s | 0 <= s < |r.tokens| && s < |zs| - 1 ensures r.tokens[s] != stop {
      if s > 0 { assert r.tokens[s] == q.tokens[s - 1]; }
    }
    assert pos0 + 1 + |tr| == pos0 + |zs|;
  }

  /** The first step. */
  ghost predicate FirstIs(c: Schedule, unit: Unit, x: Step, m: seq<U32>, pos: nat, token: U32) {
    && InTable(c, pos) && x.before == m && StartsFrom(c, Index(c, pos), m, x.start, token, pos)
    && exists ms :: ItemsRan(unit, c.buckets[Index(c, pos)].items, x.start, x.after, x.status, x.failed, ms)
  }

  lemma {:induction false} OneStep(c: Schedule, unit: Unit, x: Step, m: seq<U32>, pos0: nat, steps: nat, token: U32,
                                   stop: U32)
    requires steps > 0 && FirstIs(c, unit, x, m, pos0, token)
    ensures x.status != 0 ==>
              Traced(c, unit, [x], m, pos0, steps, token, stop, Outcome([], x.status, x.failed, x.after))
    ensures x.status == 0 && Picked(c, Index(c, pos0), x.after, stop) ==>
              Traced(c, unit, [x], m, pos0, steps, token, stop, Outcome([stop], 0, -1, x.after))
  {
    hide StartsFrom, ItemsRan, Picked, InTable, Index;
  }

  lemma {:induction false} FirstStep(c: Schedule, unit: Unit, m: seq<U32>, pos: nat, token: U32) returns (x: Step)
    requires Placed(c, |m|) && KeepsMasks(c, unit) && AllApart(c) && InTable(c, pos)
    ensures pos < 0x4000_0000 && FirstIs(c, unit, x, m, pos, token) && |x.after| == |m|
    ensures var k := Index(c, pos);
            var r := RunItems(unit, c.buckets[k].items, 0, Prepared(c, k, m, token, pos));
            x.after == r.m && x.status == r.status && x.failed == r.failed
            && (r.status == 0 ==> Picked(c, k, x.after, NextToken(c, k, x.after)))
  {
    hide RunItems, StartsFrom, Prepared, ItemsRan, KeepsMasks, Pick, Length;
    var k := Index(c, pos);
    PositionFits(c, pos, |m|);
    PreparedStarts(c, k, m, token, pos);
    var start := Prepared(c, k, m, token, pos);
    var items := c.buckets[k].items;
    ItemsKeepMasks(c, unit, items, 0, start);
    var r := RunItems(unit, items, 0, start);
    var ms := ItemsTrace(unit, items, 0, start);
    assert items[0..] == items;
    x := Step(m, start, r.m, r.status, r.failed);
    AnyFailed(unit, items, start, r.m, r.status, r.failed, ms);
    assert InMemory(c, k, |m|);
  }

  /** Without a failure the index of the failed item is not looked at. */
  lemma {:induction false} AnyFailed(unit: Unit, items: seq<Item>, start: seq<U32>, after: seq<U32>, status: U32,
                                     failed: nat, ms: seq<seq<U32>>)
    requires ItemsRan(unit, items, start, after, status, if status == 0 then 0 else failed, ms)
    ensures ItemsRan(unit, items, start, after, status, failed, ms)
  {
  }

  /** Every run of the loop, step by step. */
  lemma {:induction false} LoopTrace(c: Schedule, unit: Unit, m: seq<U32>, pos0: nat, steps: nat, token: U32, stop: U32)
    returns (tr: seq<Step>)
    requires Placed(c, |m|) && KeepsMasks(c, unit) && AllApart(c)
    ensures Traced(c, unit, tr, m, pos0, steps, token, stop, HostLoop(c, unit, m, pos0, steps, token, stop))
    decreases steps
  {
    hide HostLoop, KeepsMasks, Placed, Traced, FirstIs, RunItems, Prepared, NextToken, Picked, Cons;
    tr := [];
    if steps == 0 {
      ZeroSteps(c, unit, m, pos0, token, stop);
      NothingRan(c, unit, m, pos0, steps, token, stop);
    } else {
      HostTurn(c, unit, m, pos0, steps, token, stop);
      if InTable(c, pos0) {
        var x := FirstStep(c, unit, m, pos0, token);
        OneStep(c, unit, x, m, pos0, steps, token, stop);
        tr := [x];
        if x.status == 0 && NextToken(c, Index(c, pos0), x.after) != stop {
          var t := NextToken(c, Index(c, pos0), x.after);
          var rest := LoopTrace(c, unit, x.after, pos0 + 1, steps - 1, t, stop);
          var q := HostLoop(c, unit, x.after, pos0 + 1, steps - 1, t, stop);
          StepBefore(c, unit, x, rest, m, pos0, steps - 1, token, stop, t, q);
          tr := [x] + rest;
          ConsIs(t, q);
        }
      } else {
        TableIs(c, |m|);
        NothingRan(c, unit, m, pos0, steps, token, stop);
      }
    }
  }

  ghost predicate HasTrace(c: Schedule, unit: Unit, m: seq<U32>, pos0: nat, steps: nat, token: U32, stop: U32,
                           r: Outcome)
  {
    exists tr :: Traced(c, unit, tr, m, pos0, steps, token, stop, r)
  }

  lemma {:induction false} LoopHasTrace(c: Schedule, unit: Unit, m: seq<U32>, pos0: nat, steps: nat, token: U32,
                                        stop: U32)
    requires Placed(c, |m|) && KeepsMasks(c, unit)
    ensures AllApart(c) ==>
              HasTrace(c, unit, m, pos0, steps, token, stop, HostLoop(c, unit, m, pos0, steps, token, stop))
  {
    hide Traced, HostLoop, Placed, KeepsMasks, AllApart;
    if AllApart(c) {
      var tr := LoopTrace(c, unit, m, pos0, steps, token, stop);
    }
  }

  lemma {:induction false} ConsIs(t: U32, q: Outcome)
    ensures Cons(t, q) == q.(tokens := [t] + q.tokens)
  {
  }

  lemma {:induction false} TableIs(c: Schedule, size: nat)
    requires Placed(c, size)
    ensures c.pad > 0
  {
  }

  lemma {:induction false} NothingRan(c: Schedule, unit: Unit, m: seq<U32>, pos0: nat, steps: nat, token: U32,
                                      stop: U32)
    ensures steps == 0 ==> Traced(c, unit, [], m, pos0, steps, token, stop, Outcome([], 0, -1, m))
    ensures steps > 0 && !InTable(c, pos0) ==>
              Traced(c, unit, [], m, pos0, steps, token, stop, Outcome([], 0xE000_0002, -1, m))
  {
  }

  /** With right block maxima and no NaN the token picked is where the largest logit is in memory. */
  lemma {:induction false} PickedIsLargest(c: Schedule, k: nat, m: seq<U32>, t: nat, u: nat)
    requires k < |c.buckets| && Picked(c, k, m, t) && u < c.nblocks * c.block
    requires var io := c.buckets[k].io;
             MaximaRight(m[io.logits..io.logits + c.nblocks * c.block], m[io.bmax..io.bmax + c.nblocks], c.block)
    ensures t < c.nblocks * c.block
    ensures var a := c.buckets[k].io.logits;
            !IsNaN(m[a + t]) && !IsNaN(m[a + u]) && !Less(Value(m[a + t]), Value(m[a + u]))
  {
    hide Pick, MaximaRight, Less, Value;
    var io := c.buckets[k].io;
    var logits, bmax := m[io.logits..io.logits + c.nblocks * c.block], m[io.bmax..io.bmax + c.nblocks];
    PickIsLargest(logits, bmax, c.block, u);
    NoNaNs(logits, bmax, c.block);
    assert logits[t] == m[io.logits + t] && logits[u] == m[io.logits + u];
  }

  lemma {:induction false} NoNaNs(logits: seq<U32>, bmax: seq<U32>, size: nat)
    requires |logits| == |bmax| * size && MaximaRight(logits, bmax, size)
    ensures forall i :: 0 <= i < |logits| ==> !IsNaN(logits[i])
  {
  }
}
