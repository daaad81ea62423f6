/** The looped form of a linear layer executes the same effective commands as the unrolled form, for
    every number of chunks the LOOP_END's count can hold. */
module LinearLoop {
  import opened Options
  import opened Dyadic
  import opened LoopMachine
  import opened LinearList

  /** Commands one after the other. */
  function Straight(ds: seq<Desc>): Prog {
    if ds == [] then Skip else Then(Do(ds[0]), Straight(ds[1..]))
  }

  predicate AllCommands(ds: seq<Desc>) {
    forall i :: 0 <= i < |ds| ==> ds[i].Command?
  }

  /** What commands do under the given PARAMs. */
  function Effects(ds: seq<Desc>, params: Params): (e: seq<Effective>)
    requires AllCommands(ds)
    ensures |e| == |ds|
  {
    seq(|ds|, i requires 0 <= i < |ds| => Apply(params, ds[i]))
  }

  lemma {:induction false} StraightIs(ds: seq<Desc>, params: Params)
    ensures Flat(Straight(ds)) == ds && Depth(Straight(ds)) == 0
    ensures AllCommands(ds) ==>
              Wellformed(Straight(ds)) && Run(Straight(ds), params) == Meaning(Effects(ds, params), params)
  {
    hide Apply;
    if ds != [] {
      StraightIs(ds[1..], params);
      assert ds == [ds[0]] + ds[1..];
      if AllCommands(ds) {
        assert Effects(ds, params) == [Apply(params, ds[0])] + Effects(ds[1..], params);
      }
    }
  }

  lemma {:induction false} EffectsBoth(a: seq<Desc>, b: seq<Desc>, params: Params)
    requires AllCommands(a) && AllCommands(b)
    ensures AllCommands(a + b) && Effects(a + b, params) == Effects(a, params) + Effects(b, params)
  {
  }

  // ---------------------------------------------------------------- chunks under PARAMs

  lemma {:induction false} Commands(c: Layer, i: nat, dyn: bool)
    requires Accepted(c) && i < c.nch
    ensures AllCommands(Chunk(c, i, dyn))
  {
  }

  lemma {:induction false} RestCommands(c: Layer, i: nat)
    requires Accepted(c) && i <= c.nch
    ensures AllCommands(Rest(c, i))
    decreases c.nch - i
  {
    hide Chunk;
    if i < c.nch {
      Commands(c, i, false);
      RestCommands(c, i + 1);
    }
  }

  /** A PARAM that holds r double strides moves an address by 2 r chunks. */
  lemma {:induction false} Relocated(off: nat, j: nat, r: nat, stride: nat)
    ensures (off + j * stride + r * (2 * stride) % M32) % M32 == (off + (j + 2 * r) * stride) % M32
  {
    Commute(r, 2 * stride);
    DoubleProduct(stride, r);
    Commute(stride, r);
    DoubleProduct(r, stride);
    SumTimes(j, 2 * r, stride);
    ModSum(off + j * stride, r * (2 * stride));
  }

  lemma {:induction false} ModSum(a: nat, b: nat)
    ensures (a + b % M32) % M32 == (a + b) % M32
  {
  }

  /** The PARAMs after r iterations. */
  predicate At(c: Layer, params: Params, r: nat) {
    && c.pW != c.pF && c.pW < |params| && c.pF < |params|
    && params[c.pW] == r * (2 * WBytes(c)) % M32 && params[c.pF] == r * (2 * FBytes(c)) % M32
  }

  lemma {:induction false} LoadMoves(c: Layer, p: nat, j: nat, r: nat, params: Params, q: Params)
    requires At(c, params, r)
    ensures AllCommands(Load(c, p, j, true, true)) && AllCommands(Load(c, p, j + 2 * r, false, true))
    ensures Effects(Load(c, p, j, true, true), params) == Effects(Load(c, p, j + 2 * r, false, true), q)
  {
    hide WBytes, FBytes;
    Relocated(c.wOff, j, r, WBytes(c));
    Relocated(c.swOff, j, r, FBytes(c));
  }

  lemma {:induction false} FinishMoves(c: Layer, p: nat, j: nat, r: nat, params: Params, q: Params)
    requires At(c, params, r) && c.out.ToDdr?
    ensures AllCommands(Finish(c, p, j, true)) && AllCommands(Finish(c, p, j + 2 * r, false))
    ensures Effects(Finish(c, p, j, true), params) == Effects(Finish(c, p, j + 2 * r, false), q)
  {
    hide WBytes, FBytes;
    Relocated(c.out.off, j, r, FBytes(c));
  }

  /** The code of chunk j under the PARAMs of iteration r does what chunk j + 2 r's unrolled code does. */
  lemma {:induction false} ChunkMoves(c: Layer, p: nat, j: nat, n: nat, r: nat, params: Params, q: Params)
    requires At(c, params, r) && c.out.ToDdr? && c.d > 0
    ensures AllCommands(ChunkOf(c, p, j, true, Some(n)))
            && AllCommands(ChunkOf(c, p, j + 2 * r, false, Some(n + 2 * r)))
    ensures Effects(ChunkOf(c, p, j, true, Some(n)), params)
            == Effects(ChunkOf(c, p, j + 2 * r, false, Some(n + 2 * r)), q)
  {
    hide Load, Finish, Effects;
    LoadMoves(c, 1 - p % 2, n, r, params, q);
    FinishMoves(c, p, j, r, params, q);
    var x := [Compute(c, p)];
    assert Effects(x, params) == Effects(x, q) by { ComputeStays(c, p, params, q); }
    EffectsBoth(x, Load(c, 1 - p % 2, n, true, true), params);
    EffectsBoth(x + Load(c, 1 - p % 2, n, true, true), Finish(c, p, j, true), params);
    EffectsBoth(x, Load(c, 1 - p % 2, n + 2 * r, false, true), q);
    EffectsBoth(x + Load(c, 1 - p % 2, n + 2 * r, false, true), Finish(c, p, j + 2 * r, false), q);
  }

  lemma {:induction false} ComputeStays(c: Layer, p: nat, params: Params, q: Params)
    requires c.d > 0
    ensures AllCommands([Compute(c, p)]) && Effects([Compute(c, p)], params) == Effects([Compute(c, p)], q)
  {
  }

  lemma {:induction false} BankStays(c: Layer, i: nat, r: nat)
    ensures Bank(c, i + 2 * r) == Bank(c, i)
  {
  }

  /** One iteration does what the two chunks it stands for do. */
  lemma {:induction false} BodyMoves(c: Layer, r: nat, params: Params, q: Params)
    requires Accepted(c) && InOrder(c) && c.out.ToDdr? && 2 * r + 2 < c.nch && At(c, params, r)
    ensures AllCommands(Body(c)) && AllCommands(Chunk(c, 2 * r, false) + Chunk(c, 2 * r + 1, false))
    ensures Effects(Body(c), params) == Effects(Chunk(c, 2 * r, false) + Chunk(c, 2 * r + 1, false), q)
  {
    hide ChunkOf, Effects, Bank, Accepted;
    BankStays(c, 0, r);
    BankStays(c, 1, r);
    AcceptedFacts(c);
    ChunkMoves(c, Bank(c, 0), 0, 1, r, params, q);
    ChunkMoves(c, Bank(c, 1), 1, 2, r, params, q);
    EffectsBoth(Chunk(c, 0, true), Chunk(c, 1, true), params);
    EffectsBoth(Chunk(c, 2 * r, false), Chunk(c, 2 * r + 1, false), q);
  }

  lemma {:induction false} AcceptedFacts(c: Layer)
    requires Accepted(c)
    ensures c.d > 0 && |c.order| == c.nch
  {
  }

  // ---------------------------------------------------------------- the loop

  /** Chunks i .. j - 1 unrolled. */
  function Span(c: Layer, i: nat, j: nat): seq<Desc>
    requires Accepted(c) && i <= j <= c.nch
    decreases j - i
  {
    if i == j then [] else Chunk(c, i, false) + Span(c, i + 1, j)
  }

  lemma {:induction false} SpanCommands(c: Layer, i: nat, j: nat)
    requires Accepted(c) && i <= j <= c.nch
    ensures AllCommands(Span(c, i, j))
    decreases j - i
  {
    hide Chunk;
    if i < j {
      Commands(c, i, false);
      SpanCommands(c, i + 1, j);
    }
  }

  lemma {:induction false} SpanThenRest(c: Layer, i: nat, j: nat)
    requires Accepted(c) && i <= j <= c.nch
    ensures Span(c, i, j) + Rest(c, j) == Rest(c, i)
    decreases j - i
  {
    hide Chunk;
    if i < j {
      SpanThenRest(c, i + 1, j);
      Together(Chunk(c, i, false), Span(c, i + 1, j), Rest(c, j));
    }
  }

  lemma {:induction false} Advanced(c: Layer, params: Params, r: nat)
    requires At(c, params, r)
    ensures At(c, Bump(Bump(params, c.pW, 2 * WBytes(c)), c.pF, 2 * FBytes(c)), r + 1)
  {
    hide WBytes, FBytes;
    SumTimes(r, 1, 2 * WBytes(c));
    SumTimes(r, 1, 2 * FBytes(c));
    ModSum(2 * WBytes(c), r * (2 * WBytes(c)));
    ModSum(2 * FBytes(c), r * (2 * FBytes(c)));
  }

  /** n iterations from iteration r on do what chunks 2 r .. 2 (r + n) - 1 do. */
  lemma {:induction false} LoopIsSpan(c: Layer, n: nat, r: nat, params: Params, q: Params)
    requires Accepted(c) && InOrder(c) && c.out.ToDdr? && 2 * (r + n) < c.nch && c.nch > 2 && At(c, params, r)
    ensures AllCommands(Span(c, 2 * r, 2 * (r + n)))
    ensures Times(Straight(Body(c)), n, c.pW, 2 * WBytes(c), c.pF, 2 * FBytes(c), params).trace
         == Effects(Span(c, 2 * r, 2 * (r + n)), q)
    decreases n
  {
    hide Chunk, Effects, Run, Body, At, Straight, WBytes, FBytes;
    SpanCommands(c, 2 * r, 2 * (r + n));
    if n > 0 {
      BodyMoves(c, r, params, q);
      StraightIs(Body(c), params);
      Advanced(c, params, r);
      LoopIsSpan(c, n - 1, r + 1, Bump(Bump(params, c.pW, 2 * WBytes(c)), c.pF, 2 * FBytes(c)), q);
      SpanTwo(c, r, n);
      SpanCommands(c, 2 * (r + 1), 2 * (r + n));
      EffectsBoth(Chunk(c, 2 * r, false) + Chunk(c, 2 * r + 1, false), Span(c, 2 * (r + 1), 2 * (r + n)), q);
    } else {
      assert Effects([], q) == [] by { EffectsNone(q); }
    }
  }

  lemma {:induction false} EffectsNone(q: Params)
    ensures Effects([], q) == []
  {
  }

  lemma {:induction false} SpanTwo(c: Layer, r: nat, n: nat)
    requires Accepted(c) && n > 0 && 2 * (r + n) <= c.nch
    ensures Span(c, 2 * r, 2 * (r + n))
         == (Chunk(c, 2 * r, false) + Chunk(c, 2 * r + 1, false)) + Span(c, 2 * (r + 1), 2 * (r + n))
  {
    hide Chunk;
    Together(Chunk(c, 2 * r, false), Chunk(c, 2 * r + 1, false), Span(c, 2 * (r + 1), 2 * (r + n)));
  }

  // ---------------------------------------------------------------- both forms

  function LoopProg(c: Layer): Prog
    requires Accepted(c) && c.nch > 2
  {
    Loop(Straight(Body(c)), Pairs(c), c.pW, 2 * WBytes(c), c.pF, 2 * FBytes(c))
  }

  function SetBoth(c: Layer): Prog {
    Then(Do(SetParam(c.pW, 0)), Do(SetParam(c.pF, 0)))
  }

  /** The structured program of the looped form. */
  function LoopedProg(c: Layer): Prog
    requires Accepted(c)
  {
    if Pairs(c) == 0 then Straight(Unrolled(c))
    else Then(Then(Straight(First(c)), Then(SetBoth(c), LoopProg(c))), Straight(Rest(c, 2 * Pairs(c))))
  }

  lemma {:induction false} LoopedIsFlat(c: Layer)
    requires Accepted(c)
    ensures Flat(LoopedProg(c)) == Looped(c) && Depth(LoopedProg(c)) <= 1
    ensures Pairs(c) == 0 || Pairs(c) % COUNT > 0 ==> Wellformed(LoopedProg(c))
  {
    hide Chunk, Rest, First, Body;
    if Pairs(c) == 0 {
      StraightIs(Unrolled(c), []);
      UnrolledCommands(c);
    } else {
      StraightIs(First(c), []);
      StraightIs(Body(c), []);
      StraightIs(Rest(c, 2 * Pairs(c)), []);
      FirstCommands(c);
      BodyCommands(c);
      RestCommands(c, 2 * Pairs(c));
      LoopCodeIs(c);
      hide Straight;
      var loop, regs := LoopProg(c), SetBoth(c);
      assert Depth(loop) == 1 && Depth(regs) == 0;
      assert Pairs(c) % COUNT > 0 ==> Wellformed(loop) && Wellformed(regs);
      hide Depth, Wellformed, Flat;
      ThenParts(regs, loop);
      ThenParts(Straight(First(c)), Then(regs, loop));
      ThenParts(Then(Straight(First(c)), Then(regs, loop)), Straight(Rest(c, 2 * Pairs(c))));
    }
  }

  lemma {:induction false} ThenParts(a: Prog, b: Prog)
    ensures Depth(Then(a, b)) == (if Depth(a) > Depth(b) then Depth(a) else Depth(b))
    ensures Wellformed(a) && Wellformed(b) ==> Wellformed(Then(a, b))
    ensures Flat(Then(a, b)) == Flat(a) + Flat(b)
  {
  }

  lemma {:induction false} LoopCodeIs(c: Layer)
    requires Accepted(c) && c.nch > 2 && Flat(Straight(Body(c))) == Body(c)
    ensures Flat(Then(SetBoth(c), LoopProg(c))) == LoopCode(c)
  {
    hide Body;
    var e := [LoopEnd(|Body(c)|, Pairs(c), c.pW, 2 * WBytes(c), c.pF, 2 * FBytes(c))];
    Together([SetParam(c.pW, 0), SetParam(c.pF, 0)], Body(c), e);
    assert Flat(SetBoth(c)) == [SetParam(c.pW, 0), SetParam(c.pF, 0)];
    assert Flat(LoopProg(c)) == Body(c) + e;
  }

  lemma {:induction false} FirstCommands(c: Layer)
    requires Accepted(c)
    ensures AllCommands(First(c))
  {
  }

  lemma {:induction false} BodyCommands(c: Layer)
    requires Accepted(c) && c.nch > 2
    ensures AllCommands(Body(c))
  {
    hide Chunk;
    Commands(c, 0, true);
    Commands(c, 1, true);
  }

  lemma {:induction false} UnrolledCommands(c: Layer)
    requires Accepted(c)
    ensures AllCommands(Unrolled(c))
  {
    hide Rest, First;
    FirstCommands(c);
    RestCommands(c, 0);
  }

  /** Commands without PARAMs do the same whatever the PARAMs are. */
  predicate NoParams(ds: seq<Desc>) {
    forall i :: 0 <= i < |ds| ==> ds[i].Command? && ds[i].param == None
  }

  lemma {:induction false} EffectsAlike(ds: seq<Desc>, p: Params, q: Params)
    requires NoParams(ds)
    ensures AllCommands(ds) && Effects(ds, p) == Effects(ds, q)
  {
  }

  lemma {:induction false} ChunkPlain(c: Layer, i: nat)
    requires Accepted(c) && i < c.nch
    ensures NoParams(Chunk(c, i, false))
  {
  }

  lemma {:induction false} RestPlain(c: Layer, i: nat)
    requires Accepted(c) && i <= c.nch
    ensures NoParams(Rest(c, i))
    decreases c.nch - i
  {
    hide Chunk;
    if i < c.nch { ChunkPlain(c, i); RestPlain(c, i + 1); }
  }

  lemma {:induction false} FirstPlain(c: Layer)
    requires Accepted(c)
    ensures NoParams(First(c))
  {
  }

  /** The PARAMs at the start of the loop. */
  lemma {:induction false} StartsAtZero(c: Layer, params: Params)
    requires c.pW != c.pF && c.pW < |params| && c.pF < |params|
    ensures Run(SetBoth(c), params).trace == [] && At(c, Run(SetBoth(c), params).params, 0)
  {
    hide WBytes, FBytes;
  }

  /** For every accepted layer and every number of chunks the count field can hold, the looped form
      executes exactly the effective commands of the unrolled form. */
  lemma {:induction false} LoopedIsUnrolled(c: Layer, params: Params)
    requires Accepted(c) && InOrder(c) && c.out.ToDdr? && Pairs(c) < COUNT
    requires c.pW != c.pF && c.pW < |params| && c.pF < |params|
    ensures AllCommands(Unrolled(c)) && Run(LoopedProg(c), params).trace == Effects(Unrolled(c), params)
  {
    hide Chunk, Rest, First, Body, Effects, Times, At, WBytes, FBytes, Straight, Run, Span;
    UnrolledCommands(c);
    if Pairs(c) == 0 {
      StraightIs(Unrolled(c), params);
    } else {
      var n := Pairs(c);
      FirstPlain(c);
      RestPlain(c, 2 * n);
      var q := Run(SetBoth(c), params).params;
      StartsAtZero(c, params);
      LoopIsSpan(c, n, 0, q, params);
      StraightIs(First(c), params);
      var u := Run(LoopProg(c), q).params;
      LoopRun(c, q);
      ThenRun(SetBoth(c), LoopProg(c), params);
      ThenRun(Straight(First(c)), Then(SetBoth(c), LoopProg(c)), params);
      ThenRun(Then(Straight(First(c)), Then(SetBoth(c), LoopProg(c))), Straight(Rest(c, 2 * n)), params);
      StraightIs(Rest(c, 2 * n), u);
      EffectsAlike(Rest(c, 2 * n), u, params);
      EffectsAlike(First(c), params, params);
      SpanThenRest(c, 0, 2 * n);
      EffectsBoth(Span(c, 0, 2 * n), Rest(c, 2 * n), params);
      RestCommands(c, 0);
      EffectsBoth(First(c), Rest(c, 0), params);
      TraceParts(Effects(First(c), params), Run(LoopProg(c), q).trace, Effects(Rest(c, 2 * n), params));
    }
  }

  lemma {:induction false} ThenRun(a: Prog, b: Prog, params: Params)
    ensures var r := Run(a, params);
            var t := Run(b, r.params);
            Run(Then(a, b), params) == Meaning(r.trace + t.trace, t.params)
  {
  }

  lemma {:induction false} LoopRun(c: Layer, q: Params)
    requires Accepted(c) && c.nch > 2
    ensures Run(LoopProg(c), q) == Times(Straight(Body(c)), Iterations(Pairs(c)), c.pW, 2 * WBytes(c), c.pF,
            2 * FBytes(c), q)
  {
    hide Body, Straight, Times;
  }

  lemma {:induction false} TraceParts(a: seq<Effective>, b: seq<Effective>, c: seq<Effective>)
    ensures (a + ([] + b)) + c == a + (b + c)
  {
  }

  /** The interpreter runs the looped list as the unrolled commands. */
  lemma {:induction false} LoopedListRuns(c: Layer, params: Params) returns (n: nat)
    requires Accepted(c) && InOrder(c) && c.out.ToDdr? && Pairs(c) < COUNT
    requires c.pW != c.pF && c.pW < |params| && c.pF < |params|
    ensures AllCommands(Unrolled(c))
    ensures var s := Steps(Looped(c), State(0, params, [], []), n);
            s.Some? && s.value.pc == |Looped(c)| && s.value.loops == [] && s.value.trace == Effects(Unrolled(c), params)
  {
    hide Run, Effects, Steps, Flat, Depth, Wellformed, LoopedProg, Looped;
    LoopedIsUnrolled(c, params);
    LoopedIsFlat(c);
    n := ListRuns(LoopedProg(c), params);
  }

  // ---------------------------------------------------------------- longer layers

  lemma {:induction false} ChunkLength(c: Layer, i: nat, dyn: bool)
    requires Accepted(c) && c.out.ToDdr? && i + 1 < c.nch
    ensures |Chunk(c, i, dyn)| == 6
  {
  }

  lemma {:induction false} SpanLength(c: Layer, i: nat, j: nat)
    requires Accepted(c) && c.out.ToDdr? && i <= j < c.nch
    ensures |Span(c, i, j)| == 6 * (j - i)
    decreases j - i
  {
    hide Chunk;
    if i < j { ChunkLength(c, i, false); SpanLength(c, i + 1, j); }
  }

  lemma {:induction false} TimesLength(c: Layer, n: nat, params: Params)
    requires Accepted(c) && c.out.ToDdr? && c.nch > 2
    ensures |Times(Straight(Body(c)), n, c.pW, 2 * WBytes(c), c.pF, 2 * FBytes(c), params).trace| == 12 * n
    decreases n
  {
    hide Chunk, Run, Straight, WBytes, FBytes, Bump;
    if n > 0 {
      BodyCommands(c);
      StraightIs(Body(c), params);
      ChunkLength(c, 0, true);
      ChunkLength(c, 1, true);
      TimesLength(c, n - 1, Bump(Bump(params, c.pW, 2 * WBytes(c)), c.pF, 2 * FBytes(c)));
    }
  }

  /** Commands of the looped form when its count does not fit: fewer than the unrolled form's. */
  lemma {:induction false} TooFew(c: Layer, params: Params)
    requires Accepted(c) && c.out.ToDdr? && Pairs(c) >= COUNT
    ensures AllCommands(Unrolled(c)) && |Run(LoopedProg(c), params).trace| < |Effects(Unrolled(c), params)|
  {
    hide Chunk, Rest, First, Body, Effects, Times, WBytes, FBytes, Straight, Run, Span;
    var n := Pairs(c);
    UnrolledCommands(c);
    FirstCommands(c);
    RestCommands(c, 2 * n);
    var q := Run(SetBoth(c), params).params;
    var u := Run(LoopProg(c), q).params;
    SetNothing(c, params);
    StraightIs(First(c), params);
    StraightIs(Rest(c, 2 * n), u);
    LoopRun(c, q);
    TimesLength(c, n % COUNT, q);
    SpanLength(c, 0, 2 * n);
    SpanThenRest(c, 0, 2 * n);
    ThenRun(SetBoth(c), LoopProg(c), params);
    ThenRun(Straight(First(c)), Then(SetBoth(c), LoopProg(c)), params);
    ThenRun(Then(Straight(First(c)), Then(SetBoth(c), LoopProg(c))), Straight(Rest(c, 2 * n)), params);
  }

  lemma {:induction false} SetNothing(c: Layer, params: Params)
    ensures Run(SetBoth(c), params).trace == []
  {
  }

  /** The list ran to its end with these effective commands. */
  ghost predicate Ran(list: seq<Desc>, params: Params, trace: seq<Effective>) {
    exists n: nat :: EndsWith(list, params, n, trace)
  }

  predicate EndsWith(list: seq<Desc>, params: Params, n: nat, trace: seq<Effective>) {
    var s := Steps(list, State(0, params, [], []), n);
    s.Some? && s.value.pc == |list| && s.value.trace == trace
  }

  /** A list has at most one run. */
  lemma {:induction false} OneRun(list: seq<Desc>, params: Params, t: seq<Effective>, u: seq<Effective>)
    requires Ran(list, params, t) && Ran(list, params, u)
    ensures t == u
  {
    hide Steps;
    var m: nat :| EndsWith(list, params, m, t);
    var n: nat :| EndsWith(list, params, n, u);
    EndIsLast(list, State(0, params, [], []), m, n);
    EndIsLast(list, State(0, params, [], []), n, m);
  }

  /** With a count field of 0 the list stops at LOOP_END. */
  lemma {:induction false} CountZeroStops(c: Layer, params: Params, t: seq<Effective>)
    requires Accepted(c) && Pairs(c) > 0 && Pairs(c) % COUNT == 0
    ensures !Ran(Looped(c), params, t)
  {
    hide Steps, First, Body, Rest, Run, Straight;
    var list, s0 := Looped(c), State(0, params, [], []);
    var head := Then(Straight(First(c)), Then(SetBoth(c), Straight(Body(c))));
    HeadStands(c);
    HeadWellformed(c);
    var m := FlatRuns(list, s0, head);
    var s := After(s0, head);
    assert Step(list, s).None?;
    OneStep(list, s);
    StepsBoth(list, s0, m, 1);
    if Ran(list, params, t) {
      var n: nat :| EndsWith(list, params, n, t);
      EndIsLast(list, s0, n, m);
      if n > m {
        StepsBoth(list, s0, m, n - m);
        NoStep(list, s, n - m);
      }
    }
  }

  lemma {:induction false} NoStep(list: seq<Desc>, s: State, n: nat)
    requires n > 0 && s.pc < |list| && Step(list, s).None?
    ensures Steps(list, s, n).None?
  {
    hide Step;
  }

  lemma {:induction false} HeadWellformed(c: Layer)
    requires Accepted(c) && c.nch > 2
    ensures var head := Then(Straight(First(c)), Then(SetBoth(c), Straight(Body(c))));
            Wellformed(head) && Depth(head) == 0
  {
    hide First, Body;
    FirstCommands(c);
    BodyCommands(c);
    StraightIs(First(c), []);
    StraightIs(Body(c), []);
    hide Straight;
    assert Wellformed(SetBoth(c)) && Depth(SetBoth(c)) == 0;
    ThenParts(SetBoth(c), Straight(Body(c)));
    ThenParts(Straight(First(c)), Then(SetBoth(c), Straight(Body(c))));
  }

  lemma {:induction false} HeadStands(c: Layer)
    requires Accepted(c) && c.nch > 2
    ensures var head := Then(Straight(First(c)), Then(SetBoth(c), Straight(Body(c))));
            && Stands(Looped(c), 0, head) && |Flat(head)| < |Looped(c)|
            && Looped(c)[|Flat(head)|] == LoopEnd(|Body(c)|, Pairs(c), c.pW, 2 * WBytes(c), c.pF, 2 * FBytes(c))
  {
    hide First, Body, Rest;
    StraightIs(First(c), []);
    StraightIs(Body(c), []);
    hide Straight;
    ThenParts(SetBoth(c), Straight(Body(c)));
    ThenParts(Straight(First(c)), Then(SetBoth(c), Straight(Body(c))));
    var regs := [SetParam(c.pW, 0), SetParam(c.pF, 0)];
    assert Flat(SetBoth(c)) == regs;
    var e := LoopEnd(|Body(c)|, Pairs(c), c.pW, 2 * WBytes(c), c.pF, 2 * FBytes(c));
    var code := First(c) + (regs + Body(c));
    assert Looped(c) == code + ([e] + Rest(c, 2 * Pairs(c)));
    assert Looped(c)[0..0 + |code|] == code;
  }

  /** The looped list does what the unrolled one does exactly when the number of loop iterations fits
      the 16-bit count field. */
  lemma {:induction false} LoopedIffCountFits(c: Layer, params: Params)
    requires Accepted(c) && InOrder(c) && c.out.ToDdr?
    requires c.pW != c.pF && c.pW < |params| && c.pF < |params|
    ensures AllCommands(Unrolled(c)) && (Ran(Looped(c), params, Effects(Unrolled(c), params)) <==> Pairs(c) < COUNT)
  {
    hide Run, Effects, Steps, Looped, Unrolled, LoopedProg, Flat, Depth, Wellformed;
    UnrolledCommands(c);
    if Pairs(c) < COUNT {
      var n := LoopedListRuns(c, params);
      assert EndsWith(Looped(c), params, n, Effects(Unrolled(c), params));
    } else if Pairs(c) % COUNT == 0 {
      CountZeroStops(c, params, Effects(Unrolled(c), params));
    } else {
      LoopedIsFlat(c);
      var n := ListRuns(LoopedProg(c), params);
      var t := Run(LoopedProg(c), params).trace;
      assert EndsWith(Looped(c), params, n, t);
      TooFew(c, params);
      if Ran(Looped(c), params, Effects(Unrolled(c), params)) {
        OneRun(Looped(c), params, t, Effects(Unrolled(c), params));
      }
    }
  }
}
