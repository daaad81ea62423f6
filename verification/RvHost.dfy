/** The decode loop as the host would run it over the recorded steps: each step writes its inputs,
    runs its bucket's recorded items one by one, and picks the next token. Items are opaque: a
    descriptor list or generated code acts on the device's memory and may fail. */
module RvHost {
  import opened Dyadic
  import opened Fp32
  import opened RvKey

  /** A recorded item: a code address (0 for a descriptor list) and the words it runs from. */
  datatype Item = Item(code: U32, words: seq<U32>)

  /** Word addresses of a bucket's inputs and outputs. */
  datatype Io = Io(token: nat, pos: nat, valid: nat, logits: nat, bmax: nat)

  datatype Bucket = Bucket(items: seq<Item>, io: Io)

  /** What an item does: code, words and memory to memory and status (0 on success). */
  type Unit = (U32, seq<U32>, seq<U32>) -> (seq<U32>, U32)

  /** The recorded schedule: pad positions a bucket, buckets b0 .. b0 + |buckets|. */
  datatype Schedule = Schedule(pad: nat, b0: nat, buckets: seq<Bucket>, nblocks: nat, block: nat)

  const RANGE: U32 := 0xE000_0002
  const ONE: U32 := 0x3F80_0000

  function Length(c: Schedule, b: nat): nat {
    (b + 1) * c.pad
  }

  function BucketOf(c: Schedule, pos: nat): nat
    requires c.pad > 0
  {
    pos / c.pad
  }

  /** The words of bucket b's inputs and outputs are in memory, and no input word is in any mask. */
  predicate Placed(c: Schedule, size: nat) {
    && c.pad > 0 && c.nblocks > 0 && size < 0x4000_0000
    && forall k :: 0 <= k < |c.buckets| ==> InMemory(c, k, size)
  }

  predicate InMemory(c: Schedule, k: nat, size: nat)
    requires k < |c.buckets|
  {
    var io := c.buckets[k].io;
    && io.token + 1 < size && io.pos + 1 < size && io.valid + Length(c, c.b0 + k) <= size
    && io.logits + c.nblocks * c.block <= size && io.bmax + c.nblocks <= size
    && (forall i :: i in {io.token, io.token + 1, io.pos, io.pos + 1} ==> !InMask(c, k, i))
  }

  predicate InMask(c: Schedule, k: nat, i: int)
    requires k < |c.buckets|
  {
    var io := c.buckets[k].io;
    io.valid <= i < io.valid + Length(c, c.b0 + k)
  }

  /** Items keep the size of memory and write no mask. */
  ghost predicate KeepsMasks(c: Schedule, unit: Unit) {
    forall code: U32, words: seq<U32>, m: seq<U32> ::
      && |unit(code, words, m).0| == |m|
      && forall k, i :: 0 <= k < |c.buckets| && 0 <= i < |m| && InMask(c, k, i) ==> unit(code, words, m).0[i] == m[i]
  }

  /** The attention mask: 1.0 at positions 0 .. pos of the bucket's length, 0 beyond. */
  function Masked(m: seq<U32>, valid: nat, length: nat, pos: nat): (r: seq<U32>)
    ensures |r| == |m|
  {
    seq(|m|, i requires 0 <= i < |m| =>
      if valid <= i < valid + length then (if i - valid <= pos then ONE else 0) else m[i])
  }

  /** The step's inputs: token and position as 64-bit integers. */
  function Inputs(m: seq<U32>, io: Io, token: U32, pos: U32): (r: seq<U32>)
    requires io.token + 1 < |m| && io.pos + 1 < |m|
    ensures |r| == |m|
  {
    m[io.token := token][io.token + 1 := 0][io.pos := pos][io.pos + 1 := 0]
  }

  datatype Ran = Ran(m: seq<U32>, status: U32, failed: nat)

  /** The items from l on, up to the first that fails. */
  function RunItems(unit: Unit, items: seq<Item>, l: nat, m: seq<U32>): Ran
    requires l <= |items|
    decreases |items| - l
  {
    if l == |items| then Ran(m, 0, l)
    else
      var r := unit(items[l].code, items[l].words, m);
      if r.1 != 0 then Ran(r.0, r.1, l) else RunItems(unit, items, l + 1, r.0)
  }

  datatype Outcome = Outcome(tokens: seq<nat>, status: U32, failed: int, m: seq<U32>)

  function Logits(c: Schedule, io: Io, m: seq<U32>): seq<U32>
    requires io.logits + c.nblocks * c.block <= |m|
  {
    m[io.logits..io.logits + c.nblocks * c.block]
  }

  function Maxima(c: Schedule, io: Io, m: seq<U32>): seq<U32>
    requires io.bmax + c.nblocks <= |m|
  {
    m[io.bmax..io.bmax + c.nblocks]
  }

  /** The memory an item list starts from in a step at pos of bucket k. */
  function Prepared(c: Schedule, k: nat, m: seq<U32>, token: U32, pos: U32): (r: seq<U32>)
    requires Placed(c, |m|) && k < |c.buckets|
    ensures |r| == |m|
  {
    assert InMemory(c, k, |m|);
    var io := c.buckets[k].io;
    Inputs(Masked(m, io.valid, Length(c, c.b0 + k), pos), io, token, pos)
  }

  /** The two 64-bit inputs are four different words. */
  predicate InputsApart(io: Io) {
    io.token + 1 < io.pos || io.pos + 1 < io.token
  }

  /** Word a of bucket k's memory is neither an input nor in the mask. */
  predicate Elsewhere(c: Schedule, k: nat, a: int)
    requires k < |c.buckets|
  {
    var io := c.buckets[k].io;
    && a != io.token && a != io.token + 1 && a != io.pos && a != io.pos + 1
    && (a < io.valid || a >= io.valid + (c.b0 + k + 1) * c.pad)
  }

  /** A step at pos starts from this memory: the token and the position as 64-bit integers at their words,
      1.0 exactly at the mask's positions 0 .. pos, everything else as it was. */
  ghost predicate StartsFrom(c: Schedule, k: nat, before: seq<U32>, start: seq<U32>, token: U32, pos: nat)
    requires k < |c.buckets|
  {
    var io := c.buckets[k].io;
    && |start| == |before| && io.token + 1 < |start| && io.pos + 1 < |start|
    && io.valid + (c.b0 + k + 1) * c.pad <= |start|
    && start[io.token] == token && start[io.token + 1] == 0 && start[io.pos] == pos && start[io.pos + 1] == 0
    && (forall a :: io.valid <= a < io.valid + (c.b0 + k + 1) * c.pad ==>
          start[a] == if a - io.valid <= pos then 0x3F80_0000 else 0)
    && (forall a :: 0 <= a < |start| && Elsewhere(c, k, a) ==> start[a] == before[a])
  }

  lemma {:induction false} PreparedStarts(c: Schedule, k: nat, m: seq<U32>, token: U32, pos: U32)
    requires Placed(c, |m|) && k < |c.buckets| && InputsApart(c.buckets[k].io)
    ensures StartsFrom(c, k, m, Prepared(c, k, m, token, pos), token, pos)
  {
    assert InMemory(c, k, |m|);
    var io, r := c.buckets[k].io, Prepared(c, k, m, token, pos);
    forall a | io.valid <= a < io.valid + (c.b0 + k + 1) * c.pad
      ensures r[a] == if a - io.valid <= pos then 0x3F80_0000 else 0
    {
      assert InMask(c, k, a);
    }
  }

  /** The host's loop: at most steps steps from pos with the given token. */
  ghost function HostLoop(c: Schedule, unit: Unit, m: seq<U32>, pos: nat, steps: nat, token: U32,
                          stop: U32): (r: Outcome)
    requires Placed(c, |m|) && KeepsMasks(c, unit)
    decreases steps
  {
    if steps == 0 then Outcome([], 0, -1, m)
    else
      var b := BucketOf(c, pos);
      if b < c.b0 || b - c.b0 >= |c.buckets| then Outcome([], RANGE, -1, m)
      else
        var k := b - c.b0;
        PositionFits(c, pos, |m|);
        var io := c.buckets[k].io;
        var r := RunItems(unit, c.buckets[k].items, 0, Prepared(c, k, m, token, pos));
        ItemsKeepMasks(c, unit, c.buckets[k].items, 0, Prepared(c, k, m, token, pos));
        if r.status != 0 then Outcome([], r.status, r.failed, r.m)
        else
          var t := NextToken(c, k, r.m);
          if t == stop then Outcome([t], 0, -1, r.m)
          else
            var rest := HostLoop(c, unit, r.m, pos + 1, steps - 1, t, stop);
            rest.(tokens := [t] + rest.tokens)
  }

  function NextToken(c: Schedule, k: nat, m: seq<U32>): (t: U32)
    requires Placed(c, |m|) && k < |c.buckets|
  {
    assert InMemory(c, k, |m|);
    var io := c.buckets[k].io;
    PickFits(Logits(c, io, m), Maxima(c, io, m), c.block);
    Pick(Logits(c, io, m), Maxima(c, io, m), c.block)
  }

  lemma {:induction false} PickFits(logits: seq<U32>, bmax: seq<U32>, size: nat)
    requires |bmax| > 0 && |logits| == |bmax| * size
    ensures Pick(logits, bmax, size) <= |logits|
  {
    BlockFits(BestBlock(bmax, |bmax|), |bmax|, size);
  }

  /** A position inside the table's buckets is a word of its bucket's mask. */
  lemma {:induction false} PositionFits(c: Schedule, pos: nat, size: nat)
    requires Placed(c, size) && c.b0 <= BucketOf(c, pos) < c.b0 + |c.buckets|
    ensures var b := BucketOf(c, pos); pos < Length(c, b) <= size && b <= pos && InMemory(c, b - c.b0, size)
  {
    hide BucketOf, Length;
    var b := BucketOf(c, pos);
    InOwnBucket(c, pos);
    assert InMemory(c, b - c.b0, size);
  }

  lemma {:induction false} InOwnBucket(c: Schedule, pos: nat)
    requires c.pad > 0
    ensures BucketOf(c, pos) <= pos < Length(c, BucketOf(c, pos))
  {
    var b, r := Divide(pos, c.pad);
    SumTimes(b, 1, c.pad);
    MulUp(1, c.pad, b);
    Commute(b, c.pad);
  }

  lemma {:induction false} ItemsKeepMasks(c: Schedule, unit: Unit, items: seq<Item>, l: nat, m: seq<U32>)
    requires KeepsMasks(c, unit) && l <= |items|
    ensures var r := RunItems(unit, items, l, m);
            && |r.m| == |m|
            && forall k, i :: 0 <= k < |c.buckets| && 0 <= i < |m| && InMask(c, k, i) ==> r.m[i] == m[i]
    decreases |items| - l
  {
    if l < |items| {
      var r := unit(items[l].code, items[l].words, m);
      if r.1 == 0 { ItemsKeepMasks(c, unit, items, l + 1, r.0); }
    }
  }

  /** One turn of the host's loop. */
  lemma {:induction false} HostTurn(c: Schedule, unit: Unit, m: seq<U32>, pos: nat, steps: nat, token: U32, stop: U32)
    requires Placed(c, |m|) && KeepsMasks(c, unit) && steps > 0
    ensures var b := BucketOf(c, pos);
            if b < c.b0 || b - c.b0 >= |c.buckets| then
              HostLoop(c, unit, m, pos, steps, token, stop) == Outcome([], RANGE, -1, m)
            else
              && pos < 0x4000_0000
              && var k := b - c.b0;
                 var r := RunItems(unit, c.buckets[k].items, 0, Prepared(c, k, m, token, pos));
                 && |r.m| == |m|
                 && (r.status != 0 ==>
                      HostLoop(c, unit, m, pos, steps, token, stop) == Outcome([], r.status, r.failed, r.m))
                 && (r.status == 0 && NextToken(c, k, r.m) == stop ==>
                       HostLoop(c, unit, m, pos, steps, token, stop) == Outcome([stop], 0, -1, r.m))
                 && (r.status == 0 && NextToken(c, k, r.m) != stop ==>
                       var rest := HostLoop(c, unit, r.m, pos + 1, steps - 1, NextToken(c, k, r.m), stop);
                       HostLoop(c, unit, m, pos, steps, token, stop)
                         == rest.(tokens := [NextToken(c, k, r.m)] + rest.tokens))
  {
    hide RunItems, Prepared, NextToken;
    var b := BucketOf(c, pos);
    if c.b0 <= b < c.b0 + |c.buckets| {
      var k := b - c.b0;
      PositionFits(c, pos, |m|);
      ItemsKeepMasks(c, unit, c.buckets[k].items, 0, Prepared(c, k, m, token, pos));
    }
  }

  /** The last token is the stop token. */
  predicate Stopped(r: Outcome, stop: U32) {
    r.tokens != [] && r.tokens[|r.tokens| - 1] == stop
  }

  /** Status 0: all steps made, or stopped at the first stop token. Otherwise the loop broke off before, and
      no token was the stop. */
  predicate Ends(r: Outcome, size: nat, steps: nat, stop: U32) {
    && |r.tokens| <= steps && |r.m| == size
    && (forall i :: 0 <= i < |r.tokens| ==> r.tokens[i] < 0x1_0000_0000)
    && (forall i :: 0 <= i < |r.tokens| - 1 ==> r.tokens[i] != stop)
    && (r.status == 0 ==> r.failed == -1 && (|r.tokens| == steps || Stopped(r, stop)))
    && (r.status != 0 ==> |r.tokens| < steps && !Stopped(r, stop))
  }

  function Cons(t: U32, r: Outcome): Outcome {
    r.(tokens := [t] + r.tokens)
  }

  lemma {:induction false} ConsEnds(t: U32, r: Outcome, size: nat, steps: nat, stop: U32)
    requires Ends(r, size, steps, stop) && t != stop
    ensures Ends(Cons(t, r), size, steps + 1, stop)
    ensures Stopped(Cons(t, r), stop) <==> Stopped(r, stop)
  {
  }

  lemma {:induction false} OneEnds(size: nat, steps: nat, stop: U32, status: U32, failed: int, m: seq<U32>)
    requires steps > 0 && |m| == size
    ensures Ends(Outcome([stop], 0, -1, m), size, steps, stop) && Stopped(Outcome([stop], 0, -1, m), stop)
    ensures status != 0 ==> Ends(Outcome([], status, failed, m), size, steps, stop)
  {
  }

  /** How a turn goes: out of the table or failed, stopped, or one token and the rest of the loop. */
  lemma {:induction false} TurnCases(c: Schedule, unit: Unit, m: seq<U32>, pos: nat, token: U32, stop: U32)
    returns (status: U32, failed: int, m1: seq<U32>, t: U32)
    requires Placed(c, |m|) && KeepsMasks(c, unit)
    ensures |m1| == |m| && Placed(c, |m1|)
    ensures forall steps: nat :: steps > 0 ==>
              HostLoop(c, unit, m, pos, steps, token, stop)
              == if status != 0 then Outcome([], status, failed, m1)
                 else if t == stop then Outcome([stop], 0, -1, m1)
                 else Cons(t, HostLoop(c, unit, m1, pos + 1, steps - 1, t, stop))
  {
    hide HostLoop, RunItems, Prepared, NextToken;
    var b := BucketOf(c, pos);
    if b < c.b0 || b - c.b0 >= |c.buckets| {
      status, failed, m1, t := RANGE, -1, m, 0;
    } else {
      HostTurn(c, unit, m, pos, 1, token, stop);
      var r := RunItems(unit, c.buckets[b - c.b0].items, 0, Prepared(c, b - c.b0, m, token, pos));
      status, failed, m1 := r.status, r.failed, r.m;
      t := if r.status == 0 then NextToken(c, b - c.b0, r.m) else 0;
    }
    forall steps: nat | steps > 0
      ensures HostLoop(c, unit, m, pos, steps, token, stop)
              == if status != 0 then Outcome([], status, failed, m1)
                 else if t == stop then Outcome([stop], 0, -1, m1)
                 else Cons(t, HostLoop(c, unit, m1, pos + 1, steps - 1, t, stop))
    {
      HostTurn(c, unit, m, pos, steps, token, stop);
    }
  }

  lemma {:induction false} LoopEnds(c: Schedule, unit: Unit, m: seq<U32>, pos: nat, steps: nat, token: U32, stop: U32)
    requires Placed(c, |m|) && KeepsMasks(c, unit)
    ensures Ends(HostLoop(c, unit, m, pos, steps, token, stop), |m|, steps, stop)
    decreases steps
  {
    if steps == 0 {
      ZeroSteps(c, unit, m, pos, token, stop);
    } else {
      hide HostLoop, Placed, KeepsMasks, Cons, Ends;
      var status, failed, m1, t := TurnCases(c, unit, m, pos, token, stop);
      OneEnds(|m|, steps, stop, status, failed, m1);
      if status == 0 && t != stop {
        LoopEnds(c, unit, m1, pos + 1, steps - 1, t, stop);
        ConsEnds(t, HostLoop(c, unit, m1, pos + 1, steps - 1, t, stop), |m|, steps - 1, stop);
      }
    }
  }

  /** The token a loop leaves for the next one. */
  function Last(r: Outcome, token: U32): U32 {
    if r.tokens == [] then token else r.tokens[|r.tokens| - 1] % 0x1_0000_0000
  }

  lemma {:induction false} LastOfCons(t: U32, r: Outcome, token: U32, size: nat, steps: nat, stop: U32)
    requires Ends(r, size, steps, stop) && t != stop
    ensures Ends(Cons(t, r), size, steps + 1, stop) && Last(Cons(t, r), token) == Last(r, t)
    ensures |Cons(t, r).tokens| == |r.tokens| + 1 && Cons(t, r).m == r.m && Cons(t, r).status == r.status
  {
  }

  /** n steps that neither failed nor stopped. */
  predicate Made(r: Outcome, n: nat, stop: U32) {
    r.status == 0 && |r.tokens| == n && !Stopped(r, stop)
  }

  /** A loop can be cut anywhere: after n steps that neither failed nor stopped, a second loop from the
      last token and the memory goes on as the whole one would. */
  lemma {:induction false} LoopResumes(c: Schedule, unit: Unit, m: seq<U32>, pos: nat, n: nat, steps: nat, token: U32,
                                       stop: U32)
    requires Placed(c, |m|) && KeepsMasks(c, unit)
    requires Made(HostLoop(c, unit, m, pos, n, token, stop), n, stop)
    ensures var r := HostLoop(c, unit, m, pos, n, token, stop);
            && Ends(r, |m|, n, stop)
            && var q := HostLoop(c, unit, r.m, pos + n, steps, Last(r, token), stop);
               HostLoop(c, unit, m, pos, n + steps, token, stop) == q.(tokens := r.tokens + q.tokens)
    decreases n
  {
    hide *;
    LoopEnds(c, unit, m, pos, n, token, stop);
    if n == 0 {
      ZeroSteps(c, unit, m, pos, token, stop);
      NothingBefore(HostLoop(c, unit, m, pos, steps, token, stop), m, token);
    } else {
      var status, failed, m1, t := TurnCases(c, unit, m, pos, token, stop);
      var r, rest := HostLoop(c, unit, m, pos, n, token, stop), HostLoop(c, unit, m1, pos + 1, n - 1, t, stop);
      MadeTurn(r, status, failed, m1, t, rest, n, stop);
      LoopEnds(c, unit, m1, pos + 1, n - 1, t, stop);
      LastOfCons(t, rest, token, |m|, n - 1, stop);
      LoopResumes(c, unit, m1, pos + 1, n - 1, steps, t, stop);
      ConsBefore(t, rest, HostLoop(c, unit, rest.m, pos + n, steps, Last(rest, t), stop));
    }
  }

  lemma {:induction false} NothingBefore(q: Outcome, m: seq<U32>, token: U32)
    ensures q.(tokens := [] + q.tokens) == q && Last(Outcome([], 0, -1, m), token) == token
  {
    assert [] + q.tokens == q.tokens;
  }

  lemma {:induction false} MadeTurn(r: Outcome, status: U32, failed: int, m1: seq<U32>, t: U32, rest: Outcome, n: nat,
                                    stop: U32)
    requires Made(r, n, stop) && n > 0
    requires r == if status != 0 then Outcome([], status, failed, m1)
                  else if t == stop then Outcome([stop], 0, -1, m1) else Cons(t, rest)
    ensures status == 0 && t != stop && r == Cons(t, rest) && Made(rest, n - 1, stop)
  {
  }

  lemma {:induction false} ConsBefore(t: U32, rest: Outcome, q: Outcome)
    ensures Cons(t, q.(tokens := rest.tokens + q.tokens)) == q.(tokens := Cons(t, rest).tokens + q.tokens)
  {
    assert [t] + (rest.tokens + q.tokens) == ([t] + rest.tokens) + q.tokens;
  }

  lemma {:induction false} ZeroSteps(c: Schedule, unit: Unit, m: seq<U32>, pos: nat, token: U32, stop: U32)
    requires Placed(c, |m|) && KeepsMasks(c, unit)
    ensures HostLoop(c, unit, m, pos, 0, token, stop) == Outcome([], 0, -1, m)
  {
  }
}
