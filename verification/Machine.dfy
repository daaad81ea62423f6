/** The accelerator as a machine for DDR and its local memories.

A fetched list is a sequence of steps: commands, each with the locations it reads and writes,
and FENCEs, each waiting for the engines of a mask. The engines run concurrently: a command may
complete at any time after it is issued, except that conflicts on local memory keep their list
order (the bank scoreboard) and a FENCE holds everything after it until the engines it names are
idle. DDR is not tracked (firmware/include/sysarray_intrinsics.h:73-79). */
module Machine {

  datatype Engine = LD | ST | EX | VE

  datatype Bank = SpadA | SpadB | Acc | Param

  /** A byte of DDR, or a word of a local memory (Param: the PARAM registers). */
  datatype Loc = Ddr(addr: int) | Local(bank: Bank, word: int)

  type Mem = map<Loc, int>

  /** A command: what it writes is a function of what it reads, and nothing else changes. */
  datatype Cmd = Cmd(engine: Engine, ins: set<Loc>, outs: set<Loc>, value: (Mem, Loc) -> int)

  datatype Step = Do(cmd: Cmd) | Sync(mask: nat)

  function View(m: Mem, locs: set<Loc>): Mem {
    map l | l in locs && l in m :: m[l]
  }

  function Apply(c: Cmd, m: Mem): Mem {
    m + map l | l in c.outs :: c.value(View(m, c.ins), l)
  }

  function Run(cs: seq<Cmd>, m: Mem): Mem {
    if cs == [] then m else Run(cs[1..], Apply(cs[0], m))
  }

  ghost predicate Independent(a: Cmd, b: Cmd) {
    a.outs !! b.outs && a.outs !! b.ins && a.ins !! b.outs
  }

  ghost predicate AllIndependent(xs: seq<Cmd>, ys: seq<Cmd>) {
    forall i, j :: 0 <= i < |xs| && 0 <= j < |ys| ==> Independent(xs[i], ys[j])
  }

  // ---------------------------------------------------------------- commuting

  lemma {:induction false} ApplyCommutes(a: Cmd, b: Cmd, m: Mem)
    requires Independent(a, b)
    ensures Apply(a, Apply(b, m)) == Apply(b, Apply(a, m))
  {
    assert View(Apply(b, m), a.ins) == View(m, a.ins);
    assert View(Apply(a, m), b.ins) == View(m, b.ins);
  }

  lemma {:induction false} RunConcat(xs: seq<Cmd>, ys: seq<Cmd>, m: Mem)
    ensures Run(xs + ys, m) == Run(ys, Run(xs, m))
  {
    if xs == [] {
      assert xs + ys == ys;
    } else {
      assert (xs + ys)[1..] == xs[1..] + ys;
      RunConcat(xs[1..], ys, Apply(xs[0], m));
    }
  }

  lemma {:induction false} PullToFront(xs: seq<Cmd>, c: Cmd, m: Mem)
    requires forall i :: 0 <= i < |xs| ==> Independent(xs[i], c)
    ensures Run(xs, Apply(c, m)) == Apply(c, Run(xs, m))
  {
    if xs != [] {
      ApplyCommutes(xs[0], c, m);
      PullToFront(xs[1..], c, Apply(xs[0], m));
    }
  }

  /** Two blocks of commands none of which touches what the other's write can be exchanged. */
  lemma {:induction false} BlocksCommute(xs: seq<Cmd>, ys: seq<Cmd>, m: Mem)
    requires AllIndependent(xs, ys)
    ensures Run(xs, Run(ys, m)) == Run(ys, Run(xs, m))
  {
    if ys != [] {
      PullToFront(xs, ys[0], m);
      BlocksCommute(xs, ys[1..], Apply(ys[0], m));
    }
  }

  // ---------------------------------------------------------------- completion orders

  /** The engine's bit of a FENCE mask (mask 0: all engines). */
  predicate Waits(mask: nat, e: Engine) {
    || mask == 0
    || match e
       case LD => mask % 2 == 1
       case ST => mask / 2 % 2 == 1
       case EX => mask / 4 % 2 == 1
       case VE => mask / 8 % 2 == 1
  }

  predicate IsCmd(steps: seq<Step>, p: int) {
    0 <= p < |steps| && steps[p].Do?
  }

  ghost predicate AllCmds(steps: seq<Step>, order: seq<int>) {
    forall i {:trigger order[i]} :: 0 <= i < |order| ==> IsCmd(steps, order[i])
  }

  ghost predicate Fenced(steps: seq<Step>, p: int, q: int)
    requires IsCmd(steps, p) && q <= |steps|
  {
    exists f :: p < f < q && steps[f].Sync? && Waits(steps[f].mask, steps[p].cmd.engine)
  }

  predicate OnLocal(l: Loc) {
    l.Local?
  }

  /** A local-memory hazard: the scoreboard keeps such a pair in list order. */
  ghost predicate LocalConflict(a: Cmd, b: Cmd) {
    exists l :: OnLocal(l) && ((l in a.outs && (l in b.outs || l in b.ins)) || (l in a.ins && l in b.outs))
  }

  ghost predicate MustPrecede(steps: seq<Step>, p: int, q: int)
    requires IsCmd(steps, p) && IsCmd(steps, q)
  {
    LocalConflict(steps[p].cmd, steps[q].cmd) || Fenced(steps, p, q)
  }

  ghost predicate Before(order: seq<int>, p: int, q: int) {
    exists i, j :: 0 <= i < j < |order| && order[i] == p && order[j] == q
  }

  ghost predicate Distinct(order: seq<int>) {
    forall i, j :: 0 <= i < j < |order| ==> order[i] != order[j]
  }

  /** An order in which the machine may complete the commands of a list. */
  ghost predicate CompletionOrder(steps: seq<Step>, order: seq<int>) {
    && Distinct(order) && AllCmds(steps, order)
    && (forall p :: IsCmd(steps, p) ==> p in order)
    && (forall p, q :: IsCmd(steps, p) && IsCmd(steps, q) && p < q && MustPrecede(steps, p, q) ==> Before(order, p, q))
  }

  function Commands(steps: seq<Step>): seq<Cmd> {
    if steps == [] then [] else (if steps[0].Do? then [steps[0].cmd] else []) + Commands(steps[1..])
  }

  ghost function Pick(steps: seq<Step>, order: seq<int>): (cs: seq<Cmd>)
    requires AllCmds(steps, order)
    ensures |cs| == |order|
    ensures forall i :: 0 <= i < |order| ==> cs[i] == steps[order[i]].cmd
  {
    if order == [] then [] else [steps[order[0]].cmd] + Pick(steps, order[1..])
  }

  /** Every two commands that conflict anywhere, DDR included, keep their list order. */
  ghost predicate Ordered(steps: seq<Step>) {
    forall p, q :: IsCmd(steps, p) && IsCmd(steps, q) && p < q && !Independent(steps[p].cmd, steps[q].cmd)
                   ==> MustPrecede(steps, p, q)
  }

  /** ys is a rearrangement of xs that keeps the order of every dependent pair. */
  ghost predicate Linearization(steps: seq<Step>, xs: seq<int>, ys: seq<int>) {
    && Distinct(xs) && Distinct(ys) && AllCmds(steps, xs) && AllCmds(steps, ys)
    && (forall p :: p in xs <==> p in ys)
    && (forall p, q :: p in xs && q in xs && Before(xs, p, q) && !Independent(steps[p].cmd, steps[q].cmd)
                       ==> Before(ys, p, q))
  }

  function Without<T>(xs: seq<T>, k: nat): (r: seq<T>)
    requires k < |xs|
    ensures |r| == |xs| - 1
    ensures forall i :: 0 <= i < |r| ==> r[i] == if i < k then xs[i] else xs[i+1]
  {
    xs[..k] + xs[k+1..]
  }

  lemma {:induction false} WithoutMembers(xs: seq<int>, k: nat, p: int)
    requires Distinct(xs) && k < |xs|
    ensures p in Without(xs, k) <==> p in xs && p != xs[k]
  {
    var r := Without(xs, k);
    if p in xs && p != xs[k] {
      var i :| 0 <= i < |xs| && xs[i] == p;
      assert r[if i < k then i else i - 1] == p;
    }
    if p in r {
      var i :| 0 <= i < |r| && r[i] == p;
      assert xs[if i < k then i else i + 1] == p;
    }
  }

  lemma {:induction false} WithoutBefore(xs: seq<int>, k: nat, p: int, q: int)
    requires k < |xs| && Before(Without(xs, k), p, q)
    ensures Before(xs, p, q)
  {
    var r := Without(xs, k);
    var i, j :| 0 <= i < j < |r| && r[i] == p && r[j] == q;
    assert xs[if i < k then i else i + 1] == p && xs[if j < k then j else j + 1] == q;
  }

  lemma {:induction false} BeforeInTail(ys: seq<int>, p: int, q: int)
    requires ys != [] && Before(ys, p, q) && p != ys[0]
    ensures Before(ys[1..], p, q)
  {
    var a, b :| 0 <= a < b < |ys| && ys[a] == p && ys[b] == q;
    assert ys[1..][a-1] == p && ys[1..][b-1] == q;
  }

  /** What precedes the first completed command in the list does not depend on it. */
  lemma {:induction false} FirstIsFree(steps: seq<Step>, xs: seq<int>, ys: seq<int>, k: nat, i: nat)
    requires Linearization(steps, xs, ys) && ys != [] && i < k < |xs| && xs[k] == ys[0]
    ensures Independent(steps[xs[i]].cmd, steps[xs[k]].cmd)
  {
    assert Before(xs, xs[i], xs[k]);
    assert xs[i] in xs && xs[k] in xs;
    assert !Before(ys, xs[i], ys[0]);
  }

  lemma {:induction false} DropFirst(steps: seq<Step>, xs: seq<int>, ys: seq<int>, k: nat)
    requires Linearization(steps, xs, ys) && ys != [] && k < |xs| && xs[k] == ys[0]
    ensures Linearization(steps, Without(xs, k), ys[1..])
  {
    var rest := Without(xs, k);
    assert ys[1..] == Without(ys, 0);
    forall p
      ensures p in rest <==> p in ys[1..]
    {
      WithoutMembers(xs, k, p);
      WithoutMembers(ys, 0, p);
    }
    forall p, q | p in rest && q in rest && Before(rest, p, q) && !Independent(steps[p].cmd, steps[q].cmd)
      ensures Before(ys[1..], p, q)
    {
      WithoutMembers(xs, k, p);
      WithoutMembers(xs, k, q);
      WithoutBefore(xs, k, p, q);
      BeforeInTail(ys, p, q);
    }
  }

  /** Running cs is running its k-th command first when nothing before it depends on it. */
  lemma {:induction false} RunPulled(cs: seq<Cmd>, k: nat, m: Mem)
    requires k < |cs| && forall i :: 0 <= i < k ==> Independent(cs[i], cs[k])
    ensures Run(cs, m) == Run(Without(cs, k), Apply(cs[k], m))
  {
    var c, u, v := cs[k], cs[..k], cs[k+1..];
    assert cs == u + ([c] + v);
    RunConcat(u, [c] + v, m);
    assert ([c] + v)[1..] == v;
    PullToFront(u, c, m);
    RunConcat(u, v, Apply(c, m));
  }

  lemma {:induction false} PickWithout(steps: seq<Step>, xs: seq<int>, k: nat)
    requires AllCmds(steps, xs) && k < |xs|
    ensures AllCmds(steps, Without(xs, k)) && Pick(steps, Without(xs, k)) == Without(Pick(steps, xs), k)
  {
  }

  lemma {:induction false} SomeMember(xs: seq<int>)
    ensures xs == [] || exists p :: p in xs
  {
    if xs != [] { var p := xs[0]; assert p in xs; }
  }

  lemma {:induction false} LinearizationsAgree(steps: seq<Step>, xs: seq<int>, ys: seq<int>, m: Mem)
    requires Linearization(steps, xs, ys)
    ensures Run(Pick(steps, xs), m) == Run(Pick(steps, ys), m)
    decreases |ys|
  {
    if ys == [] {
      SomeMember(xs);
    } else {
      assert ys[0] in ys;
      assert ys[0] in xs;
      var k :| 0 <= k < |xs| && xs[k] == ys[0];
      forall i | 0 <= i < k ensures Independent(steps[xs[i]].cmd, steps[xs[k]].cmd) {
        FirstIsFree(steps, xs, ys, k, i);
      }
      DropFirst(steps, xs, ys, k);
      PickWithout(steps, xs, k);
      RunPulled(Pick(steps, xs), k, m);
      LinearizationsAgree(steps, Without(xs, k), ys[1..], Apply(steps[xs[k]].cmd, m));
    }
  }

  /** The command positions of a list, in list order. */
  function Positions(steps: seq<Step>, n: nat): seq<int>
    requires n <= |steps|
  {
    if n == 0 then [] else Positions(steps, n - 1) + if steps[n-1].Do? then [n - 1] else []
  }

  lemma {:induction false} PositionsAreAll(steps: seq<Step>, n: nat)
    requires n <= |steps|
    ensures var ps := Positions(steps, n);
            && (forall i :: 0 <= i < |ps| ==> IsCmd(steps, ps[i]) && ps[i] < n)
            && (forall i, j :: 0 <= i < j < |ps| ==> ps[i] < ps[j])
            && (forall p :: IsCmd(steps, p) && p < n ==> p in ps)
  {
    if n > 0 {
      PositionsAreAll(steps, n - 1);
      var qs, ps := Positions(steps, n - 1), Positions(steps, n);
      forall p | IsCmd(steps, p) && p < n
        ensures p in ps
      {
        if p < n - 1 { assert p in qs; } else { assert ps[|ps|-1] == p; }
      }
    }
  }

  lemma {:induction false} CommandsConcat(xs: seq<Step>, ys: seq<Step>)
    ensures Commands(xs + ys) == Commands(xs) + Commands(ys)
  {
    if xs == [] {
      assert xs + ys == ys;
    } else {
      var first := if xs[0].Do? then [xs[0].cmd] else [];
      assert (xs + ys)[0] == xs[0] && (xs + ys)[1..] == xs[1..] + ys;
      CommandsConcat(xs[1..], ys);
      assert first + (Commands(xs[1..]) + Commands(ys)) == (first + Commands(xs[1..])) + Commands(ys);
    }
  }

  lemma {:induction false} PositionsAreCommands(steps: seq<Step>, n: nat)
    requires n <= |steps|
    ensures AllCmds(steps, Positions(steps, n)) && Pick(steps, Positions(steps, n)) == Commands(steps[..n])
  {
    PositionsAreAll(steps, n);
    if n > 0 {
      PositionsAreCommands(steps, n - 1);
      assert steps[..n] == steps[..n-1] + [steps[n-1]];
      CommandsConcat(steps[..n-1], [steps[n-1]]);
      assert Commands([steps[n-1]]) == if steps[n-1].Do? then [steps[n-1].cmd] else [];
    }
  }

  /** Whatever order the machine completes an ordered list in, memory ends as if the commands had
      run one after another in list order. */
  lemma {:induction false} EveryCompletionOrderAgrees(steps: seq<Step>, order: seq<int>, m: Mem)
    requires Ordered(steps) && CompletionOrder(steps, order)
    ensures Run(Pick(steps, order), m) == Run(Commands(steps), m)
  {
    var ps := Positions(steps, |steps|);
    assert steps[..|steps|] == steps;
    PositionsAreCommands(steps, |steps|);
    PositionsAreAll(steps, |steps|);
    forall p, q | p in ps && q in ps && Before(ps, p, q) && !Independent(steps[p].cmd, steps[q].cmd)
      ensures Before(order, p, q)
    {
      assert MustPrecede(steps, p, q);
    }
    LinearizationsAgree(steps, ps, order, m);
  }
}
