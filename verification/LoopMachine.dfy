/** Descriptor lists with LOOP_END and PARAM registers (llm/sa_funcsim.py, run_list): the flat list
    with its loop stack against the structured program it stands for. */
module LoopMachine {
  import opened Options
  import opened Dyadic

  const M32 := 0x1_0000_0000
  const LOOP_DEPTH := 2
  const COUNT := 0x1_0000          // the count field has 16 bits

  /** What a command does, without its DDR address. */
  datatype Op =
    | Ld(mem: nat, word: nat, rows: nat, rowBytes: nat)
    | St(word: nat, rows: nat, rowBytes: nat, pitch: nat)
    | Ex(a: nat, b: nat, c: nat, kt: nat, repeat: nat, bstep: nat, cstep: nat, crow: nat)
    | Ve(src1: nat, src2: nat, dst: nat, groups: nat, ints: bool, byMod: bool, period: nat)

  /** A descriptor; a command's DDR address may have a PARAM added to it. */
  datatype Desc =
    | Command(op: Op, ddr: nat, param: Option<nat>)
    | SetParam(k: nat, value: nat)
    | LoopEnd(back: nat, count: nat, k1: nat, s1: nat, k2: nat, s2: nat)

  /** A command as the engines see it. */
  datatype Effective = Effective(op: Op, ddr: nat)

  type Params = seq<nat>

  function Bump(p: Params, k: nat, s: nat): (q: Params)
    ensures |q| == |p|
  {
    if k < |p| then p[k := (p[k] + s) % M32] else p
  }

  function Advance(p: Params, d: Desc): (q: Params)
    requires d.LoopEnd?
    ensures |q| == |p|
  {
    Bump(Bump(p, d.k1, d.s1), d.k2, d.s2)
  }

  function Apply(p: Params, d: Desc): Effective
    requires d.Command?
  {
    match d.param
    case None => Effective(d.op, d.ddr % M32)
    case Some(k) => Effective(d.op, (d.ddr + if k < |p| then p[k] else 0) % M32)
  }

  // ---------------------------------------------------------------- the interpreter

  /** An open loop: its LOOP_END and the iterations left. */
  datatype Open = Open(at: nat, left: nat)

  datatype State = State(pc: nat, params: Params, loops: seq<Open>, trace: seq<Effective>)

  /** The count field as the machine reads it. (From 2^16 on the driver's encoder also spills the count
      into the fields of k1 and k2, pynq_matmul.py:276; that changes addresses, not the number of commands
      that run, which is all that is used of such a list.) */
  function Iterations(count: nat): nat {
    count % COUNT
  }

  /** One descriptor; None when the list is illegal. */
  function Step(list: seq<Desc>, s: State): Option<State>
    requires s.pc < |list|
  {
    var d := list[s.pc];
    match d
    case Command(_, _, _) => Some(s.(pc := s.pc + 1, trace := s.trace + [Apply(s.params, d)]))
    case SetParam(k, v) => Some(s.(pc := s.pc + 1,
      params := if k < |s.params| then s.params[k := v % M32] else s.params))
    case LoopEnd(back, count, _, _, _, _) =>
      var n := |s.loops|;
      var again := n > 0 && s.loops[n - 1].at == s.pc;
      var cnt := Iterations(count);
      if cnt == 0 || (!again && n == LOOP_DEPTH) || back > s.pc then None
      else
        var left := if again then s.loops[n - 1].left else cnt;
        var outer := if again then s.loops[..n - 1] else s.loops;
        var t := s.(params := Advance(s.params, d));
        if left > 1 then Some(t.(pc := s.pc - back, loops := outer + [Open(s.pc, left - 1)]))
        else Some(t.(pc := s.pc + 1, loops := outer))
  }

  /** n descriptors. */
  function Steps(list: seq<Desc>, s: State, n: nat): Option<State>
    decreases n
  {
    if n == 0 then Some(s)
    else if s.pc >= |list| then None
    else match Step(list, s) case None => None case Some(t) => Steps(list, t, n - 1)
  }

  lemma {:induction false} StepsBoth(list: seq<Desc>, s: State, m: nat, n: nat)
    requires Steps(list, s, m).Some?
    ensures Steps(list, s, m + n) == Steps(list, Steps(list, s, m).value, n)
    decreases m
  {
    hide Step;
    if m > 0 { StepsBoth(list, Step(list, s).value, m - 1, n); }
  }

  lemma {:induction false} OneStep(list: seq<Desc>, s: State)
    requires s.pc < |list|
    ensures Steps(list, s, 1) == Step(list, s)
  {
    hide Step;
    if Step(list, s).Some? {
      var t := Step(list, s).value;
      assert Steps(list, t, 0) == Some(t);
    }
  }

  // ---------------------------------------------------------------- structured programs

  datatype Prog =
    | Skip
    | Do(d: Desc)
    | Then(first: Prog, second: Prog)
    | Loop(body: Prog, count: nat, k1: nat, s1: nat, k2: nat, s2: nat)

  function Depth(p: Prog): nat {
    match p
    case Skip => 0
    case Do(_) => 0
    case Then(a, b) => if Depth(a) > Depth(b) then Depth(a) else Depth(b)
    case Loop(b, _, _, _, _, _) => 1 + Depth(b)
  }

  predicate Wellformed(p: Prog) {
    match p
    case Skip => true
    case Do(d) => !d.LoopEnd?
    case Then(a, b) => Wellformed(a) && Wellformed(b)
    case Loop(b, count, _, _, _, _) => Wellformed(b) && 0 < Iterations(count)
  }

  /** The flat list: a loop's body, then a LOOP_END that jumps back over it. */
  function Flat(p: Prog): seq<Desc> {
    match p
    case Skip => []
    case Do(d) => [d]
    case Then(a, b) => Flat(a) + Flat(b)
    case Loop(b, count, k1, s1, k2, s2) => Flat(b) + [LoopEnd(|Flat(b)|, count, k1, s1, k2, s2)]
  }

  datatype Meaning = Meaning(trace: seq<Effective>, params: Params)

  /** A loop's body as often as the count field says, the PARAMs advanced after each. */
  function Run(p: Prog, params: Params): (r: Meaning)
    ensures |r.params| == |params|
    decreases p, 0
  {
    match p
    case Skip => Meaning([], params)
    case Do(d) =>
      (match d
       case Command(_, _, _) => Meaning([Apply(params, d)], params)
       case SetParam(k, v) => Meaning([], if k < |params| then params[k := v % M32] else params)
       case LoopEnd(_, _, _, _, _, _) => Meaning([], params))
    case Then(a, b) =>
      var r := Run(a, params);
      var t := Run(b, r.params);
      Meaning(r.trace + t.trace, t.params)
    case Loop(b, count, k1, s1, k2, s2) => Times(b, Iterations(count), k1, s1, k2, s2, params)
  }

  function Times(b: Prog, n: nat, k1: nat, s1: nat, k2: nat, s2: nat, params: Params): (r: Meaning)
    ensures |r.params| == |params|
    decreases b, n
  {
    if n == 0 then Meaning([], params)
    else
      var r := Run(b, params);
      var t := Times(b, n - 1, k1, s1, k2, s2, Bump(Bump(r.params, k1, s1), k2, s2));
      Meaning(r.trace + t.trace, t.params)
  }

  /** The code of p stands in the list at a. */
  predicate Stands(list: seq<Desc>, a: nat, p: Prog) {
    a + |Flat(p)| <= |list| && list[a..a + |Flat(p)|] == Flat(p)
  }

  /** No open loop closes inside the code of p at a. */
  predicate Outside(loops: seq<Open>, a: nat, p: Prog) {
    forall i :: 0 <= i < |loops| ==> loops[i].at < a || loops[i].at >= a + |Flat(p)|
  }

  lemma {:induction false} StandsParts(list: seq<Desc>, a: nat, p: Prog, q: Prog)
    requires Stands(list, a, Then(p, q))
    ensures Stands(list, a, p) && Stands(list, a + |Flat(p)|, q)
  {
    var m, n := |Flat(p)|, |Flat(q)|;
    assert list[a..a + m] == list[a..a + (m + n)][..m];
    assert list[a + m..a + m + n] == list[a..a + (m + n)][m..];
  }

  lemma {:induction false} StandsBody(list: seq<Desc>, a: nat, p: Prog)
    requires p.Loop? && Stands(list, a, p)
    ensures Stands(list, a, p.body)
    ensures var m := |Flat(p.body)|;
            a + m < |list| && list[a + m] == LoopEnd(m, p.count, p.k1, p.s1, p.k2, p.s2)
  {
    var m := |Flat(p.body)|;
    var code := list[a..a + (m + 1)];
    assert code[m] == list[a + m];
    assert list[a..a + m] == code[..m];
  }

  /** Where the interpreter is after the code of p, and what it has done. */
  function After(s: State, p: Prog): State {
    var r := Run(p, s.params);
    s.(pc := s.pc + |Flat(p)|, params := r.params, trace := s.trace + r.trace)
  }

  lemma {:induction false} DoRuns(list: seq<Desc>, s: State, d: Desc)
    requires Stands(list, s.pc, Do(d)) && !d.LoopEnd?
    ensures Steps(list, s, 1) == Some(After(s, Do(d)))
  {
    assert list[s.pc] == list[s.pc..s.pc + 1][0] == d;
    OneStep(list, s);
    assert s.trace + [] == s.trace;
  }

  /** The interpreter executes the flat form of a program as the program says, in any surroundings
      with room on the loop stack; LOOP_END runs its body exactly count times. */
  lemma {:induction false} FlatRuns(list: seq<Desc>, s: State, p: Prog) returns (n: nat)
    requires Wellformed(p) && Stands(list, s.pc, p) && Outside(s.loops, s.pc, p) && |s.loops| + Depth(p) <= LOOP_DEPTH
    ensures Steps(list, s, n) == Some(After(s, p))
    decreases p, 0
  {
    hide Step;
    match p
    case Skip =>
      n := 0;
      assert s.trace + [] == s.trace;
    case Do(d) =>
      n := 1;
      DoRuns(list, s, d);
    case Then(a, b) =>
      StandsParts(list, s.pc, a, b);
      hide Steps, After, Stands;
      var i := FlatRuns(list, s, a);
      var t := After(s, a);
      assert t.pc == s.pc + |Flat(a)| && t.loops == s.loops by { AfterAt(s, a); }
      var j := FlatRuns(list, t, b);
      n := i + j;
      StepsBoth(list, s, i, j);
      ThenAfter(s, a, b);
    case Loop(b, count, k1, s1, k2, s2) =>
      StandsBody(list, s.pc, p);
      n := LoopRuns(list, s, s.loops, p, Iterations(count));
  }

  lemma {:induction false} AfterAt(s: State, p: Prog)
    ensures After(s, p).pc == s.pc + |Flat(p)| && After(s, p).loops == s.loops
  {
  }

  lemma {:induction false} ThenAfter(s: State, a: Prog, b: Prog)
    ensures After(After(s, a), b) == After(s, Then(a, b))
  {
    var r := Run(a, s.params);
    var t := Run(b, r.params);
    assert (s.trace + r.trace) + t.trace == s.trace + (r.trace + t.trace);
  }

  /** The last left iterations of a loop, its entry on the stack from the second iteration on. */
  lemma {:induction false} LoopRuns(list: seq<Desc>, s: State, outer: seq<Open>, p: Prog, left: nat) returns (n: nat)
    requires p.Loop? && Wellformed(p) && Stands(list, s.pc, p) && Outside(outer, s.pc, p)
    requires |outer| + Depth(p) <= LOOP_DEPTH && 0 < left <= Iterations(p.count)
    requires s.loops == if left == Iterations(p.count) then outer else outer + [Open(s.pc + |Flat(p.body)|, left)]
    ensures var r := Times(p.body, left, p.k1, p.s1, p.k2, p.s2, s.params);
            Steps(list, s, n) == Some(State(s.pc + |Flat(p)|, r.params, outer, s.trace + r.trace))
    decreases p.body, left
  {
    hide Steps, Run, Step, Stands, Times, Bump, Iterations;
    StandsBody(list, s.pc, p);
    var m := |Flat(p.body)|;
    var i := FlatRuns(list, s, p.body);
    var r := Run(p.body, s.params);
    var t := State(s.pc + m, r.params, s.loops, s.trace + r.trace);
    assert Steps(list, s, i) == Some(t);
    LoopStep(list, t, outer, p, left);
    var u := Step(list, t).value;
    TimesStep(p, left, s.params);
    var j := 0;
    if left > 1 {
      j := LoopRuns(list, u, outer, p, left - 1);
    } else {
      NoSteps(list, u);
      Concat(s.trace, r.trace, []);
    }
    n := i + 1 + j;
    Chain(list, s, t, i, j);
    Concat(s.trace, r.trace, Times(p.body, left - 1, p.k1, p.s1, p.k2, p.s2, u.params).trace);
  }

  lemma {:induction false} NoSteps(list: seq<Desc>, s: State)
    ensures Steps(list, s, 0) == Some(s)
  {
  }

  /** i descriptors, one more, then j. */
  lemma {:induction false} Chain(list: seq<Desc>, s: State, t: State, i: nat, j: nat)
    requires Steps(list, s, i) == Some(t) && t.pc < |list| && Step(list, t).Some?
    ensures Steps(list, s, i + 1 + j) == Steps(list, Step(list, t).value, j)
  {
    hide Step, Steps;
    StepsBoth(list, s, i, 1);
    OneStep(list, t);
    StepsBoth(list, s, i + 1, j);
  }

  lemma {:induction false} Concat(a: seq<Effective>, b: seq<Effective>, c: seq<Effective>)
    ensures (a + b) + c == a + (b + c) && (a + b) + [] == a + b
  {
  }

  lemma {:induction false} TimesStep(p: Prog, n: nat, params: Params)
    requires p.Loop? && n > 0
    ensures var r := Run(p.body, params);
            var t := Times(p.body, n - 1, p.k1, p.s1, p.k2, p.s2, Bump(Bump(r.params, p.k1, p.s1), p.k2, p.s2));
            Times(p.body, n, p.k1, p.s1, p.k2, p.s2, params) == Meaning(r.trace + t.trace, t.params)
    ensures var r := Run(p.body, params);
            var last := Meaning(r.trace + [], Bump(Bump(r.params, p.k1, p.s1), p.k2, p.s2));
            n == 1 ==> Times(p.body, n, p.k1, p.s1, p.k2, p.s2, params) == last
  {
  }

  lemma {:induction false} DropLast(a: seq<Open>, x: Open)
    ensures (a + [x])[..|a + [x]| - 1] == a && (a + [x])[|a + [x]| - 1] == x
  {
  }

  /** What LOOP_END does to the machine, given whether its loop is open and the iterations left. */
  lemma {:induction false} LoopStepIs(list: seq<Desc>, t: State, outer: seq<Open>, again: bool, left: nat)
    requires t.pc < |list| && list[t.pc].LoopEnd? && t.pc >= list[t.pc].back && Iterations(list[t.pc].count) > 0
    requires again == (|t.loops| > 0 && t.loops[|t.loops| - 1].at == t.pc) && (again || |t.loops| < LOOP_DEPTH)
    requires outer == (if again then t.loops[..|t.loops| - 1] else t.loops)
    requires left == (if again then t.loops[|t.loops| - 1].left else Iterations(list[t.pc].count))
    ensures var q := Advance(t.params, list[t.pc]);
            Step(list, t) == Some(if left > 1 then
              State(t.pc - list[t.pc].back, q, outer + [Open(t.pc, left - 1)], t.trace)
                                  else State(t.pc + 1, q, outer, t.trace))
  {
    hide Iterations, Advance;
  }

  /** LOOP_END after an iteration: back to the body while iterations are left. */
  lemma {:induction false} LoopStep(list: seq<Desc>, t: State, outer: seq<Open>, p: Prog, left: nat)
    requires p.Loop? && 0 < left <= Iterations(p.count) && |outer| < LOOP_DEPTH
    requires t.pc < |list| && list[t.pc] == LoopEnd(|Flat(p.body)|, p.count, p.k1, p.s1, p.k2, p.s2)
             && t.pc >= |Flat(p.body)|
    requires forall i :: 0 <= i < |outer| ==> outer[i].at != t.pc
    requires t.loops == if left == Iterations(p.count) then outer else outer + [Open(t.pc, left)]
    ensures var q := Bump(Bump(t.params, p.k1, p.s1), p.k2, p.s2);
            Step(list, t) == Some(if left > 1 then
              State(t.pc - |Flat(p.body)|, q, outer + [Open(t.pc, left - 1)], t.trace)
                                  else State(t.pc + 1, q, outer, t.trace))
  {
    hide Flat, Bump, Iterations, Step;
    if left == Iterations(p.count) {
      LoopStepIs(list, t, outer, false, left);
    } else {
      DropLast(outer, Open(t.pc, left));
      LoopStepIs(list, t, outer, true, left);
    }
  }

  /** A whole list from its start, with an empty loop stack. */
  lemma {:induction false} ListRuns(p: Prog, params: Params) returns (n: nat)
    requires Wellformed(p) && Depth(p) <= LOOP_DEPTH
    ensures var r := Run(p, params);
            Steps(Flat(p), State(0, params, [], []), n) == Some(State(|Flat(p)|, r.params, [], r.trace))
  {
    var list := Flat(p);
    assert list[0..0 + |list|] == list;
    n := FlatRuns(list, State(0, params, [], []), p);
    assert [] + Run(p, params).trace == Run(p, params).trace;
  }

  /** The interpreter stops at the end of the list. */
  lemma {:induction false} EndIsLast(list: seq<Desc>, s: State, n: nat, m: nat)
    requires Steps(list, s, n).Some? && Steps(list, s, n).value.pc == |list| && Steps(list, s, m).Some?
    ensures m <= n
  {
    if m > n { StepsBoth(list, s, n, m - n); }
  }
}
