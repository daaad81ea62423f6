/** The ring makes progress: a submission with room is accepted, a served one is collected, and a wait for it
    ends (driver/pynq_matmul.py Device, compiler/runtime/sa/sa_transport_board.c). */
module RingLive {
  import opened Dyadic
  import opened Ring
  import opened RingSafe

  /** Three steps. */
  lemma {:induction false} RunThree(kind: Kind, s: State, a: Action, b: Action, c: Action)
    requires |s.ring| == |s.params| == |s.cpl| > 0
    ensures Run(kind, s, [a, b, c]) == Step(kind, Step(kind, Step(kind, s, a), b), c)
  {
    hide *;
    assert [a, b, c] == [a] + [b, c] && [b, c] == [b] + [c];
    RunCons(kind, s, a, [b, c]);
    RunCons(kind, Step(kind, s, a), b, [c]);
    RunLast(kind, Step(kind, Step(kind, s, a), b), c);
  }

  lemma {:induction false} RunLast(kind: Kind, s: State, a: Action)
    requires |s.ring| == |s.params| == |s.cpl| > 0
    ensures Run(kind, s, [a]) == Step(kind, s, a)
  {
    hide Step;
    assert [a][1..] == [];
  }

  /** A submission is accepted exactly when it has room: on the Device, when fewer submissions than slots are
      not yet collected; on the board always. A refused one changes nothing. */
  lemma {:induction false} SubmitsIff(kind: Kind, s: State, item: Item)
    requires |s.ring| == |s.params| == |s.cpl| > 0 && !s.failed && s.host == Ready && (kind == Board ==> Plain(item))
    ensures var t := Run(kind, s, [Fill(item), Write, Doorbell]);
            if kind == Board || |s.posted| < s.collected + |s.ring| then
              && t.posted == s.posted + [item] && t.tailBox == (|s.posted| + 1) % 0x1_0000_0000
              && t.host == (if kind == Device then Ready else Waiting)
              && t.ran == s.ran && t.served == s.served && t.collected == s.collected && t.fw == s.fw && !t.failed
            else t == s
  {
    hide EntryFor, HostSlot;
    RunThree(kind, s, Fill(item), Write, Doorbell);
  }

  /** The board's wait ends exactly when its own submission has been served, with that one's record. */
  lemma {:induction false} WaitEndsIff(s: State, k: nat)
    requires Inv(Board, s, k) && s.host == Waiting
    ensures |s.ring| == |s.params| == |s.cpl| > 0
    ensures var t, n := Step(Board, s, Read), |s.posted|;
            if s.served == n then
              n > 0 && n <= |s.ran| && t.host == Ready && n - 1 in t.got
              && t.got[n - 1] == Record((n - 1) % 0x1_0000_0000, s.ran[n - 1].outcome)
            else t == s
  {
    Nonempty(Board, s, k);
    if s.served == |s.posted| {
      CaughtUp(s, k);
      ReadGives(Board, s, k);
      SizedNonempty(s, k);
      NoFirmwareRead(s);
    } else {
      if HostStep(Board, s, Read).Some? { ReadGives(Board, s, k); }
      NoFirmwareRead(s);
    }
  }

  lemma {:induction false} NoFirmwareRead(s: State)
    requires |s.ring| == |s.params| == |s.cpl| > 0 && !s.failed
    ensures Step(Board, s, Read) == match HostStep(Board, s, Read) case Some(t) => t case None => s
  {
    hide HostStep;
  }

  lemma {:induction false} CaughtUp(s: State, k: nat)
    requires Inv(Board, s, k) && s.host == Waiting && s.served == |s.posted|
    ensures |s.ring| == |s.params| == |s.cpl| > 0 && HostStep(Board, s, Read).Some?
  {
    hide Pow2, Entries, Blocks, Records, RanAsPosted, Delivered, Serving, AllPlain;
    SignedTells(s.served, |s.posted|);
  }

  // ---------------------------------------------------------------- the Device's collection

  function Takes(n: nat): seq<Action> {
    if n == 0 then [] else [Take] + Takes(n - 1)
  }

  lemma {:induction false} LookStep(s: State, k: nat)
    requires Inv(Device, s, k) && s.host == Ready
    ensures |s.ring| == |s.params| == |s.cpl| > 0
    ensures var t := Step(Device, s, Look);
            && Inv(Device, t, k) && t == s.(host := Collecting(s.served))
  {
    Nonempty(Device, s, k);
    StepKeeps(Device, s, Look, k);
    hide Pow2, Entries, Blocks, Records, RanAsPosted, Delivered, Serving, AllPlain;
  }

  lemma {:induction false} TakeStep(s: State, k: nat, limit: nat)
    requires Inv(Device, s, k) && s.host == Collecting(limit) && s.collected < limit
    ensures |s.ring| == |s.params| == |s.cpl| > 0
    ensures var t := Step(Device, s, Take);
            && Inv(Device, t, k) && t.host == s.host && t.collected == s.collected + 1
            && t.posted == s.posted && t.served == s.served && t.ran == s.ran
  {
    Nonempty(Device, s, k);
    StepKeeps(Device, s, Take, k);
    var t := Step(Device, s, Take);
    NotFailed(t, k);
    hide Inv;
  }

  lemma {:induction false} NotFailed(t: State, k: nat)
    requires Inv(Device, t, k)
    ensures !t.failed
  {
    Nonempty(Device, t, k);
  }

  lemma {:induction false} LeaveStep(s: State, k: nat, limit: nat)
    requires Inv(Device, s, k) && s.host == Collecting(limit) && s.collected == limit
    ensures |s.ring| == |s.params| == |s.cpl| > 0
    ensures var t := Step(Device, s, Leave); Inv(Device, t, k) && t == s.(host := Ready)
  {
    Nonempty(Device, s, k);
    StepKeeps(Device, s, Leave, k);
    hide Inv;
  }

  lemma {:induction false} TakesAll(s: State, k: nat, limit: nat)
    requires Inv(Device, s, k) && s.host == Collecting(limit) && s.collected <= limit
    ensures |s.ring| == |s.params| == |s.cpl| > 0
    ensures var t := Run(Device, s, Takes(limit - s.collected) + [Leave]);
            && Inv(Device, t, k) && t.host == Ready && t.collected == limit
            && t.posted == s.posted && t.served == s.served && t.ran == s.ran
    decreases limit - s.collected
  {
    hide *;
    Nonempty(Device, s, k);
    if s.collected == limit {
      NoTakes();
      LeaveStep(s, k, limit);
      RunLast(Device, s, Leave);
    } else {
      TakeStep(s, k, limit);
      var t := Step(Device, s, Take);
      TakesAll(t, k, limit);
      OneTake(limit - s.collected);
      assert [Take] + Takes(limit - t.collected) + [Leave] == [Take] + (Takes(limit - t.collected) + [Leave]);
      RunCons(Device, s, Take, Takes(limit - t.collected) + [Leave]);
    }
  }

  lemma {:induction false} NoTakes()
    ensures Takes(0) + [Leave] == [Leave]
  {
  }

  lemma {:induction false} OneTake(n: nat)
    requires n > 0
    ensures Takes(n) == [Take] + Takes(n - 1)
  {
  }

  /** Looking and taking, the Device collects everything served so far, each with its own record, so that
      a served submission's slot is free again. */
  lemma {:induction false} CollectsAll(s: State, k: nat)
    requires Inv(Device, s, k) && s.host == Ready
    ensures |s.ring| == |s.params| == |s.cpl| > 0 && s.collected <= s.served
    ensures var t := Run(Device, s, [Look] + (Takes(s.served - s.collected) + [Leave]));
            && t.host == Ready && t.collected == s.served && t.posted == s.posted && t.ran == s.ran
            && forall i: nat :: i < s.served ==>
                 i < |s.ran| && i in t.got && t.got[i] == Record(i % 0x1_0000_0000, s.ran[i].outcome)
  {
    hide *;
    Nonempty(Device, s, k);
    LookStep(s, k);
    InOrder(s, k);
    var t := Step(Device, s, Look);
    TakesAll(t, k, s.served);
    RunCons(Device, s, Look, Takes(s.served - s.collected) + [Leave]);
    GotAll(Run(Device, t, Takes(s.served - s.collected) + [Leave]), k);
  }

  lemma {:induction false} InOrder(s: State, k: nat)
    requires Inv(Device, s, k)
    ensures s.collected <= s.served <= |s.ran|
  {
    hide Pow2, Entries, Blocks, Records, RanAsPosted, Delivered, Serving, AllPlain;
  }

  lemma {:induction false} GotAll(t: State, k: nat)
    requires Inv(Device, t, k)
    ensures forall i: nat :: i < t.collected ==>
              i < |t.ran| && i in t.got && t.got[i] == Record(i % 0x1_0000_0000, t.ran[i].outcome)
  {
    InOrder(t, k);
    hide Pow2, Entries, Blocks, Records, RanAsPosted, Serving, AllPlain, Counts;
  }
}
