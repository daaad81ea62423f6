/** What every interleaving of host and firmware steps keeps. */
module RingSafe {
  import opened Options
  import opened Dyadic
  import opened Ring

  ghost predicate Sized(s: State, k: nat) {
    k <= 31 && |s.ring| == |s.params| == |s.cpl| == Pow2(k)
  }

  /** The firmware has read all it needs of the entry it serves. */
  predicate HasRead(s: State) {
    s.fw.Loaded? || s.fw.Executed? || s.fw.Recorded? || s.fw.Stamped?
  }

  /** The first submission whose entry is still to be read. */
  function Unread(s: State): nat {
    s.served + if HasRead(s) then 1 else 0
  }

  /** How far the tail may go: size submissions unserved, on the board one more once the entry being
      served has been read, unless the signed comparison could not tell them apart. */
  function Bound(kind: Kind, s: State): nat {
    s.served + |s.ring| + if kind == Board && HasRead(s) && |s.ring| < 0x8000_0000 then 1 else 0
  }

  /** collected <= head <= tail <= collected + size on the Device; on the board tail <= Bound. The
      mailboxes hold the counts modulo 2^32. */
  predicate Counts(kind: Kind, s: State)
    requires |s.ring| > 0
  {
    var n, size := |s.posted|, |s.ring|;
    && !s.failed && s.collected <= s.served <= n <= Bound(kind, s)
    && s.tailBox == Wrap(n) && s.headBox == s.fwHead == Wrap(s.served)
    && |s.ran| == s.served + (if s.fw.Executed? || s.fw.Recorded? || s.fw.Stamped? then 1 else 0)
    && (kind == Device ==> n < M32 && n <= s.collected + size && s.host != Waiting)
    && (s.host.Collecting? ==> kind == Device && s.host.limit <= s.served)
    && (s.host == Waiting ==> n > 0)
    && (s.host.Filled? || s.host.Written? ==> n < Bound(kind, s))
    && (kind == Device && (s.host.Filled? || s.host.Written?) ==> n < s.collected + size && n + 1 < M32)
    && (!s.fw.Idle? && !s.fw.Stopped? ==> s.served < n)
  }

  predicate Plain(item: Item) {
    item.params == None && !item.exit
  }

  /** The board's submissions have no parameters and do not end the firmware. */
  predicate AllPlain(kind: Kind, s: State) {
    kind == Board ==>
      && (forall i :: 0 <= i < |s.posted| ==> Plain(s.posted[i]))
      && (s.host.Filled? || s.host.Written? ==> Plain(s.host.item))
      && s.fw != Stopped
  }

  /** Slot of index i. */
  function At(i: nat, size: nat): (slot: nat)
    requires size > 0
    ensures slot < size
  {
    i % size
  }

  /** The entry of every submission still to be read is in its slot. */
  predicate Entries(kind: Kind, s: State)
    requires |s.ring| > 0
  {
    var size := |s.ring|;
    && (forall i :: Unread(s) <= i < |s.posted| ==> s.ring[At(i, size)] == EntryFor(kind, s.posted[i], i, size))
    && (s.host.Written? ==> s.ring[At(|s.posted|, size)] == EntryFor(kind, s.host.item, |s.posted|, size))
  }

  predicate HasBlock(params: seq<int>, item: Item, slot: nat)
    requires slot < |params|
  {
    item.params.Some? ==> params[slot] == item.params.value
  }

  /** So is its parameter block. */
  predicate Blocks(s: State)
    requires |s.ring| == |s.params| > 0
  {
    var size := |s.ring|;
    && (forall i :: Unread(s) <= i < |s.posted| ==> HasBlock(s.params, s.posted[i], At(i, size)))
    && (s.host.Filled? || s.host.Written? ==> HasBlock(s.params, s.host.item, At(|s.posted|, size)))
  }

  /** The record of every served submission whose slot has not come round again is in its slot. */
  predicate Records(s: State)
    requires |s.ring| == |s.cpl| > 0 && s.served <= |s.ran|
  {
    var size := |s.ring|;
    forall i: nat :: i < s.served && i + size >= |s.posted| ==> s.cpl[At(i, size)] == Record(Wrap(i), s.ran[i].outcome)
  }

  /** What ran is what was posted, in order, each with its own parameters. */
  predicate RanAsPosted(s: State) {
    && |s.ran| <= |s.posted|
    && forall j :: 0 <= j < |s.ran| ==> s.ran[j].work == s.posted[j].work && s.ran[j].params == s.posted[j].params
  }

  /** What the host has collected is what the submissions gave. */
  ghost predicate Delivered(kind: Kind, s: State)
    requires s.served <= |s.ran|
  {
    && (forall i :: i in s.got ==> i < s.served && s.got[i] == Record(Wrap(i), s.ran[i].outcome))
    && (kind == Device ==> forall i: nat :: i in s.got <==> i < s.collected)
  }

  /** What the firmware holds in its registers belongs to the submission it serves. */
  predicate Serving(kind: Kind, s: State)
    requires |s.ring| == |s.cpl| > 0 && s.served <= |s.ran|
  {
    var size, i := |s.ring|, s.served;
    match s.fw
    case Idle => true
    case Stopped => true
    case Fetched(h) => i < |s.posted| && h == HeaderFor(s.posted[i], i)
    case Loaded(h, w, p) =>
      i < |s.posted| && h == HeaderFor(s.posted[i], i) && w == s.posted[i].work && p == s.posted[i].params
    case Executed(h, o) => i < |s.posted| && i < |s.ran| && h == HeaderFor(s.posted[i], i) && o == s.ran[i].outcome
    case Recorded(h) =>
      i < |s.posted| && i < |s.ran| && h == HeaderFor(s.posted[i], i) && s.cpl[At(i, size)].outcome == s.ran[i].outcome
    case Stamped(h) =>
      i < |s.posted| && i < |s.ran| && h == HeaderFor(s.posted[i], i)
      && s.cpl[At(i, size)] == Record(Wrap(i), s.ran[i].outcome)
  }

  function HeaderFor(item: Item, i: nat): Header {
    Header(Wrap(i), item.exit)
  }

  ghost predicate Inv(kind: Kind, s: State, k: nat) {
    && Sized(s, k) && Counts(kind, s) && Entries(kind, s) && Blocks(s) && Records(s)
    && RanAsPosted(s) && Delivered(kind, s) && Serving(kind, s) && AllPlain(kind, s)
  }

  // ---------------------------------------------------------------- slots

  lemma {:induction false} SlotsDiffer(i: nat, j: nat, size: nat)
    requires i < j < i + size
    ensures At(i, size) != At(j, size)
  {
    var q, r := Divide(i, size);
    if At(i, size) == At(j, size) {
      var p, t := Divide(j, size);
      SumTimes(p, q, size);
      MulGap(p - q, size);
    }
  }

  /** Writing the slot of index n leaves those of the up to size - 1 indices before it alone. */
  lemma {:induction false} OtherSlots(n: nat, size: nat)
    requires size > 0
    ensures forall i: nat :: n - size < i < n ==> At(i, size) != At(n, size)
  {
    forall i: nat | n - size < i < n ensures At(i, size) != At(n, size) { SlotsDiffer(i, n, size); }
  }

  lemma {:induction false} SlotIs(kind: Kind, s: State, k: nat, n: nat)
    requires Sized(s, k)
    ensures HostSlot(kind, n, |s.ring|) == At(n, |s.ring|) == Wrap(n) % |s.ring|
  {
    SlotsAgree(kind, n, k);
  }

  // ---------------------------------------------------------------- host steps

  /** When a submission may start. On the Device: fewer than 2^32 submissions in all (it checks for room
      itself). On the board, which checks nothing: the tail stays within Bound. */
  predicate MayPost(kind: Kind, s: State, a: Action) {
    a.Fill? && s.host == Ready ==> if kind == Device then |s.posted| + 1 < M32 else |s.posted| < Bound(kind, s)
  }

  lemma {:induction false} LookKeeps(kind: Kind, s: State, a: Action, k: nat)
    requires Inv(kind, s, k) && HostStep(kind, s, a).Some? && (a.Look? || a.Leave?)
    ensures Inv(kind, HostStep(kind, s, a).value, k)
  {
    hide Pow2, EntryFor, At;
  }

  lemma {:induction false} TakeKeeps(kind: Kind, s: State, k: nat)
    requires Inv(kind, s, k) && HostStep(kind, s, Take).Some?
    ensures Inv(kind, HostStep(kind, s, Take).value, k)
  {
    hide Pow2, EntryFor;
    var i, t := s.collected, HostStep(kind, s, Take).value;
    assert s.cpl[At(i, |s.ring|)] == Record(Wrap(i), s.ran[i].outcome);
    assert t == s.(collected := i + 1, got := s.got[i := s.cpl[At(i, |s.ring|)]]);
    hide HostStep, At;
    assert Delivered(kind, t);
  }

  /** The board's wait ends only when its submission is served. */
  lemma {:induction false} ReadWaits(kind: Kind, s: State, k: nat)
    requires Sized(s, k) && Counts(kind, s) && HostStep(kind, s, Read).Some?
    ensures |s.posted| > 0 && s.served == |s.posted| && kind == Board && s.host == Waiting
  {
    Pow2Order(k, 31);
    Pow2Values();
    hide Pow2;
    SignedTells(s.served, |s.posted|);
  }

  /** The board then reads its own record. */
  lemma {:induction false} ReadGives(kind: Kind, s: State, k: nat)
    requires Inv(kind, s, k) && HostStep(kind, s, Read).Some?
    ensures var n := |s.posted|;
            && n > 0 && s.served == n && (s.fw == Idle || s.fw == Stopped) && kind == Board
            && s.cpl[At(n - 1, |s.ring|)] == Record(Wrap(n - 1), s.ran[n - 1].outcome)
            && HostStep(kind, s, Read).value
            == s.(host := Ready, collected := n, got := s.got[n - 1 := s.cpl[At(n - 1, |s.ring|)]])
  {
    hide Pow2, EntryFor, Delivered, Entries, Blocks, RanAsPosted, Serving, Signed;
    var n := |s.posted|;
    ReadWaits(kind, s, k);
    SlotIs(kind, s, k, n - 1);
    assert s.cpl[At(n - 1, |s.ring|)] == Record(Wrap(n - 1), s.ran[n - 1].outcome);
  }

  lemma {:induction false} ReadKeeps(kind: Kind, s: State, k: nat)
    requires Inv(kind, s, k) && HostStep(kind, s, Read).Some?
    ensures Inv(kind, HostStep(kind, s, Read).value, k)
  {
    ReadGives(kind, s, k);
    hide HostStep, At, Signed, EntryFor, Pow2;
    assert Delivered(kind, HostStep(kind, s, Read).value);
  }

  lemma {:induction false} GiveUpKeeps(kind: Kind, s: State, k: nat)
    requires Inv(kind, s, k) && s.host == Waiting
    ensures Inv(kind, HostStep(kind, s, GiveUp).value, k)
  {
    hide Pow2, EntryFor, At;
  }

  /** The state after a submission's parameter block is written. */
  function FilledWith(s: State, item: Item): State
    requires |s.params| > 0
  {
    s.(host := Filled(item),
       params := if item.params == None then s.params else s.params[At(|s.posted|, |s.params|) := item.params.value])
  }

  lemma {:induction false} FillIs(kind: Kind, s: State, item: Item, k: nat)
    requires Sized(s, k) && HostStep(kind, s, Fill(item)).Some?
    ensures HostStep(kind, s, Fill(item)).value == FilledWith(s, item) && s.host == Ready
            && (kind == Board ==> Plain(item))
    ensures kind == Device ==> |s.posted| < s.collected + |s.ring|
  {
    SlotIs(kind, s, k, |s.posted|);
    hide Pow2, At, HostSlot;
  }

  lemma {:induction false} FillCounts(kind: Kind, s: State, item: Item)
    requires |s.ring| == |s.params| > 0 && Counts(kind, s) && s.host == Ready && MayPost(kind, s, Fill(item))
    requires kind == Device ==> |s.posted| < s.collected + |s.ring|
    ensures Counts(kind, FilledWith(s, item))
  {
    hide Wrap, At;
  }

  lemma {:induction false} FillBlocks(kind: Kind, s: State, item: Item)
    requires |s.ring| == |s.params| > 0 && Counts(kind, s) && Blocks(s) && s.host == Ready
    requires AllPlain(kind, s) && (kind == Board ==> Plain(item))
             && (kind == Device ==> |s.posted| < s.collected + |s.ring|)
    ensures Blocks(FilledWith(s, item))
  {
    OtherSlots(|s.posted|, |s.ring|);
    hide Wrap, At;
  }

  lemma {:induction false} FillRest(kind: Kind, s: State, item: Item, k: nat)
    requires Inv(kind, s, k) && s.host == Ready && (kind == Board ==> Plain(item))
    ensures var t := FilledWith(s, item);
            && Sized(t, k) && Entries(kind, t) && Records(t) && RanAsPosted(t) && Delivered(kind, t) && Serving(kind, t)
            && AllPlain(kind, t)
  {
    hide Wrap, At, Pow2, EntryFor, Counts, Blocks;
  }

  lemma {:induction false} FillKeeps(kind: Kind, s: State, a: Action, k: nat)
    requires Inv(kind, s, k) && a.Fill? && HostStep(kind, s, a).Some? && MayPost(kind, s, a)
    ensures Inv(kind, HostStep(kind, s, a).value, k)
  {
    hide Sized, Counts, Entries, Blocks, Records, RanAsPosted, Delivered, Serving, AllPlain, MayPost, FilledWith,
         HostStep;
    SizedNonempty(s, k);
    FillIs(kind, s, a.item, k);
    FillCounts(kind, s, a.item);
    FillBlocks(kind, s, a.item);
    FillRest(kind, s, a.item, k);
  }

  lemma {:induction false} SizedNonempty(s: State, k: nat)
    requires Sized(s, k)
    ensures |s.ring| == |s.params| == |s.cpl| > 0
  {
  }

  lemma {:induction false} WriteKeeps(kind: Kind, s: State, k: nat)
    requires Inv(kind, s, k) && s.host.Filled?
    ensures Inv(kind, HostStep(kind, s, Write).value, k)
  {
    hide Pow2, Wrap, HostSlot, EntryFor;
    SlotIs(kind, s, k, |s.posted|);
    OtherSlots(|s.posted|, |s.ring|);
    var t, slot := HostStep(kind, s, Write).value, At(|s.posted|, |s.ring|);
    assert t == s.(host := Written(s.host.item),
      ring := s.ring[slot := EntryFor(kind, s.host.item, |s.posted|, |s.ring|)]);
    hide HostStep, At;
    assert Counts(kind, t) && Entries(kind, t) && Blocks(t) && AllPlain(kind, t);
    assert RanAsPosted(t) && Serving(kind, t) && Records(t) && Delivered(kind, t);
  }

  lemma {:induction false} DoorbellKeeps(kind: Kind, s: State, k: nat)
    requires Inv(kind, s, k) && s.host.Written?
    ensures Inv(kind, HostStep(kind, s, Doorbell).value, k)
  {
    hide Pow2, EntryFor, Wrap, At, Signed, HostSlot;
    var t := HostStep(kind, s, Doorbell).value;
    assert t == s.(host := if kind == Device then Ready else Waiting, posted := s.posted + [s.host.item],
                   tailBox := Wrap(|s.posted| + 1));
    hide HostStep;
    DoorbellCounts(kind, s, t);
    assert Entries(kind, t) && Blocks(t) && AllPlain(kind, t);
    assert RanAsPosted(t) && Serving(kind, t) && Records(t) && Delivered(kind, t);
  }

  lemma {:induction false} DoorbellCounts(kind: Kind, s: State, t: State)
    requires |s.ring| > 0 && Counts(kind, s) && s.host.Written?
    requires t == s.(host := if kind == Device then Ready else Waiting, posted := s.posted + [s.host.item],
                     tailBox := Wrap(|s.posted| + 1))
    ensures Counts(kind, t)
  {
    hide Wrap;
  }

  // ---------------------------------------------------------------- firmware steps

  lemma {:induction false} FetchKeeps(kind: Kind, s: State, k: nat)
    requires Inv(kind, s, k) && s.fw == Idle && s.tailBox != s.fwHead
    ensures Inv(kind, FwStep(s, Fetch).value, k)
  {
    hide Pow2;
    SlotIs(kind, s, k, s.served);
  }

  lemma {:induction false} LoadKeeps(kind: Kind, s: State, k: nat)
    requires Inv(kind, s, k) && s.fw.Fetched?
    ensures Inv(kind, FwStep(s, Load).value, k)
  {
    hide Pow2;
    SlotIs(kind, s, k, s.served);
    assert HasBlock(s.params, s.posted[s.served], At(s.served, |s.ring|));
  }

  lemma {:induction false} ExecuteKeeps(kind: Kind, s: State, a: Action, k: nat)
    requires Inv(kind, s, k) && s.fw.Loaded? && a.Execute?
    ensures Inv(kind, FwStep(s, a).value, k)
  {
    hide Pow2;
  }

  lemma {:induction false} RecordKeeps(kind: Kind, s: State, a: Action, k: nat)
    requires Inv(kind, s, k) && ((a.Record_? && s.fw.Executed?) || (a.Stamp? && s.fw.Recorded?))
    ensures Inv(kind, FwStep(s, a).value, k)
  {
    hide Pow2;
    SlotIs(kind, s, k, s.served);
    OtherSlots(s.served, |s.ring|);
  }

  lemma {:induction false} PublishKeeps(kind: Kind, s: State, k: nat)
    requires Inv(kind, s, k) && s.fw.Stamped?
    ensures Inv(kind, FwStep(s, Publish).value, k)
  {
    hide Pow2, EntryFor;
    WrapNext(s.served);
    var t := FwStep(s, Publish).value;
    assert t == s.(fw := t.fw, fwHead := Wrap(s.served + 1), headBox := Wrap(s.served + 1), served := s.served + 1)
           && (t.fw == Idle || t.fw == Stopped);
    hide FwStep, At, Wrap;
    assert Counts(kind, t) && Entries(kind, t) && Blocks(t) && Delivered(kind, t);
  }

  // ---------------------------------------------------------------- runs

  lemma {:induction false} StepKeeps(kind: Kind, s: State, a: Action, k: nat)
    requires Inv(kind, s, k) && MayPost(kind, s, a)
    ensures Inv(kind, Step(kind, s, a), k)
  {
    hide Inv, MayPost;
    assert |s.ring| == |s.params| == |s.cpl| > 0 && !s.failed by { Nonempty(kind, s, k); }
    if FwStep(s, a).Some? {
      match a
      case Fetch => FetchKeeps(kind, s, k);
      case Load => LoadKeeps(kind, s, k);
      case Execute(_) => ExecuteKeeps(kind, s, a, k);
      case Record_ => RecordKeeps(kind, s, a, k);
      case Stamp => RecordKeeps(kind, s, a, k);
      case Publish => PublishKeeps(kind, s, k);
      case _ =>
    } else if HostStep(kind, s, a).Some? {
      match a
      case Fill(_) => FillKeeps(kind, s, a, k);
      case Write => WriteKeeps(kind, s, k);
      case Doorbell => DoorbellKeeps(kind, s, k);
      case Read => ReadKeeps(kind, s, k);
      case GiveUp => GiveUpKeeps(kind, s, k);
      case Take => TakeKeeps(kind, s, k);
      case _ => LookKeeps(kind, s, a, k);
    }
  }

  lemma {:induction false} Nonempty(kind: Kind, s: State, k: nat)
    requires Inv(kind, s, k)
    ensures |s.ring| == |s.params| == |s.cpl| > 0 && !s.failed
  {
  }

  /** Every submission of the run may start. */
  predicate Roomy(kind: Kind, s: State, run: seq<Action>)
    requires |s.ring| == |s.params| == |s.cpl| > 0
    decreases |run|
  {
    run == [] || (MayPost(kind, s, run[0]) && Roomy(kind, Step(kind, s, run[0]), run[1..]))
  }

  lemma {:induction false} RunKeeps(kind: Kind, s: State, run: seq<Action>, k: nat)
    requires |s.ring| == |s.params| == |s.cpl| > 0 && Inv(kind, s, k) && Roomy(kind, s, run)
    ensures Inv(kind, Run(kind, s, run), k)
    decreases |run|
  {
    hide Inv, MayPost;
    if run != [] {
      StepKeeps(kind, s, run[0], k);
      RunKeeps(kind, Step(kind, s, run[0]), run[1..], k);
    }
  }

  lemma {:induction false} StartKeeps(kind: Kind, k: nat)
    requires k <= 31
    ensures Inv(kind, Start(Pow2(k)), k)
  {
  }

  /** Submissions started in a run. */
  function Fills(run: seq<Action>): nat {
    if run == [] then 0 else (if run[0].Fill? then 1 else 0) + Fills(run[1..])
  }

  /** Submissions posted or started. */
  function Started(s: State): nat {
    |s.posted| + if s.host.Filled? || s.host.Written? then 1 else 0
  }

  lemma {:induction false} StartsOne(kind: Kind, s: State, a: Action)
    requires |s.ring| == |s.params| == |s.cpl| > 0
    ensures Started(Step(kind, s, a)) <= Started(s) + if a.Fill? then 1 else 0
  {
    hide EntryFor, HostSlot;
  }

  /** With fewer than 2^32 submissions every one of the Device's may start: it never posts without room. */
  lemma {:induction false} DeviceMayPost(s: State, run: seq<Action>)
    requires |s.ring| == |s.params| == |s.cpl| > 0 && Started(s) + Fills(run) < M32
    ensures Roomy(Device, s, run)
    decreases |run|
  {
    hide Step;
    if run != [] {
      StartsOne(Device, s, run[0]);
      DeviceMayPost(Step(Device, s, run[0]), run[1..]);
    }
  }

  /** Over every interleaving in which submissions start when they may: no record is mistaken for another,
      collected <= head <= tail, at most size submissions are unserved beside one already read, each
      submission ran once, in order, with its own words and parameters, and every record delivered is
      that submission's outcome. */
  lemma {:induction false} EveryRunIsSafe(kind: Kind, k: nat, run: seq<Action>)
    requires k <= 31 && Roomy(kind, Start(Pow2(k)), run)
    ensures var s := Run(kind, Start(Pow2(k)), run);
            && !s.failed && s.collected <= s.served <= |s.posted| <= Unread(s) + Pow2(k)
            && (kind == Device ==> |s.posted| <= s.collected + Pow2(k))
            && s.served <= |s.ran| <= s.served + 1 && RanAsPosted(s)
            && (forall i :: i in s.got ==> i < s.served && s.got[i] == Record(Wrap(i), s.ran[i].outcome))
            && (kind == Device ==> forall i: nat :: i in s.got <==> i < s.collected)
  {
    StartKeeps(kind, k);
    RunKeeps(kind, Start(Pow2(k)), run, k);
  }

  /** The same for the Device, whose own check makes the room, over runs of fewer than 2^32 submissions:
      it compares its unbounded count with a 32-bit mailbox. */
  lemma {:induction false} EveryDeviceRunIsSafe(k: nat, run: seq<Action>)
    requires k <= 31 && Fills(run) < M32
    ensures var s := Run(Device, Start(Pow2(k)), run);
            && !s.failed && s.collected <= s.served <= |s.posted| <= s.collected + Pow2(k)
            && RanAsPosted(s)
            && forall i: nat :: i < s.collected ==>
                 i < |s.ran| && i in s.got && s.got[i] == Record(Wrap(i), s.ran[i].outcome)
  {
    DeviceMayPost(Start(Pow2(k)), run);
    EveryRunIsSafe(Device, k, run);
  }

  predicate SameSoFar(s: State, t: State) {
    t.posted == s.posted && t.served == s.served && t.ran == s.ran
  }

  lemma {:induction false} Fetches(kind: Kind, s: State, k: nat)
    requires Inv(kind, s, k) && s.fw == Idle && s.served < |s.posted|
    ensures var t := Step(kind, s, Fetch); Inv(kind, t, k) && t.fw.Fetched? && SameSoFar(s, t)
  {
    hide HostStep, EntryFor, Pow2;
    Nonempty(kind, s, k);
    FetchSees(kind, s, k);
    FetchKeeps(kind, s, k);
  }

  lemma {:induction false} Loads(kind: Kind, s: State, k: nat)
    requires Inv(kind, s, k) && s.fw.Fetched?
    ensures var t := Step(kind, s, Load); Inv(kind, t, k) && t.fw.Loaded? && SameSoFar(s, t)
  {
    hide HostStep, EntryFor, Pow2;
    Nonempty(kind, s, k);
    LoadKeeps(kind, s, k);
  }

  lemma {:induction false} Executes(kind: Kind, s: State, k: nat, outcome: int)
    requires Inv(kind, s, k) && s.fw.Loaded?
    ensures var t := Step(kind, s, Execute(outcome));
            && t.fw.Executed? && t.posted == s.posted && t.served == s.served && !t.failed && s.served < |s.posted|
            && t.ran == s.ran + [Ran(s.posted[s.served].work, s.posted[s.served].params, outcome)]
  {
    hide HostStep, Pow2;
    Nonempty(kind, s, k);
  }

  lemma {:induction false} Finishes(kind: Kind, s: State)
    requires |s.ring| == |s.params| == |s.cpl| > 0 && s.fw.Executed? && !s.failed
    ensures var t := Step(kind, Step(kind, Step(kind, s, Record_), Stamp), Publish);
            t.served == s.served + 1 && t.posted == s.posted && t.ran == s.ran
  {
    hide HostStep;
    var s1 := Step(kind, s, Record_);
    assert s1.fw.Recorded? && SameSoFar(s, s1) && !s1.failed;
    var s2 := Step(kind, s1, Stamp);
    assert s2.fw.Stamped? && SameSoFar(s, s2) && !s2.failed;
  }

  /** An idle firmware with work outstanding serves the next submission in six steps of its own. */
  lemma {:induction false} ServesNext(kind: Kind, s: State, k: nat, outcome: int)
    requires |s.ring| == |s.params| == |s.cpl| > 0
    requires Inv(kind, s, k) && s.fw == Idle && s.served < |s.posted|
    ensures var t := Run(kind, s, [Fetch, Load, Execute(outcome), Record_, Stamp, Publish]);
            && t.served == s.served + 1 && t.posted == s.posted
            && t.ran == s.ran + [Ran(s.posted[s.served].work, s.posted[s.served].params, outcome)]
  {
    hide Step, Inv, Run;
    var run := [Fetch, Load, Execute(outcome), Record_, Stamp, Publish];
    Fetches(kind, s, k);
    var s1 := Step(kind, s, Fetch);
    Loads(kind, s1, k);
    var s2 := Step(kind, s1, Load);
    Executes(kind, s2, k, outcome);
    Finishes(kind, Step(kind, s2, Execute(outcome)));
    RunSix(kind, s, run);
  }

  lemma {:induction false} FetchSees(kind: Kind, s: State, k: nat)
    requires Inv(kind, s, k) && s.served < |s.posted|
    ensures s.tailBox != s.fwHead
  {
    Pow2Order(k, 31);
    Pow2Values();
    EqualTells(s.served, |s.posted|);
  }

  lemma {:induction false} RunSix(kind: Kind, s: State, run: seq<Action>)
    requires |s.ring| == |s.params| == |s.cpl| > 0 && |run| == 6
    ensures Run(kind, s, run)
         == Step(kind, Step(kind, Step(kind, Step(kind, Step(kind, Step(kind, s, run[0]), run[1]), run[2]), run[3]),
           run[4]), run[5])
  {
    hide Step;
    var s1 := Step(kind, s, run[0]);
    var s2 := Step(kind, s1, run[1]);
    var s3 := Step(kind, s2, run[2]);
    var s4 := Step(kind, s3, run[3]);
    var s5 := Step(kind, s4, run[4]);
    var s6 := Step(kind, s5, run[5]);
    assert Run(kind, s, run) == Run(kind, s1, run[1..]);
    assert Run(kind, s1, run[1..]) == Run(kind, s2, run[2..]) by { assert run[1..][1..] == run[2..]; }
    assert Run(kind, s2, run[2..]) == Run(kind, s3, run[3..]) by { assert run[2..][1..] == run[3..]; }
    assert Run(kind, s3, run[3..]) == Run(kind, s4, run[4..]) by { assert run[3..][1..] == run[4..]; }
    assert Run(kind, s4, run[4..]) == Run(kind, s5, run[5..]) by { assert run[4..][1..] == run[5..]; }
    assert Run(kind, s5, run[5..]) == Run(kind, s6, []) by { assert run[5..][1..] == []; }
  }

  // ---------------------------------------------------------------- a board without room

  lemma {:induction false} RunCons(kind: Kind, s: State, a: Action, run: seq<Action>)
    requires |s.ring| == |s.params| == |s.cpl| > 0
    ensures Run(kind, s, [a] + run) == Run(kind, Step(kind, s, a), run)
  {
    hide Step;
    assert ([a] + run)[1..] == run;
  }

  lemma {:induction false} RunBoth(kind: Kind, s: State, xs: seq<Action>, ys: seq<Action>)
    requires |s.ring| == |s.params| == |s.cpl| > 0
    ensures Run(kind, s, xs + ys) == Run(kind, Run(kind, s, xs), ys)
    decreases |xs|
  {
    hide Step;
    if xs == [] {
      assert xs + ys == ys;
    } else {
      assert (xs + ys)[1..] == xs[1..] + ys;
      RunBoth(kind, Step(kind, s, xs[0]), xs[1..], ys);
    }
  }

  /** Two waits given up on a ring of one entry: the second submission overwrites the first before the
      firmware reads it. The first never runs; the second's words run in its place. */
  lemma {:induction false} LostSubmission()
    ensures var first, second := Item(1, None, false), Item(2, None, false);
            var run := [Fill(first), Write, Doorbell, GiveUp, Fill(second), Write, Doorbell, Fetch, Load, Execute(0)];
            var s := Run(Board, Start(1), run);
            s.posted == [first, second] && |s.ran| == 1 && s.ran[0].work == 2 && !RanAsPosted(s)
  {
    hide *;
    var first, second := Item(1, None, false), Item(2, None, false);
    var last := [Fetch, Load, Execute(0)];
    var again := [Fill(second), Write, Doorbell] + last;
    var s1 := Posted(Start(1), first);
    var s2 := s1.(host := Ready);
    var s3 := Posted(s2, second);
    TwoPosted(first, second);
    PostRuns(Start(1), first, [GiveUp] + again);
    GivesUp(s1, again);
    PostRuns(s2, second, last);
    NextRuns(s3, 0);
    assert [Fill(first), Write, Doorbell] + ([GiveUp] + again)
        == [Fill(first), Write, Doorbell, GiveUp, Fill(second), Write, Doorbell, Fetch, Load, Execute(0)];
    NotAsPosted(Run(Board, s3, last), 0);
  }

  lemma {:induction false} NotAsPosted(s: State, i: nat)
    requires i < |s.ran| && i < |s.posted| && s.ran[i].work != s.posted[i].work
    ensures !RanAsPosted(s) && !Right(s)
  {
  }

  lemma {:induction false} TwoPosted(first: Item, second: Item)
    requires Plain(first) && Plain(second)
    ensures Plain(first) && Plain(second) && Start(1).host == Ready && !Start(1).failed
    ensures var s1 := Posted(Start(1), first);
            && s1.host == Waiting && !s1.failed
            && var s3 := Posted(s1.(host := Ready), second);
               && s3.tailBox == 2 && s3.fwHead == 0 && s3.fw == Idle && s3.ran == [] && !s3.failed
               && |s3.ring| == 1 && s3.ring[0].work == second.work && s3.ring[0].block == None
                  && s3.posted == [first, second]
  {
  }

  lemma {:induction false} GivesUp(s: State, run: seq<Action>)
    requires |s.ring| == |s.params| == |s.cpl| > 0 && !s.failed && s.host == Waiting
    ensures Run(Board, s, [GiveUp] + run) == Run(Board, s.(host := Ready), run)
  {
    assert Step(Board, s, GiveUp) == s.(host := Ready);
    RunCons(Board, s, GiveUp, run);
  }

  /** The three host steps of a board submission. */
  function Posted(s: State, item: Item): (t: State)
    requires |s.ring| == |s.params| == |s.cpl| > 0
    ensures |t.ring| == |t.params| == |t.cpl| == |s.ring|
  {
    var n, size := |s.posted|, |s.ring|;
    s.(host := Waiting, ring := s.ring[HostSlot(Board, n, size) := EntryFor(Board, item, n, size)],
       posted := s.posted + [item], tailBox := Wrap(n + 1))
  }

  lemma {:induction false} PostRuns(s: State, item: Item, run: seq<Action>)
    requires |s.ring| == |s.params| == |s.cpl| > 0 && !s.failed && s.host == Ready && Plain(item)
    ensures Run(Board, s, [Fill(item), Write, Doorbell] + run) == Run(Board, Posted(s, item), run)
  {
    hide EntryFor, HostSlot;
    assert |s.ring| > 0;
    var s1 := s.(host := Filled(item));
    var s2 := s1.(host := Written(item),
                  ring := s.ring[HostSlot(Board, |s.posted|, |s.ring|) := EntryFor(Board, item, |s.posted|, |s.ring|)]);
    assert Step(Board, s, Fill(item)) == s1;
    assert Step(Board, s1, Write) == s2;
    assert Step(Board, s2, Doorbell) == Posted(s, item);
    hide Step, Posted;
    RunCons(Board, s, Fill(item), [Write, Doorbell] + run);
    RunCons(Board, s1, Write, [Doorbell] + run);
    RunCons(Board, s2, Doorbell, run);
    assert [Fill(item), Write, Doorbell] + run == [Fill(item)] + ([Write] + ([Doorbell] + run));
    assert [Write, Doorbell] + run == [Write] + ([Doorbell] + run);
  }

  /** The firmware runs the words it finds in its slot. */
  lemma {:induction false} NextRuns(s: State, outcome: int)
    requires |s.ring| == |s.params| == |s.cpl| > 0 && !s.failed && s.fw == Idle && s.tailBox != s.fwHead
    ensures var t := Run(Board, s, [Fetch, Load, Execute(outcome)]);
            t.posted == s.posted && |t.ran| == |s.ran| + 1 && t.ran[..|s.ran|] == s.ran
            && t.ran[|s.ran|].work == s.ring[s.fwHead % |s.ring|].work
            && (s.ring[s.fwHead % |s.ring|].block == None ==>
                 t.ran[|s.ran|] == Ran(s.ring[s.fwHead % |s.ring|].work, None, outcome))
  {
    hide HostStep;
    var e := s.ring[s.fwHead % |s.ring|];
    var s1 := Step(Board, s, Fetch);
    assert s1 == s.(fw := Fetched(Header(e.seqNo, e.exit)));
    LoadedRuns(s1, outcome);
    RunCons(Board, s, Fetch, [Load, Execute(outcome)]);
    assert [Fetch] + [Load, Execute(outcome)] == [Fetch, Load, Execute(outcome)];
  }

  lemma {:induction false} LoadedRuns(s: State, outcome: int)
    requires |s.ring| == |s.params| == |s.cpl| > 0 && !s.failed && s.fw.Fetched?
    ensures var t := Run(Board, s, [Load, Execute(outcome)]);
            t.posted == s.posted && |t.ran| == |s.ran| + 1 && t.ran[..|s.ran|] == s.ran
            && t.ran[|s.ran|].work == s.ring[s.fwHead % |s.ring|].work
            && (s.ring[s.fwHead % |s.ring|].block == None ==>
                 t.ran[|s.ran|] == Ran(s.ring[s.fwHead % |s.ring|].work, None, outcome))
  {
    hide HostStep;
    var s1 := Step(Board, s, Load);
    assert s1.fw.Loaded? && s1 == s.(fw := s1.fw) && s1.fw.work == s.ring[s.fwHead % |s.ring|].work;
    var s2 := Step(Board, s1, Execute(outcome));
    assert s2.ran == s.ran + [Ran(s1.fw.work, s1.fw.params, outcome)] && s2.posted == s.posted;
    RunCons(Board, s, Load, [Execute(outcome)]);
    RunCons(Board, s1, Execute(outcome), []);
    assert [Load] + [Execute(outcome)] == [Load, Execute(outcome)] && [Execute(outcome)] + [] == [Execute(outcome)];
  }

  // ---------------------------------------------------------------- exactly how much room

  /** What every state of a run must satisfy: nothing failed, each submission ran as posted, and each
      record delivered is its submission's. */
  ghost predicate Right(s: State) {
    && !s.failed && RanAsPosted(s)
    && forall i :: i in s.got ==> i < s.served && i < |s.ran| && s.got[i] == Record(Wrap(i), s.ran[i].outcome)
  }

  /** No further submission starts. */
  predicate Quiet(run: seq<Action>) {
    forall i :: 0 <= i < |run| ==> !run[i].Fill?
  }

  lemma {:induction false} QuietIsRoomy(kind: Kind, s: State, run: seq<Action>)
    requires |s.ring| == |s.params| == |s.cpl| > 0 && Quiet(run)
    ensures Roomy(kind, s, run)
    decreases |run|
  {
    hide Step;
    if run != [] { QuietIsRoomy(kind, Step(kind, s, run[0]), run[1..]); }
  }

  lemma {:induction false} WithinBound(s: State, k: nat, item: Item, run: seq<Action>)
    requires Inv(Board, s, k) && s.host == Ready && |s.posted| < Bound(Board, s) && Quiet(run)
    ensures |s.ring| == |s.params| == |s.cpl| > 0 && Right(Run(Board, s, [Fill(item)] + run))
  {
    Nonempty(Board, s, k);
    assert MayPost(Board, s, Fill(item));
    hide Inv, MayPost, Bound;
    QuietIsRoomy(Board, Step(Board, s, Fill(item)), run);
    assert ([Fill(item)] + run)[1..] == run;
    RunKeeps(Board, s, [Fill(item)] + run, k);
    InvIsRight(Run(Board, s, [Fill(item)] + run), k);
  }

  lemma {:induction false} InvIsRight(s: State, k: nat)
    requires Inv(Board, s, k)
    ensures Right(s)
  {
  }

  /** The rest of the service of an entry that has been read. */
  lemma {:induction false} FinishRuns(s: State) returns (run: seq<Action>)
    requires |s.ring| == |s.params| == |s.cpl| > 0 && !s.failed && HasRead(s) && !s.fw.h.exit
    ensures Quiet(run)
    ensures var t := Run(Board, s, run);
            && t == s.(fw := Idle, fwHead := Wrap(s.fwHead + 1), headBox := Wrap(s.fwHead + 1), served := s.served + 1,
                       cpl := t.cpl, ran := t.ran)
            && |t.ran| == |s.ran| + if s.fw.Loaded? then 1 else 0
    decreases if s.fw.Loaded? then 3 else if s.fw.Executed? then 2 else if s.fw.Recorded? then 1 else 0
  {
    hide HostStep;
    var a := if s.fw.Loaded? then Execute(0) else if s.fw.Executed? then Record_ else if s.fw.Recorded? then Stamp
      else Publish;
    var s1 := Step(Board, s, a);
    assert s1.ring == s.ring && s1.params == s.params && s1.posted == s.posted && s1.host == s.host && s1.got == s.got;
    if s.fw.Stamped? {
      run := [Publish];
      RunCons(Board, s, Publish, []);
      assert [Publish] + [] == [Publish];
    } else {
      assert HasRead(s1) && !s1.fw.h.exit && !s1.failed;
      assert s1 == s.(fw := s1.fw, cpl := s1.cpl, ran := s1.ran);
      hide Step;
      var rest := FinishRuns(s1);
      run := [a] + rest;
      RunCons(Board, s, a, rest);
    }
  }

  /** The entry a board submission overwrites. */
  lemma {:induction false} Overwrites(s: State, k: nat, i: nat, item: Item)
    requires Inv(Board, s, k) && |s.posted| == i + |s.ring|
    ensures |s.ring| == |s.params| == |s.cpl| > 0 && Wrap(i) % |s.ring| < |s.ring|
    ensures var e := Posted(s, item).ring[Wrap(i) % |s.ring|];
            e.work == item.work && (item.params == None ==> e.block == None)
  {
    var size, n := |s.ring|, |s.posted|;
    Nonempty(Board, s, k);
    hide Counts, Entries, Blocks, Records, RanAsPosted, Delivered, Serving, AllPlain, Pow2;
    SlotIs(Board, s, k, n);
    SlotIs(Board, s, k, i);
    var q, r := Divide(i, size);
    SumTimes(q, 1, size);
    QuotientIs(n, size, q + 1, r);
  }

  lemma {:induction false} Ringful(s: State, k: nat)
    requires Inv(Board, s, k)
    ensures 0 < |s.ring| <= 0x8000_0000
  {
    Pow2Order(k, 31);
    Pow2Values();
  }

  /** Posting over an entry not yet read. */
  lemma {:induction false} OverUnread(s: State, k: nat) returns (item: Item, run: seq<Action>)
    requires Inv(Board, s, k) && s.host == Ready && !HasRead(s) && |s.posted| == s.served + |s.ring|
    ensures Plain(item) && Quiet(run)
    ensures |s.ring| == |s.params| == |s.cpl| > 0 && !Right(Run(Board, s, [Fill(item)] + run))
  {
    hide *;
    Nonempty(Board, s, k);
    Ringful(s, k);
    var i := s.served;
    UnreadFirst(s, k);
    item := Item(s.posted[i].work + 1, None, false);
    PlainItem(item);
    Overwrites(s, k, i, item);
    var t := Posted(s, item);
    PostedKeeps(s, item);
    var serve := if s.fw == Idle then [Fetch, Load, Execute(0)] else [Load, Execute(0)];
    run := [Write, Doorbell] + serve;
    QuietServe(serve);
    PostRuns(s, item, serve);
    assert [Fill(item)] + run == [Fill(item), Write, Doorbell] + serve;
    if s.fw == Idle { NextRuns(t, 0); } else { LoadedRuns(t, 0); }
    NotAsPosted(Run(Board, t, serve), i);
  }

  lemma {:induction false} QuietServe(serve: seq<Action>)
    requires serve == [Fetch, Load, Execute(0)] || serve == [Load, Execute(0)]
    ensures Quiet([Write, Doorbell] + serve)
  {
  }

  /** What an invariant state without a read entry says of the next one to run. */
  lemma {:induction false} UnreadFirst(s: State, k: nat)
    requires Inv(Board, s, k) && !HasRead(s) && |s.posted| == s.served + |s.ring|
    ensures |s.ring| > 0 && s.served < |s.posted| && |s.ran| == s.served && s.fwHead == Wrap(s.served)
    ensures (s.fw == Idle || s.fw.Fetched?) && Wrap(|s.posted| + 1) != Wrap(s.served)
  {
    Ringful(s, k);
    EqualTells(s.served, |s.posted| + 1);
    hide Entries, Blocks, Records, RanAsPosted, Delivered, Wrap, Pow2;
  }

  /** Posting over the entry after the one that has been read. */
  lemma {:induction false} OverNext(s: State, k: nat) returns (item: Item, run: seq<Action>)
    requires Inv(Board, s, k) && s.host == Ready && HasRead(s) && |s.posted| == s.served + 1 + |s.ring|
    requires |s.ring| < 0x8000_0000
    ensures Plain(item) && Quiet(run)
    ensures |s.ring| == |s.params| == |s.cpl| > 0 && !Right(Run(Board, s, [Fill(item)] + run))
  {
    hide *;
    Nonempty(Board, s, k);
    var i := s.served + 1;
    NextUnread(s, k);
    item := Item(s.posted[i].work + 1, None, false);
    PlainItem(item);
    Overwrites(s, k, i, item);
    var t := Posted(s, item);
    PostedKeeps(s, item);
    StillRead(s, t);
    var finish := FinishRuns(t);
    var u := Run(Board, t, finish);
    var serve := [Fetch, Load, Execute(0)];
    RunBoth(Board, t, finish, serve);
    run := [Write, Doorbell] + (finish + serve);
    QuietBoth(finish);
    PostRuns(s, item, finish + serve);
    assert [Fill(item)] + run == [Fill(item), Write, Doorbell] + (finish + serve);
    NextRuns(u, 0);
    var v := Run(Board, u, serve);
    NotAsPosted(v, i);
  }

  lemma {:induction false} PlainItem(item: Item)
    requires item.params == None && !item.exit
    ensures Plain(item)
  {
  }

  lemma {:induction false} QuietBoth(finish: seq<Action>)
    requires Quiet(finish)
    ensures Quiet([Write, Doorbell] + (finish + [Fetch, Load, Execute(0)]))
  {
  }

  lemma {:induction false} StillRead(s: State, t: State)
    requires t.fw == s.fw
    ensures HasRead(t) <==> HasRead(s)
  {
  }

  /** What an invariant state with a read entry says of the next one. */
  lemma {:induction false} NextUnread(s: State, k: nat)
    requires Inv(Board, s, k) && HasRead(s) && |s.posted| == s.served + 1 + |s.ring| && |s.ring| < 0x8000_0000
    ensures |s.ring| > 0 && s.served + 1 < |s.posted| && !s.fw.h.exit && s.fwHead == Wrap(s.served)
    ensures |s.ran| == s.served + if s.fw.Loaded? then 0 else 1
    ensures Wrap(s.fwHead + 1) == Wrap(s.served + 1) && Wrap(|s.posted| + 1) != Wrap(s.served + 1)
  {
    EqualTells(s.served + 1, |s.posted| + 1);
    WrapNext(s.served);
    hide Entries, Blocks, Records, RanAsPosted, Delivered, Wrap, Pow2;
  }

  lemma {:induction false} PostedKeeps(s: State, item: Item)
    requires |s.ring| == |s.params| == |s.cpl| > 0
    ensures var t := Posted(s, item);
            t == s.(host := Waiting, ring := t.ring, posted := s.posted + [item], tailBox := Wrap(|s.posted| + 1))
  {
  }

  /** A ring of 2^31 entries: one more, and the signed comparison takes the wait for over. */
  lemma {:induction false} OverCompare(s: State, k: nat) returns (item: Item, run: seq<Action>)
    requires Inv(Board, s, k) && s.host == Ready && |s.ring| == 0x8000_0000 && |s.posted| == s.served + |s.ring|
    ensures Plain(item) && Quiet(run)
    ensures |s.ring| == |s.params| == |s.cpl| > 0 && !Right(Run(Board, s, [Fill(item)] + run))
  {
    hide *;
    Nonempty(Board, s, k);
    item := Item(0, None, false);
    PlainItem(item);
    var t, n := Posted(s, item), |s.posted|;
    run := [Write, Doorbell, Read];
    QuietRead();
    HeadIs(s, k);
    PostedKeeps(s, item);
    PastCompare(s.served);
    PostRuns(s, item, [Read]);
    assert [Fill(item)] + run == [Fill(item), Write, Doorbell] + [Read];
    RunCons(Board, t, Read, []);
    assert [Read] + [] == [Read];
    NothingMore(Step(Board, t, Read));
    ReadsEarly(t);
  }

  lemma {:induction false} QuietRead()
    ensures Quiet([Write, Doorbell, Read])
  {
  }

  lemma {:induction false} NothingMore(s: State)
    requires |s.ring| == |s.params| == |s.cpl| > 0
    ensures Run(Board, s, []) == s
  {
  }

  lemma {:induction false} HeadIs(s: State, k: nat)
    requires Inv(Board, s, k)
    ensures s.headBox == Wrap(s.served) && !s.failed
  {
  }

  lemma {:induction false} PastCompare(i: nat)
    ensures Signed(Wrap(i) - Wrap(i + 0x8000_0001)) == 0x7FFF_FFFF
  {
  }

  lemma {:induction false} ReadsEarly(s: State)
    requires |s.ring| == |s.params| == |s.cpl| > 0 && !s.failed && s.host == Waiting && |s.posted| > 0
    requires s.served < |s.posted| && Signed(s.headBox - Wrap(|s.posted|)) >= 0
    ensures !Right(Step(Board, s, Read))
  {
    hide Signed, Wrap;
    var u := Step(Board, s, Read);
    assert u.failed || (|s.posted| - 1 in u.got && u.served == s.served);
  }

  /** Bound is the exact room of the board: from any state a run can reach with the host ready to post,
      every submission keeps every later state right exactly when the tail is below Bound. */
  lemma {:induction false} BoundIsExact(s: State, k: nat)
    requires Inv(Board, s, k) && s.host == Ready
    ensures |s.ring| == |s.params| == |s.cpl| > 0
    ensures (forall item, run :: Plain(item) && Quiet(run) ==> Right(Run(Board, s, [Fill(item)] + run)))
       <==> |s.posted| < Bound(Board, s)
  {
    Nonempty(Board, s, k);
    if |s.posted| < Bound(Board, s) {
      forall item, run | Plain(item) && Quiet(run) ensures Right(Run(Board, s, [Fill(item)] + run)) {
        WithinBound(s, k, item, run);
      }
    } else {
      assert |s.posted| == Bound(Board, s);
      Ringful(s, k);
      hide Inv, Run, Right;
      var item, run;
      if !HasRead(s) {
        item, run := OverUnread(s, k);
      } else if |s.ring| < 0x8000_0000 {
        item, run := OverNext(s, k);
      } else {
        item, run := OverCompare(s, k);
      }
      assert Plain(item) && Quiet(run) && !Right(Run(Board, s, [Fill(item)] + run));
    }
  }
}
