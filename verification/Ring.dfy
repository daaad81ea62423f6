/** The submission ring between a host and the resident firmware, as interleaved steps: the host's
    (driver/pynq_matmul.py Device, or compiler/runtime/sa/sa_transport_board.c) and the firmware's
    (firmware/rt/rt_fw.c main), over shared slots and 32-bit mailbox counters. */
module Ring {
  import opened Options
  import opened Dyadic

  const M32 := 0x1_0000_0000

  /** What a submission asks for: its words, its parameter block if any, and whether it ends the
      firmware. */
  datatype Item = Item(work: int, params: Option<int>, exit: bool)

  /** A ring entry; block is the slot of the parameter block it points to. */
  datatype Entry = Entry(work: int, seqNo: nat, block: Option<nat>, exit: bool)

  datatype Record = Record(seqNo: nat, outcome: int)

  /** An execution: what ran, with which parameters, and what came out. */
  datatype Ran = Ran(work: int, params: Option<int>, outcome: int)

  datatype Kind = Device | Board

  datatype HostPc = Ready | Collecting(limit: nat) | Filled(item: Item) | Written(item: Item) | Waiting

  /** What the firmware reads of an entry first: its sequence number and whether it is the last. */
  datatype Header = Header(seqNo: nat, exit: bool)

  datatype FwPc = Idle | Fetched(h: Header) | Loaded(h: Header, work: int, params: Option<int>)
                | Executed(h: Header, outcome: int) | Recorded(h: Header) | Stamped(h: Header) | Stopped

  /** The shared memory and both sides. posted, ran, served and got are what has happened so far;
      the code's own counters are posted and served modulo 2^32, and collected. */
  datatype State = State(
    ring: seq<Entry>, params: seq<int>, cpl: seq<Record>, tailBox: nat, headBox: nat,
    host: HostPc, collected: nat, failed: bool, fw: FwPc, fwHead: nat,
    posted: seq<Item>, ran: seq<Ran>, served: nat, got: map<nat, Record>)

  datatype Action =
    | Look | Take | Leave                       // Device._collect
    | Fill(item: Item) | Write | Doorbell       // submit, sa_board_run
    | Read | GiveUp                             // the wait of sa_board_run
    | Fetch | Load | Execute(outcome: int) | Record_ | Stamp | Publish

  function Wrap(n: int): nat {
    n % M32
  }

  /** A 32-bit difference read as int32. */
  function Signed(n: int): int {
    if Wrap(n) >= 0x8000_0000 then Wrap(n) - M32 else Wrap(n)
  }

  /** The host's slot for submission n: from an unbounded counter on the Device, from a uint32 on
      the board. */
  function HostSlot(kind: Kind, n: nat, size: nat): (slot: nat)
    requires size > 0
    ensures slot < size
  {
    if kind == Device then n % size else Wrap(n) % size
  }

  function EntryFor(kind: Kind, item: Item, n: nat, size: nat): Entry
    requires size > 0
  {
    Entry(item.work, Wrap(n), if item.params == None then None else Some(HostSlot(kind, n, size)), item.exit)
  }

  /** A host step. The board posts lists, schedules and calls, none with a parameter block and none
      that ends the firmware. */
  function HostStep(kind: Kind, s: State, a: Action): Option<State>
    requires |s.ring| == |s.params| == |s.cpl| > 0
  {
    var size, n := |s.ring|, |s.posted|;
    match (a, s.host)
    case (Look, Ready) => if kind == Device then Some(s.(host := Collecting(s.headBox))) else None
    case (Take, Collecting(limit)) =>
      if s.collected >= limit then None
      else
        var c := s.cpl[s.collected % size];
        if c.seqNo != Wrap(s.collected) then Some(s.(failed := true))
        else Some(s.(collected := s.collected + 1, got := s.got[s.collected := c]))
    case (Leave, Collecting(limit)) => if s.collected >= limit then Some(s.(host := Ready)) else None
    case (Fill(item), Ready) =>
      if kind == Device && n - s.collected >= size then None
      else if kind == Board && (item.params.Some? || item.exit) then None
      else
        Some(s.(host := Filled(item),
                params := if item.params == None then s.params
                  else s.params[HostSlot(kind, n, size) := item.params.value]))
    case (Write, Filled(item)) =>
      Some(s.(host := Written(item), ring := s.ring[HostSlot(kind, n, size) := EntryFor(kind, item, n, size)]))
    case (Doorbell, Written(item)) =>
      Some(s.(host := if kind == Device then Ready else Waiting, posted := s.posted + [item], tailBox := Wrap(n + 1)))
    case (Read, Waiting) =>
      if Signed(s.headBox - Wrap(n)) < 0 || n == 0 then None
      else
        var c := s.cpl[HostSlot(kind, n - 1, size)];
        if c.seqNo != Wrap(n - 1) then Some(s.(failed := true))
        else Some(s.(host := Ready, collected := n, got := s.got[n - 1 := c]))
    case (GiveUp, Waiting) => Some(s.(host := Ready))
    case (_, _) => None
  }

  /** A firmware step. The list address and the parameters are read after type and sequence number, just
      before the list runs. */
  function FwStep(s: State, a: Action): Option<State>
    requires |s.ring| == |s.params| == |s.cpl| > 0
  {
    var size := |s.ring|;
    var slot := s.fwHead % size;
    match (a, s.fw)
    case (Fetch, Idle) =>
      if s.tailBox == s.fwHead then None
      else var e := s.ring[slot]; Some(s.(fw := Fetched(Header(e.seqNo, e.exit))))
    case (Load, Fetched(h)) =>
      var e := s.ring[slot];
      Some(s.(fw := Loaded(h, e.work, match e.block case None => None
                                      case Some(b) => if b < size then Some(s.params[b]) else None)))
    case (Execute(outcome), Loaded(h, work, p)) =>
      Some(s.(fw := Executed(h, outcome), ran := s.ran + [Ran(work, p, outcome)]))
    case (Record_, Executed(h, outcome)) =>
      Some(s.(fw := Recorded(h), cpl := s.cpl[slot := s.cpl[slot].(outcome := outcome)]))
    case (Stamp, Recorded(h)) =>
      Some(s.(fw := Stamped(h), cpl := s.cpl[slot := s.cpl[slot].(seqNo := h.seqNo)]))
    case (Publish, Stamped(h)) =>
      Some(s.(fw := if h.exit then Stopped else Idle, fwHead := Wrap(s.fwHead + 1), headBox := Wrap(s.fwHead + 1),
              served := s.served + 1))
    case (_, _) => None
  }

  /** A step of one side; an action that is not enabled, or one after an error, changes nothing. */
  function Step(kind: Kind, s: State, a: Action): (t: State)
    requires |s.ring| == |s.params| == |s.cpl| > 0
    ensures |t.ring| == |t.params| == |t.cpl| == |s.ring|
  {
    if s.failed then s
    else
      match FwStep(s, a)
      case Some(t) => t
      case None => match HostStep(kind, s, a) case Some(t) => t case None => s
  }

  function Run(kind: Kind, s: State, run: seq<Action>): (t: State)
    requires |s.ring| == |s.params| == |s.cpl| > 0
    ensures |t.ring| == |t.params| == |t.cpl| == |s.ring|
    decreases |run|
  {
    if run == [] then s else Run(kind, Step(kind, s, run[0]), run[1..])
  }

  function Start(size: nat): (s: State)
    requires size > 0
    ensures |s.ring| == |s.params| == |s.cpl| == size
  {
    State(seq(size, i => Entry(0, 0, None, false)), seq(size, i => 0), seq(size, i => Record(0, 0)), 0, 0,
          Ready, 0, false, Idle, 0, [], [], 0, map[])
  }

  // ---------------------------------------------------------------- 32-bit counters

  /** A uint32 counter picks the same slot as the unbounded one when the ring's size is a power of
      two. */
  lemma {:induction false} SlotsAgree(kind: Kind, n: nat, k: nat)
    requires k <= 32
    ensures HostSlot(kind, n, Pow2(k)) == n % Pow2(k) == Wrap(n) % Pow2(k)
  {
    Pow2Add(k, 32 - k);
    assert Pow2(32) == M32 by { Pow2Values(); assert Pow2(32) == 2 * Pow2(31); }
    hide Pow2;
    var p, c := Pow2(k), Pow2(32 - k);
    var q, r := Divide(n, M32);
    var d, e := Divide(r, p);
    Associate(q, c, p);
    SumTimes(q * c, d, p);
    Commute(p, c);
    QuotientIs(n, p, q * c + d, e);
  }

  /** The signed comparison tells whether the firmware has caught up, also across the wrap, while at
      most 2^31 submissions are outstanding. */
  lemma {:induction false} SignedTells(served: nat, n: nat)
    requires served <= n <= served + 0x8000_0000
    ensures Signed(Wrap(served) - Wrap(n)) < 0 <==> served < n
  {
    var d := n - served;
    assert Wrap(Wrap(served) - Wrap(n)) == Wrap(-d);
    assert d > 0 ==> Wrap(-d) == M32 - d;
  }

  lemma {:induction false} EqualTells(served: nat, n: nat)
    requires served <= n < served + M32
    ensures Wrap(n) == Wrap(served) <==> n == served
  {
  }

  lemma {:induction false} WrapNext(n: nat)
    ensures Wrap(Wrap(n) + 1) == Wrap(n + 1)
  {
  }
}
