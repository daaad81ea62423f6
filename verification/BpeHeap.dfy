/** The fast form of _bpe: a heap over the adjacent pairs, whose entries may be stale, and a linked
    list of the symbols. It returns exactly what merging the best pair each time returns. */
module BpeHeap {
  import opened Bpe

  datatype Entry = Entry(rank: nat, i: nat, a: Symbol, b: Symbol)

  /** Heap order on the first two fields; which of several equal ones comes out is left open. */
  predicate Le(e: Entry, f: Entry) {
    e.rank < f.rank || (e.rank == f.rank && e.i <= f.i)
  }

  ghost predicate IsMin(h: multiset<Entry>, e: Entry) {
    e in h && forall f :: f in h ==> Le(e, f)
  }

  lemma {:induction false} MinExists(h: multiset<Entry>)
    requires |h| > 0
    ensures exists e :: IsMin(h, e)
    decreases |h|
  {
    var x :| x in h;
    var rest := h - multiset{x};
    assert h == rest + multiset{x};
    if |rest| == 0 {
      assert IsMin(h, x);
    } else {
      MinExists(rest);
      var m :| IsMin(rest, m);
      var e := if Le(x, m) then x else m;
      forall f | f in h ensures Le(e, f) {
        assert f == x || f in rest;
      }
      assert IsMin(h, e);
    }
  }

  // ---------------------------------------------------------------- the linked list

  /** Index alive after position k, n at the end. */
  function After(live: seq<nat>, k: nat, n: nat): nat
    requires k < |live|
  {
    if k + 1 < |live| then live[k + 1] else n
  }

  /** Index alive before position k, -1 at the start. */
  function Ahead(live: seq<nat>, k: nat): int
    requires k < |live|
  {
    if k > 0 then live[k - 1] else -1
  }

  ghost predicate Increasing(live: seq<nat>, n: nat) {
    && (forall k :: 0 <= k < |live| ==> live[k] < n)
    && (forall k, m :: 0 <= k < m < |live| ==> live[k] < live[m])
  }

  /** live lists the indices still alive, in order; the arrays say the same. */
  ghost predicate Linked(live: seq<nat>, nxt: seq<int>, prv: seq<int>, alive: seq<bool>) {
    && |nxt| == |prv| == |alive| && Increasing(live, |nxt|)
    && (forall i :: 0 <= i < |alive| ==> (alive[i] <==> i in live))
    && (forall k :: 0 <= k < |live| ==> nxt[live[k]] == After(live, k, |nxt|))
    && (forall k :: 0 <= k < |live| ==> prv[live[k]] == Ahead(live, k))
  }

  /** The symbols still alive, in order. */
  ghost function Current(live: seq<nat>, sym: seq<Symbol>): (s: seq<Symbol>)
    requires forall k :: 0 <= k < |live| ==> live[k] < |sym|
    ensures |s| == |live|
    ensures forall k :: 0 <= k < |live| ==> s[k] == sym[live[k]]
  {
    seq(|live|, k requires 0 <= k < |live| => sym[live[k]])
  }

  /** The heap entry of the pair at position k of s. */
  function EntryOf(live: seq<nat>, s: seq<Symbol>, ranks: Ranks, k: int): Entry
    requires |live| == |s| && Mergeable(s, ranks, k)
  {
    Entry(RankAt(s, ranks, k), live[k], s[k], s[k + 1])
  }

  /** Every entry has its pair's rank, and every pair that can merge now has its entry. */
  ghost predicate Covered(live: seq<nat>, s: seq<Symbol>, ranks: Ranks, h: multiset<Entry>)
    requires |live| == |s|
  {
    && (forall e :: e in h ==> (e.a, e.b) in ranks && e.rank == ranks[(e.a, e.b)])
    && (forall k :: Mergeable(s, ranks, k) ==> EntryOf(live, s, ranks, k) in h)
  }

  /** The pair of entry e stands at position k. */
  ghost predicate Stands(live: seq<nat>, s: seq<Symbol>, e: Entry, k: int)
    requires |live| == |s|
  {
    0 <= k < |s| - 1 && live[k] == e.i && s[k] == e.a && s[k + 1] == e.b
  }

  /** A smallest entry whose pair still stands is the best pair of all. */
  lemma {:induction false} MinimumIsBest(live: seq<nat>, s: seq<Symbol>, ranks: Ranks, h: multiset<Entry>,
                                         e: Entry, k: int)
    requires |live| == |s| && (forall j, m :: 0 <= j < m < |live| ==> live[j] < live[m])
    requires Covered(live, s, ranks, h) && IsMin(h, e) && Stands(live, s, e, k)
    ensures Best(s, ranks, k)
  {
    forall j | Mergeable(s, ranks, j) ensures Before(s, ranks, k, j) {
      var f := EntryOf(live, s, ranks, j);
      assert f in h && Le(e, f);
    }
  }

  /** Dropping a stale entry loses no pair. */
  lemma {:induction false} StaleIsUseless(live: seq<nat>, s: seq<Symbol>, ranks: Ranks, h: multiset<Entry>, e: Entry)
    requires |live| == |s| && Covered(live, s, ranks, h) && e in h
    requires forall k :: !Stands(live, s, e, k)
    ensures Covered(live, s, ranks, h - multiset{e})
  {
    forall k | Mergeable(s, ranks, k) ensures EntryOf(live, s, ranks, k) in h - multiset{e} {
      assert !Stands(live, s, e, k);
    }
  }

  /** The alive indices after the one at position k + 1 is gone. */
  function Drop(live: seq<nat>, k: int): seq<nat>
    requires 0 <= k < |live| - 1
  {
    live[..k + 1] + live[k + 2..]
  }

  /** Position in the old list of position m of the new one. */
  function OldPos(k: int, m: int): int {
    if m <= k then m else m + 1
  }

  lemma {:induction false} DropAt(live: seq<nat>, k: int)
    requires 0 <= k < |live| - 1
    ensures |Drop(live, k)| == |live| - 1
    ensures forall m :: 0 <= m < |live| - 1 ==> Drop(live, k)[m] == live[OldPos(k, m)]
  {
  }

  lemma {:induction false} MergeAtIs(s: seq<Symbol>, k: int)
    requires 0 <= k < |s| - 1
    ensures forall m :: 0 <= m < |s| - 1 ==>
              MergeAt(s, k)[m] == if m == k then s[k] + s[k + 1] else s[OldPos(k, m)]
  {
  }

  /** Popped, then the two new neighbour pairs pushed, the heap covers the merged list. */
  lemma {:induction false} PushedCovers(live: seq<nat>, s: seq<Symbol>, ranks: Ranks, h: multiset<Entry>, e: Entry,
                                        k: int, g: multiset<Entry>)
    requires |live| == |s| && (forall j, m :: 0 <= j < m < |live| ==> live[j] < live[m])
    requires Covered(live, s, ranks, h) && Stands(live, s, e, k) && e in h
    requires forall f :: f in h && f != e ==> f in g
    requires forall f :: f in g ==> (f in h || ((f.a, f.b) in ranks && f.rank == ranks[(f.a, f.b)]))
    requires var t := MergeAt(s, k);
             && (Mergeable(t, ranks, k - 1) ==> EntryOf(Drop(live, k), t, ranks, k - 1) in g)
             && (Mergeable(t, ranks, k) ==> EntryOf(Drop(live, k), t, ranks, k) in g)
    ensures |Drop(live, k)| == |MergeAt(s, k)| && Covered(Drop(live, k), MergeAt(s, k), ranks, g)
  {
    hide Drop, MergeAt;
    var l, t := Drop(live, k), MergeAt(s, k);
    DropAt(live, k);
    MergeAtIs(s, k);
    forall m | Mergeable(t, ranks, m) ensures EntryOf(l, t, ranks, m) in g {
      if m != k - 1 && m != k {
        var o := OldPos(k, m);
        assert Mergeable(s, ranks, o) && t[m] == s[o] && t[m + 1] == s[o + 1];
        assert EntryOf(live, s, ranks, o) in h;
        assert live[o] != live[k];
      }
    }
  }

  lemma {:induction false} DropKeeps(live: seq<nat>, k: int, n: nat, i: int)
    requires Increasing(live, n) && 0 <= k < |live| - 1
    ensures Increasing(Drop(live, k), n)
    ensures i in Drop(live, k) <==> i in live && i != live[k + 1]
  {
    DropAt(live, k);
    if i in live && i != live[k + 1] {
      var o :| 0 <= o < |live| && live[o] == i;
      assert Drop(live, k)[if o <= k then o else o - 1] == i;
    }
  }

  /** The three assignments of the merge keep the list linked. */
  lemma {:induction false} DropLinks(live: seq<nat>, k: int, nxt: seq<int>, prv: seq<int>, alive: seq<bool>)
    requires Linked(live, nxt, prv, alive) && 0 <= k < |live| - 1
    ensures var i, j := live[k], live[k + 1];
            && nxt[i] == j && nxt[j] == After(live, k + 1, |nxt|)
            && var nxt' := nxt[i := nxt[j]];
               var prv' := if nxt[j] < |nxt| then prv[nxt[j] := i as int] else prv;
               Linked(Drop(live, k), nxt', prv', alive[j := false])
  {
    var i, j := live[k], live[k + 1];
    assert nxt[live[k]] == After(live, k, |nxt|) && nxt[live[k + 1]] == After(live, k + 1, |nxt|);
    var l := Drop(live, k);
    DropAt(live, k);
    var nxt' := nxt[i := nxt[j]];
    var prv' := if nxt[j] < |nxt| then prv[nxt[j] := i as int] else prv;
    var alive' := alive[j := false];
    DropKeeps(live, k, |nxt|, 0);
    forall x | 0 <= x < |alive| ensures alive'[x] <==> x in l { DropKeeps(live, k, |nxt|, x); }
    hide Drop;
    forall m | 0 <= m < |l| ensures nxt'[l[m]] == After(l, m, |nxt|) && prv'[l[m]] == Ahead(l, m) {
      LinkAfterDrop(live, l, k, m, nxt, prv);
    }
  }

  lemma {:induction false} LinkAfterDrop(live: seq<nat>, l: seq<nat>, k: int, m: nat, nxt: seq<int>, prv: seq<int>)
    requires |nxt| == |prv| && Increasing(live, |nxt|) && 0 <= k < |live| - 1
    requires |l| == |live| - 1 && forall m :: 0 <= m < |l| ==> l[m] == live[OldPos(k, m)]
    requires m < |l| && nxt[live[k + 1]] == After(live, k + 1, |nxt|)
    requires var o := OldPos(k, m); nxt[live[o]] == After(live, o, |nxt|) && prv[live[o]] == Ahead(live, o)
    ensures var i, n := live[k], nxt[live[k + 1]];
            && nxt[i := n][l[m]] == After(l, m, |nxt|)
            && (if n < |nxt| then prv[n := i as int] else prv)[l[m]] == Ahead(l, m)
  {
    var o := OldPos(k, m);
    assert l[m] == live[o];
    if m > 0 { assert l[m - 1] == live[OldPos(k, m - 1)]; }
    if m + 1 < |l| { assert l[m + 1] == live[OldPos(k, m + 1)]; }
  }

  // ---------------------------------------------------------------- the algorithm

  /** heappop. */
  method Pop(h: multiset<Entry>) returns (e: Entry, rest: multiset<Entry>)
    requires |h| > 0
    ensures IsMin(h, e) && rest == h - multiset{e} && |rest| == |h| - 1
  {
    MinExists(h);
    e :| e in h && forall f :: f in h ==> Le(e, f);
    rest := h - multiset{e};
  }

  /** heappush of the pair (a, b) at index i, if there is a rule for it. */
  function Push(h: multiset<Entry>, ranks: Ranks, i: nat, a: Symbol, b: Symbol): (g: multiset<Entry>)
    ensures |h| <= |g| <= |h| + 1
    ensures forall f :: f in g <==> f in h || ((a, b) in ranks && f == Entry(ranks[(a, b)], i, a, b))
  {
    if (a, b) in ranks then h + multiset{Entry(ranks[(a, b)], i, a, b)} else h
  }

  ghost predicate InRange(h: multiset<Entry>, n: nat) {
    forall e :: e in h ==> e.i < n
  }

  /** What holds between two steps of the loop. */
  ghost predicate Consistent(live: seq<nat>, sym: seq<Symbol>, nxt: seq<int>, prv: seq<int>, alive: seq<bool>,
                             ranks: Ranks, h: multiset<Entry>)
  {
    && |sym| == |nxt| && Linked(live, nxt, prv, alive) && InRange(h, |sym|)
    && Covered(live, Current(live, sym), ranks, h)
  }

  /** The code's test for a stale entry fails exactly when the entry's pair still stands. */
  lemma {:induction false} StandsWhenTested(live: seq<nat>, sym: seq<Symbol>, nxt: seq<int>, prv: seq<int>,
                                            alive: seq<bool>, e: Entry) returns (k: int)
    requires |sym| == |nxt| && Linked(live, nxt, prv, alive) && e.i < |sym|
    ensures var stale := !alive[e.i] || nxt[e.i] >= |sym| || nxt[e.i] < 0 || sym[e.i] != e.a || sym[nxt[e.i]] != e.b;
            && (stale ==> forall m :: !Stands(live, Current(live, sym), e, m))
            && (!stale ==> Stands(live, Current(live, sym), e, k) && nxt[e.i] == live[k + 1])
  {
    k := 0;
    if alive[e.i] {
      k :| 0 <= k < |live| && live[k] == e.i;
      assert nxt[live[k]] == After(live, k, |nxt|);
      forall m ensures Stands(live, Current(live, sym), e, m) ==> m == k {
      }
    }
  }

  lemma {:induction false} CurrentAfterMerge(live: seq<nat>, sym: seq<Symbol>, k: int, ab: Symbol)
    requires Increasing(live, |sym|) && 0 <= k < |live| - 1
    requires ab == sym[live[k]] + sym[live[k + 1]]
    ensures Increasing(Drop(live, k), |sym|)
    ensures Current(Drop(live, k), sym[live[k] := ab]) == MergeAt(Current(live, sym), k)
  {
    DropKeeps(live, k, |sym|, 0);
    DropAt(live, k);
    var s, t := Current(live, sym), Current(Drop(live, k), sym[live[k] := ab]);
    MergeAtIs(s, k);
    forall m | 0 <= m < |t| ensures t[m] == MergeAt(s, k)[m] {
      assert Drop(live, k)[m] == live[OldPos(k, m)];
    }
  }

  /** The pushed neighbours of the merged pair, read from the list, are those of the new list. */
  lemma {:induction false} NeighboursPushed(live: seq<nat>, t: seq<Symbol>, ranks: Ranks, h: multiset<Entry>, k: int)
    requires |live| == |t| && 0 <= k < |t|
    ensures var h1 := if k > 0 then Push(h, ranks, live[k - 1], t[k - 1], t[k]) else h;
            var g := if k + 1 < |t| then Push(h1, ranks, live[k], t[k], t[k + 1]) else h1;
            && (Mergeable(t, ranks, k - 1) ==> EntryOf(live, t, ranks, k - 1) in g)
            && (Mergeable(t, ranks, k) ==> EntryOf(live, t, ranks, k) in g)
            && (forall f :: f in h ==> f in g)
            && (forall f :: f in g ==> (f in h || ((f.a, f.b) in ranks && f.rank == ranks[(f.a, f.b)])))
  {
  }

  /** The merged pair becomes one symbol, and its right half leaves the list. */
  method Unlink(sym: array<Symbol>, nxt: array<int>, prv: array<int>, alive: array<bool>, e: Entry,
                ghost live: seq<nat>, ghost k: int)
    requires nxt != prv && sym.Length == nxt.Length && Linked(live, nxt[..], prv[..], alive[..])
    requires Stands(live, Current(live, sym[..]), e, k)
    modifies sym, nxt, prv, alive
    ensures |Drop(live, k)| == |live| - 1 && Linked(Drop(live, k), nxt[..], prv[..], alive[..])
    ensures Current(Drop(live, k), sym[..]) == MergeAt(old(Current(live, sym[..])), k)
  {
    CurrentAfterMerge(live, sym[..], k, e.a + e.b);
    DropLinks(live, k, nxt[..], prv[..], alive[..]);
    DropAt(live, k);
    hide Linked, Current, Drop, After;
    var i := e.i;
    var j := nxt[i];
    sym[i] := e.a + e.b;
    alive[j] := false;
    nxt[i] := nxt[j];
    if nxt[i] < nxt.Length { prv[nxt[i]] := i; }
    assert sym[..] == old(sym[..])[i := e.a + e.b] && alive[..] == old(alive[..])[j := false];
    assert nxt[..] == old(nxt[..])[i := old(nxt[j])];
    assert prv[..] == if nxt[i] < nxt.Length then old(prv[..])[nxt[i] := i as int] else old(prv[..]);
  }

  /** The new pairs on both sides of the merged symbol go on the heap. */
  method PushNeighbours(sym: array<Symbol>, nxt: array<int>, prv: array<int>, alive: array<bool>, ranks: Ranks, i: nat,
                        h: multiset<Entry>, ghost live: seq<nat>, ghost k: int) returns (g: multiset<Entry>)
    requires sym.Length == nxt.Length && Linked(live, nxt[..], prv[..], alive[..])
    requires 0 <= k < |live| && i == live[k] && InRange(h, sym.Length)
    ensures var t := Current(live, sym[..]);
            && (Mergeable(t, ranks, k - 1) ==> EntryOf(live, t, ranks, k - 1) in g)
            && (Mergeable(t, ranks, k) ==> EntryOf(live, t, ranks, k) in g)
            && (forall f :: f in h ==> f in g)
            && (forall f :: f in g ==> (f in h || ((f.a, f.b) in ranks && f.rank == ranks[(f.a, f.b)])))
    ensures InRange(g, sym.Length) && |g| <= |h| + 2
  {
    ghost var t := Current(live, sym[..]);
    assert nxt[..][live[k]] == After(live, k, sym.Length) && prv[..][live[k]] == Ahead(live, k);
    var p, q := prv[i], nxt[i];
    hide Linked, Current;
    g := h;
    if p >= 0 { g := Push(g, ranks, p, sym[p], sym[i]); }
    if q < sym.Length { g := Push(g, ranks, i, sym[i], sym[q]); }
    NeighboursPushed(live, t, ranks, h, k);
  }

  /** The merge of the standing pair at index i with its right neighbour. */
  method MergePair(sym: array<Symbol>, nxt: array<int>, prv: array<int>, alive: array<bool>, ranks: Ranks,
                   e: Entry, rest: multiset<Entry>, ghost live: seq<nat>, ghost k: int, ghost heap: multiset<Entry>)
    returns (g: multiset<Entry>)
    requires nxt != prv
    requires Consistent(live, sym[..], nxt[..], prv[..], alive[..], ranks, heap)
    requires e in heap && rest == heap - multiset{e} && Stands(live, Current(live, sym[..]), e, k)
    modifies sym, nxt, prv, alive
    ensures |Drop(live, k)| == |live| - 1
    ensures Consistent(Drop(live, k), sym[..], nxt[..], prv[..], alive[..], ranks, g)
    ensures Current(Drop(live, k), sym[..]) == MergeAt(old(Current(live, sym[..])), k)
    ensures |g| <= |rest| + 2
  {
    hide Covered, Drop, MergeAt;
    ghost var s := Current(live, sym[..]);
    Unlink(sym, nxt, prv, alive, e, live, k);
    ghost var live' := Drop(live, k);
    DropAt(live, k);
    g := PushNeighbours(sym, nxt, prv, alive, ranks, e.i, rest, live', k);
    PushedCovers(live, s, ranks, heap, e, k, g);
  }

  /** One turn of the loop: the smallest entry is dropped if stale, merged if its pair still stands. */
  method Turn(sym: array<Symbol>, nxt: array<int>, prv: array<int>, alive: array<bool>, ranks: Ranks,
              heap: multiset<Entry>, ghost live: seq<nat>)
    returns (g: multiset<Entry>, ghost live': seq<nat>)
    requires nxt != prv && |heap| > 0
    requires Consistent(live, sym[..], nxt[..], prv[..], alive[..], ranks, heap)
    modifies sym, nxt, prv, alive
    ensures Consistent(live', sym[..], nxt[..], prv[..], alive[..], ranks, g)
    ensures Merged(Current(live', sym[..]), ranks) == Merged(old(Current(live, sym[..])), ranks)
    ensures |g| + 3 * |live'| < |heap| + 3 * |live|
  {
    hide Covered, Current, Merged, MergeAt, Drop, Best, IsMin;
    var e, rest := Pop(heap);
    var i := e.i;
    assert e in heap by { PoppedIsIn(heap, e); }
    ghost var s := Current(live, sym[..]);
    ghost var k := StandsWhenTested(live, sym[..], nxt[..], prv[..], alive[..], e);
    live' := live;
    if !alive[i] || nxt[i] >= sym.Length || sym[i] != e.a || sym[nxt[i]] != e.b {
      StaleIsUseless(live, s, ranks, heap, e);
      g := rest;
    } else {
      MinimumIsBest(live, s, ranks, heap, e, k);
      MergeBest(s, ranks, k);
      g := MergePair(sym, nxt, prv, alive, ranks, e, rest, live, k, heap);
      live' := Drop(live, k);
    }
  }

  lemma {:induction false} PoppedIsIn(h: multiset<Entry>, e: Entry)
    requires IsMin(h, e)
    ensures e in h
  {
  }

  lemma {:induction false} NextAlive(live: seq<nat>, n: nat, i: nat, m: nat)
    requires Increasing(live, n) && i in live && forall k :: 0 <= k < |live| ==> (k < m <==> live[k] < i)
    ensures m < |live| && live[m] == i
  {
    var k :| 0 <= k < |live| && live[k] == i;
  }

  /** The symbols still alive, from left to right. */
  method Alive(sym: array<Symbol>, alive: array<bool>, ghost live: seq<nat>) returns (r: seq<Symbol>)
    requires sym.Length == alive.Length && Increasing(live, sym.Length)
    requires forall i :: 0 <= i < alive.Length ==> (alive[i] <==> i in live)
    ensures r == Current(live, sym[..])
  {
    r := [];
    ghost var m := 0;
    for i := 0 to sym.Length
      invariant m <= |live| && r == Current(live, sym[..])[..m]
      invariant forall k :: 0 <= k < |live| ==> (k < m <==> live[k] < i)
    {
      if alive[i] {
        NextAlive(live, sym.Length, i, m);
        r := r + [sym[i]];
        m := m + 1;
      }
    }
    assert m == |live|;
  }

  /** A list in which every index is alive. */
  lemma {:induction false} AllLinked(live: seq<nat>, n: nat, nxt: seq<int>, prv: seq<int>, alive: seq<bool>)
    requires |live| == |nxt| == |prv| == |alive| == n
    requires forall i :: 0 <= i < n ==> live[i] == i && nxt[i] == i + 1 && prv[i] == i - 1 && alive[i]
    ensures Linked(live, nxt, prv, alive) && Increasing(live, n)
  {
    forall i | 0 <= i < n ensures i in live { assert live[i] == i; }
    forall k | 0 <= k < n ensures nxt[live[k]] == After(live, k, n) && prv[live[k]] == Ahead(live, k) {
      assert live[k] == k;
    }
    hide After, Ahead;
  }

  /** The heap at the start: an entry for every pair with a rule. */
  method FirstHeap(s: seq<Symbol>, ranks: Ranks, ghost live: seq<nat>) returns (heap: multiset<Entry>)
    requires |s| >= 2 && |live| == |s| && forall i :: 0 <= i < |s| ==> live[i] == i
    ensures Covered(live, s, ranks, heap) && InRange(heap, |s|)
  {
    heap := multiset{};
    for i := 0 to |s| - 1
      invariant InRange(heap, |s|)
      invariant forall e :: e in heap ==> (e.a, e.b) in ranks && e.rank == ranks[(e.a, e.b)]
      invariant forall k :: k < i && Mergeable(s, ranks, k) ==> EntryOf(live, s, ranks, k) in heap
    {
      heap := Push(heap, ranks, i, s[i], s[i + 1]);
    }
  }

  /** With no entry left no pair can merge. */
  lemma {:induction false} EmptyHeapIsDone(live: seq<nat>, s: seq<Symbol>, ranks: Ranks, h: multiset<Entry>)
    requires |live| == |s| && Covered(live, s, ranks, h)
    ensures |h| == 0 ==> Merged(s, ranks) == s
  {
    hide Merged;
    if i :| Mergeable(s, ranks, i) {
      assert EntryOf(live, s, ranks, i) in h;
    } else {
      NothingToMerge(s, ranks);
    }
  }

  /** Pop until the heap is empty. */
  method MergeAll(sym: array<Symbol>, nxt: array<int>, prv: array<int>, alive: array<bool>, ranks: Ranks,
                  first: multiset<Entry>, ghost live: seq<nat>)
    returns (ghost end: seq<nat>)
    requires nxt != prv && Consistent(live, sym[..], nxt[..], prv[..], alive[..], ranks, first)
    modifies sym, nxt, prv, alive
    ensures Linked(end, nxt[..], prv[..], alive[..])
    ensures Current(end, sym[..]) == Merged(old(Current(live, sym[..])), ranks)
  {
    hide Merged, Covered, Current;
    var heap := first;
    end := live;
    while |heap| > 0
      invariant Consistent(end, sym[..], nxt[..], prv[..], alive[..], ranks, heap)
      invariant Merged(Current(end, sym[..]), ranks) == Merged(old(Current(live, sym[..])), ranks)
      decreases |heap| + 3 * |end|
    {
      heap, end := Turn(sym, nxt, prv, alive, ranks, heap, end);
    }
    EmptyHeapIsDone(end, Current(end, sym[..]), ranks, heap);
  }

  /** The merges by rank, with the heap and the linked list. */
  method Encode(word: string, ranks: Ranks) returns (r: seq<Symbol>)
    ensures r == Merged(Characters(word), ranks)
  {
    hide Merged, Covered, Linked, Text;
    var n := |word|;
    r := Characters(word);
    if n < 2 {
      NothingToMerge(r, ranks);
      return;
    }
    var sym := new Symbol[n](i requires 0 <= i < n => [word[i]]);
    var nxt, prv := new int[n](i => i + 1), new int[n](i => (i as int) - 1 as int);
    var alive := new bool[n](i => true);
    ghost var live: seq<nat> := seq(n, i => i);
    var heap := FirstHeap(r, ranks, live);
    AllLinked(live, n, nxt[..], prv[..], alive[..]);
    assert Current(live, sym[..]) == r;
    live := MergeAll(sym, nxt, prv, alive, ranks, heap, live);
    LinkedFacts(live, nxt[..], prv[..], alive[..]);
    r := Alive(sym, alive, live);
  }

  lemma {:induction false} LinkedFacts(live: seq<nat>, nxt: seq<int>, prv: seq<int>, alive: seq<bool>)
    requires Linked(live, nxt, prv, alive)
    ensures |nxt| == |alive| && Increasing(live, |nxt|)
    ensures forall i :: 0 <= i < |alive| ==> (alive[i] <==> i in live)
  {
  }
}
