/** DDR ranges and the bounded range sets of the batch scheduler
(compiler/runtime/sa/sa_context.c:306-327). */
module Ranges {

  const CAPACITY := 256

  /** The bytes [begin, end). */
  datatype Range = Range(begin: int, end: int)

  predicate Meets(r: Range, s: Range) {
    r.begin < s.end && s.begin < r.end
  }

  /** Some range of rs meets some range of ss. */
  predicate Overlap(ss: seq<Range>, rs: seq<Range>) {
    exists i, j :: 0 <= i < |ss| && 0 <= j < |rs| && Meets(rs[j], ss[i])
  }

  /** What a set that received ss answers for rs: beyond its capacity it stands for all of DDR. */
  predicate Hits(ss: seq<Range>, rs: seq<Range>) {
    rs != [] && (|ss| > CAPACITY || Overlap(ss, rs))
  }

  predicate Covers(rs: seq<Range>, a: int) {
    exists i :: 0 <= i < |rs| && rs[i].begin <= a < rs[i].end
  }

  /** A byte common to both sides is never missed. */
  lemma {:induction false} SharedByteHits(ss: seq<Range>, rs: seq<Range>, a: int)
    requires Covers(ss, a) && Covers(rs, a)
    ensures Overlap(ss, rs) && Hits(ss, rs)
  {
    var i :| 0 <= i < |ss| && ss[i].begin <= a < ss[i].end;
    var j :| 0 <= j < |rs| && rs[j].begin <= a < rs[j].end;
    assert Meets(rs[j], ss[i]);
  }

  lemma {:induction false} OverlapConcat(ss: seq<Range>, tt: seq<Range>, rs: seq<Range>)
    ensures Overlap(ss + tt, rs) <==> Overlap(ss, rs) || Overlap(tt, rs)
  {
    var st := ss + tt;
    if Overlap(st, rs) {
      var i, j :| 0 <= i < |st| && 0 <= j < |rs| && Meets(rs[j], st[i]);
      if i < |ss| { assert Meets(rs[j], ss[i]); } else { assert Meets(rs[j], tt[i - |ss|]); }
    }
    if Overlap(ss, rs) {
      var i, j :| 0 <= i < |ss| && 0 <= j < |rs| && Meets(rs[j], ss[i]);
      assert Meets(rs[j], st[i]);
    }
    if Overlap(tt, rs) {
      var i, j :| 0 <= i < |tt| && 0 <= j < |rs| && Meets(rs[j], tt[i]);
      assert Meets(rs[j], st[|ss| + i]);
    }
  }

  lemma {:induction false} CoversConcat(ss: seq<Range>, tt: seq<Range>, a: int)
    ensures Covers(ss + tt, a) <==> Covers(ss, a) || Covers(tt, a)
  {
    var st := ss + tt;
    if Covers(ss, a) {
      var i :| 0 <= i < |ss| && ss[i].begin <= a < ss[i].end;
      assert st[i] == ss[i];
    }
    if Covers(tt, a) {
      var i :| 0 <= i < |tt| && tt[i].begin <= a < tt[i].end;
      assert st[|ss| + i] == tt[i];
    }
  }

  /** A set of DDR ranges in a fixed buffer; once full it becomes "everything". */
  class RangeSet {
    const r: array<Range>
    var n: nat
    var all: bool
    ghost var contents: seq<Range>    // every range added since the last Clear

    ghost predicate Valid()
      reads this, r
    {
      && r.Length == CAPACITY && n <= CAPACITY
      && (all <==> |contents| > CAPACITY)
      && (!all ==> r[..n] == contents)
    }

    constructor ()
      ensures Valid() && contents == [] && fresh(r)
    {
      r := new Range[CAPACITY](_ => Range(0, 0));
      n, all, contents := 0, false, [];
    }

    method Clear()
      requires Valid()
      modifies this
      ensures Valid() && contents == []
    {
      n, all, contents := 0, false, [];
    }

    method Add(rs: seq<Range>)
      requires Valid()
      modifies this, r
      ensures Valid() && contents == old(contents) + rs
    {
      var i := 0;
      while i < |rs| && !all
        invariant 0 <= i <= |rs|
        invariant Valid() && contents == old(contents) + rs[..i]
      {
        if n == CAPACITY {
          all := true;
        } else {
          r[n] := rs[i];
          n := n + 1;
        }
        contents := contents + [rs[i]];
        i := i + 1;
      }
      contents := old(contents) + rs;
    }

    /** Exactly Hits: overflow answers yes, an empty query no. */
    method Overlaps(rs: seq<Range>) returns (b: bool)
      requires Valid()
      ensures b == Hits(contents, rs)
    {
      if |rs| == 0 { return false; }
      if all { return true; }
      for i := 0 to |rs|
        invariant forall p, q :: 0 <= p < |contents| && 0 <= q < i ==> !Meets(rs[q], contents[p])
      {
        for j := 0 to n
          invariant forall p, q :: 0 <= p < |contents| && 0 <= q < i ==> !Meets(rs[q], contents[p])
          invariant forall p :: 0 <= p < j ==> !Meets(rs[i], contents[p])
        {
          if rs[i].begin < r[j].end && r[j].begin < rs[i].end {
            assert Meets(rs[i], contents[j]);
            return true;
          }
        }
      }
      return false;
    }
  }
}
