/** Byte-pair encoding of one word (compiler/frontend/hf_tokenizer.py, _bpe): the plain statement of
    what is computed, and what holds of it. */
module Bpe {

  type Symbol = string
  type Ranks = map<(Symbol, Symbol), nat>

  /** The pair at i has a merge rule. */
  predicate Mergeable(s: seq<Symbol>, ranks: Ranks, i: int) {
    0 <= i < |s| - 1 && (s[i], s[i + 1]) in ranks
  }

  function RankAt(s: seq<Symbol>, ranks: Ranks, i: int): nat
    requires Mergeable(s, ranks, i)
  {
    ranks[(s[i], s[i + 1])]
  }

  /** The pair at i goes before the pair at j: lower rank first, equal ranks left to right. */
  predicate Before(s: seq<Symbol>, ranks: Ranks, i: int, j: int)
    requires Mergeable(s, ranks, i) && Mergeable(s, ranks, j)
  {
    RankAt(s, ranks, i) < RankAt(s, ranks, j) || (RankAt(s, ranks, i) == RankAt(s, ranks, j) && i <= j)
  }

  ghost predicate Best(s: seq<Symbol>, ranks: Ranks, i: int) {
    Mergeable(s, ranks, i) && forall j :: Mergeable(s, ranks, j) ==> Before(s, ranks, i, j)
  }

  /** The best pair among the first n, or -1. */
  function BestOf(s: seq<Symbol>, ranks: Ranks, n: nat): (i: int)
    ensures i == -1 || (Mergeable(s, ranks, i) && i < n)
  {
    if n == 0 then -1
    else
      var i := BestOf(s, ranks, n - 1);
      if !Mergeable(s, ranks, n - 1) then i
      else if i >= 0 && Before(s, ranks, i, n - 1) then i else n - 1
  }

  lemma {:induction false} BestOfIs(s: seq<Symbol>, ranks: Ranks, n: nat)
    ensures var i := BestOf(s, ranks, n);
            && (i == -1 ==> forall j :: j < n ==> !Mergeable(s, ranks, j))
            && (i >= 0 ==> forall j :: j < n && Mergeable(s, ranks, j) ==> Before(s, ranks, i, j))
  {
    if n > 0 { BestOfIs(s, ranks, n - 1); }
  }

  /** There is one best pair: the one that is found. */
  lemma {:induction false} BestIsFound(s: seq<Symbol>, ranks: Ranks, i: int)
    ensures Best(s, ranks, i) <==> i >= 0 && i == BestOf(s, ranks, |s|)
  {
    BestOfIs(s, ranks, |s|);
  }

  function MergeAt(s: seq<Symbol>, i: int): (t: seq<Symbol>)
    requires 0 <= i < |s| - 1
    ensures |t| == |s| - 1
  {
    s[..i] + [s[i] + s[i + 1]] + s[i + 2..]
  }

  /** Merge the leftmost adjacent pair of lowest rank until no adjacent pair has a rule. */
  function Merged(s: seq<Symbol>, ranks: Ranks): seq<Symbol>
    decreases |s|
  {
    var i := BestOf(s, ranks, |s|);
    if i < 0 then s else Merged(MergeAt(s, i), ranks)
  }

  lemma {:induction false} MergeBest(s: seq<Symbol>, ranks: Ranks, i: int)
    requires Best(s, ranks, i)
    ensures Merged(s, ranks) == Merged(MergeAt(s, i), ranks)
  {
    BestIsFound(s, ranks, i);
  }

  lemma {:induction false} NothingToMerge(s: seq<Symbol>, ranks: Ranks)
    requires forall i :: !Mergeable(s, ranks, i)
    ensures Merged(s, ranks) == s
  {
  }

  /** No adjacent pair of the result has a merge rule. */
  lemma {:induction false} NoPairLeft(s: seq<Symbol>, ranks: Ranks, i: int)
    ensures !Mergeable(Merged(s, ranks), ranks, i)
    decreases |s|
  {
    var b := BestOf(s, ranks, |s|);
    if b < 0 { BestOfIs(s, ranks, |s|); } else { NoPairLeft(MergeAt(s, b), ranks, i); }
  }

  // ---------------------------------------------------------------- the text

  function Text(s: seq<Symbol>): string {
    if s == [] then "" else s[0] + Text(s[1..])
  }

  lemma {:induction false} TextOfBoth(s: seq<Symbol>, t: seq<Symbol>)
    ensures Text(s + t) == Text(s) + Text(t)
  {
    if s == [] {
      assert s + t == t;
    } else {
      assert (s + t)[1..] == s[1..] + t;
      TextOfBoth(s[1..], t);
    }
  }

  lemma {:induction false} TextOfMerge(s: seq<Symbol>, i: int)
    requires 0 <= i < |s| - 1
    ensures Text(MergeAt(s, i)) == Text(s)
  {
    var l, m, r := s[..i], [s[i] + s[i + 1]], s[i + 2..];
    assert s == l + [s[i], s[i + 1]] + r;
    TextOfBoth(l + m, r);
    TextOfBoth(l, m);
    TextOfBoth(l + [s[i], s[i + 1]], r);
    TextOfBoth(l, [s[i], s[i + 1]]);
    assert Text([s[i], s[i + 1]]) == s[i] + Text([s[i + 1]]);
  }

  /** Merging conserves the text. */
  lemma {:induction false} TextConserved(s: seq<Symbol>, ranks: Ranks)
    ensures Text(Merged(s, ranks)) == Text(s)
    decreases |s|
  {
    var i := BestOf(s, ranks, |s|);
    if i >= 0 {
      TextOfMerge(s, i);
      TextConserved(MergeAt(s, i), ranks);
    }
  }

  /** The left and right part of some merge rule. */
  predicate FromRule(t: Symbol, ranks: Ranks) {
    exists p :: p in ranks && t == p.0 + p.1
  }

  /** Every symbol of the result was there from the start or is the result of a merge rule. */
  lemma {:induction false} SymbolsFromRules(s: seq<Symbol>, ranks: Ranks, t: Symbol)
    requires t in Merged(s, ranks)
    ensures t in s || FromRule(t, ranks)
    decreases |s|
  {
    var i := BestOf(s, ranks, |s|);
    if i >= 0 {
      SymbolsFromRules(MergeAt(s, i), ranks, t);
      var p := (s[i], s[i + 1]);
      assert p in ranks;
    }
  }

  function Characters(word: string): (s: seq<Symbol>)
    ensures |s| == |word|
  {
    seq(|word|, i requires 0 <= i < |word| => [word[i]])
  }

  lemma {:induction false} TextOfCharacters(word: string)
    ensures Text(Characters(word)) == word
  {
    if word != "" {
      assert Characters(word)[1..] == Characters(word[1..]);
      TextOfCharacters(word[1..]);
      assert word == [word[0]] + word[1..];
    }
  }

  /** The symbols of an encoded word spell the word. */
  lemma {:induction false} EncodedText(word: string, ranks: Ranks)
    ensures Text(Merged(Characters(word), ranks)) == word
  {
    TextConserved(Characters(word), ranks);
    TextOfCharacters(word);
  }
}
