/** Order-preserving filtering and counting over sequences, the shape of
    Swift's `filter` and `filter { }.count`. */
module Seqs {

  /** The elements satisfying `p`, in their original order. */
  function Filter<T>(s: seq<T>, p: T -> bool): (r: seq<T>)
    ensures |r| <= |s|
    ensures forall i :: 0 <= i < |r| ==> p(r[i])
    ensures multiset(r) <= multiset(s)
    decreases |s|
  {
    if |s| == 0 then []
    else
      var rest := Filter(s[1..], p);
      assert s == [s[0]] + s[1..];
      (if p(s[0]) then [s[0]] else []) + rest
  }

  /** Every element that passes is kept. */
  lemma {:induction false} FilterKeeps<T>(s: seq<T>, p: T -> bool)
    ensures forall i :: 0 <= i < |s| && p(s[i]) ==> s[i] in Filter(s, p)
    decreases |s|
  {
    if |s| > 0 {
      FilterKeeps(s[1..], p);
      assert forall i :: 1 <= i < |s| ==> s[i] == s[1..][i - 1];
    }
  }

  /** Nothing is kept exactly when nothing passes. */
  lemma {:induction false} FilterEmptyIff<T>(s: seq<T>, p: T -> bool)
    ensures Filter(s, p) == [] <==> forall i :: 0 <= i < |s| ==> !p(s[i])
    decreases |s|
  {
    if |s| > 0 {
      FilterEmptyIff(s[1..], p);
      assert Filter(s, p) == (if p(s[0]) then [s[0]] else []) + Filter(s[1..], p);
      assert forall i :: 1 <= i < |s| ==> s[i] == s[1..][i - 1];
    }
  }

  /** Filtering distributes over concatenation: kept elements keep their
      relative order. */
  lemma {:induction false} FilterAppend<T>(a: seq<T>, b: seq<T>, p: T -> bool)
    ensures Filter(a + b, p) == Filter(a, p) + Filter(b, p)
    decreases |a|
  {
    if |a| == 0 {
      assert a + b == b;
    } else {
      assert (a + b)[0] == a[0];
      assert (a + b)[1..] == a[1..] + b;
      FilterAppend(a[1..], b, p);
    }
  }

  /** A sequence whose every element passes is kept whole; one whose every
      element fails is dropped. */
  lemma FilterAllOrNone<T>(s: seq<T>, p: T -> bool)
    ensures (forall i :: 0 <= i < |s| ==> p(s[i])) ==> Filter(s, p) == s
    ensures (forall i :: 0 <= i < |s| ==> !p(s[i])) ==> Filter(s, p) == []
  {
    if forall i :: 0 <= i < |s| ==> p(s[i]) {
      FilterAll(s, p);
    }
    if forall i :: 0 <= i < |s| ==> !p(s[i]) {
      FilterNone(s, p);
    }
  }

  lemma {:induction false} FilterAll<T>(s: seq<T>, p: T -> bool)
    requires forall i :: 0 <= i < |s| ==> p(s[i])
    ensures Filter(s, p) == s
    decreases |s|
  {
    if |s| > 0 {
      assert forall i :: 0 <= i < |s[1..]| ==> s[1..][i] == s[i + 1];
      FilterAll(s[1..], p);
      assert s == [s[0]] + s[1..];
    }
  }

  lemma {:induction false} FilterNone<T>(s: seq<T>, p: T -> bool)
    requires forall i :: 0 <= i < |s| ==> !p(s[i])
    ensures Filter(s, p) == []
    decreases |s|
  {
    if |s| > 0 {
      assert forall i :: 0 <= i < |s[1..]| ==> s[1..][i] == s[i + 1];
      FilterNone(s[1..], p);
    }
  }

  /** An element passing `p` and its complement split the sequence. */
  lemma FilterSplit<T>(s: seq<T>, p: T -> bool, q: T -> bool)
    requires forall i :: 0 <= i < |s| ==> (p(s[i]) <==> !q(s[i]))
    ensures multiset(Filter(s, p)) + multiset(Filter(s, q)) == multiset(s)
    ensures |Filter(s, p)| + |Filter(s, q)| == |s|
  {
    FilterSplitMultiset(s, p, q);
    var a, b := Filter(s, p), Filter(s, q);
    assert |multiset(a) + multiset(b)| == |a| + |b|;
  }

  lemma {:induction false} FilterSplitMultiset<T>(s: seq<T>, p: T -> bool, q: T -> bool)
    requires forall i :: 0 <= i < |s| ==> (p(s[i]) <==> !q(s[i]))
    ensures multiset(Filter(s, p)) + multiset(Filter(s, q)) == multiset(s)
    decreases |s|
  {
    if |s| > 0 {
      var t := s[1..];
      assert forall i :: 0 <= i < |t| ==> t[i] == s[i + 1];
      FilterSplitMultiset(t, p, q);
      FilterCons(s, p);
      FilterCons(s, q);
    }
  }

  /** The first element's contribution to a filter, counted as a multiset. */
  lemma FilterCons<T>(s: seq<T>, p: T -> bool)
    requires |s| > 0
    ensures multiset(Filter(s, p)) == (if p(s[0]) then multiset{s[0]} else multiset{}) + multiset(Filter(s[1..], p))
    ensures |Filter(s, p)| == (if p(s[0]) then 1 else 0) + |Filter(s[1..], p)|
    ensures multiset(s) == multiset{s[0]} + multiset(s[1..])
  {
    assert s == [s[0]] + s[1..];
  }

  /** `x` satisfies exactly one of `p`, `q` and `r`. */
  predicate ExactlyOne<T>(p: T -> bool, q: T -> bool, r: T -> bool, x: T) {
    (p(x) && !q(x) && !r(x)) || (!p(x) && q(x) && !r(x)) || (!p(x) && !q(x) && r(x))
  }

  /** Three predicates of which each element satisfies exactly one split the
      sequence three ways. */
  lemma FilterSplit3<T>(s: seq<T>, p: T -> bool, q: T -> bool, r: T -> bool)
    requires forall i :: 0 <= i < |s| ==> ExactlyOne(p, q, r, s[i])
    ensures multiset(Filter(s, p)) + multiset(Filter(s, q)) + multiset(Filter(s, r)) == multiset(s)
    ensures |Filter(s, p)| + |Filter(s, q)| + |Filter(s, r)| == |s|
  {
    FilterSplit3Multiset(s, p, q, r);
    var a, b, c := Filter(s, p), Filter(s, q), Filter(s, r);
    assert |multiset(a) + multiset(b) + multiset(c)| == |a| + |b| + |c|;
  }

  lemma {:induction false} FilterSplit3Multiset<T>(s: seq<T>, p: T -> bool, q: T -> bool, r: T -> bool)
    requires forall i :: 0 <= i < |s| ==> ExactlyOne(p, q, r, s[i])
    ensures multiset(Filter(s, p)) + multiset(Filter(s, q)) + multiset(Filter(s, r)) == multiset(s)
    decreases |s|
  {
    if |s| > 0 {
      var t := s[1..];
      assert forall i :: 0 <= i < |t| ==> t[i] == s[i + 1];
      FilterSplit3Multiset(t, p, q, r);
      FilterCons(s, p);
      FilterCons(s, q);
      FilterCons(s, r);
      assert ExactlyOne(p, q, r, s[0]);
    }
  }

  /** Filtering by `p` and then by `q` keeps exactly what passes both. */
  lemma {:induction false} FilterTwice<T>(s: seq<T>, p: T -> bool, q: T -> bool, both: T -> bool)
    requires forall x :: both(x) == (p(x) && q(x))
    ensures Filter(Filter(s, p), q) == Filter(s, both)
    decreases |s|
  {
    if |s| > 0 {
      FilterTwice(s[1..], p, q, both);
      var head := if p(s[0]) then [s[0]] else [];
      assert Filter(s, p) == head + Filter(s[1..], p);
      FilterAppend(head, Filter(s[1..], p), q);
      if p(s[0]) {
        assert head[1..] == [];
      }
    }
  }

  /** The positions from `lo` on whose elements satisfy `p`, increasing: an
      independent description of what `Filter` keeps. */
  function Positions<T>(s: seq<T>, p: T -> bool, lo: nat): (idx: seq<nat>)
    requires lo <= |s|
    ensures forall k :: 0 <= k < |idx| ==> lo <= idx[k] < |s| && p(s[idx[k]])
    ensures forall k, l :: 0 <= k < l < |idx| ==> idx[k] < idx[l]
    ensures forall i :: lo <= i < |s| && p(s[i]) ==> i in idx
    decreases |s| - lo
  {
    if lo == |s| then []
    else
      var rest := Positions(s, p, lo + 1);
      if p(s[lo]) then [lo] + rest else rest
  }

  /** `Filter` keeps the elements at `Positions`, in that order: the kept
      elements appear in their original order, each passing occurrence once. */
  lemma {:induction false} FilterAtPositions<T>(s: seq<T>, p: T -> bool, lo: nat)
    requires lo <= |s|
    ensures |Filter(s[lo..], p)| == |Positions(s, p, lo)|
    ensures forall k :: 0 <= k < |Positions(s, p, lo)| ==> Filter(s[lo..], p)[k] == s[Positions(s, p, lo)[k]]
    decreases |s| - lo
  {
    if lo < |s| {
      FilterAtPositions(s, p, lo + 1);
      var f, rest := Filter(s[lo..], p), Filter(s[lo + 1..], p);
      var idx, later := Positions(s, p, lo), Positions(s, p, lo + 1);
      FilterFrom(s, p, lo);
      if p(s[lo]) {
        assert idx == [lo] + later;
        PickedInFront(s, rest, later, lo);
      } else {
        assert f == rest && idx == later;
      }
    }
  }

  /** Putting position `lo` in front of positions that pick `rest` out of
      `s` picks `[s[lo]] + rest`. */
  lemma PickedInFront<T>(s: seq<T>, rest: seq<T>, later: seq<nat>, lo: nat)
    requires lo < |s| && |rest| == |later|
    requires forall k :: 0 <= k < |later| ==> later[k] < |s| && rest[k] == s[later[k]]
    ensures forall k :: 0 <= k < |later| + 1 ==> ([lo] + later)[k] < |s| && ([s[lo]] + rest)[k] == s[([lo] + later)[k]]
  {
  }

  /** One step of `Filter` from position `lo`. */
  lemma FilterFrom<T>(s: seq<T>, p: T -> bool, lo: nat)
    requires lo < |s|
    ensures Filter(s[lo..], p) == (if p(s[lo]) then [s[lo]] else []) + Filter(s[lo + 1..], p)
  {
    assert s[lo..][0] == s[lo] && s[lo..][1..] == s[lo + 1..];
  }

  /** `Filter` keeps every passing element as often as it occurs and drops
      every other one. */
  lemma {:induction false} FilterCounts<T>(s: seq<T>, p: T -> bool)
    ensures forall x :: multiset(Filter(s, p))[x] == if p(x) then multiset(s)[x] else 0
    decreases |s|
  {
    if |s| > 0 {
      FilterCounts(s[1..], p);
      assert s == [s[0]] + s[1..];
    }
  }

  /** `s.filter(p).count`. */
  function Count<T>(s: seq<T>, p: T -> bool): (n: nat)
    ensures n <= |s|
    ensures n == 0 <==> forall i :: 0 <= i < |s| ==> !p(s[i])
    ensures n == |s| <==> forall i :: 0 <= i < |s| ==> p(s[i])
    decreases |s|
  {
    if |s| == 0 then 0
    else
      var rest := Count(s[1..], p);
      assert forall i :: 1 <= i < |s| ==> s[i] == s[1..][i - 1];
      (if p(s[0]) then 1 else 0) + rest
  }

  /** Counting is the length of the filter. */
  lemma {:induction false} CountIsFilterLength<T>(s: seq<T>, p: T -> bool)
    ensures Count(s, p) == |Filter(s, p)|
    decreases |s|
  {
    if |s| > 0 {
      CountIsFilterLength(s[1..], p);
    }
  }
}
