/** Sorting with a caller-supplied "comes before" relation, as Swift's
    `sorted(by:)` does. Swift does not promise stability, so the model only
    promises a permutation in which no element comes before an earlier one. */
module Sorting {

  /** `less` is a strict order: asymmetric and transitive. */
  ghost predicate StrictOrder<T(!new)>(less: (T, T) -> bool) {
    (forall a, b :: less(a, b) ==> !less(b, a))
    && (forall a, b, c :: less(a, b) && less(b, c) ==> less(a, c))
  }

  /** No element is strictly before an element placed ahead of it. */
  predicate Sorted<T>(s: seq<T>, less: (T, T) -> bool) {
    forall i, j :: 0 <= i < j < |s| ==> !less(s[j], s[i])
  }

  /** Put `x` in front of the first element it comes before. */
  function Insert<T>(x: T, s: seq<T>, less: (T, T) -> bool): (r: seq<T>)
    ensures multiset(r) == multiset(s) + multiset{x}
    ensures |r| == |s| + 1
    decreases |s|
  {
    if |s| == 0 then [x]
    else if less(x, s[0]) then [x] + s
    else
      var rest := Insert(x, s[1..], less);
      assert s == [s[0]] + s[1..];
      [s[0]] + rest
  }

  /** `s.sorted(by: less)`. */
  function SortBy<T>(s: seq<T>, less: (T, T) -> bool): (r: seq<T>)
    ensures multiset(r) == multiset(s)
    ensures |r| == |s|
    decreases |s|
  {
    if |s| == 0 then []
    else
      assert s == [s[0]] + s[1..];
      Insert(s[0], SortBy(s[1..], less), less)
  }

  lemma {:induction false} InsertSorted<T(!new)>(x: T, s: seq<T>, less: (T, T) -> bool)
    requires StrictOrder(less) && Sorted(s, less)
    ensures Sorted(Insert(x, s, less), less)
    decreases |s|
  {
    if |s| > 0 {
      if less(x, s[0]) {
        var r := [x] + s;
        forall i, j | 0 <= i < j < |r| ensures !less(r[j], r[i]) {
          if i == 0 {
            assert r[j] == s[j - 1];
            if j > 1 { assert !less(s[j - 1], s[0]); }
          } else {
            assert r[i] == s[i - 1] && r[j] == s[j - 1];
          }
        }
      } else {
        var rest := Insert(x, s[1..], less);
        assert Sorted(s[1..], less) by {
          forall i, j | 0 <= i < j < |s[1..]| ensures !less(s[1..][j], s[1..][i]) {
            assert s[1..][j] == s[j + 1] && s[1..][i] == s[i + 1];
          }
        }
        InsertSorted(x, s[1..], less);
        var r := [s[0]] + rest;
        forall i, j | 0 <= i < j < |r| ensures !less(r[j], r[i]) {
          if i == 0 {
            assert r[j] == rest[j - 1];
            assert rest[j - 1] in multiset(rest);
            assert rest[j - 1] == x || rest[j - 1] in multiset(s[1..]);
            if rest[j - 1] != x {
              var m :| 0 <= m < |s[1..]| && s[1..][m] == rest[j - 1];
              assert s[m + 1] == rest[j - 1];
            }
          } else {
            assert r[i] == rest[i - 1] && r[j] == rest[j - 1];
          }
        }
      }
    }
  }

  /** The result of `SortBy` is in order whenever `less` is a strict order. */
  lemma {:induction false} SortBySorted<T(!new)>(s: seq<T>, less: (T, T) -> bool)
    requires StrictOrder(less)
    ensures Sorted(SortBy(s, less), less)
    decreases |s|
  {
    if |s| > 0 {
      SortBySorted(s[1..], less);
      InsertSorted(s[0], SortBy(s[1..], less), less);
    }
  }

  /** Lexicographic order on strings by character code (Swift's `<` on
      `String`, without Unicode canonical ordering). */
  predicate StringLess(a: string, b: string)
    decreases |a|
  {
    if |a| == 0 then |b| > 0
    else if |b| == 0 then false
    else if a[0] == b[0] then StringLess(a[1..], b[1..])
    else a[0] < b[0]
  }

  lemma {:induction false} StringLessAsymmetric(a: string, b: string)
    ensures StringLess(a, b) ==> !StringLess(b, a)
    decreases |a|
  {
    if |a| > 0 && |b| > 0 && a[0] == b[0] {
      StringLessAsymmetric(a[1..], b[1..]);
    }
  }

  lemma {:induction false} StringLessTransitive(a: string, b: string, c: string)
    requires StringLess(a, b) && StringLess(b, c)
    ensures StringLess(a, c)
    decreases |a|
  {
    if |a| > 0 && |b| > 0 && |c| > 0 && a[0] == b[0] && b[0] == c[0] {
      StringLessTransitive(a[1..], b[1..], c[1..]);
    }
  }

  lemma StringLessIsStrictOrder()
    ensures StrictOrder((a: string, b: string) => StringLess(a, b))
  {
    forall a: string, b: string ensures StringLess(a, b) ==> !StringLess(b, a) {
      StringLessAsymmetric(a, b);
    }
    forall a: string, b: string, c: string | StringLess(a, b) && StringLess(b, c)
      ensures StringLess(a, c)
    {
      StringLessTransitive(a, b, c);
    }
  }
}
