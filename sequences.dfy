/** Order-preserving filtering and first-element selection over sequences: the LINQ
    `Where`, `Select` and `FirstOrDefault` the endpoints and the repository use. */
module Sequences {
  import opened Wrappers

  /** The elements of `s` that satisfy `keep`, in their order in `s`. */
  function Filter<T(!new)>(s: seq<T>, keep: T -> bool): (r: seq<T>)
    ensures |r| <= |s|
    ensures forall x :: x in r <==> x in s && keep(x)
    ensures forall i :: 0 <= i < |r| ==> keep(r[i])
  {
    if s == [] then []
    else if keep(s[0]) then [s[0]] + Filter(s[1..], keep)
    else Filter(s[1..], keep)
  }

  /** `Select`: `f` applied to each element, in order. */
  function Map<T, U>(s: seq<T>, f: T -> U): (r: seq<U>)
    ensures |r| == |s|
    ensures forall i :: 0 <= i < |s| ==> r[i] == f(s[i])
  {
    seq(|s|, i requires 0 <= i < |s| => f(s[i]))
  }

  /** `FirstOrDefault`, with the default (null) written as `None`. */
  function FirstOrDefault<T>(s: seq<T>): Option<T> {
    if s == [] then None else Some(s[0])
  }

  /** Filtering a concatenation filters each part and keeps the parts in order. */
  lemma {:induction false} FilterAppend<T(!new)>(a: seq<T>, b: seq<T>, keep: T -> bool)
    ensures Filter(a + b, keep) == Filter(a, keep) + Filter(b, keep)
  {
    if a != [] {
      assert (a + b)[1..] == a[1..] + b;
      FilterAppend(a[1..], b, keep);
    } else {
      assert a + b == b;
    }
  }

  /** `s[i]` is the first element of `s` that passes `keep`. */
  predicate IsFirstMatch<T>(s: seq<T>, keep: T -> bool, i: int) {
    0 <= i < |s| && keep(s[i]) && forall j :: 0 <= j < i ==> !keep(s[j])
  }

  /** The first element of the filtered sequence is the first element of `s` that passes,
      and there is none exactly when no element passes. */
  lemma {:induction false} FirstOfFilter<T(!new)>(s: seq<T>, keep: T -> bool)
    ensures FirstOrDefault(Filter(s, keep)) == None <==> forall i :: 0 <= i < |s| ==> !keep(s[i])
    ensures forall i :: IsFirstMatch(s, keep, i) ==> FirstOrDefault(Filter(s, keep)) == Some(s[i])
  {
    if s != [] {
      FirstOfFilter(s[1..], keep);
      forall i | IsFirstMatch(s, keep, i)
        ensures FirstOrDefault(Filter(s, keep)) == Some(s[i])
      {
        if i > 0 {
          assert IsFirstMatch(s[1..], keep, i - 1);
        }
      }
      if forall i :: 0 <= i < |s[1..]| ==> !keep(s[1..][i]) {
        if !keep(s[0]) {
          forall i | 0 <= i < |s| ensures !keep(s[i]) {
            if i > 0 { assert s[i] == s[1..][i - 1]; }
          }
        }
      }
    }
  }
}
