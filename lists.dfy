/** Order-preserving filtering and mapping of sequences, as Array.prototype.filter,
    forEach and Python's for/append loops do them, with an independent
    characterisation of what a filter keeps. */
module Lists {

  /** The elements of s that satisfy keep, in their order in s. */
  function Filter<T>(s: seq<T>, keep: T -> bool): seq<T> {
    if s == [] then []
    else Filter(s[..|s| - 1], keep) + (if keep(s[|s| - 1]) then [s[|s| - 1]] else [])
  }

  /** The positions in s of the elements that satisfy keep, ascending. */
  ghost function FilterIndices<T>(s: seq<T>, keep: T -> bool): seq<nat> {
    if s == [] then []
    else FilterIndices(s[..|s| - 1], keep) + (if keep(s[|s| - 1]) then [|s| - 1] else [])
  }

  /** sel consists of the elements of s at the strictly increasing positions idx,
      and idx holds exactly the positions whose element satisfies keep. */
  ghost predicate SelectsExactly<T>(sel: seq<T>, s: seq<T>, keep: T -> bool, idx: seq<nat>) {
    && |idx| == |sel|
    && (forall k :: 0 <= k < |idx| ==> idx[k] < |s| && sel[k] == s[idx[k]])
    && (forall k, l :: 0 <= k < l < |idx| ==> idx[k] < idx[l])
    && (forall j :: 0 <= j < |s| ==> (keep(s[j]) <==> j in idx))
  }

  lemma {:induction false} FilterSelects<T>(s: seq<T>, keep: T -> bool)
    ensures SelectsExactly(Filter(s, keep), s, keep, FilterIndices(s, keep))
  {
    if s != [] {
      var init := s[..|s| - 1];
      FilterSelects(init, keep);
      var idx := FilterIndices(s, keep);
      var idx0 := FilterIndices(init, keep);
      assert forall j :: 0 <= j < |init| ==> init[j] == s[j];
      assert forall k :: 0 <= k < |idx0| ==> idx[k] == idx0[k];
    }
  }

  /** Filtering keeps something exactly when some element satisfies keep. */
  lemma {:induction false} FilterEmpty<T>(s: seq<T>, keep: T -> bool)
    ensures Filter(s, keep) == [] <==> forall j :: 0 <= j < |s| ==> !keep(s[j])
  {
    if s != [] {
      var init := s[..|s| - 1];
      FilterEmpty(init, keep);
      assert forall j :: 0 <= j < |init| ==> init[j] == s[j];
    }
  }

  /** Filtering a longer prefix adds at most its last element: the filter grows one element at a time. */
  lemma FilterSnoc<T>(s: seq<T>, i: nat, keep: T -> bool)
    requires i < |s|
    ensures Filter(s[..i + 1], keep) == Filter(s[..i], keep) + (if keep(s[i]) then [s[i]] else [])
  {
    assert s[..i + 1][..i] == s[..i];
  }

  /** f applied to every element of s. */
  function MapTo<T, U>(s: seq<T>, f: T -> U): (r: seq<U>)
    ensures |r| == |s| && forall k :: 0 <= k < |s| ==> r[k] == f(s[k])
  {
    seq(|s|, k requires 0 <= k < |s| => f(s[k]))
  }

  lemma MapToSnoc<T, U>(s: seq<T>, x: T, f: T -> U)
    ensures MapTo(s + [x], f) == MapTo(s, f) + [f(x)]
  {
  }
}
