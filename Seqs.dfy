/** Array.prototype.filter and Array.prototype.slice, as the dashboard uses
    them, with the facts about them the rest of the model relies on. */
module Seqs {

  /** `r` can be obtained from `s` by dropping elements, without reordering. */
  ghost predicate IsSubsequence<T>(r: seq<T>, s: seq<T>)
    decreases |s|
  {
    r == [] || (s != [] && ((r[0] == s[0] && IsSubsequence(r[1..], s[1..])) || IsSubsequence(r, s[1..])))
  }

  /** Array.prototype.filter with a side-effect-free callback. */
  function Filter<T(!new)>(s: seq<T>, keep: T -> bool): (r: seq<T>)
    ensures |r| <= |s|
    decreases |s|
  {
    if s == [] then []
    else if keep(s[0]) then [s[0]] + Filter(s[1..], keep)
    else Filter(s[1..], keep)
  }

  /** When every element passes, the filter returns the array unchanged. */
  lemma {:induction false} FilterAllKept<T(!new)>(s: seq<T>, keep: T -> bool)
    requires forall i :: 0 <= i < |s| ==> keep(s[i])
    ensures Filter(s, keep) == s
    decreases |s|
  {
    if s != [] {
      assert keep(s[0]);
      FilterAllKept(s[1..], keep);
    }
  }

  /** When no element passes, the filter returns an empty array. */
  lemma {:induction false} FilterNoneKept<T(!new)>(s: seq<T>, keep: T -> bool)
    requires forall i :: 0 <= i < |s| ==> !keep(s[i])
    ensures Filter(s, keep) == []
    decreases |s|
  {
    if s != [] {
      assert !keep(s[0]);
      FilterNoneKept(s[1..], keep);
    }
  }

  /** An element survives the filter exactly when it was there and passes. */
  lemma {:induction false} FilterMembers<T(!new)>(s: seq<T>, keep: T -> bool)
    ensures forall x :: x in Filter(s, keep) <==> x in s && keep(x)
    decreases |s|
  {
    if s != [] {
      FilterMembers(s[1..], keep);
      assert forall x :: x in s <==> x == s[0] || x in s[1..];
    }
  }

  /** The filter keeps nothing exactly when no element passes. */
  lemma FilterEmptyIffNoneKept<T(!new)>(s: seq<T>, keep: T -> bool)
    ensures Filter(s, keep) == [] <==> forall i :: 0 <= i < |s| ==> !keep(s[i])
  {
    FilterMembers(s, keep);
    if Filter(s, keep) == [] {
      forall i | 0 <= i < |s| ensures !keep(s[i]) {
        assert s[i] in s;
      }
    } else {
      FilterNoneKeptContra(s, keep);
    }
  }

  lemma FilterNoneKeptContra<T(!new)>(s: seq<T>, keep: T -> bool)
    requires Filter(s, keep) != []
    ensures exists i :: 0 <= i < |s| && keep(s[i])
  {
    FilterMembers(s, keep);
    var x := Filter(s, keep)[0];
    assert x in Filter(s, keep);
    var i :| 0 <= i < |s| && s[i] == x;
  }

  /** Filtering a concatenation filters each part and keeps them in order. */
  lemma {:induction false} FilterAppend<T(!new)>(a: seq<T>, b: seq<T>, keep: T -> bool)
    ensures Filter(a + b, keep) == Filter(a, keep) + Filter(b, keep)
    decreases |a|
  {
    if a != [] {
      assert (a + b)[1..] == a[1..] + b;
      FilterAppend(a[1..], b, keep);
    } else {
      assert a + b == b;
    }
  }

  /** Filtering an array extended by one element. */
  lemma FilterSnoc<T(!new)>(s: seq<T>, x: T, keep: T -> bool)
    ensures Filter(s + [x], keep) == Filter(s, keep) + (if keep(x) then [x] else [])
  {
    FilterAppend(s, [x], keep);
    assert [x][1..] == [];
  }

  /** The filtered array is an order-preserving subsequence of the input. */
  lemma {:induction false} FilterIsSubsequence<T(!new)>(s: seq<T>, keep: T -> bool)
    ensures IsSubsequence(Filter(s, keep), s)
    decreases |s|
  {
    if s != [] {
      FilterIsSubsequence(s[1..], keep);
      if keep(s[0]) {
        assert Filter(s, keep)[1..] == Filter(s[1..], keep);
      } else {
        SubsequenceDropHead(Filter(s, keep), s);
      }
    }
  }

  lemma SubsequenceDropHead<T>(r: seq<T>, s: seq<T>)
    requires s != [] && IsSubsequence(r, s[1..])
    ensures IsSubsequence(r, s)
  {
  }

  /** Filtering twice with the same callback changes nothing the second time. */
  lemma FilterIdempotent<T(!new)>(s: seq<T>, keep: T -> bool)
    ensures Filter(Filter(s, keep), keep) == Filter(s, keep)
  {
    var r := Filter(s, keep);
    FilterMembers(s, keep);
    assert forall i :: 0 <= i < |r| ==> r[i] in r;
    FilterAllKept(r, keep);
  }

  function Min(a: int, b: int): int {
    if a <= b then a else b
  }

  /** Array.prototype.slice(from, to) for non-negative bounds: both bounds
      are clamped to the length, and an empty range gives an empty array. */
  function Slice<T>(s: seq<T>, from: nat, to: nat): (r: seq<T>)
    ensures |r| <= |s| && (from <= to ==> |r| <= to - from)
    ensures from <= |s| && to <= |s| && from <= to ==> r == s[from..to]
    ensures forall i :: 0 <= i < |r| ==> from + i < |s| && r[i] == s[from + i]
    ensures from < |s| && from < to ==> r != []
  {
    var lo := Min(from, |s|);
    var hi := Min(to, |s|);
    if hi <= lo then [] else s[lo..hi]
  }
}
