/**
 * Sequence operations shared by the hub pool and the node pool: selecting the member
 * with the smallest key, and splitting a pool into what is kept and what is removed.
 */
module Seqs {
  import opened Wrappers

  /** `k` is a position of a wanted element whose key is no larger than that of any other wanted element. */
  ghost predicate IsSoonest<T>(s: seq<T>, key: T -> int, wanted: T -> bool, k: int) {
    && 0 <= k < |s|
    && wanted(s[k])
    && forall j :: 0 <= j < |s| && wanted(s[j]) ==> key(s[k]) <= key(s[j])
  }

  /**
   * Scans the sequence once for the wanted element with the smallest key; on a tie the
   * earliest such element is chosen. None when no element is wanted.
   */
  method IndexOfSoonest<T>(s: seq<T>, key: T -> int, wanted: T -> bool) returns (r: Option<nat>)
    ensures r.None? <==> forall j :: 0 <= j < |s| ==> !wanted(s[j])
    ensures r.Some? ==> IsSoonest(s, key, wanted, r.value)
    ensures r.Some? ==> forall j :: 0 <= j < r.value && wanted(s[j]) ==> key(s[r.value]) < key(s[j])
  {
    r := None;
    var i := 0;
    while i < |s|
      invariant 0 <= i <= |s|
      invariant r.None? ==> forall j :: 0 <= j < i ==> !wanted(s[j])
      invariant r.Some? ==> r.value < i && IsSoonest(s[..i], key, wanted, r.value)
      invariant r.Some? ==> forall j :: 0 <= j < r.value && wanted(s[j]) ==> key(s[r.value]) < key(s[j])
    {
      if wanted(s[i]) && (r.None? || key(s[i]) < key(s[r.value])) {
        r := Some(i);
      }
      assert s[..i + 1][..i] == s[..i];
      i := i + 1;
    }
    assert s[..i] == s;
  }

  /** The elements of `s` that satisfy `keep`, in their original order. */
  function Filter<T>(s: seq<T>, keep: T -> bool): (r: seq<T>)
    ensures |r| <= |s|
  {
    if s == [] then [] else Filter(s[..|s| - 1], keep) + (if keep(s[|s| - 1]) then [s[|s| - 1]] else [])
  }

  /** The elements of `s` that do not satisfy `keep`, in their original order. */
  function Reject<T>(s: seq<T>, keep: T -> bool): (r: seq<T>)
    ensures |r| <= |s|
  {
    if s == [] then [] else Reject(s[..|s| - 1], keep) + (if keep(s[|s| - 1]) then [] else [s[|s| - 1]])
  }

  /** Appending one element extends exactly one of Filter and Reject by it. */
  lemma FilterRejectSnoc<T>(s: seq<T>, x: T, keep: T -> bool)
    ensures Filter(s + [x], keep) == Filter(s, keep) + (if keep(x) then [x] else [])
    ensures Reject(s + [x], keep) == Reject(s, keep) + (if keep(x) then [] else [x])
  {
    assert (s + [x])[..|s + [x]| - 1] == s;
  }

  /** Filter keeps only elements of `s` that satisfy `keep`; Reject keeps only those that do not. */
  lemma {:induction false} FilterRejectMembers<T>(s: seq<T>, keep: T -> bool)
    ensures forall x :: x in Filter(s, keep) ==> x in s && keep(x)
    ensures forall x :: x in Reject(s, keep) ==> x in s && !keep(x)
  {
    if s != [] {
      FilterRejectMembers(s[..|s| - 1], keep);
      assert forall x :: x in s[..|s| - 1] ==> x in s;
    }
  }

  /** Filtering loses nothing that satisfies the predicate. */
  lemma {:induction false} FilterKeeps<T>(s: seq<T>, keep: T -> bool, x: T)
    requires x in s && keep(x)
    ensures x in Filter(s, keep)
  {
    if s[|s| - 1] != x {
      assert x in s[..|s| - 1] by {
        var i :| 0 <= i < |s| && s[i] == x;
        assert s[..|s| - 1][i] == x;
      }
      FilterKeeps(s[..|s| - 1], keep, x);
    }
  }

  /** `f` takes a different value on every element of `s`: no two elements share a key. */
  ghost predicate DistinctBy<T, K>(s: seq<T>, f: T -> K) {
    forall i, j :: 0 <= i < j < |s| ==> f(s[i]) != f(s[j])
  }

  /** Filtering a sequence whose keys are all different leaves keys that are all different. */
  lemma {:induction false} FilterKeepsDistinct<T, K>(s: seq<T>, keep: T -> bool, f: T -> K)
    requires DistinctBy(s, f)
    ensures DistinctBy(Filter(s, keep), f)
  {
    if s != [] {
      var init, last := s[..|s| - 1], s[|s| - 1];
      assert DistinctBy(init, f) by {
        forall i, j | 0 <= i < j < |init| ensures f(init[i]) != f(init[j]) {
          assert init[i] == s[i] && init[j] == s[j];
        }
      }
      FilterKeepsDistinct(init, keep, f);
      FilterRejectMembers(init, keep);
      assert init + [last] == s;
      FilterRejectSnoc(init, last, keep);
      forall y | y in init ensures f(y) != f(last) {
        var i :| 0 <= i < |init| && init[i] == y;
        assert s[i] == y;
      }
    }
  }

  /** What is kept and what is rejected together are the original elements, each exactly once. */
  lemma {:induction false} FilterRejectSplit<T>(s: seq<T>, keep: T -> bool)
    ensures multiset(Filter(s, keep)) + multiset(Reject(s, keep)) == multiset(s)
    ensures |Filter(s, keep)| + |Reject(s, keep)| == |s|
  {
    if s != [] {
      var init, last := s[..|s| - 1], s[|s| - 1];
      FilterRejectSplit(init, keep);
      assert s == init + [last];
      assert multiset(s) == multiset(init) + multiset{last};
      if keep(last) {
        assert Filter(s, keep) == Filter(init, keep) + [last];
        assert Reject(s, keep) == Reject(init, keep);
      } else {
        assert Filter(s, keep) == Filter(init, keep);
        assert Reject(s, keep) == Reject(init, keep) + [last];
      }
    }
  }

  /**
   * Walks the sequence once and sorts each element into the kept or the removed part;
   * a sweep over a pool is written this way.
   */
  method Partition<T>(s: seq<T>, keep: T -> bool) returns (kept: seq<T>, removed: seq<T>)
    ensures kept == Filter(s, keep)
    ensures removed == Reject(s, keep)
  {
    kept, removed := [], [];
    var i := 0;
    while i < |s|
      invariant 0 <= i <= |s|
      invariant kept == Filter(s[..i], keep)
      invariant removed == Reject(s[..i], keep)
    {
      assert s[..i + 1][..i] == s[..i];
      if keep(s[i]) {
        kept := kept + [s[i]];
      } else {
        removed := removed + [s[i]];
      }
      i := i + 1;
    }
    assert s[..i] == s;
  }

  /** Appending to a sequence keeps every prefix of it. */
  lemma PrefixGrows<T>(a: seq<T>, b: seq<T>, c: seq<T>)
    requires a <= b
    ensures a <= b + c
  {
    assert (b + c)[..|a|] == b[..|a|];
  }

  /** Filter and Reject on three elements of which only the middle one fails `keep`. */
  lemma {:induction false} SweepOfThreeMiddle<T>(a: T, b: T, c: T, keep: T -> bool)
    requires keep(a) && !keep(b) && keep(c)
    ensures Filter([a, b, c], keep) == [a, c] && Reject([a, b, c], keep) == [b]
  {
    var s0: seq<T> := [];
    FilterRejectSnoc(s0, a, keep);
    assert Filter([a], keep) == [a] && Reject([a], keep) == [] by { assert s0 + [a] == [a]; }
    FilterRejectSnoc([a], b, keep);
    assert Filter([a, b], keep) == [a] && Reject([a, b], keep) == [b] by { assert [a] + [b] == [a, b]; }
    FilterRejectSnoc([a, b], c, keep);
    assert [a, b] + [c] == [a, b, c];
  }

  /** Filter and Reject on five elements of which the third and fourth fail `keep`. */
  lemma {:induction false} SweepOfFive<T>(a: T, b: T, c: T, d: T, e: T, keep: T -> bool)
    requires keep(a) && keep(b) && !keep(c) && !keep(d) && keep(e)
    ensures Filter([a, b, c, d, e], keep) == [a, b, e] && Reject([a, b, c, d, e], keep) == [c, d]
  {
    SweepOfThree(a, b, c, keep);
    FilterRejectSnoc([a, b, c], d, keep);
    assert Filter([a, b, c, d], keep) == [a, b] && Reject([a, b, c, d], keep) == [c, d] by {
      assert [a, b, c] + [d] == [a, b, c, d];
    }
    FilterRejectSnoc([a, b, c, d], e, keep);
    assert [a, b, c, d] + [e] == [a, b, c, d, e];
  }

  /** Filter and Reject on three elements of which only the last fails `keep`. */
  lemma {:induction false} SweepOfThree<T>(a: T, b: T, c: T, keep: T -> bool)
    requires keep(a) && keep(b) && !keep(c)
    ensures Filter([a, b, c], keep) == [a, b] && Reject([a, b, c], keep) == [c]
  {
    var s0: seq<T> := [];
    FilterRejectSnoc(s0, a, keep);
    assert Filter([a], keep) == [a] && Reject([a], keep) == [] by { assert s0 + [a] == [a]; }
    FilterRejectSnoc([a], b, keep);
    assert Filter([a, b], keep) == [a, b] && Reject([a, b], keep) == [] by { assert [a] + [b] == [a, b]; }
    FilterRejectSnoc([a, b], c, keep);
    assert [a, b] + [c] == [a, b, c];
  }

  /** Moving one key from the pending set to the done set keeps the two apart and their union fixed. */
  lemma MoveElement<K>(done: set<K>, pending: set<K>, k: K)
    requires k in pending && done !! pending
    ensures |done + {k}| == |done| + 1
    ensures (done + {k}) !! (pending - {k}) && (done + {k}) + (pending - {k}) == done + pending
  {
  }

  /** Removing keys from a map one at a time is removing them all at once. */
  lemma MapRemoveOneMore<K, V>(m: map<K, V>, removed: set<K>, k: K)
    ensures (m - removed) - {k} == m - (removed + {k})
  {
    var a, b := (m - removed) - {k}, m - (removed + {k});
    assert a.Keys == b.Keys;
    assert forall key :: key in a ==> a[key] == b[key];
  }
}
