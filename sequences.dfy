/** Filtering a sequence while keeping its order, the shape of a query's WHERE clause. */
module Sequences {

  /** The elements of `s` that satisfy `keep`, in their order in `s`. */
  function Filter<T>(s: seq<T>, keep: T -> bool): (r: seq<T>)
    ensures |r| <= |s|
    ensures forall i :: 0 <= i < |r| ==> keep(r[i])
  {
    if s == [] then [] else Filter(s[..|s| - 1], keep) + (if keep(s[|s| - 1]) then [s[|s| - 1]] else [])
  }

  lemma {:induction false} FilterMembers<T>(s: seq<T>, keep: T -> bool, x: T)
    ensures x in Filter(s, keep) <==> x in s && keep(x)
  {
    if s != [] {
      FilterMembers(s[..|s| - 1], keep, x);
      assert s == s[..|s| - 1] + [s[|s| - 1]];
    }
  }

  /** Filtering distributes over concatenation, so the kept elements stay in order. */
  lemma {:induction false} FilterConcat<T>(a: seq<T>, b: seq<T>, keep: T -> bool)
    ensures Filter(a + b, keep) == Filter(a, keep) + Filter(b, keep)
    decreases |b|
  {
    if b == [] {
      assert a + b == a;
    } else {
      var b' := b[..|b| - 1];
      assert (a + b)[..|a + b| - 1] == a + b';
      FilterConcat(a, b', keep);
    }
  }

  /** Each element of `r` sits in `s` at the matching index of `idx`, and the indices increase. */
  ghost predicate IndexedBy<T>(r: seq<T>, s: seq<T>, idx: seq<nat>) {
    |idx| == |r| &&
    (forall i :: 0 <= i < |r| ==> idx[i] < |s| && r[i] == s[idx[i]]) &&
    (forall i, j :: 0 <= i < j < |r| ==> idx[i] < idx[j])
  }

  /** `r` is `s` with some elements left out, the rest in their order in `s`. */
  ghost predicate Subsequence<T>(r: seq<T>, s: seq<T>) {
    exists idx: seq<nat> :: IndexedBy(r, s, idx)
  }

  /** Filtering keeps the kept elements in their order. */
  lemma {:induction false} FilterSubsequence<T>(s: seq<T>, keep: T -> bool)
    ensures Subsequence(Filter(s, keep), s)
  {
    if s == [] {
      var idx: seq<nat> := [];
      assert IndexedBy(Filter(s, keep), s, idx);
    } else {
      var init := s[..|s| - 1];
      FilterSubsequence(init, keep);
      var x := s[|s| - 1];
      SubsequenceSnoc(Filter(init, keep), init, x);
      SplitLast(s);
      if keep(x) {
        assert Filter(s, keep) == Filter(init, keep) + [x];
      } else {
        assert Filter(s, keep) == Filter(init, keep);
      }
    }
  }

  /** One more element of `s` keeps a subsequence one, and may be appended to it. */
  lemma SubsequenceSnoc<T>(r: seq<T>, s: seq<T>, x: T)
    requires Subsequence(r, s)
    ensures Subsequence(r, s + [x]) && Subsequence(r + [x], s + [x])
  {
    var idx: seq<nat> :| IndexedBy(r, s, idx);
    var s' := s + [x];
    assert IndexedBy(r, s', idx);
    var r' := r + [x];
    var idx' := idx + [|s|];
    forall i | 0 <= i < |r'| ensures idx'[i] < |s'| && r'[i] == s'[idx'[i]] {
      if i < |r| {
        assert idx'[i] == idx[i] && r'[i] == r[i];
      }
    }
    assert IndexedBy(r', s', idx');
  }

  /** A non-empty sequence is its front followed by its last element. */
  lemma SplitLast<T>(s: seq<T>)
    requires s != []
    ensures s[..|s| - 1] + [s[|s| - 1]] == s
  {
  }

  /** The prefix of length `i + 1` is the prefix of length `i` and then `s[i]`. */
  lemma PrefixSnoc<T>(s: seq<T>, i: nat)
    requires i < |s|
    ensures |s[..i + 1]| == i + 1 && s[..i + 1][..i] == s[..i] && s[..i + 1][i] == s[i]
  {
  }

  lemma AppendAssociative<T>(a: seq<T>, b: seq<T>, c: seq<T>)
    ensures (a + b) + c == a + (b + c)
  {
  }

  /** `s` is in ascending order of `key`. */
  ghost predicate SortedBy<T>(s: seq<T>, key: T -> int) {
    forall i, j :: 0 <= i < j < |s| ==> key(s[i]) <= key(s[j])
  }

  /** Filtering a sorted sequence keeps it sorted. */
  lemma {:induction false} FilterKeepsSorted<T>(s: seq<T>, keep: T -> bool, key: T -> int)
    requires SortedBy(s, key)
    ensures SortedBy(Filter(s, keep), key)
  {
    if s != [] {
      var init := s[..|s| - 1];
      assert SortedBy(init, key);
      FilterKeepsSorted(init, keep, key);
      var r := Filter(s, keep);
      var fi := Filter(init, keep);
      forall i, j | 0 <= i < j < |r| ensures key(r[i]) <= key(r[j]) {
        if j == |fi| {
          assert r[j] == s[|s| - 1];
          FilterMembers(init, keep, r[i]);
          assert r[i] == fi[i];
          var k :| 0 <= k < |init| && init[k] == r[i];
        }
      }
    }
  }
}
