/** Positions in a sequence: the vocabulary for "a subsequence, in the original order". */
module Seqs {

  /** No two entries of `s` share a key. */
  predicate DistinctKeys<T>(keyOf: T -> string, s: seq<T>) {
    forall i, j :: 0 <= i < j < |s| ==> keyOf(s[i]) != keyOf(s[j])
  }

  /** `idx` lists positions below `n` in strictly increasing order. */
  predicate Increasing(idx: seq<int>, n: int) {
    (forall j :: 0 <= j < |idx| ==> 0 <= idx[j] < n)
    && (forall j, k :: 0 <= j < k < |idx| ==> idx[j] < idx[k])
  }

  /** The elements of `s` at the positions `idx`, in that order. */
  function Pick<T>(s: seq<T>, idx: seq<int>): (r: seq<T>)
    requires forall j :: 0 <= j < |idx| ==> 0 <= idx[j] < |s|
    ensures |r| == |idx|
    ensures forall j :: 0 <= j < |idx| ==> r[j] == s[idx[j]]
  {
    seq(|idx|, j requires 0 <= j < |idx| => s[idx[j]])
  }

  lemma PickAppend<T>(s: seq<T>, idx: seq<int>, i: int)
    requires forall j :: 0 <= j < |idx| ==> 0 <= idx[j] < |s|
    requires 0 <= i < |s|
    ensures Pick(s, idx + [i]) == Pick(s, idx) + [s[i]]
  {
  }

  lemma HeadIsMember<T>(s: seq<T>)
    ensures |s| > 0 ==> s[0] in s
  {
  }

  /** Two increasing position lists holding the same positions are equal. */
  lemma {:induction false} IncreasingUnique(a: seq<int>, b: seq<int>, n: int)
    requires Increasing(a, n) && Increasing(b, n)
    requires forall i :: i in a <==> i in b
    ensures a == b
  {
    if a == [] || b == [] {
      HeadIsMember(a);
      HeadIsMember(b);
    } else {
      assert a[0] in b;
      assert b[0] in a;
      var k :| 0 <= k < |b| && b[k] == a[0];
      var l :| 0 <= l < |a| && a[l] == b[0];
      assert a[0] == b[0];
      forall i
        ensures i in a[1..] <==> i in b[1..]
      {
        if i in a[1..] {
          var p :| 1 <= p < |a| && a[p] == i;
          assert i in a;
          var q :| 0 <= q < |b| && b[q] == i;
          assert q != 0;
        }
        if i in b[1..] {
          var p :| 1 <= p < |b| && b[p] == i;
          assert i in b;
          var q :| 0 <= q < |a| && a[q] == i;
          assert q != 0;
        }
      }
      IncreasingUnique(a[1..], b[1..], n);
    }
  }

  /** `x` occurs in `s`. A predicate of its own so that quantifiers over it (such as the
      coverage one below) fire only where a proof mentions it. */
  predicate Lists<T(==)>(s: seq<T>, x: T) {
    x in s
  }

  /** `idx` lists every position below `n` exactly once. */
  predicate Permutes(idx: seq<int>, n: int) {
    (forall j :: 0 <= j < |idx| ==> 0 <= idx[j] < n)
    && (forall j, k :: 0 <= j < k < |idx| ==> idx[j] != idx[k])
    && (forall i :: 0 <= i < n ==> Lists(idx, i))
  }

  /** Removing the position `n - 1` from a permutation of `n` positions leaves one of `n - 1`. */
  lemma RemoveLast(a: seq<int>, b: seq<int>, n: int)
    requires n > 0 && Permutes(a + [n - 1] + b, n)
    ensures Permutes(a + b, n - 1)
    ensures forall j :: 0 <= j < |a| ==> 0 <= a[j] < n - 1
    ensures forall j :: 0 <= j < |b| ==> 0 <= b[j] < n - 1
  {
    var idx := a + [n - 1] + b;
    var p := |a|;
    assert idx[p] == n - 1;
    forall j | 0 <= j < |a|
      ensures 0 <= a[j] < n - 1
    {
      assert a[j] == idx[j];
    }
    forall j | 0 <= j < |b|
      ensures 0 <= b[j] < n - 1
    {
      assert b[j] == idx[p + 1 + j];
    }
    forall j, k | 0 <= j < k < |a + b|
      ensures (a + b)[j] != (a + b)[k]
    {
      var j', k' := if j < p then j else j + 1, if k < p then k else k + 1;
      assert (a + b)[j] == idx[j'] && (a + b)[k] == idx[k'];
    }
    forall i | 0 <= i < n - 1
      ensures Lists(a + b, i)
    {
      assert Lists(idx, i);
      var q :| 0 <= q < |idx| && idx[q] == i;
      if q < p {
        assert (a + b)[q] == i;
      } else {
        assert (a + b)[q - 1] == i;
      }
    }
  }

  lemma PickSplit<T>(s: seq<T>, a: seq<int>, b: seq<int>)
    requires forall j :: 0 <= j < |a| ==> 0 <= a[j] < |s|
    requires forall j :: 0 <= j < |b| ==> 0 <= b[j] < |s|
    ensures Pick(s, a + b) == Pick(s, a) + Pick(s, b)
  {
  }

  /** Picking positions below `n` from `s` is picking them from `s[..n]`. */
  lemma PickPrefix<T>(s: seq<T>, idx: seq<int>, n: int)
    requires 0 <= n <= |s|
    requires forall j :: 0 <= j < |idx| ==> 0 <= idx[j] < n
    ensures Pick(s, idx) == Pick(s[..n], idx)
  {
  }

  lemma LastSplit<T>(s: seq<T>)
    requires |s| > 0
    ensures multiset(s) == multiset(s[..|s| - 1]) + multiset{s[|s| - 1]}
  {
    assert s == s[..|s| - 1] + [s[|s| - 1]];
  }

  lemma MultisetOfInsert<T>(x: seq<T>, y: T, z: seq<T>)
    ensures multiset(x + ([y] + z)) == multiset(x + z) + multiset{y}
  {
  }

  /** Picking around the last position: the picked multiset gains exactly the last element. */
  lemma PickAroundLast<T>(s: seq<T>, a: seq<int>, b: seq<int>)
    requires |s| > 0
    requires forall j :: 0 <= j < |a| ==> 0 <= a[j] < |s| - 1
    requires forall j :: 0 <= j < |b| ==> 0 <= b[j] < |s| - 1
    ensures multiset(Pick(s, a + [|s| - 1] + b)) == multiset(Pick(s[..|s| - 1], a + b)) + multiset{s[|s| - 1]}
  {
    var n := |s| - 1;
    assert a + [n] + b == a + ([n] + b);
    PickSplit(s, a, [n] + b);
    PickSplit(s, [n], b);
    PickSplit(s[..n], a, b);
    PickPrefix(s, a, n);
    PickPrefix(s, b, n);
    var pa, pb := Pick(s, a), Pick(s, b);
    assert Pick(s, [n]) == [s[n]];
    MultisetOfInsert(pa, s[n], pb);
  }

  /** A permutation of `n > 0` positions splits around the position `n - 1` into a
      permutation of `n - 1` positions. */
  lemma SplitAtLast(idx: seq<int>, n: int) returns (a: seq<int>, b: seq<int>)
    requires n > 0 && Permutes(idx, n)
    ensures idx == a + [n - 1] + b
    ensures Permutes(a + b, n - 1)
    ensures forall j :: 0 <= j < |a| ==> 0 <= a[j] < n - 1
    ensures forall j :: 0 <= j < |b| ==> 0 <= b[j] < n - 1
  {
    assert Lists(idx, n - 1);
    var p :| 0 <= p < |idx| && idx[p] == n - 1;
    a, b := idx[..p], idx[p + 1..];
    assert idx == a + [n - 1] + b;
    RemoveLast(a, b, n);
  }

  /** Picking every position exactly once rearranges `s` without losing or adding anything. */
  lemma {:induction false} PickPermutation<T>(s: seq<T>, idx: seq<int>)
    requires Permutes(idx, |s|)
    ensures multiset(Pick(s, idx)) == multiset(s)
    decreases |s|
  {
    if |s| == 0 {
      HeadIsMember(idx);
      assert idx == [];
    } else {
      var n := |s| - 1;
      var a, b := SplitAtLast(idx, |s|);
      var t := s[..n];
      assert |t| == n;
      PickPermutation(t, a + b);
      PickAroundLast(s, a, b);
      LastSplit(s);
    }
  }

  /** A value at two positions occurs at least twice. */
  lemma TwiceCounts<T>(s: seq<T>, i: int, j: int)
    requires 0 <= i < j < |s| && s[i] == s[j]
    ensures multiset(s)[s[i]] >= 2
  {
    assert s == s[..j] + [s[j]] + s[j + 1..];
    assert s[..j][i] == s[i];
  }

  /** A value occurring at least twice sits at two distinct positions. */
  lemma TwiceListed<T>(s: seq<T>, x: T) returns (a: int, b: int)
    requires multiset(s)[x] >= 2
    ensures 0 <= a < |s| && 0 <= b < |s| && a != b && s[a] == x && s[b] == x
  {
    assert x in multiset(s);
    a :| 0 <= a < |s| && s[a] == x;
    var rest := s[..a] + s[a + 1..];
    assert s == s[..a] + [s[a]] + s[a + 1..];
    assert multiset(rest)[x] >= 1;
    assert x in multiset(rest);
    var q :| 0 <= q < |rest| && rest[q] == x;
    b := if q < a then q else q + 1;
  }
}
