/** The ordering step of the DNS records resource: after the upsert, the provider re-reads the
    zone and reorders the fetched records to follow the configured list, so the state keeps the
    user's order. Each reference entry claims the first unclaimed fetched record with its key;
    fetched records nobody claimed follow in their fetched order.

    The algorithm only looks at the records' keys, so it is stated for any element type and
    key function; the provider passes `DNSRecord` and `RecordKey`. */
module Order {
  import opened Seqs

  /** One entry of the working list: a fetched record, its key, and whether it is claimed. */
  datatype KeyedRecord<T> = KeyedRecord(key: string, record: T, used: bool)

  /** The outcome of matching reference entries: which fetched records are claimed (`used`),
      the claimed positions in claiming order (`picked`), and for each one the reference
      position that claimed it (`refs`). */
  datatype Claims = Claims(used: seq<bool>, picked: seq<int>, refs: seq<int>)

  /** Claims over `m` fetched records. */
  predicate WellSized(c: Claims, m: int) {
    |c.used| == m && |c.picked| == |c.refs| && forall t :: 0 <= t < |c.picked| ==> 0 <= c.picked[t] < m
  }

  /** The first position at or after `from` holding an unclaimed record with key `k`, or
      `|records|` when there is none. */
  function FirstUnclaimed<T>(keyOf: T -> string, records: seq<T>, used: seq<bool>, k: string, from: int): (i: int)
    requires |used| == |records| && 0 <= from <= |records|
    ensures from <= i <= |records|
    ensures i < |records| ==> !used[i] && keyOf(records[i]) == k
    ensures forall j :: from <= j < i ==> used[j] || keyOf(records[j]) != k
    decreases |records| - from
  {
    if from == |records| || (!used[from] && keyOf(records[from]) == k) then from
    else FirstUnclaimed(keyOf, records, used, k, from + 1)
  }

  /** `m` flags, all clear. */
  function Unset(m: nat): (used: seq<bool>)
    ensures |used| == m && forall i :: 0 <= i < m ==> !used[i]
  {
    if m == 0 then [] else Unset(m - 1) + [false]
  }

  /** Reference entry number `r`, with key `k`, claims the first unclaimed record with that
      key, if there is one. */
  function Claim<T>(keyOf: T -> string, records: seq<T>, c: Claims, k: string, r: int): (c': Claims)
    requires WellSized(c, |records|)
    ensures WellSized(c', |records|)
  {
    var i := FirstUnclaimed(keyOf, records, c.used, k, 0);
    if i < |records| then Claims(c.used[i := true], c.picked + [i], c.refs + [r]) else c
  }

  /** The claims after the first `n` reference entries. */
  function ClaimsUpTo<T>(keyOf: T -> string, reference: seq<T>, records: seq<T>, n: int): (c: Claims)
    requires 0 <= n <= |reference|
    ensures WellSized(c, |records|)
  {
    if n == 0 then Claims(Unset(|records|), [], [])
    else Claim(keyOf, records, ClaimsUpTo(keyOf, reference, records, n - 1), keyOf(reference[n - 1]), n - 1)
  }

  /** The unclaimed positions below `n`, in increasing order. */
  function Unclaimed(used: seq<bool>, n: int): (idx: seq<int>)
    requires 0 <= n <= |used|
    ensures Increasing(idx, n)
    ensures forall i :: 0 <= i < n ==> (Lists(idx, i) <==> !used[i])
  {
    if n == 0 then []
    else
      var prev := Unclaimed(used, n - 1);
      if used[n - 1] then prev else prev + [n - 1]
  }

  /** The positions of the fetched records in output order: claimed ones, then the rest. */
  function OrderIndices<T>(keyOf: T -> string, reference: seq<T>, records: seq<T>): (idx: seq<int>)
    ensures forall j :: 0 <= j < |idx| ==> 0 <= idx[j] < |records|
  {
    var c := ClaimsUpTo(keyOf, reference, records, |reference|);
    c.picked + Unclaimed(c.used, |records|)
  }

  /** `records` reordered to follow `reference`; returned as is when there is nothing to
      reorder (at most one record, or no reference). */
  function OrderedLike<T>(keyOf: T -> string, reference: seq<T>, records: seq<T>): seq<T> {
    if |records| <= 1 || |reference| == 0 then records
    else Pick(records, OrderIndices(keyOf, reference, records))
  }

  // ---------------------------------------------------------------------------
  // Properties of the claims

  /** Claimed positions are distinct, and a position is marked used exactly when it is claimed. */
  predicate ClaimedOnce(c: Claims, m: int)
    requires |c.used| == m
  {
    (forall s, t :: 0 <= s < t < |c.picked| ==> c.picked[s] != c.picked[t])
    && (forall i :: 0 <= i < m ==> (c.used[i] <==> Lists(c.picked, i)))
  }

  /** Each claimed record carries the key of the reference entry that claimed it, and the
      claiming entries (all among the first `n`) are in reference order. */
  predicate FollowsReference<T>(keyOf: T -> string, reference: seq<T>, records: seq<T>, c: Claims, n: int)
    requires WellSized(c, |records|) && n <= |reference|
  {
    Increasing(c.refs, n)
    && forall t :: 0 <= t < |c.picked| ==> keyOf(records[c.picked[t]]) == keyOf(reference[c.refs[t]])
  }

  /** Records sharing a key are claimed in their fetched order, and every claimed record
      precedes the unclaimed ones with its key. */
  predicate EarliestFirst<T>(keyOf: T -> string, records: seq<T>, c: Claims)
    requires WellSized(c, |records|)
  {
    (forall s, t :: 0 <= s < t < |c.picked| && keyOf(records[c.picked[s]]) == keyOf(records[c.picked[t]])
       ==> c.picked[s] < c.picked[t])
    && (forall t, q ::
          0 <= t < |c.picked| && 0 <= q < |records| && !c.used[q] && keyOf(records[q]) == keyOf(records[c.picked[t]])
          ==> c.picked[t] < q)
  }

  /** Every one of the first `n` reference entries that claimed nothing has no unclaimed
      record with its key left. */
  predicate UnmatchedExhausted<T>(keyOf: T -> string, reference: seq<T>, records: seq<T>, c: Claims, n: int)
    requires WellSized(c, |records|) && 0 <= n <= |reference|
  {
    forall r, i ::
      0 <= r < n && !Lists(c.refs, r) && 0 <= i < |records| && keyOf(records[i]) == keyOf(reference[r])
      ==> c.used[i]
  }

  lemma ClaimKeepsOnce<T>(keyOf: T -> string, records: seq<T>, c: Claims, k: string, r: int)
    requires WellSized(c, |records|) && ClaimedOnce(c, |records|)
    ensures ClaimedOnce(Claim(keyOf, records, c, k, r), |records|)
  {
    var i := FirstUnclaimed(keyOf, records, c.used, k, 0);
    if i < |records| {
      assert !Lists(c.picked, i);
      var picked := c.picked + [i];
      forall s, t | 0 <= s < t < |picked|
        ensures picked[s] != picked[t]
      {
        if t == |c.picked| {
          assert picked[s] == c.picked[s];
          assert Lists(c.picked, c.picked[s]);
        }
      }
    }
  }

  lemma ClaimKeepsOrder<T>(keyOf: T -> string, reference: seq<T>, records: seq<T>, c: Claims, r: int)
    requires WellSized(c, |records|) && 0 <= r < |reference|
    requires FollowsReference(keyOf, reference, records, c, r)
    ensures FollowsReference(keyOf, reference, records, Claim(keyOf, records, c, keyOf(reference[r]), r), r + 1)
  {
    var i := FirstUnclaimed(keyOf, records, c.used, keyOf(reference[r]), 0);
    if i < |records| {
      var c' := Claim(keyOf, records, c, keyOf(reference[r]), r);
      assert forall t :: 0 <= t < |c.picked| ==> c'.picked[t] == c.picked[t] && c'.refs[t] == c.refs[t];
    }
  }

  lemma ClaimKeepsEarliest<T>(keyOf: T -> string, records: seq<T>, c: Claims, k: string, r: int)
    requires WellSized(c, |records|) && EarliestFirst(keyOf, records, c)
    ensures EarliestFirst(keyOf, records, Claim(keyOf, records, c, k, r))
  {
    var i := FirstUnclaimed(keyOf, records, c.used, k, 0);
    if i < |records| {
      var picked := c.picked + [i];
      forall t, q | 0 <= t < |picked| && 0 <= q < |records| && !c.used[i := true][q]
          && keyOf(records[q]) == keyOf(records[picked[t]])
        ensures picked[t] < q
      {
        if t < |c.picked| {
          assert picked[t] == c.picked[t];
        }
      }
      forall s, t | 0 <= s < t < |picked| && keyOf(records[picked[s]]) == keyOf(records[picked[t]])
        ensures picked[s] < picked[t]
      {
        assert picked[s] == c.picked[s];
      }
    }
  }

  lemma ClaimKeepsExhausted<T>(keyOf: T -> string, reference: seq<T>, records: seq<T>, c: Claims, r: int)
    requires WellSized(c, |records|) && 0 <= r < |reference|
    requires UnmatchedExhausted(keyOf, reference, records, c, r)
    ensures UnmatchedExhausted(keyOf, reference, records, Claim(keyOf, records, c, keyOf(reference[r]), r), r + 1)
  {
    var c' := Claim(keyOf, records, c, keyOf(reference[r]), r);
    forall r', j | 0 <= r' < r + 1 && !Lists(c'.refs, r') && 0 <= j < |records|
        && keyOf(records[j]) == keyOf(reference[r'])
      ensures c'.used[j]
    {
      if r' < r {
        assert !Lists(c.refs, r');
      }
    }
  }

  lemma {:induction false} ClaimsDistinct<T>(keyOf: T -> string, reference: seq<T>, records: seq<T>, n: int)
    requires 0 <= n <= |reference|
    ensures ClaimedOnce(ClaimsUpTo(keyOf, reference, records, n), |records|)
  {
    if n > 0 {
      ClaimsDistinct(keyOf, reference, records, n - 1);
      ClaimKeepsOnce(keyOf, records, ClaimsUpTo(keyOf, reference, records, n - 1), keyOf(reference[n - 1]), n - 1);
    }
  }

  /** Matched records come out in reference order. */
  lemma {:induction false} ClaimsFollowReference<T>(keyOf: T -> string, reference: seq<T>, records: seq<T>, n: int)
    requires 0 <= n <= |reference|
    ensures FollowsReference(keyOf, reference, records, ClaimsUpTo(keyOf, reference, records, n), n)
  {
    if n > 0 {
      ClaimsFollowReference(keyOf, reference, records, n - 1);
      ClaimKeepsOrder(keyOf, reference, records, ClaimsUpTo(keyOf, reference, records, n - 1), n - 1);
    }
  }

  /** Ties are broken by the earliest unclaimed position. */
  lemma {:induction false} ClaimsEarliest<T>(keyOf: T -> string, reference: seq<T>, records: seq<T>, n: int)
    requires 0 <= n <= |reference|
    ensures EarliestFirst(keyOf, records, ClaimsUpTo(keyOf, reference, records, n))
  {
    if n > 0 {
      ClaimsEarliest(keyOf, reference, records, n - 1);
      ClaimKeepsEarliest(keyOf, records, ClaimsUpTo(keyOf, reference, records, n - 1), keyOf(reference[n - 1]), n - 1);
    }
  }

  /** A reference entry goes unmatched only when every fetched record with its key is already
      claimed, and those stay claimed. */
  lemma {:induction false} ClaimsUnmatched<T>(keyOf: T -> string, reference: seq<T>, records: seq<T>, n: int)
    requires 0 <= n <= |reference|
    ensures UnmatchedExhausted(keyOf, reference, records, ClaimsUpTo(keyOf, reference, records, n), n)
  {
    if n > 0 {
      ClaimsUnmatched(keyOf, reference, records, n - 1);
      ClaimKeepsExhausted(keyOf, reference, records, ClaimsUpTo(keyOf, reference, records, n - 1), n - 1);
    }
  }

  // ---------------------------------------------------------------------------
  // The output

  /** The output positions list every fetched position exactly once. */
  lemma OrderIndicesPermute<T>(keyOf: T -> string, reference: seq<T>, records: seq<T>)
    ensures Permutes(OrderIndices(keyOf, reference, records), |records|)
  {
    var c := ClaimsUpTo(keyOf, reference, records, |reference|);
    var u := Unclaimed(c.used, |records|);
    var idx := c.picked + u;
    ClaimsDistinct(keyOf, reference, records, |reference|);
    forall j, k | 0 <= j < k < |idx|
      ensures idx[j] != idx[k]
    {
      if j < |c.picked| && k >= |c.picked| {
        assert Lists(c.picked, idx[j]);
        assert Lists(u, idx[k]);
      } else if j >= |c.picked| {
        assert idx[j] == u[j - |c.picked|] && idx[k] == u[k - |c.picked|];
      }
    }
    forall i | 0 <= i < |records|
      ensures Lists(idx, i)
    {
      if c.used[i] {
        assert Lists(c.picked, i);
      } else {
        assert Lists(u, i);
      }
    }
  }

  /** Reordering neither loses, duplicates nor invents records. */
  lemma OrderedIsPermutation<T>(keyOf: T -> string, reference: seq<T>, records: seq<T>)
    ensures multiset(OrderedLike(keyOf, reference, records)) == multiset(records)
    ensures |OrderedLike(keyOf, reference, records)| == |records|
  {
    if !(|records| <= 1 || |reference| == 0) {
      OrderIndicesPermute(keyOf, reference, records);
      PickPermutation(records, OrderIndices(keyOf, reference, records));
    }
    assert |multiset(OrderedLike(keyOf, reference, records))| == |OrderedLike(keyOf, reference, records)|;
  }

  /** The output is the claimed records in claiming order, then the unclaimed records in their
      fetched order. */
  lemma OrderedLayout<T>(keyOf: T -> string, reference: seq<T>, records: seq<T>)
    requires |records| > 1 && |reference| > 0
    ensures OrderedLike(keyOf, reference, records)
         == Pick(records, ClaimsUpTo(keyOf, reference, records, |reference|).picked)
          + Pick(records, Unclaimed(ClaimsUpTo(keyOf, reference, records, |reference|).used, |records|))
  {
    var c := ClaimsUpTo(keyOf, reference, records, |reference|);
    PickSplit(records, c.picked, Unclaimed(c.used, |records|));
  }

  // ---------------------------------------------------------------------------
  // A reordering of the reference comes back in reference order

  /** The first `n` reference entries claimed, in turn, records equal to themselves. */
  ghost predicate ClaimsEqualReference<T>(reference: seq<T>, records: seq<T>, c: Claims, n: int)
    requires 0 <= n <= |reference| && WellSized(c, |records|)
  {
    |c.picked| == n && forall t :: 0 <= t < n ==> records[c.picked[t]] == reference[t]
  }

  /** With distinct keys, the next reference entry claims the one record equal to it. */
  lemma ReorderingStep<T>(keyOf: T -> string, reference: seq<T>, records: seq<T>, c: Claims, r: int, i: int)
    requires 0 <= r < |reference| && 0 <= i < |records| && records[i] == reference[r]
    requires DistinctKeys(keyOf, reference) && DistinctKeys(keyOf, records)
    requires WellSized(c, |records|) && ClaimedOnce(c, |records|) && ClaimsEqualReference(reference, records, c, r)
    ensures ClaimsEqualReference(reference, records, Claim(keyOf, records, c, keyOf(reference[r]), r), r + 1)
  {
    var k := keyOf(reference[r]);
    forall t | 0 <= t < |c.picked|
      ensures c.picked[t] != i
    {
      assert keyOf(records[c.picked[t]]) == keyOf(reference[t]) != k;
    }
    assert !Lists(c.picked, i);
    var f := FirstUnclaimed(keyOf, records, c.used, k, 0);
    assert f <= i;
    assert keyOf(records[f]) == keyOf(records[i]);
    assert f == i;
    var picked := c.picked + [i];
    assert forall t :: 0 <= t < r ==> picked[t] == c.picked[t];
  }

  /** Every reference entry claims the very record equal to it. */
  lemma {:induction false} ClaimsOfReordering<T>(keyOf: T -> string, reference: seq<T>, records: seq<T>, n: int)
    requires 0 <= n <= |reference|
    requires forall m :: 0 <= m < |reference| ==> Lists(records, reference[m])
    requires DistinctKeys(keyOf, reference) && DistinctKeys(keyOf, records)
    ensures ClaimsEqualReference(reference, records, ClaimsUpTo(keyOf, reference, records, n), n)
  {
    if n > 0 {
      ClaimsOfReordering(keyOf, reference, records, n - 1);
      ClaimsDistinct(keyOf, reference, records, n - 1);
      assert Lists(records, reference[n - 1]);
      var i :| 0 <= i < |records| && records[i] == reference[n - 1];
      ReorderingStep(keyOf, reference, records, ClaimsUpTo(keyOf, reference, records, n - 1), n - 1, i);
    }
  }

  /** In a list with distinct keys, a key sits at one position only. */
  lemma SameKeySamePosition<T>(keyOf: T -> string, s: seq<T>, a: int, b: int)
    requires DistinctKeys(keyOf, s) && 0 <= a < |s| && 0 <= b < |s|
    requires keyOf(s[a]) == keyOf(s[b])
    ensures a == b
  {
  }

  /** With every flag set, no position is left unclaimed. */
  lemma {:induction false} AllClaimed(used: seq<bool>, n: int)
    requires 0 <= n <= |used| && forall i :: 0 <= i < n ==> used[i]
    ensures Unclaimed(used, n) == []
  {
    if n > 0 {
      AllClaimed(used, n - 1);
    }
  }

  /** Once every fetched record has been claimed by the reference entry equal to it, nothing
      is left unclaimed. */
  lemma NothingUnclaimed<T>(keyOf: T -> string, reference: seq<T>, records: seq<T>, c: Claims)
    requires forall i :: 0 <= i < |records| ==> Lists(reference, records[i])
    requires DistinctKeys(keyOf, records)
    requires WellSized(c, |records|) && ClaimedOnce(c, |records|)
    requires ClaimsEqualReference(reference, records, c, |reference|)
    ensures Unclaimed(c.used, |records|) == []
  {
    forall i | 0 <= i < |records|
      ensures c.used[i]
    {
      assert Lists(reference, records[i]);
      var m :| 0 <= m < |reference| && reference[m] == records[i];
      var p := c.picked[m];
      SameKeySamePosition(keyOf, records, p, i);
      assert Lists(c.picked, p);
    }
    AllClaimed(c.used, |records|);
  }

  /** A reordering of a list with distinct keys has distinct keys too. */
  lemma DistinctKeysOfReordering<T>(keyOf: T -> string, reference: seq<T>, records: seq<T>)
    requires multiset(records) == multiset(reference)
    requires DistinctKeys(keyOf, reference)
    ensures DistinctKeys(keyOf, records)
  {
    forall i, j | 0 <= i < j < |records|
      ensures keyOf(records[i]) != keyOf(records[j])
    {
      if keyOf(records[i]) == keyOf(records[j]) {
        assert records[i] in multiset(reference) && records[j] in multiset(reference);
        var a :| 0 <= a < |reference| && reference[a] == records[i];
        var b :| 0 <= b < |reference| && reference[b] == records[j];
        assert a == b;
        TwiceCounts(records, i, j);
        var a', b' := TwiceListed(reference, records[i]);
        assert false;
      }
    }
  }

  /** Fetched records that are the configured records in another order, with distinct keys,
      come back exactly in the configured order. */
  lemma ReorderingRestoresReference<T>(keyOf: T -> string, reference: seq<T>, records: seq<T>)
    requires multiset(records) == multiset(reference)
    requires DistinctKeys(keyOf, reference)
    ensures OrderedLike(keyOf, reference, records) == reference
  {
    DistinctKeysOfReordering(keyOf, reference, records);
    assert |records| == |reference| by {
      assert |multiset(records)| == |records| && |multiset(reference)| == |reference|;
    }
    if |records| <= 1 || |reference| == 0 {
      if |records| == 1 {
        assert records[0] in multiset(reference);
        assert records == [records[0]];
      }
    } else {
      forall m | 0 <= m < |reference|
        ensures Lists(records, reference[m])
      {
        assert reference[m] in multiset(records);
      }
      forall i | 0 <= i < |records|
        ensures Lists(reference, records[i])
      {
        assert records[i] in multiset(reference);
      }
      ClaimsRestoreReference(keyOf, reference, records);
    }
  }

  /** The claims of a reordering of the reference pick, in reference order, every fetched record
      and nothing is left unclaimed, so the output is the reference. */
  lemma ClaimsRestoreReference<T>(keyOf: T -> string, reference: seq<T>, records: seq<T>)
    requires |records| == |reference| >= 2
    requires DistinctKeys(keyOf, reference) && DistinctKeys(keyOf, records)
    requires forall m :: 0 <= m < |reference| ==> Lists(records, reference[m])
    requires forall i :: 0 <= i < |records| ==> Lists(reference, records[i])
    ensures OrderedLike(keyOf, reference, records) == reference
  {
    var c := ClaimsUpTo(keyOf, reference, records, |reference|);
    ClaimsOfReordering(keyOf, reference, records, |reference|);
    ClaimsDistinct(keyOf, reference, records, |reference|);
    NothingUnclaimed(keyOf, reference, records, c);
    assert OrderIndices(keyOf, reference, records) == c.picked + [];
    PickMatching(records, c.picked, reference);
  }

  /** Picking the positions that hold the entries of `target`, in order, gives `target`. */
  lemma PickMatching<T>(s: seq<T>, idx: seq<int>, target: seq<T>)
    requires |idx| == |target|
    requires forall t :: 0 <= t < |idx| ==> 0 <= idx[t] < |s| && s[idx[t]] == target[t]
    ensures Pick(s, idx) == target
  {
  }

  // ---------------------------------------------------------------------------
  // The algorithm

  /** The working list for the claim flags `used`. */
  function Keyed<T>(keyOf: T -> string, records: seq<T>, used: seq<bool>): (ks: seq<KeyedRecord<T>>)
    requires |used| == |records|
    ensures |ks| == |records|
    ensures forall j :: 0 <= j < |ks| ==> ks[j] == KeyedRecord(keyOf(records[j]), records[j], used[j])
  {
    seq(|records|, j requires 0 <= j < |records| => KeyedRecord(keyOf(records[j]), records[j], used[j]))
  }

  /** One scan of the working list for reference key `key`: skips claimed entries, and at the
      first entry with that key appends its record and claims it. Returns the position claimed,
      or the list's length when none was. */
  method ClaimFirst<T>(keyOf: T -> string, records: seq<T>, keyed: array<KeyedRecord<T>>, ghost used: seq<bool>,
                    key: string, ordered: seq<T>)
    returns (ordered': seq<T>, i: int)
    requires |used| == |records|
    requires keyed[..] == Keyed(keyOf, records, used)
    modifies keyed
    ensures i == FirstUnclaimed(keyOf, records, used, key, 0)
    ensures i < |records| ==> ordered' == ordered + [records[i]] && keyed[..] == Keyed(keyOf, records, used[i := true])
    ensures i == |records| ==> ordered' == ordered && keyed[..] == Keyed(keyOf, records, used)
  {
    ordered' := ordered;
    i := 0;
    while i < keyed.Length
      invariant 0 <= i <= keyed.Length
      invariant keyed[..] == Keyed(keyOf, records, used)
      invariant FirstUnclaimed(keyOf, records, used, key, i) == FirstUnclaimed(keyOf, records, used, key, 0)
    {
      if keyed[i].used {
        i := i + 1;
        continue;
      }
      if keyed[i].key == key {
        ordered' := ordered' + [keyed[i].record];
        keyed[i] := keyed[i].(used := true);
        return;
      }
      i := i + 1;
    }
  }

  /** The scan for reference entry `n`: the working list and the output move from the claims
      of the first `n` entries to those of the first `n + 1`. */
  method ClaimNext<T>(keyOf: T -> string, reference: seq<T>, records: seq<T>, keyed: array<KeyedRecord<T>>,
                      n: int, ordered: seq<T>)
    returns (ordered': seq<T>)
    requires 0 <= n < |reference|
    requires keyed[..] == Keyed(keyOf, records, ClaimsUpTo(keyOf, reference, records, n).used)
    requires ordered == Pick(records, ClaimsUpTo(keyOf, reference, records, n).picked)
    modifies keyed
    ensures keyed[..] == Keyed(keyOf, records, ClaimsUpTo(keyOf, reference, records, n + 1).used)
    ensures ordered' == Pick(records, ClaimsUpTo(keyOf, reference, records, n + 1).picked)
  {
    ghost var c := ClaimsUpTo(keyOf, reference, records, n);
    var i;
    ordered', i := ClaimFirst(keyOf, records, keyed, c.used, keyOf(reference[n]), ordered);
    if i < |records| {
      PickAppend(records, c.picked, i);
    }
  }

  /** The final pass: appends the unclaimed records in their fetched order. */
  method AppendUnclaimed<T>(keyOf: T -> string, records: seq<T>, keyed: array<KeyedRecord<T>>, ghost used: seq<bool>,
                         ordered: seq<T>)
    returns (result: seq<T>)
    requires |used| == |records|
    requires keyed[..] == Keyed(keyOf, records, used)
    ensures result == ordered + Pick(records, Unclaimed(used, |records|))
  {
    result := ordered;
    for i := 0 to keyed.Length
      invariant result == ordered + Pick(records, Unclaimed(used, i))
    {
      if !keyed[i].used {
        PickAppend(records, Unclaimed(used, i), i);
        result := result + [keyed[i].record];
      }
    }
  }

  /** Reorders `records` like `reference`: a working list of keyed records with a claim flag
      each, one scan per reference entry, then the unclaimed records in order. */
  method OrderRecordsLike<T>(keyOf: T -> string, reference: seq<T>, records: seq<T>)
    returns (ordered: seq<T>)
    ensures ordered == OrderedLike(keyOf, reference, records)
  {
    if |records| <= 1 || |reference| == 0 {
      return records;
    }
    var keyed := new KeyedRecord<T>[|records|](j requires 0 <= j < |records| =>
      KeyedRecord(keyOf(records[j]), records[j], false));
    assert keyed[..] == Keyed(keyOf, records, ClaimsUpTo(keyOf, reference, records, 0).used);
    ordered := [];
    for n := 0 to |reference|
      invariant keyed[..] == Keyed(keyOf, records, ClaimsUpTo(keyOf, reference, records, n).used)
      invariant ordered == Pick(records, ClaimsUpTo(keyOf, reference, records, n).picked)
    {
      ordered := ClaimNext(keyOf, reference, records, keyed, n, ordered);
    }
    ghost var c := ClaimsUpTo(keyOf, reference, records, |reference|);
    ordered := AppendUnclaimed(keyOf, records, keyed, c.used, ordered);
    PickSplit(records, c.picked, Unclaimed(c.used, |records|));
  }
}
