/** The plan step of the DNS records resource: which live records to delete and which desired
    records to send in one upsert call. Records are matched by key, so a changed value field is
    a different record (deleted and upserted) while a changed TTL is an update of the same record
    (upserted only).

    The definitions take the key and the value signature as a parameter (`Identity`), so the
    properties below hold for any way of identifying records; the provider's own is
    `Spaceship`, made of `RecordKey` and `ValueSignature`. */
module Diff {
  import opened Text
  import opened Records
  import opened Signature
  import opened Seqs

  /** How the diff identifies a record (`key`) and compares its value (`sig`). */
  datatype Identity = Identity(key: DNSRecord -> string, sig: DNSRecord -> string)

  const Spaceship: Identity := Identity(RecordKey, ValueSignature)

  /** The keys present in a record list. */
  function Keys(id: Identity, s: seq<DNSRecord>): set<string> {
    set r | r in s :: id.key(r)
  }

  lemma KeysAppend(id: Identity, s: seq<DNSRecord>, r: DNSRecord)
    ensures Keys(id, s + [r]) == Keys(id, s) + {id.key(r)}
  {
    forall k | k in Keys(id, s + [r])
      ensures k in Keys(id, s) + {id.key(r)}
    {
      var x :| x in s + [r] && id.key(x) == k;
    }
  }

  // ---------------------------------------------------------------------------
  // The maps of records by key

  /** The map the diff builds from a record list: every key of `s`, bound to a record with that
      key taken from `s`; when several records share a key the later one overwrites. */
  function LastByKey(id: Identity, s: seq<DNSRecord>): map<string, DNSRecord> {
    if s == [] then map[] else LastByKey(id, s[..|s| - 1])[id.key(s[|s| - 1]) := s[|s| - 1]]
  }

  /** The map's keys are the keys of `s`, and each is bound to a record of `s` with that key. */
  lemma {:induction false} LastByKeyDomain(id: Identity, s: seq<DNSRecord>)
    ensures LastByKey(id, s).Keys == Keys(id, s)
    ensures forall k :: k in LastByKey(id, s) ==> id.key(LastByKey(id, s)[k]) == k && LastByKey(id, s)[k] in s
  {
    if s != [] {
      var front := s[..|s| - 1];
      LastByKeyDomain(id, front);
      assert s == front + [s[|s| - 1]];
      KeysAppend(id, front, s[|s| - 1]);
    }
  }

  /** The map holds, for each key, the last record of `s` with that key. */
  lemma {:induction false} LastByKeyIsLast(id: Identity, s: seq<DNSRecord>, i: int)
    requires 0 <= i < |s|
    requires forall j :: i < j < |s| ==> id.key(s[j]) != id.key(s[i])
    ensures id.key(s[i]) in LastByKey(id, s)
    ensures LastByKey(id, s)[id.key(s[i])] == s[i]
  {
    if i < |s| - 1 {
      LastByKeyIsLast(id, s[..|s| - 1], i);
    }
  }

  /** With distinct keys, every record is found under its own key. */
  lemma LastByKeyDistinct(id: Identity, s: seq<DNSRecord>)
    requires DistinctKeys(id.key, s)
    ensures forall i :: 0 <= i < |s| ==> id.key(s[i]) in LastByKey(id, s) && LastByKey(id, s)[id.key(s[i])] == s[i]
  {
    forall i | 0 <= i < |s|
      ensures id.key(s[i]) in LastByKey(id, s) && LastByKey(id, s)[id.key(s[i])] == s[i]
    {
      LastByKeyIsLast(id, s, i);
    }
  }

  // ---------------------------------------------------------------------------
  // Deletions

  /** The records the diff deletes from the first `n` live records, in the order its loop over
      the live records appends them. */
  function DeletionsUpTo(id: Identity, existing: seq<DNSRecord>, desiredKeys: set<string>, n: int): seq<DNSRecord>
    requires 0 <= n <= |existing|
  {
    if n == 0 then []
    else
      var prev := DeletionsUpTo(id, existing, desiredKeys, n - 1);
      if id.key(existing[n - 1]) in desiredKeys then prev else prev + [existing[n - 1]]
  }

  function Deletions(id: Identity, existing: seq<DNSRecord>, desiredKeys: set<string>): seq<DNSRecord> {
    DeletionsUpTo(id, existing, desiredKeys, |existing|)
  }

  /** The positions below `n` of the live records whose key no desired record has, in order. */
  function UnwantedPositions(id: Identity, existing: seq<DNSRecord>, desiredKeys: set<string>, n: int): (idx: seq<int>)
    requires 0 <= n <= |existing|
    ensures Increasing(idx, n)
    ensures forall i :: 0 <= i < n ==> (i in idx <==> id.key(existing[i]) !in desiredKeys)
  {
    if n == 0 then []
    else
      var prev := UnwantedPositions(id, existing, desiredKeys, n - 1);
      if id.key(existing[n - 1]) in desiredKeys then prev else prev + [n - 1]
  }

  /** The deletions are exactly the live records at the unwanted positions, in live order. */
  lemma {:induction false} DeletionsArePicked(id: Identity, existing: seq<DNSRecord>, desiredKeys: set<string>, n: int)
    requires 0 <= n <= |existing|
    ensures DeletionsUpTo(id, existing, desiredKeys, n) == Pick(existing, UnwantedPositions(id, existing, desiredKeys, n))
  {
    if n > 0 {
      DeletionsArePicked(id, existing, desiredKeys, n - 1);
      PickAppend(existing, UnwantedPositions(id, existing, desiredKeys, n - 1), n - 1);
    }
  }

  /** A record is deleted exactly when it is live and no desired record has its key; in
      particular nothing whose key is desired is ever deleted. */
  lemma DeletionsExactly(id: Identity, existing: seq<DNSRecord>, desiredKeys: set<string>)
    ensures forall r :: r in Deletions(id, existing, desiredKeys) <==> r in existing && id.key(r) !in desiredKeys
  {
    DeletionsArePicked(id, existing, desiredKeys, |existing|);
    var idx := UnwantedPositions(id, existing, desiredKeys, |existing|);
    forall r | r in existing && id.key(r) !in desiredKeys
      ensures r in Deletions(id, existing, desiredKeys)
    {
      var i :| 0 <= i < |existing| && existing[i] == r;
      assert i in idx;
      var t :| 0 <= t < |idx| && idx[t] == i;
      assert Deletions(id, existing, desiredKeys)[t] == r;
    }
  }

  // ---------------------------------------------------------------------------
  // Upserts

  /** A desired record needs no upsert when the live map holds a record with its key, the same
      TTL and the same value signature. */
  predicate Unchanged(id: Identity, existingMap: map<string, DNSRecord>, r: DNSRecord) {
    var k := id.key(r);
    k in existingMap && existingMap[k].ttl == r.ttl && id.sig(existingMap[k]) == id.sig(r)
  }

  /** The records the diff upserts from the first `n` desired records, in the order its loop
      appends them: a record is skipped when it is unchanged or its key was already sent. */
  function UpsertsUpTo(id: Identity, desired: seq<DNSRecord>, existingMap: map<string, DNSRecord>, n: int): seq<DNSRecord>
    requires 0 <= n <= |desired|
  {
    if n == 0 then []
    else
      var prev := UpsertsUpTo(id, desired, existingMap, n - 1);
      var r := desired[n - 1];
      if Unchanged(id, existingMap, r) || id.key(r) in Keys(id, prev) then prev else prev + [r]
  }

  function Upserts(id: Identity, desired: seq<DNSRecord>, existingMap: map<string, DNSRecord>): seq<DNSRecord> {
    UpsertsUpTo(id, desired, existingMap, |desired|)
  }

  /** The desired record at position `i` is sent: it is not unchanged, and every earlier desired
      record with its key is unchanged (the first changed record of each key wins). */
  predicate Kept(id: Identity, desired: seq<DNSRecord>, existingMap: map<string, DNSRecord>, i: int)
    requires 0 <= i < |desired|
  {
    !Unchanged(id, existingMap, desired[i])
    && forall j :: 0 <= j < i && id.key(desired[j]) == id.key(desired[i]) ==> Unchanged(id, existingMap, desired[j])
  }

  /** The positions below `n` of the desired records that are sent, in order. */
  function KeptPositions(id: Identity, desired: seq<DNSRecord>, existingMap: map<string, DNSRecord>, n: int): (idx: seq<int>)
    requires 0 <= n <= |desired|
    ensures Increasing(idx, n)
    ensures forall i :: 0 <= i < n ==> (i in idx <==> Kept(id, desired, existingMap, i))
  {
    if n == 0 then []
    else
      var prev := KeptPositions(id, desired, existingMap, n - 1);
      if Kept(id, desired, existingMap, n - 1) then prev + [n - 1] else prev
  }

  /** Some desired record before `i` with key `k` is not unchanged. */
  predicate ChangedBefore(id: Identity, desired: seq<DNSRecord>, existingMap: map<string, DNSRecord>, i: int, k: string)
    requires 0 <= i <= |desired|
  {
    exists j :: 0 <= j < i && id.key(desired[j]) == k && !Unchanged(id, existingMap, desired[j])
  }

  /** The earliest changed record of a key is kept. */
  lemma {:induction false} FirstChangedIsKept(id: Identity, desired: seq<DNSRecord>, existingMap: map<string, DNSRecord>, j: int)
    requires 0 <= j < |desired| && !Unchanged(id, existingMap, desired[j])
    ensures exists j0 :: 0 <= j0 <= j && id.key(desired[j0]) == id.key(desired[j]) && Kept(id, desired, existingMap, j0)
    decreases j
  {
    if !Kept(id, desired, existingMap, j) {
      var j1 :| 0 <= j1 < j && id.key(desired[j1]) == id.key(desired[j]) && !Unchanged(id, existingMap, desired[j1]);
      FirstChangedIsKept(id, desired, existingMap, j1);
    }
  }

  /** The keys sent from the first `n` desired records are the keys of the changed records
      among them: this is what the `seen` set of the diff tracks. */
  lemma KeysOfKept(id: Identity, desired: seq<DNSRecord>, existingMap: map<string, DNSRecord>, n: int)
    requires 0 <= n <= |desired|
    ensures forall k :: k in Keys(id, Pick(desired, KeptPositions(id, desired, existingMap, n)))
                        <==> ChangedBefore(id, desired, existingMap, n, k)
  {
    var idx := KeptPositions(id, desired, existingMap, n);
    var sent := Pick(desired, idx);
    forall k
      ensures k in Keys(id, sent) <==> ChangedBefore(id, desired, existingMap, n, k)
    {
      if k in Keys(id, sent) {
        var x :| x in sent && id.key(x) == k;
        var t :| 0 <= t < |sent| && sent[t] == x;
        assert Kept(id, desired, existingMap, idx[t]);
      }
      if ChangedBefore(id, desired, existingMap, n, k) {
        var j :| 0 <= j < n && id.key(desired[j]) == k && !Unchanged(id, existingMap, desired[j]);
        FirstChangedIsKept(id, desired, existingMap, j);
        var j0 :| 0 <= j0 <= j && id.key(desired[j0]) == k && Kept(id, desired, existingMap, j0);
        assert j0 in idx;
        var t :| 0 <= t < |idx| && idx[t] == j0;
        assert sent[t] == desired[j0];
      }
    }
  }

  /** The upserts are exactly the desired records at the kept positions, in desired order: the
      first changed record of each key, and no other. */
  lemma {:induction false} UpsertsAreKept(id: Identity, desired: seq<DNSRecord>, existingMap: map<string, DNSRecord>, n: int)
    requires 0 <= n <= |desired|
    ensures UpsertsUpTo(id, desired, existingMap, n) == Pick(desired, KeptPositions(id, desired, existingMap, n))
  {
    if n > 0 {
      UpsertsAreKept(id, desired, existingMap, n - 1);
      var idx := KeptPositions(id, desired, existingMap, n - 1);
      var r := desired[n - 1];
      KeysOfKept(id, desired, existingMap, n - 1);
      assert Kept(id, desired, existingMap, n - 1)
         <==> !Unchanged(id, existingMap, r) && !ChangedBefore(id, desired, existingMap, n - 1, id.key(r));
      PickAppend(desired, idx, n - 1);
    }
  }

  /** No two upserted records share a key. */
  lemma UpsertsDistinctKeys(id: Identity, desired: seq<DNSRecord>, existingMap: map<string, DNSRecord>)
    ensures DistinctKeys(id.key, Upserts(id, desired, existingMap))
  {
    UpsertsAreKept(id, desired, existingMap, |desired|);
    var idx := KeptPositions(id, desired, existingMap, |desired|);
    var u := Upserts(id, desired, existingMap);
    forall s, t | 0 <= s < t < |u|
      ensures id.key(u[s]) != id.key(u[t])
    {
      assert idx[s] < idx[t];
      assert Kept(id, desired, existingMap, idx[s]);
      assert Kept(id, desired, existingMap, idx[t]);
    }
  }

  /** With the provider's key, and when type and name hold no separator, the signature
      comparison is implied by the key match: a desired record is left out as unchanged exactly
      when the live map holds a record with its key and its TTL. */
  lemma UnchangedIff(existing: seq<DNSRecord>, r: DNSRecord)
    requires forall i :: 0 <= i < |existing| ==> NoSep(existing[i].rtype) && NoSep(existing[i].name)
    requires NoSep(r.rtype) && NoSep(r.name)
    ensures var m := LastByKey(Spaceship, existing);
      Unchanged(Spaceship, m, r) <==> RecordKey(r) in m && m[RecordKey(r)].ttl == r.ttl
  {
    var m := LastByKey(Spaceship, existing);
    var k := RecordKey(r);
    LastByKeyDomain(Spaceship, existing);
    if k in m {
      KeyEqualIff(m[k], r);
    }
  }

  // ---------------------------------------------------------------------------
  // The diff

  /** The first loop of diffDNSRecords: index the desired records by key. */
  method IndexByKey(id: Identity, records: seq<DNSRecord>) returns (m: map<string, DNSRecord>)
    ensures m == LastByKey(id, records)
  {
    m := map[];
    for i := 0 to |records|
      invariant m == LastByKey(id, records[..i])
    {
      assert records[..i + 1][..i] == records[..i];
      m := m[id.key(records[i]) := records[i]];
    }
    assert records[..|records|] == records;
  }

  /** The second loop: index the live records by key and collect those whose key is not
      desired. */
  method IndexAndCollectDeletions(id: Identity, existing: seq<DNSRecord>, desiredMap: map<string, DNSRecord>)
    returns (existingMap: map<string, DNSRecord>, toDelete: seq<DNSRecord>)
    ensures existingMap == LastByKey(id, existing)
    ensures toDelete == Deletions(id, existing, desiredMap.Keys)
  {
    existingMap := map[];
    toDelete := [];
    for i := 0 to |existing|
      invariant existingMap == LastByKey(id, existing[..i])
      invariant toDelete == DeletionsUpTo(id, existing, desiredMap.Keys, i)
    {
      var key := id.key(existing[i]);
      assert existing[..i + 1][..i] == existing[..i];
      existingMap := existingMap[key := existing[i]];
      if key !in desiredMap {
        toDelete := toDelete + [existing[i]];
      }
    }
    assert existing[..|existing|] == existing;
  }

  /** The third loop: collect the desired records that are not unchanged, skipping keys already
      sent (Go's `seen` set). */
  method CollectUpserts(id: Identity, desired: seq<DNSRecord>, existingMap: map<string, DNSRecord>)
    returns (toUpsert: seq<DNSRecord>)
    ensures toUpsert == Upserts(id, desired, existingMap)
  {
    var seen: set<string> := {};
    toUpsert := [];
    for i := 0 to |desired|
      invariant toUpsert == UpsertsUpTo(id, desired, existingMap, i)
      invariant seen == Keys(id, toUpsert)
    {
      var record := desired[i];
      var key := id.key(record);
      if key in existingMap && existingMap[key].ttl == record.ttl && id.sig(existingMap[key]) == id.sig(record) {
        continue;
      }
      if key in seen {
        continue;
      }
      KeysAppend(id, toUpsert, record);
      toUpsert := toUpsert + [record];
      seen := seen + {key};
    }
  }

  /** diffDNSRecords: the live records to delete and the desired records to upsert, records
      being identified by `RecordKey` and compared by `ValueSignature`. */
  method DiffDNSRecords(existing: seq<DNSRecord>, desired: seq<DNSRecord>)
    returns (toDelete: seq<DNSRecord>, toUpsert: seq<DNSRecord>)
    ensures toDelete == Deletions(Spaceship, existing, Keys(Spaceship, desired))
    ensures toUpsert == Upserts(Spaceship, desired, LastByKey(Spaceship, existing))
  {
    var desiredMap := IndexByKey(Spaceship, desired);
    LastByKeyDomain(Spaceship, desired);
    var existingMap;
    existingMap, toDelete := IndexAndCollectDeletions(Spaceship, existing, desiredMap);
    toUpsert := CollectUpserts(Spaceship, desired, existingMap);
  }

  // ---------------------------------------------------------------------------
  // Consequences

  /** When the live records have distinct keys and every desired record is one of them,
      nothing is upserted. */
  lemma DesiredWithinExistingNeedsNoUpsert(id: Identity, existing: seq<DNSRecord>, desired: seq<DNSRecord>)
    requires DistinctKeys(id.key, existing)
    requires forall i :: 0 <= i < |desired| ==> desired[i] in existing
    ensures Upserts(id, desired, LastByKey(id, existing)) == []
  {
    var m := LastByKey(id, existing);
    LastByKeyDomain(id, existing);
    LastByKeyDistinct(id, existing);
    UpsertsAreKept(id, desired, m, |desired|);
    var idx := KeptPositions(id, desired, m, |desired|);
    forall i | 0 <= i < |desired|
      ensures !Kept(id, desired, m, i)
    {
      var j :| 0 <= j < |existing| && existing[j] == desired[i];
      assert Unchanged(id, m, desired[i]);
    }
    HeadIsMember(idx);
  }

  /** Nothing is deleted when every live key is desired. */
  lemma NothingUnwantedNoDeletions(id: Identity, existing: seq<DNSRecord>, desiredKeys: set<string>)
    requires forall i :: 0 <= i < |existing| ==> id.key(existing[i]) in desiredKeys
    ensures Deletions(id, existing, desiredKeys) == []
  {
    DeletionsArePicked(id, existing, desiredKeys, |existing|);
    HeadIsMember(UnwantedPositions(id, existing, desiredKeys, |existing|));
  }

  /** When exactly one desired record is kept, it is the whole upsert. */
  lemma SingleKept(id: Identity, desired: seq<DNSRecord>, existingMap: map<string, DNSRecord>, i: int)
    requires 0 <= i < |desired|
    requires forall j :: 0 <= j < |desired| ==> (Kept(id, desired, existingMap, j) <==> j == i)
    ensures Upserts(id, desired, existingMap) == [desired[i]]
  {
    UpsertsAreKept(id, desired, existingMap, |desired|);
    var idx := KeptPositions(id, desired, existingMap, |desired|);
    IncreasingUnique(idx, [i], |desired|);
  }

  /** A record list with distinct keys diffed against itself plans nothing. */
  lemma DiffOfSelfIsEmpty(id: Identity, records: seq<DNSRecord>)
    requires DistinctKeys(id.key, records)
    ensures Deletions(id, records, Keys(id, records)) == []
    ensures Upserts(id, records, LastByKey(id, records)) == []
  {
    NothingUnwantedNoDeletions(id, records, Keys(id, records));
    DesiredWithinExistingNeedsNoUpsert(id, records, records);
  }

  /** Changing only the TTL of one record, under an identity that ignores the TTL, deletes
      nothing and upserts exactly that record. */
  lemma TtlChangeUpsertsOnly(id: Identity, existing: seq<DNSRecord>, i: int, ttl: int)
    requires DistinctKeys(id.key, existing) && 0 <= i < |existing| && ttl != existing[i].ttl
    requires id.key(existing[i].(ttl := ttl)) == id.key(existing[i])
    ensures Deletions(id, existing, Keys(id, existing[i := existing[i].(ttl := ttl)])) == []
    ensures Upserts(id, existing[i := existing[i].(ttl := ttl)], LastByKey(id, existing)) == [existing[i].(ttl := ttl)]
  {
    var desired := existing[i := existing[i].(ttl := ttl)];
    var m := LastByKey(id, existing);
    assert forall j :: 0 <= j < |desired| ==> id.key(desired[j]) == id.key(existing[j]);
    forall j | 0 <= j < |existing|
      ensures id.key(existing[j]) in Keys(id, desired)
    {
      assert desired[j] in desired;
    }
    NothingUnwantedNoDeletions(id, existing, Keys(id, desired));
    LastByKeyDistinct(id, existing);
    forall j | 0 <= j < |desired|
      ensures Kept(id, desired, m, j) <==> j == i
    {
      if j == i {
        assert !Unchanged(id, m, desired[i]);
      } else {
        assert Unchanged(id, m, desired[j]);
      }
    }
    SingleKept(id, desired, m, i);
  }

  /** The provider's key ignores the TTL, so a TTL-only change is an upsert of that record. */
  lemma SpaceshipTtlChange(existing: seq<DNSRecord>, i: int, ttl: int)
    requires DistinctKeys(Spaceship.key, existing) && 0 <= i < |existing| && ttl != existing[i].ttl
    ensures Deletions(Spaceship, existing, Keys(Spaceship, existing[i := existing[i].(ttl := ttl)])) == []
    ensures Upserts(Spaceship, existing[i := existing[i].(ttl := ttl)], LastByKey(Spaceship, existing))
         == [existing[i].(ttl := ttl)]
  {
    KeyIgnoresTtlAndCase(existing[i], ttl);
    TtlChangeUpsertsOnly(Spaceship, existing, i, ttl);
  }

  /** Records with different keys replace one another: the live one is deleted and the desired
      one upserted. */
  lemma KeyChangeReplaces(id: Identity, live: DNSRecord, wanted: DNSRecord)
    requires id.key(live) != id.key(wanted)
    ensures Deletions(id, [live], Keys(id, [wanted])) == [live]
    ensures Upserts(id, [wanted], LastByKey(id, [live])) == [wanted]
  {
    assert Keys(id, [wanted]) == {id.key(wanted)};
    assert DeletionsUpTo(id, [live], Keys(id, [wanted]), 0) == [];
    assert LastByKey(id, [live]) == map[id.key(live) := live] by {
      assert [live][..0] == [];
    }
    assert !Unchanged(id, LastByKey(id, [live]), wanted);
    assert Keys(id, UpsertsUpTo(id, [wanted], LastByKey(id, [live]), 0)) == {};
  }

  /** A new address on an A or AAAA record replaces the record. */
  lemma AddressChangeReplaces(live: DNSRecord, wanted: DNSRecord)
    requires ToUpper(live.rtype) in {"A", "AAAA"} && wanted == live.(address := wanted.address)
    requires ToLower(live.address) != ToLower(wanted.address)
    ensures Deletions(Spaceship, [live], Keys(Spaceship, [wanted])) == [live]
    ensures Upserts(Spaceship, [wanted], LastByKey(Spaceship, [live])) == [wanted]
  {
    AddressChangeChangesKey(live, wanted);
    KeyChangeReplaces(Spaceship, live, wanted);
  }
}
