/** What expanding the configured records guarantees: which problems an entry reports, what a
    kept record holds, and how the whole list's records and diagnostics relate. */
module ExpandProperties {
  import opened Text
  import opened Records
  import opened Framework
  import opened Expand

  // ---------------------------------------------------------------------------
  // One entry

  /** An entry with a blank type, else a blank name, else an unsupported type has that one
      problem and is dropped. */
  lemma ExpandRejects(item: RecordConfig, t: string, name: string, kind: Option<Kind>)
    ensures t == "" ==> ExpandTyped(item, t, name, kind) == ItemResult(None, [MissingType])
    ensures t != "" && name == "" ==> ExpandTyped(item, t, name, kind) == ItemResult(None, [MissingName])
    ensures t != "" && name != "" && kind.None? ==>
              ExpandTyped(item, t, name, kind) == ItemResult(None, [UnsupportedType(t)])
  {
  }

  /** An entry is kept exactly when its type and name are not blank, its type is supported,
      every check of its kind passes and, for HTTPS, a configured port comes with a scheme. */
  lemma ExpandKeeps(item: RecordConfig, t: string, name: string, kind: Option<Kind>)
    ensures ExpandTyped(item, t, name, kind).record.Some?
        <==> t != "" && name != "" && kind.Some? && AllProvided(kind.value, item) && !SchemeMissing(kind.value, item)
  {
    if t != "" && name != "" && kind.Some? {
      assert ExpandTyped(item, t, name, kind).problems == KindProblems(item, kind.value);
    }
  }

  // ---------------------------------------------------------------------------
  // What the problems say

  /** A failing check is reported. */
  lemma {:induction false} ChecksReportFailing(item: RecordConfig, k: Kind, qs: seq<Attr>, j: int)
    requires 0 <= j < |qs| && !Provided(item, qs[j])
    ensures MissingAttr(k, qs[j]) in Checks(item, k, qs)
  {
    if j > 0 {
      ChecksReportFailing(item, k, qs[1..], j - 1);
    }
  }

  /** Every problem of a run of checks is one of its failing checks. */
  lemma {:induction false} ChecksOnlyFailing(item: RecordConfig, k: Kind, qs: seq<Attr>, p: Problem)
    requires p in Checks(item, k, qs)
    ensures p.MissingAttr? && p.kind == k && p.attr in qs && !Provided(item, p.attr)
  {
    if p != MissingAttr(k, qs[0]) || Provided(item, qs[0]) {
      ChecksOnlyFailing(item, k, qs[1..], p);
    }
  }

  /** For an entry with a type, a name and a supported kind `k`: each check of its kind that
      fails is a problem, and every problem is such a failing check or HTTPS's scheme rule. */
  lemma EntryProblems(item: RecordConfig, t: string, name: string, k: Kind)
    requires t != "" && name != ""
    ensures forall a :: a in Requirements(k) && !Provided(item, a) ==>
              MissingAttr(k, a) in ExpandTyped(item, t, name, Some(k)).problems
    ensures forall p :: p in ExpandTyped(item, t, name, Some(k)).problems ==>
              (p.MissingAttr? && p.kind == k && p.attr in Requirements(k) && !Provided(item, p.attr))
              || (p == MissingScheme && SchemeMissing(k, item))
  {
    var qs := Requirements(k);
    var ps := ExpandTyped(item, t, name, Some(k)).problems;
    assert ps == KindProblems(item, k);
    forall a | a in qs && !Provided(item, a)
      ensures MissingAttr(k, a) in ps
    {
      var j :| 0 <= j < |qs| && qs[j] == a;
      ChecksReportFailing(item, k, qs, j);
    }
    forall p | p in ps
      ensures (p.MissingAttr? && p.kind == k && p.attr in qs && !Provided(item, p.attr))
              || (p == MissingScheme && SchemeMissing(k, item))
    {
      if p in Checks(item, k, qs) {
        ChecksOnlyFailing(item, k, qs, p);
      }
    }
  }

  // ---------------------------------------------------------------------------
  // What a kept record holds

  /** The arms of `FillComplete` for the kinds that require one attribute. */
  lemma SingleFillComplete(k: Kind, item: RecordConfig, t: string, name: string, ttl: int)
    requires k == A || k == AAAA || k == ALIAS || k == CNAME || k == NS || k == PTR || k == TXT
    requires AllProvided(k, item)
    ensures HasRequired(Fill(k, item, t, name, ttl), k)
  {
    assert Provided(item, Requirements(k)[0]);
  }

  /** The arms of `FillComplete` for the kinds that require two or three attributes. */
  lemma PairFillComplete(k: Kind, item: RecordConfig, t: string, name: string, ttl: int)
    requires k == CAA || k == HTTPS || k == SVCB || k == MX
    requires AllProvided(k, item)
    ensures HasRequired(Fill(k, item, t, name, ttl), k)
  {
    var qs := Requirements(k);
    assert Provided(item, qs[0]) && Provided(item, qs[1]);
    if k == CAA {
      assert Provided(item, qs[2]);
    }
  }

  /** The SRV arm of `FillComplete`. */
  lemma SrvFillComplete(item: RecordConfig, t: string, name: string, ttl: int)
    requires AllProvided(SRV, item)
    ensures HasRequired(Fill(SRV, item, t, name, ttl), SRV)
  {
    var qs := Requirements(SRV);
    assert Filled(item.service) && Filled(item.protocol) by { assert Provided(item, qs[0]) && Provided(item, qs[1]); }
    assert item.priority.Known? && item.weight.Known? && item.portNumber.Known? by {
      assert Provided(item, qs[2]) && Provided(item, qs[3]) && Provided(item, qs[4]);
    }
    assert Filled(item.target) by { assert Provided(item, qs[5]); }
  }

  /** The TLSA arm of `FillComplete`. */
  lemma TlsaFillComplete(item: RecordConfig, t: string, name: string, ttl: int)
    requires AllProvided(TLSA, item)
    ensures HasRequired(Fill(TLSA, item, t, name, ttl), TLSA)
  {
    var qs := Requirements(TLSA);
    assert Filled(item.port) by { assert Provided(item, qs[0]); }
    assert Filled(item.protocol) by { assert Provided(item, qs[1]); }
    assert item.usage.Known? && item.selector.Known? && item.matching.Known? by {
      assert Provided(item, qs[2]) && Provided(item, qs[3]) && Provided(item, qs[4]);
    }
    assert Filled(item.associationData) by { assert Provided(item, qs[5]); }
  }

  /** The record built from an entry whose checks all pass holds every required field. */
  lemma FillComplete(k: Kind, item: RecordConfig, t: string, name: string, ttl: int)
    requires AllProvided(k, item)
    ensures HasRequired(Fill(k, item, t, name, ttl), k)
  {
    if k == SRV {
      SrvFillComplete(item, t, name, ttl);
    } else if k == TLSA {
      TlsaFillComplete(item, t, name, ttl);
    } else if k == CAA || k == HTTPS || k == SVCB || k == MX {
      PairFillComplete(k, item, t, name, ttl);
    } else {
      SingleFillComplete(k, item, t, name, ttl);
    }
  }

  /** A kept record carries the type, name and TTL it was built from and every field its
      kind requires. */
  lemma KeptRecordHolds(item: RecordConfig, t: string, name: string, kind: Option<Kind>)
    requires ExpandTyped(item, t, name, kind).record.Some?
    ensures kind.Some?
    ensures var r := ExpandTyped(item, t, name, kind).record.value;
      r.rtype == t && r.name == name && r.ttl == TTLOf(item) && HasRequired(r, kind.value)
  {
    ExpandKeeps(item, t, name, kind);
    FillComplete(kind.value, item, t, name, TTLOf(item));
  }

  /** A record kept from a configured entry has the entry's upper-cased type, which is a
      supported one, its trimmed and non-empty name, its TTL or 3600, and every field its type
      requires. */
  lemma KeptRecordComplete(item: RecordConfig)
    requires ExpandItem(item).record.Some?
    ensures var r := ExpandItem(item).record.value;
      r.rtype == TypeOf(item) && r.rtype in SupportedTypes && r.name == NameOf(item) && r.ttl == TTLOf(item)
      && Complete(r)
  {
    var t := TypeOf(item);
    KeptRecordHolds(item, t, NameOf(item), KindOf(t));
    KindOfSupported(t);
  }

  // ---------------------------------------------------------------------------
  // The whole list

  /** Every kept record is the record of one of the entries, and entries keep their order. */
  lemma {:induction false} KeptFrom(step: RecordConfig -> ItemResult, items: seq<RecordConfig>, n: int, i: int)
    requires 0 <= n <= |items| && 0 <= i < |KeptUpTo(step, items, n)|
    ensures exists j :: 0 <= j < n && step(items[j]).record == Some(KeptUpTo(step, items, n)[i])
  {
    var prev := KeptUpTo(step, items, n - 1);
    if i < |prev| {
      KeptFrom(step, items, n - 1, i);
    }
  }

  /** Every expanded record has a supported type, a name and every field its type requires. */
  lemma ExpandedComplete(items: seq<RecordConfig>)
    ensures forall r :: r in KeptUpTo(ExpandItem, items, |items|) ==> Complete(r)
  {
    var rs := KeptUpTo(ExpandItem, items, |items|);
    forall r | r in rs
      ensures Complete(r)
    {
      var i :| 0 <= i < |rs| && rs[i] == r;
      KeptFrom(ExpandItem, items, |items|, i);
      var j :| 0 <= j < |items| && ExpandItem(items[j]).record == Some(r);
      KeptRecordComplete(items[j]);
    }
  }

  /** With a step that keeps exactly the entries without problems: no diagnostics exactly when
      every entry is kept, and then the records are the entries' records in configuration
      order. */
  lemma {:induction false} CleanExpansionKeepsAll(step: RecordConfig -> ItemResult, render: (nat, Problem) -> Diagnostic,
                                                  items: seq<RecordConfig>, n: int)
    requires KeepsClean(step) && 0 <= n <= |items|
    ensures ReportedUpTo(step, render, items, n) == [] <==> |KeptUpTo(step, items, n)| == n
    ensures ReportedUpTo(step, render, items, n) == [] ==>
              forall j :: 0 <= j < n ==> step(items[j]).record == Some(KeptUpTo(step, items, n)[j])
  {
    if n > 0 {
      CleanExpansionKeepsAll(step, render, items, n - 1);
    }
  }

  /** `expandDNSRecords` reports nothing exactly when it keeps every entry, each as `ExpandItem`
      builds it, in configuration order. */
  lemma CleanListKeepsAll(items: seq<RecordConfig>)
    ensures Expanded(Known(items)).diags == [] <==> |Expanded(Known(items)).records| == |items|
    ensures Expanded(Known(items)).diags == [] ==>
              forall j :: 0 <= j < |items| ==> ExpandItem(items[j]).record == Some(Expanded(Known(items)).records[j])
  {
    CleanExpansionKeepsAll(ExpandItem, Render, items, |items|);
  }
}
