/** What the Create, Update and Read sequences guarantee, whatever the API answers. */
module DriverProperties {
  import opened Text
  import opened Records
  import opened Framework
  import opened Expand
  import opened Signature
  import Diff
  import Order
  import opened Driver

  // ---------------------------------------------------------------------------
  // Messages

  /** Every stop reports one error on the resource as a whole; an API failure is reported as a
      "Spaceship API error" whose detail ends with the API's error text. */
  lemma MessageShape(op: Operation, f: Failure)
    ensures Message(op, f).at == Whole
    ensures f.Unconfigured? <==> Message(op, f).summary == "Unconfigured provider"
    ensures !f.Unconfigured? ==> Message(op, f).summary == "Spaceship API error"
    ensures !f.Unconfigured? ==>
              var t := Message(op, f).detail;
              |f.error| <= |t| && t[|t| - |f.error|..] == f.error
  {
    var t := Message(op, f).detail;
    match f
    case Unconfigured =>
    case ReadExistingFailed(e) =>
    case DeleteFailed(e) =>
    case UpsertFailed(e) =>
    case RefreshFailed(e) =>
  }

  /** Create and Read word the unconfigured provider alike; Update adds a final period. */
  lemma UnconfiguredWording()
    ensures Message(Read, Unconfigured) == Message(Create, Unconfigured)
    ensures Message(Update, Unconfigured).detail == Message(Create, Unconfigured).detail + "."
  {
  }

  /** Create and Update word a failed first read and a failed upsert differently, and a failed
      delete or re-read alike. */
  lemma CreateAndUpdateWording(f: Failure)
    requires !f.Unconfigured?
    ensures Message(Create, f) == Message(Update, f) <==> f.DeleteFailed? || f.RefreshFailed?
  {
    match f
    case ReadExistingFailed(e) =>
      assert Message(Create, f).detail[28] == 'r';
      assert Message(Update, f).detail[28] == 'R';
    case UpsertFailed(e) =>
      assert Message(Create, f).detail[4] == ';';
      assert Message(Update, f).detail[4] == 'e';
    case DeleteFailed(e) =>
    case RefreshFailed(e) =>
  }

  // ---------------------------------------------------------------------------
  // Create and Update: delete, upsert, re-read

  /** Once the zone was read and the plan computed, the calls stop at the first failure: the
      calls made are a prefix of the full sequence ending with the failing call, the one
      diagnostic names that failure, and the state is written exactly when nothing failed, with
      the domain as the ID, the force flag, and the re-read zone reordered like the plan. */
  lemma PushStopsAtFirstFailure(op: Operation, d: string, force: bool, desired: seq<DNSRecord>,
                                toDelete: seq<DNSRecord>, toUpsert: seq<DNSRecord>, api: Api)
    requires op != Read
    ensures Pushed(op, d, force, desired, toDelete, toUpsert, api).calls <= AllCalls(d, force, toDelete, toUpsert)
    ensures |Pushed(op, d, force, desired, toDelete, toUpsert, api).calls| >= 2
    ensures api.deleteError.Some? ==>
              |Pushed(op, d, force, desired, toDelete, toUpsert, api).calls| == 2
              && Pushed(op, d, force, desired, toDelete, toUpsert, api).diags
                 == [Message(op, DeleteFailed(api.deleteError.value))]
    ensures api.deleteError.None? && toUpsert != [] && api.upsertError.Some? ==>
              |Pushed(op, d, force, desired, toDelete, toUpsert, api).calls| == 3
              && Pushed(op, d, force, desired, toDelete, toUpsert, api).diags
                 == [Message(op, UpsertFailed(api.upsertError.value))]
    ensures api.deleteError.None? && (toUpsert == [] || api.upsertError.None?) && api.refreshed.FetchFailed? ==>
              Pushed(op, d, force, desired, toDelete, toUpsert, api)
              == Outcome(AllCalls(d, force, toDelete, toUpsert), [Message(op, RefreshFailed(api.refreshed.error))], NoChange)
    ensures Pushed(op, d, force, desired, toDelete, toUpsert, api).state.Written? <==>
              api.deleteError.None? && (toUpsert == [] || api.upsertError.None?) && api.refreshed.Fetched?
    ensures Pushed(op, d, force, desired, toDelete, toUpsert, api).state.Written? ==>
              Pushed(op, d, force, desired, toDelete, toUpsert, api)
              == Outcome(AllCalls(d, force, toDelete, toUpsert), [],
                         Written(Stored(Known(d), d, Known(force), Order.OrderedLike(RecordKey, desired, api.refreshed.records))))
    ensures !Pushed(op, d, force, desired, toDelete, toUpsert, api).state.Written? ==>
              Pushed(op, d, force, desired, toDelete, toUpsert, api).state.NoChange?
              && |Pushed(op, d, force, desired, toDelete, toUpsert, api).diags| == 1
  {
    var out := Pushed(op, d, force, desired, toDelete, toUpsert, api);
    var all := AllCalls(d, force, toDelete, toUpsert);
    if api.deleteError.Some? {
      assert out.calls == all[..2];
    } else if toUpsert != [] && api.upsertError.Some? {
      assert out.calls == all[..3];
    }
  }

  /** The delete is always the second call, even with nothing to delete, and it is the only
      delete. */
  lemma PushDeletesOnce(op: Operation, d: string, force: bool, desired: seq<DNSRecord>,
                        toDelete: seq<DNSRecord>, toUpsert: seq<DNSRecord>, api: Api)
    requires op != Read
    ensures Pushed(op, d, force, desired, toDelete, toUpsert, api).calls[1] == DeleteRecords(d, toDelete)
    ensures forall i :: (0 <= i < |Pushed(op, d, force, desired, toDelete, toUpsert, api).calls| &&
                         Pushed(op, d, force, desired, toDelete, toUpsert, api).calls[i].DeleteRecords?) ==> i == 1
  {
    PushStopsAtFirstFailure(op, d, force, desired, toDelete, toUpsert, api);
    var out := Pushed(op, d, force, desired, toDelete, toUpsert, api);
    var all := AllCalls(d, force, toDelete, toUpsert);
    forall i | 0 <= i < |out.calls| && out.calls[i].DeleteRecords?
      ensures i == 1
    {
      assert out.calls[i] == all[i];
    }
  }

  /** An upsert is sent exactly when the delete succeeded and there is something to upsert, and
      it carries the plan's upserts and the force flag. */
  lemma PushUpsertsOnlyWhenNeeded(op: Operation, d: string, force: bool, desired: seq<DNSRecord>,
                                  toDelete: seq<DNSRecord>, toUpsert: seq<DNSRecord>, api: Api)
    requires op != Read
    ensures (exists i :: 0 <= i < |Pushed(op, d, force, desired, toDelete, toUpsert, api).calls| &&
                         Pushed(op, d, force, desired, toDelete, toUpsert, api).calls[i].UpsertRecords?)
        <==> api.deleteError.None? && toUpsert != []
    ensures forall i :: 0 <= i < |Pushed(op, d, force, desired, toDelete, toUpsert, api).calls| &&
                        Pushed(op, d, force, desired, toDelete, toUpsert, api).calls[i].UpsertRecords? ==>
              Pushed(op, d, force, desired, toDelete, toUpsert, api).calls[i] == UpsertRecords(d, force, toUpsert)
  {
    PushStopsAtFirstFailure(op, d, force, desired, toDelete, toUpsert, api);
    var out := Pushed(op, d, force, desired, toDelete, toUpsert, api);
    var all := AllCalls(d, force, toDelete, toUpsert);
    forall i | 0 <= i < |out.calls| && out.calls[i].UpsertRecords?
      ensures out.calls[i] == UpsertRecords(d, force, toUpsert)
    {
      assert out.calls[i] == all[i];
    }
    if api.deleteError.None? && toUpsert != [] {
      assert out.calls[2] == all[2];
    }
  }

  /** Create and Update push alike; only their wording differs. */
  lemma PushAlike(a: Operation, b: Operation, d: string, force: bool, desired: seq<DNSRecord>,
                  toDelete: seq<DNSRecord>, toUpsert: seq<DNSRecord>, api: Api)
    requires a != Read && b != Read
    ensures Pushed(a, d, force, desired, toDelete, toUpsert, api).calls
         == Pushed(b, d, force, desired, toDelete, toUpsert, api).calls
    ensures Pushed(a, d, force, desired, toDelete, toUpsert, api).state
         == Pushed(b, d, force, desired, toDelete, toUpsert, api).state
  {
  }

  // ---------------------------------------------------------------------------
  // Create and Update: the whole sequence

  /** The gate before the API: an unconfigured provider stops with its error, a plan with errors
      stops with those errors, neither calls the API; otherwise the API steps run on the expanded
      records and the force flag defaulted to true. */
  lemma ReconcileGate(op: Operation, configured: bool, plan: ResourceModel, api: Api)
    requires op != Read
    ensures !configured ==> Reconciled(op, configured, plan, api) == Outcome([], [Message(op, Unconfigured)], NoChange)
    ensures configured && Expanded(plan.records).diags != [] ==>
              Reconciled(op, configured, plan, api) == Outcome([], Expanded(plan.records).diags, NoChange)
    ensures configured && Expanded(plan.records).diags == [] ==>
              Reconciled(op, configured, plan, api)
              == Applied(op, plan.domain, BoolOrDefault(plan.force, true), Expanded(plan.records).records, api)
  {
  }

  /** A failed first read is the only call; otherwise the plan is computed by `diffDNSRecords`
      and pushed. */
  lemma AppliedSteps(op: Operation, d: string, force: bool, desired: seq<DNSRecord>, api: Api)
    requires op != Read
    ensures api.existing.FetchFailed? ==>
              Applied(op, d, force, desired, api)
              == Outcome([GetRecords(d)], [Message(op, ReadExistingFailed(api.existing.error))], NoChange)
    ensures api.existing.Fetched? ==>
              Applied(op, d, force, desired, api)
              == Pushed(op, d, force, desired, ToDelete(api.existing.records, desired),
                        ToUpsert(api.existing.records, desired), api)
  {
  }

  /** A successful Create or Update stores the re-read zone reordered like the plan: the same
      records, each as often as the API returned it. */
  lemma AppliedKeepsZone(op: Operation, d: string, force: bool, desired: seq<DNSRecord>, api: Api)
    requires op != Read
    requires Applied(op, d, force, desired, api).state.Written?
    ensures api.existing.Fetched? && api.refreshed.Fetched?
    ensures multiset(Applied(op, d, force, desired, api).state.stored.records) == multiset(api.refreshed.records)
    ensures |Applied(op, d, force, desired, api).state.stored.records| == |api.refreshed.records|
  {
    var toDelete := ToDelete(api.existing.records, desired);
    var toUpsert := ToUpsert(api.existing.records, desired);
    PushStopsAtFirstFailure(op, d, force, desired, toDelete, toUpsert, api);
    Order.OrderedIsPermutation(RecordKey, desired, api.refreshed.records);
  }

  /** Only live records are deleted, and none whose key the plan asks for. */
  lemma NothingDesiredDeleted(op: Operation, d: string, force: bool, desired: seq<DNSRecord>, api: Api)
    requires op != Read
    ensures forall i, r :: 0 <= i < |Applied(op, d, force, desired, api).calls| &&
                           Applied(op, d, force, desired, api).calls[i].DeleteRecords? &&
                           r in Applied(op, d, force, desired, api).calls[i].records ==>
              api.existing.Fetched? && r in api.existing.records
              && RecordKey(r) !in Diff.Keys(Diff.Spaceship, desired)
  {
    var out := Applied(op, d, force, desired, api);
    if api.existing.Fetched? {
      var toDelete := ToDelete(api.existing.records, desired);
      var toUpsert := ToUpsert(api.existing.records, desired);
      PushDeletesOnce(op, d, force, desired, toDelete, toUpsert, api);
      Diff.DeletionsExactly(Diff.Spaceship, api.existing.records, Diff.Keys(Diff.Spaceship, desired));
    }
  }

  /** Create and Update make the same calls and leave the same state; only their wording differs. */
  lemma CreateAndUpdateAlike(a: Operation, b: Operation, configured: bool, plan: ResourceModel, api: Api)
    requires a != Read && b != Read
    ensures var c, u := Reconciled(a, configured, plan, api), Reconciled(b, configured, plan, api);
            c.calls == u.calls && c.state == u.state
  {
    ReconcileGate(a, configured, plan, api);
    ReconcileGate(b, configured, plan, api);
    var desired := Expanded(plan.records).records;
    var force := BoolOrDefault(plan.force, true);
    if api.existing.Fetched? {
      PushAlike(a, b, plan.domain, force, desired, ToDelete(api.existing.records, desired),
                ToUpsert(api.existing.records, desired), api);
    }
  }

  // ---------------------------------------------------------------------------
  // Read

  /** Read makes at most one call. It removes the resource, silently, exactly when the zone is
      not found; it writes exactly when the read succeeded, keeping the stored ID and force flag
      and storing the zone reordered like the stored list, the same records each as often. */
  lemma ReadOutcomes(configured: bool, state: ResourceModel, fetch: Fetch)
    ensures |ReadBack(configured, state, fetch).calls| <= 1
    ensures ReadBack(configured, state, fetch).calls == [] <==> !(configured && Expanded(state.records).diags == [])
    ensures ReadBack(configured, state, fetch).state.Removed? <==>
              configured && Expanded(state.records).diags == [] && fetch.FetchFailed? && fetch.notFound
    ensures ReadBack(configured, state, fetch).state.Removed? ==> ReadBack(configured, state, fetch).diags == []
    ensures ReadBack(configured, state, fetch).state.Written? <==> configured && Expanded(state.records).diags == [] && fetch.Fetched?
    ensures ReadBack(configured, state, fetch).state.NoChange? ==> ReadBack(configured, state, fetch).diags != []
    ensures ReadBack(configured, state, fetch).state.Written? ==>
              ReadBack(configured, state, fetch).state.stored
              == Stored(state.id, state.domain, state.force, Order.OrderedLike(RecordKey, Expanded(state.records).records, fetch.records))
              && multiset(ReadBack(configured, state, fetch).state.stored.records) == multiset(fetch.records)
  {
    if fetch.Fetched? {
      Order.OrderedIsPermutation(RecordKey, Expanded(state.records).records, fetch.records);
    }
  }
}
