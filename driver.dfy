/** The step sequence of the DNS records resource. Create and Update read the zone, compute the
    plan, delete the stale records, upsert the changed ones when there are any, re-read the zone
    and store it reordered like the configuration; Read re-reads the zone and reorders it like the
    stored list. Each step stops the operation at its first error.

    The Spaceship API is not modelled: each call's answer is an input (`Api`), so every property
    below holds whatever the API answers. The calls the driver makes are recorded, in order, in
    the outcome. */
module Driver {
  import opened Text
  import opened Records
  import opened Framework
  import opened Expand
  import opened Signature
  import Diff
  import Order

  /** The resource operation running the sequence; the messages differ between them. */
  datatype Operation = Create | Read | Update

  /** The answer to one `GetDNSRecords` call: the zone's records, or an error, which may be the
      API's "not found". */
  datatype Fetch = Fetched(records: seq<DNSRecord>) | FetchFailed(error: string, notFound: bool)

  /** The API's answers, in call order: the first read, the delete, the upsert, the re-read. */
  datatype Api = Api(existing: Fetch, deleteError: Option<string>, upsertError: Option<string>, refreshed: Fetch)

  /** A call the driver makes on the API. */
  datatype Call =
    | GetRecords(domain: string)
    | DeleteRecords(domain: string, records: seq<DNSRecord>)
    | UpsertRecords(domain: string, force: bool, records: seq<DNSRecord>)

  /** The resource model as read from the plan or the prior state. */
  datatype ResourceModel = ResourceModel(id: TFValue<string>, domain: string, force: TFValue<bool>,
                                         records: TFValue<seq<RecordConfig>>)

  /** The model written back to the state; `records` is the list handed to the flattening. */
  datatype Stored = Stored(id: TFValue<string>, domain: string, force: TFValue<bool>, records: seq<DNSRecord>)

  /** What an operation does to the stored state. */
  datatype StateChange = NoChange | Removed | Written(stored: Stored)

  /** The calls made, the diagnostics reported, and the effect on the state. */
  datatype Outcome = Outcome(calls: seq<Call>, diags: seq<Diagnostic>, state: StateChange)

  /** Why an operation stopped. */
  datatype Failure =
    | Unconfigured
    | ReadExistingFailed(error: string)
    | DeleteFailed(error: string)
    | UpsertFailed(error: string)
    | RefreshFailed(error: string)

  /** The error each failure adds, with the wording each operation uses. */
  function Message(op: Operation, f: Failure): Diagnostic {
    match f
    case Unconfigured =>
      Error(Whole, "Unconfigured provider",
            "The Spaceship provider was not configured. Please ensure the provider block is present"
            + (if op == Update then "." else ""))
    case ReadExistingFailed(e) =>
      var lead := match op
        case Create => "failed to read existing DNS records: "
        case Update => "failed to read existing DNS Records: "
        case Read => "Failed to read DNS records: ";
      Error(Whole, "Spaceship API error", lead + e)
    case DeleteFailed(e) => Error(Whole, "Spaceship API error", "Failed to delete DNS records: " + e)
    case UpsertFailed(e) =>
      var lead := if op == Update then "Failed to update DNS records: " else "Fail;ed to apply DNS records: ";
      Error(Whole, "Spaceship API error", lead + e)
    case RefreshFailed(e) => Error(Whole, "Spaceship API error", "Failed to refresh DNS records: " + e)
  }

  /** An operation that stops with one error after the calls `sent`. */
  function Stopped(sent: seq<Call>, d: Diagnostic): Outcome {
    Outcome(sent, [d], NoChange)
  }

  /** The records `diffDNSRecords` deletes, with the provider's key. */
  function ToDelete(existing: seq<DNSRecord>, desired: seq<DNSRecord>): seq<DNSRecord> {
    Diff.Deletions(Diff.Spaceship, existing, Diff.Keys(Diff.Spaceship, desired))
  }

  /** The records `diffDNSRecords` upserts, with the provider's key. */
  function ToUpsert(existing: seq<DNSRecord>, desired: seq<DNSRecord>): seq<DNSRecord> {
    Diff.Upserts(Diff.Spaceship, desired, Diff.LastByKey(Diff.Spaceship, existing))
  }

  /** The full call sequence of a Create or Update that fails nowhere: read, delete, upsert when
      there is something to upsert, re-read. */
  function AllCalls(domain: string, force: bool, toDelete: seq<DNSRecord>, toUpsert: seq<DNSRecord>): seq<Call> {
    [GetRecords(domain), DeleteRecords(domain, toDelete)]
    + (if toUpsert == [] then [] else [UpsertRecords(domain, force, toUpsert)])
    + [GetRecords(domain)]
  }

  /** Create and Update: the outcome for a provider that is `configured` or not, a plan, and the
      API's answers. */
  function Reconciled(op: Operation, configured: bool, plan: ResourceModel, api: Api): Outcome
    requires op != Read
  {
    if !configured then Stopped([], Message(op, Unconfigured))
    else
      var desired := Expanded(plan.records);
      if desired.diags != [] then Outcome([], desired.diags, NoChange)
      else Applied(op, plan.domain, BoolOrDefault(plan.force, true), desired.records, api)
  }

  /** The API part of Create and Update, once the plan expanded without error into `desired`. */
  function Applied(op: Operation, d: string, force: bool, desired: seq<DNSRecord>, api: Api): Outcome
    requires op != Read
  {
    match api.existing
    case FetchFailed(e, _) => Stopped([GetRecords(d)], Message(op, ReadExistingFailed(e)))
    case Fetched(existing) => Pushed(op, d, force, desired, ToDelete(existing, desired), ToUpsert(existing, desired), api)
  }

  /** The changes of Create and Update, once the zone was read and the plan computed. */
  function Pushed(op: Operation, d: string, force: bool, desired: seq<DNSRecord>,
                  toDelete: seq<DNSRecord>, toUpsert: seq<DNSRecord>, api: Api): Outcome
    requires op != Read
  {
    if api.deleteError.Some? then
      Stopped([GetRecords(d), DeleteRecords(d, toDelete)], Message(op, DeleteFailed(api.deleteError.value)))
    else if toUpsert != [] && api.upsertError.Some? then
      Stopped([GetRecords(d), DeleteRecords(d, toDelete), UpsertRecords(d, force, toUpsert)],
              Message(op, UpsertFailed(api.upsertError.value)))
    else
      var calls := AllCalls(d, force, toDelete, toUpsert);
      match api.refreshed
      case FetchFailed(e, _) => Stopped(calls, Message(op, RefreshFailed(e)))
      case Fetched(updated) =>
        Outcome(calls, [], Written(Stored(Known(d), d, Known(force), Order.OrderedLike(RecordKey, desired, updated))))
  }

  /** Read: the outcome for a provider that is `configured` or not, the prior state, and the
      API's answer to the one read. */
  function ReadBack(configured: bool, state: ResourceModel, fetch: Fetch): Outcome {
    if !configured then Stopped([], Message(Read, Unconfigured))
    else
      var stored := Expanded(state.records);
      var d := state.domain;
      if stored.diags != [] then Outcome([], stored.diags, NoChange)
      else match fetch
        case FetchFailed(e, notFound) =>
          if notFound then Outcome([GetRecords(d)], [], Removed)
          else Stopped([GetRecords(d)], Message(Read, ReadExistingFailed(e)))
        case Fetched(live) =>
          Outcome([GetRecords(d)], [], Written(Stored(state.id, d, state.force,
                                                       Order.OrderedLike(RecordKey, stored.records, live))))
  }

  // ---------------------------------------------------------------------------
  // The operations as step sequences

  /** `Create` and `Update`: check the provider, expand the plan, then talk to the API. */
  method Reconcile(op: Operation, configured: bool, plan: ResourceModel, api: Api) returns (out: Outcome)
    requires op != Read
    ensures out == Reconciled(op, configured, plan, api)
  {
    if !configured {
      return Stopped([], Message(op, Unconfigured));
    }
    var force := BoolOrDefault(plan.force, true);
    var desired, diags := ExpandDNSRecords(plan.records);
    if diags != [] {
      return Outcome([], diags, NoChange);
    }
    out := Apply(op, plan.domain, force, desired, api);
  }

  /** The API steps of `Create` and `Update`: read the zone, compute the plan, push it. */
  method Apply(op: Operation, d: string, force: bool, desired: seq<DNSRecord>, api: Api) returns (out: Outcome)
    requires op != Read
    ensures out == Applied(op, d, force, desired, api)
  {
    if api.existing.FetchFailed? {
      return Stopped([GetRecords(d)], Message(op, ReadExistingFailed(api.existing.error)));
    }
    var toDelete, toUpsert := Diff.DiffDNSRecords(api.existing.records, desired);
    out := Push(op, d, force, desired, toDelete, toUpsert, api);
  }

  /** Delete, upsert when there is something to upsert, re-read, reorder. */
  method Push(op: Operation, d: string, force: bool, desired: seq<DNSRecord>,
              toDelete: seq<DNSRecord>, toUpsert: seq<DNSRecord>, api: Api) returns (out: Outcome)
    requires op != Read
    ensures out == Pushed(op, d, force, desired, toDelete, toUpsert, api)
  {
    var calls := [GetRecords(d), DeleteRecords(d, toDelete)];
    if api.deleteError.Some? {
      return Stopped(calls, Message(op, DeleteFailed(api.deleteError.value)));
    }
    if |toUpsert| > 0 {
      calls := calls + [UpsertRecords(d, force, toUpsert)];
      if api.upsertError.Some? {
        return Stopped(calls, Message(op, UpsertFailed(api.upsertError.value)));
      }
    }
    calls := calls + [GetRecords(d)];
    if api.refreshed.FetchFailed? {
      return Stopped(calls, Message(op, RefreshFailed(api.refreshed.error)));
    }
    var ordered := Order.OrderRecordsLike(RecordKey, desired, api.refreshed.records);
    return Outcome(calls, [], Written(Stored(Known(d), d, Known(force), ordered)));
  }

  /** `Read`: expand the stored list, read the zone, drop the resource when the zone is gone,
      reorder otherwise. */
  method ReadRecords(configured: bool, state: ResourceModel, fetch: Fetch) returns (out: Outcome)
    ensures out == ReadBack(configured, state, fetch)
  {
    if !configured {
      return Stopped([], Message(Read, Unconfigured));
    }
    var stored, diags := ExpandDNSRecords(state.records);
    if diags != [] {
      return Outcome([], diags, NoChange);
    }
    var d := state.domain;
    if fetch.FetchFailed? {
      if fetch.notFound {
        return Outcome([GetRecords(d)], [], Removed);
      }
      return Stopped([GetRecords(d)], Message(Read, ReadExistingFailed(fetch.error)));
    }
    var ordered := Order.OrderRecordsLike(RecordKey, stored, fetch.records);
    return Outcome([GetRecords(d)], [], Written(Stored(state.id, d, state.force, ordered)));
  }
}
