/** Reading the configured `records` list into API records: the type is trimmed and upper-cased,
    the name trimmed, the TTL defaults to 3600, and each type demands its own attributes. A record
    with a problem is reported and dropped; the others are kept in configuration order. */
module Expand {
  import opened Text
  import opened Records
  import opened Framework

  /** One entry of the configured `records` list, every attribute as Terraform hands it over. */
  datatype RecordConfig = RecordConfig(
    rtype: TFValue<string>,
    name: TFValue<string>,
    ttl: TFValue<int>,
    address: TFValue<string>,
    aliasName: TFValue<string>,
    cname: TFValue<string>,
    flag: TFValue<int>,
    tag: TFValue<string>,
    value: TFValue<string>,
    port: TFValue<string>,
    scheme: TFValue<string>,
    svcPriority: TFValue<int>,
    targetName: TFValue<string>,
    svcParams: TFValue<string>,
    exchange: TFValue<string>,
    preference: TFValue<int>,
    nameserver: TFValue<string>,
    pointer: TFValue<string>,
    service: TFValue<string>,
    protocol: TFValue<string>,
    priority: TFValue<int>,
    weight: TFValue<int>,
    portNumber: TFValue<int>,
    target: TFValue<string>,
    usage: TFValue<int>,
    selector: TFValue<int>,
    matching: TFValue<int>,
    associationData: TFValue<string>)

  /** The TTL of a record whose `ttl` is null or unknown. */
  const DefaultTTL := 3600

  /** `ValueString()`: the string when known, the empty string otherwise. */
  function Str(v: TFValue<string>): string {
    if v.Known? then v.value else ""
  }

  /** A known number, or an absent one. */
  function Num(v: TFValue<int>): Option<int> {
    if v.Known? then Some(v.value) else None
  }

  /** A string attribute passes `requireString` when it is known and not blank. */
  predicate Filled(v: TFValue<string>) {
    v.Known? && !IsBlank(v.value)
  }

  /** The attributes a type can require. */
  datatype Attr = Address | AliasName | Flag | Tag | Value | CName | SvcPriority | TargetName | Exchange | Preference | Nameserver | Pointer | Service | Protocol | Priority | Weight | PortNumber | Target | Port | Usage | Selector | Matching | AssociationData

  /** The attribute's name in configuration, as diagnostics cite it. */
  function AttrName(a: Attr): string {
    match a
    case Address => "address"
    case AliasName => "alias_name"
    case Flag => "flag"
    case Tag => "tag"
    case Value => "value"
    case CName => "cname"
    case SvcPriority => "svc_priority"
    case TargetName => "target_name"
    case Exchange => "exchange"
    case Preference => "preference"
    case Nameserver => "nameserver"
    case Pointer => "pointer"
    case Service => "service"
    case Protocol => "protocol"
    case Priority => "priority"
    case Weight => "weight"
    case PortNumber => "port_number"
    case Target => "target"
    case Port => "port"
    case Usage => "usage"
    case Selector => "selector"
    case Matching => "matching"
    case AssociationData => "association_data"
  }

  /** The attributes each supported kind checks, in the order its switch arm checks them
      (`requireString` for text, `requireInt` for numbers). */
  function Requirements(k: Kind): seq<Attr> {
    match k
    case A | AAAA => [Address]
    case ALIAS => [AliasName]
    case CAA => [Flag, Tag, Value]
    case CNAME => [CName]
    case HTTPS => [SvcPriority, TargetName]
    case MX => [Exchange, Preference]
    case NS => [Nameserver]
    case PTR => [Pointer]
    case SRV => [Service, Protocol, Priority, Weight, PortNumber, Target]
    case SVCB => [SvcPriority, TargetName]
    case TLSA => [Port, Protocol, Usage, Selector, Matching, AssociationData]
    case TXT => [Value]
  }

  /** The detail text of the diagnostic for a missing attribute `a` of kind `k`. */
  function Detail(k: Kind, a: Attr): string {
    match k
    case A => if a == Address then "Rerocrds of this type require the `address` attributes." else ""
    case AAAA => if a == Address then "Rerocrds of this type require the `address` attributes." else ""
    case ALIAS => if a == AliasName then "ALIAS records require the `alias_name` attribute." else ""
    case CAA => (
      match a
      case Flag => "CAA records require the `flag` attribute (0 or 128)"
      case Tag => "CAA records require the `tag` attribute (e.g. `issue`)"
      case Value => "CAA records require the `value` attribute"
      case _ => "")
    case CNAME => if a == CName then "CNAME records require the `cname` attribute" else ""
    case HTTPS => (
      match a
      case SvcPriority => "HTTPS records require the `scv_priority` attribute"
      case TargetName => "HTTPS records require the `target_name` attribute"
      case _ => "")
    case MX => (
      match a
      case Exchange => "MX records require the `exchange` attribute(mail server hostname)"
      case Preference => "MX records require the `preference` attribute (0-65536)."
      case _ => "")
    case NS => if a == Nameserver then "NS records require the `nameserver` attribute." else ""
    case PTR => if a == Pointer then "PTR records require the `pointer` attribute." else ""
    case SRV => (
      match a
      case Service => "SRV records require the `service`, attribute (for example `_sip`)."
      case Protocol => "SRV records require the `protocol` attribute (e.g. `_tcp`)"
      case Priority => "SRV records require the `priority` attribute (0-65535)."
      case Weight => "SRV records require the `weight` attribute(0-65535)."
      case PortNumber => "SRV records require the `port_number` attribute(1-65535)."
      case Target => "SRV recrods reqiure the `target` attriabute."
      case _ => "")
    case SVCB => (
      match a
      case SvcPriority => "SVCB records require the `svc_priority` attributre(0-65535)."
      case TargetName => "SVCB records require the `target` attribute."
      case _ => "")
    case TLSA => (
      match a
      case Port => "TLSA records require the `port` attribute (for example `_443`)."
      case Protocol => "TLSA records require the `protocol` attribute (e.g. `_tcp`)"
      case Usage => "TLSA records require the `usage` attribute (0-255)"
      case Selector => "TLSA records require the `selector` attribute(0-255)"
      case Matching => "TLSA records require the `matching` attribute(0-255)."
      case AssociationData => "TLSA records require the `association_data` attribute containign the certificate associations"
      case _ => "")
    case TXT => if a == Value then "TXT records require the `value` attribute." else ""
  }

  /** Configured attribute `attr` passes its check: `requireString` wants a known, non-blank
      string, `requireInt` a known number. */
  predicate Provided(item: RecordConfig, attr: Attr) {
    match attr
    case Address => Filled(item.address)
    case AliasName => Filled(item.aliasName)
    case Flag => item.flag.Known?
    case Tag => Filled(item.tag)
    case Value => Filled(item.value)
    case CName => Filled(item.cname)
    case SvcPriority => item.svcPriority.Known?
    case TargetName => Filled(item.targetName)
    case Exchange => Filled(item.exchange)
    case Preference => item.preference.Known?
    case Nameserver => Filled(item.nameserver)
    case Pointer => Filled(item.pointer)
    case Service => Filled(item.service)
    case Protocol => Filled(item.protocol)
    case Priority => item.priority.Known?
    case Weight => item.weight.Known?
    case PortNumber => item.portNumber.Known?
    case Target => Filled(item.target)
    case Port => Filled(item.port)
    case Usage => item.usage.Known?
    case Selector => item.selector.Known?
    case Matching => item.matching.Known?
    case AssociationData => Filled(item.associationData)
  }

  // ---------------------------------------------------------------------------
  // One entry

  /** What can be wrong with one configured entry. Each problem becomes one diagnostic, see
      `Render`. */
  datatype Problem =
    | MissingType
    | MissingName
    | UnsupportedType(t: string)
    | MissingAttr(kind: Kind, attr: Attr)
    | MissingScheme

  /** The problems of kind `k`'s checks `qs`, in order: one per failing check. */
  function Checks(item: RecordConfig, k: Kind, qs: seq<Attr>): (ps: seq<Problem>)
    ensures ps == [] <==> forall j :: 0 <= j < |qs| ==> Provided(item, qs[j])
  {
    if qs == [] then []
    else (if Provided(item, qs[0]) then [] else [MissingAttr(k, qs[0])]) + Checks(item, k, qs[1..])
  }

  /** HTTPS's extra rule: a configured port needs a known scheme. */
  predicate SchemeMissing(k: Kind, item: RecordConfig) {
    k == HTTPS && item.port.Known? && !item.scheme.Known?
  }

  /** A configured port label, as the record stores it. */
  function PortLabel(v: TFValue<string>): Option<PortValue> {
    if v.Known? then Some(StringPort(v.value)) else None
  }

  /** The record the switch arm for kind `k` builds: type, name and TTL, and the value fields
      that arm assigns, each from its configured attribute (Go's zero value when that attribute
      is null or unknown); every other field keeps its zero value. Written field by field: the
      condition on `k` in front of each field lists the arms that assign it. */
  function Fill(k: Kind, item: RecordConfig, t: string, name: string, ttl: int): (r: DNSRecord)
    ensures r.rtype == t && r.name == name && r.ttl == ttl
  {
    var svc := k == HTTPS || k == SVCB;
    DNSRecord(
      rtype := t,
      name := name,
      ttl := ttl,
      address := if k == A || k == AAAA then Str(item.address) else "",
      aliasName := if k == ALIAS then Str(item.aliasName) else "",
      cname := if k == CNAME then Str(item.cname) else "",
      flag := if k == CAA then Num(item.flag) else None,
      tag := if k == CAA then Str(item.tag) else "",
      value := if k == CAA || k == TXT then Str(item.value) else "",
      port := if svc || k == TLSA then PortLabel(item.port)
              else if k == SRV && item.portNumber.Known? then Some(IntPort(item.portNumber.value))
              else None,
      scheme := if svc || k == TLSA then Str(item.scheme) else "",
      svcPriority := if svc then Num(item.svcPriority) else None,
      targetName := if svc then Str(item.targetName) else "",
      svcParams := if svc then Str(item.svcParams) else "",
      exchange := if k == MX then Str(item.exchange) else "",
      preference := if k == MX then Num(item.preference) else None,
      nameserver := if k == NS then Str(item.nameserver) else "",
      pointer := if k == PTR then Str(item.pointer) else "",
      service := if k == SRV then Str(item.service) else "",
      protocol := if k == SRV || k == TLSA then Str(item.protocol) else "",
      priority := if k == SRV then Num(item.priority) else None,
      weight := if k == SRV then Num(item.weight) else None,
      target := if k == SRV then Str(item.target) else "",
      usage := if k == TLSA then Num(item.usage) else None,
      selector := if k == TLSA then Num(item.selector) else None,
      matching := if k == TLSA then Num(item.matching) else None,
      associationData := if k == TLSA then Str(item.associationData) else "")
  }

  /** What one configured entry turns into: the record when it is kept, and its problems. */
  datatype ItemResult = ItemResult(record: Option<DNSRecord>, problems: seq<Problem>)

  /** The type of an entry as the switch sees it. */
  function TypeOf(item: RecordConfig): string {
    ToUpper(TrimSpace(Str(item.rtype)))
  }

  /** The name of an entry as it is stored. */
  function NameOf(item: RecordConfig): string {
    TrimSpace(Str(item.name))
  }

  /** The TTL of an entry: the configured one when known, 3600 otherwise. */
  function TTLOf(item: RecordConfig): int {
    if item.ttl.Known? then item.ttl.value else DefaultTTL
  }

  /** All checks of kind `k` pass for the entry. */
  predicate AllProvided(k: Kind, item: RecordConfig) {
    forall j :: 0 <= j < |Requirements(k)| ==> Provided(item, Requirements(k)[j])
  }

  /** The problems of an entry of kind `k`: its kind's failing checks, in order, then HTTPS's
      scheme rule. */
  function KindProblems(item: RecordConfig, k: Kind): seq<Problem> {
    Checks(item, k, Requirements(k)) + (if SchemeMissing(k, item) then [MissingScheme] else [])
  }

  /** The body of the loop in `expandDNSRecords`, once the entry's type `t` and name are
      normalised and the type's kind looked up: a blank type or name, or an unsupported type,
      is a problem on its own; a supported type runs its checks (and HTTPS its scheme rule),
      and the record is kept exactly when none of them failed. */
  function ExpandTyped(item: RecordConfig, t: string, name: string, kind: Option<Kind>): (res: ItemResult)
    ensures res.record.Some? <==> res.problems == []
  {
    if t == "" then ItemResult(None, [MissingType])
    else if name == "" then ItemResult(None, [MissingName])
    else
      match kind
      case None => ItemResult(None, [UnsupportedType(t)])
      case Some(k) =>
        var ps := KindProblems(item, k);
        ItemResult(if ps == [] then Some(Fill(k, item, t, name, TTLOf(item))) else None, ps)
  }

  /** The body of the loop in `expandDNSRecords`: the type trimmed and upper-cased, the name
      trimmed, and the `switch` on the type. */
  function ExpandItem(item: RecordConfig): ItemResult {
    ExpandTyped(item, TypeOf(item), NameOf(item), KindOf(TypeOf(item)))
  }

  /** The attribute a problem points at. */
  function ProblemAttr(p: Problem): string {
    match p
    case MissingType => "type"
    case MissingName => "name"
    case UnsupportedType(_) => "type"
    case MissingAttr(_, a) => AttrName(a)
    case MissingScheme => "scheme"
  }

  /** The diagnostic the source adds for problem `p` of entry number `index`. */
  function Render(index: nat, p: Problem): (d: Diagnostic)
    ensures d.at == RecordAttr(index, ProblemAttr(p))
    ensures p.MissingAttr? ==> d.summary == "Missing " + AttrName(p.attr) && d.detail == Detail(p.kind, p.attr)
  {
    match p
    case MissingType =>
      Error(RecordAttr(index, "type"), "Missing record type", "Each DNS record must specify a type (e.g. A, MX, TXT).")
    case MissingName =>
      Error(RecordAttr(index, "name"), "Missing record name", "Each DNS record must specify a name (use '@' for the apex).")
    case UnsupportedType(t) =>
      Error(RecordAttr(index, "type"), "Unsupported record type", "Type \"" + t + "\" is not supported by the provider.")
    case MissingAttr(k, a) =>
      Error(RecordAttr(index, AttrName(a)), "Missing " + AttrName(a), Detail(k, a))
    case MissingScheme =>
      Error(RecordAttr(index, "scheme"), "Missing scheme",
            "HTTPS records that specify `port` must also set `scheme` (usually `_https`)")
  }

  // ---------------------------------------------------------------------------
  // The whole list

  /** The diagnostics of entry number `index`, one per problem, in order, each rendered by
      `render` (`Render` for the source). */
  function RenderAll(render: (nat, Problem) -> Diagnostic, index: nat, ps: seq<Problem>): (ds: seq<Diagnostic>)
    ensures |ds| == |ps| && forall j :: 0 <= j < |ps| ==> ds[j] == render(index, ps[j])
  {
    if ps == [] then [] else [render(index, ps[0])] + RenderAll(render, index, ps[1..])
  }

  /** The kept records, in configuration order, and all diagnostics. */
  datatype Expansion = Expansion(records: seq<DNSRecord>, diags: seq<Diagnostic>)

  /** The records the loop of `expandDNSRecords` keeps from the first `n` entries, each entry
      handled by `step` (`ExpandItem` for the source). */
  function KeptUpTo(step: RecordConfig -> ItemResult, items: seq<RecordConfig>, n: int): (rs: seq<DNSRecord>)
    requires 0 <= n <= |items|
    ensures |rs| <= n
  {
    if n == 0 then []
    else
      var res := step(items[n - 1]);
      KeptUpTo(step, items, n - 1) + (if res.record.Some? then [res.record.value] else [])
  }

  /** The diagnostics the loop of `expandDNSRecords` adds for the first `n` entries. */
  function ReportedUpTo(step: RecordConfig -> ItemResult, render: (nat, Problem) -> Diagnostic,
                        items: seq<RecordConfig>, n: int): seq<Diagnostic>
    requires 0 <= n <= |items|
  {
    if n == 0 then []
    else ReportedUpTo(step, render, items, n - 1) + RenderAll(render, n - 1, step(items[n - 1]).problems)
  }

  /** `expandDNSRecords` on the configured list: a null or unknown list yields nothing. */
  function Expanded(list: TFValue<seq<RecordConfig>>): (e: Expansion)
    ensures !list.Known? ==> e == Expansion([], [])
  {
    if list.Known? then
      Expansion(KeptUpTo(ExpandItem, list.value, |list.value|),
                ReportedUpTo(ExpandItem, Render, list.value, |list.value|))
    else Expansion([], [])
  }

  /** The loop of `expandDNSRecords`: one pass over the entries, appending each kept record
      and the diagnostics of each entry's problems. */
  method ExpandEntries(step: RecordConfig -> ItemResult, render: (nat, Problem) -> Diagnostic, items: seq<RecordConfig>)
    returns (records: seq<DNSRecord>, diags: seq<Diagnostic>)
    ensures records == KeptUpTo(step, items, |items|)
    ensures diags == ReportedUpTo(step, render, items, |items|)
  {
    records, diags := [], [];
    for idx := 0 to |items|
      invariant records == KeptUpTo(step, items, idx)
      invariant diags == ReportedUpTo(step, render, items, idx)
    {
      var res := step(items[idx]);
      diags := diags + RenderAll(render, idx, res.problems);
      if res.record.Some? {
        records := records + [res.record.value];
      }
    }
  }

  /** `expandDNSRecords`: nothing for a null or unknown list, otherwise the loop over its
      entries with `ExpandItem` as the body and `Render` for the diagnostics. */
  method ExpandDNSRecords(list: TFValue<seq<RecordConfig>>) returns (records: seq<DNSRecord>, diags: seq<Diagnostic>)
    ensures Expansion(records, diags) == Expanded(list)
  {
    if !list.Known? {
      return [], [];
    }
    records, diags := ExpandEntries(ExpandItem, Render, list.value);
  }

  // ---------------------------------------------------------------------------
  // What a kept record should hold

  /** The value fields a record of kind `k` cannot do without: the ones its switch arm
      requires, each a non-blank string or a present number. */
  predicate HasRequired(r: DNSRecord, k: Kind) {
    match k
    case A | AAAA => !IsBlank(r.address)
    case ALIAS => !IsBlank(r.aliasName)
    case CAA => r.flag.Some? && !IsBlank(r.tag) && !IsBlank(r.value)
    case CNAME => !IsBlank(r.cname)
    case HTTPS | SVCB => r.svcPriority.Some? && !IsBlank(r.targetName)
    case MX => !IsBlank(r.exchange) && r.preference.Some?
    case NS => !IsBlank(r.nameserver)
    case PTR => !IsBlank(r.pointer)
    case SRV =>
      !IsBlank(r.service) && !IsBlank(r.protocol) && r.priority.Some? && r.weight.Some?
      && r.port.Some? && r.port.value.number.Some? && !IsBlank(r.target)
    case TLSA =>
      r.port.Some? && r.port.value.text.Some? && !IsBlank(r.port.value.text.value) && !IsBlank(r.protocol)
      && r.usage.Some? && r.selector.Some? && r.matching.Some? && !IsBlank(r.associationData)
    case TXT => !IsBlank(r.value)
  }

  /** A record with a supported type, a name, and every field its type requires. */
  predicate Complete(r: DNSRecord) {
    KindOf(r.rtype).Some? && r.name != "" && HasRequired(r, KindOf(r.rtype).value)
  }

  /** A step keeps an entry exactly when it reports no problem for it. */
  ghost predicate KeepsClean(step: RecordConfig -> ItemResult) {
    forall item :: step(item).record.Some? <==> step(item).problems == []
  }
}
