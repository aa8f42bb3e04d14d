/** The DNS record as the provider exchanges it with the Spaceship API: one flat record whose
    `rtype` names the kind and whose per-kind value fields are empty strings or absent numbers
    when they do not apply. */
module Records {
  import opened Text

  /** A polymorphic port: a label such as `_443` or `*` for HTTPS, SVCB and TLSA, a number for
      SRV. The API type holds two optional parts; the constructors below set exactly one. */
  datatype PortValue = PortValue(text: Option<string>, number: Option<int>)

  function StringPort(text: string): PortValue {
    PortValue(Some(text), None)
  }

  function IntPort(number: int): PortValue {
    PortValue(None, Some(number))
  }

  datatype DNSRecord = DNSRecord(
    rtype: string,
    name: string,
    ttl: int,
    address: string,
    aliasName: string,
    cname: string,
    flag: Option<int>,
    tag: string,
    value: string,
    port: Option<PortValue>,
    scheme: string,
    svcPriority: Option<int>,
    targetName: string,
    svcParams: string,
    exchange: string,
    preference: Option<int>,
    nameserver: string,
    pointer: string,
    service: string,
    protocol: string,
    priority: Option<int>,
    weight: Option<int>,
    target: string,
    usage: Option<int>,
    selector: Option<int>,
    matching: Option<int>,
    associationData: string)

  /** The record kinds the provider accepts from configuration. */
  const SupportedTypes: set<string> :=
    {"A", "AAAA", "ALIAS", "CAA", "CNAME", "HTTPS", "MX", "NS", "PTR", "SRV", "SVCB", "TLSA", "TXT"}

  /** The supported record kinds, one constructor per type name. */
  datatype Kind = A | AAAA | ALIAS | CAA | CNAME | HTTPS | MX | NS | PTR | SRV | SVCB | TLSA | TXT

  /** The type name of a kind, as it appears in configuration and in the API. */
  function TypeName(k: Kind): string {
    match k
    case A => "A"
    case AAAA => "AAAA"
    case ALIAS => "ALIAS"
    case CAA => "CAA"
    case CNAME => "CNAME"
    case HTTPS => "HTTPS"
    case MX => "MX"
    case NS => "NS"
    case PTR => "PTR"
    case SRV => "SRV"
    case SVCB => "SVCB"
    case TLSA => "TLSA"
    case TXT => "TXT"
  }

  /** The kind a type name stands for: the matching of a `switch` on the type. */
  function KindOf(t: string): Option<Kind> {
    if t == "A" then Some(A)
    else if t == "AAAA" then Some(AAAA)
    else if t == "ALIAS" then Some(ALIAS)
    else if t == "CAA" then Some(CAA)
    else if t == "CNAME" then Some(CNAME)
    else if t == "HTTPS" then Some(HTTPS)
    else if t == "MX" then Some(MX)
    else if t == "NS" then Some(NS)
    else if t == "PTR" then Some(PTR)
    else if t == "SRV" then Some(SRV)
    else if t == "SVCB" then Some(SVCB)
    else if t == "TLSA" then Some(TLSA)
    else if t == "TXT" then Some(TXT)
    else None
  }

  /** A type name has a kind exactly when it is supported, and the kind names it back. */
  lemma KindOfSupported(t: string)
    ensures KindOf(t).Some? <==> t in SupportedTypes
    ensures KindOf(t).Some? ==> TypeName(KindOf(t).value) == t
  {
  }
}
