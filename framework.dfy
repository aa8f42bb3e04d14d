/** The few Terraform plugin-framework notions the DNS records resource relies on: configuration
    values that may be null or not yet known, and error diagnostics with the attribute they
    point at. */
module Framework {

  /** A configuration value: null (not set), unknown (computed later during the plan), or known. */
  datatype TFValue<T> = Null | Unknown | Known(value: T)

  /** Where a diagnostic points: the resource as a whole, or attribute `attr` of entry number
      `index` of the `records` list. */
  datatype Location = Whole | RecordAttr(index: nat, attr: string) | Attribute(name: string)

  /** An error diagnostic with its summary line and its detail text. */
  datatype Diagnostic = Error(at: Location, summary: string, detail: string)

  /** `boolOrDefault`: the configured flag when it is known, `fallback` when it is null or
      unknown. */
  function BoolOrDefault(v: TFValue<bool>, fallback: bool): (b: bool)
    ensures v.Known? ==> b == v.value
    ensures !v.Known? ==> b == fallback
  {
    match v
    case Known(x) => x
    case _ => fallback
  }
}
