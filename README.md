# Spaceship DNS records: reconciliation model

A Dafny model of the DNS record reconciliation engine of the Spaceship Terraform provider. The model
also covers the provider's validator for a domain's nameserver configuration. It covers:

- **Expansion** (`expandDNSRecords`): each configured entry of the `records` list becomes an API
  record.
  - The type is trimmed and upper-cased, and the name is trimmed.
  - The TTL defaults to 3600.
  - Each of the 13 supported types demands its own attributes; an HTTPS port demands a scheme.
  - An entry with a problem is reported, once per problem, and dropped.
- **Key and value signature** (`recordKey`, `recordValueSignature`, `intToString`,
  `portValueSignature`): a canonical string per record.
  - Fields are joined with `|` by a builder that writes no separator before the first output.
  - Hostnames are lower-cased. TLSA association data loses its spaces and its case.
  - The key is upper(type) `|` lower(name) `|` signature.
- **Diff** (`diffDNSRecords`): which live records to delete, and which desired records to send in
  one upsert call.
- **Order** (`orderDNSRecordsLike`): the re-read zone is reordered to follow the configuration.
  Each configured record claims the first unclaimed fetched record with its key. Records nobody
  claimed follow, in fetched order.
- **Driver** (`Create`, `Update`, `Read`): expand, read the zone, diff, delete, upsert only when
  there is something to upsert, re-read, reorder, store. Each operation stops at its first error.
- **Nameserver validator** (`ValidateObject`, `isDefaultBasicNameservers`):
  - provider "custom" needs hosts, and not Spaceship's default hosts;
  - provider "basic" takes no hosts;
  - the default-hosts check ignores case.

## Modules

Each module is one `.dfy` file.

| Module | Contents |
|---|---|
| `Text` | ASCII case mapping, Go's `TrimSpace`, space removal and `%d` with its round trip. |
| `Records` | The API record, its polymorphic port, and the supported types. |
| `Framework` | Null, unknown or known configuration values; diagnostics; `boolOrDefault`. |
| `Signature` | The signature and the key. |
| `Seqs` | Picking elements by position, and permutations of positions. |
| `Diff`, `Order` | The diff and the reordering. |
| `Expand`, `ExpandProperties` | The expansion and what it guarantees. |
| `Driver`, `DriverProperties` | The operation sequences and what they guarantee. |
| `Nameservers` | The validator. |

### Loops and their specifications

Each loop of the source is a `method` proved equal to a specification function:

- `Diff.DiffDNSRecords` is three loop methods, one per loop of the source.
- `Order.OrderRecordsLike` flips claim flags in place in an `array`.
- `Signature.RecordValueSignature` writes into a builder string.
- `Expand.ExpandEntries` appends records and diagnostics.
- `Nameservers.IsDefaultBasicNameservers` fills a set and then scans the hosts.

Properties are lemmas about those functions.

### The diff and the order are generic

The diff and the order take the key as a parameter, so their properties hold for any key.
`Diff.Spaceship` is the provider's own identity: `RecordKey` and `ValueSignature`.

### The API is abstract

The driver takes the answers of the Spaceship API as inputs (`Driver.Api`, `Driver.Fetch`). It
records the calls it makes, in order. So the driver properties hold whatever the API answers.

### Error texts are kept verbatim

Error texts are kept as the source writes them. This includes:

- the `Fail;ed to apply DNS records` of Create;
- the `DNS Records` with a capital R in Update's first-read error;
- Update's extra final period after "Unconfigured provider";
- the misspellings in the expansion's attribute messages.

### The default-hosts check is not quite set equality

It is case-insensitive set equality only when the hosts also differ from one another ignoring case
(`Nameservers.MatchIsSetEquality`). A hosts set holding two spellings of one default host matches a
two-host default list (`Nameservers.CaseVariantsMatch`).

## Model

Paths are relative to the repository root.

| member | source | states |
|---|---|---|
| Text.TrimSpace | internal/provider/dns_records_resource.go:558-564 | The result is empty exactly when the input is all white space; otherwise neither of its ends is white space. |
| Text.TrimSpaceIsInfix | internal/provider/dns_records_resource.go:558-564 | The result is a slice of the input with only white space before and after it: the input without its leading and trailing white space. |
| Text.BlankIsTrimmedEmpty | internal/provider/dns_records_resource.go:591-592 | A string is blank exactly when `strings.TrimSpace` of it is empty. |
| Text.ToUpper | internal/provider/dns_records_resource.go:558 | Upper-casing keeps the length and maps every character. |
| Text.ToLower | internal/provider/dns_records_resource.go:912 | Lower-casing keeps the length and maps every character. |
| Text.ToLowerIdempotent | internal/provider/dns_records_resource.go:959-1001 | Lower-casing twice is lower-casing once. |
| Text.RemoveSpacesLower | internal/provider/dns_records_resource.go:993 | Removing spaces commutes with lower-casing. |
| Text.DecimalRoundTrip | internal/provider/dns_records_resource.go:1003-1008 | Reading back the `%d` rendering of an integer gives the integer. |
| Text.DecimalInjective | internal/provider/dns_records_resource.go:1003-1008 | Two integers render alike exactly when they are equal. |
| Records.KindOfSupported | internal/provider/dns_records_resource.go:607-798 | A type name has a switch arm exactly when it is one of the 13 supported names, and that arm names it back. |
| Framework.BoolOrDefault | internal/provider/dns_records_resource.go:1023-1028 | A known flag is returned as it is; a null or unknown flag gives the fallback. |
| Signature.IntToString | internal/provider/dns_records_resource.go:1003-1008 | An absent number renders as the empty string and only then. A present number renders without the separator and reads back as itself. |
| Signature.PortValueSignature | internal/provider/dns_records_resource.go:1010-1021 | No port renders empty. A numeric port reads back as its number. A label-only port renders lower-cased. |
| Signature.Joined | internal/provider/dns_records_resource.go:960-967 | The builder output is empty exactly when every part is empty. |
| Signature.RecordValueSignature | internal/provider/dns_records_resource.go:959-1001 | The builder loop produces the value signature of the record's upper-cased type. |
| Signature.JoinedInjective | internal/provider/dns_records_resource.go:960-967 | Two equal-length lists of separator-free parts that give the same output are the same parts. |
| Signature.JoinedLastDiffers | internal/provider/dns_records_resource.go:960-967 | Two part lists that differ only in their last part give different outputs, whatever the parts contain. |
| Signature.JoinedFirstDiffers | internal/provider/dns_records_resource.go:960-967 | Two part lists that differ only in their first part give different outputs, whatever the parts contain, even when one first part is empty. |
| Signature.SignatureEqualIff | internal/provider/dns_records_resource.go:959-1001 | Two records of one type have equal signatures exactly when their separator-free segments are equal. |
| Signature.KeyEqualIff | internal/provider/dns_records_resource.go:911-913 | For types and names without `|`, two keys match exactly when the types match up to case, the names match up to case, and the signatures match. |
| Signature.KeyIgnoresTtlAndCase | internal/provider/dns_records_resource.go:911-913 | Changing the TTL, or the case of type or name, keeps the key. |
| Signature.AddressChangeChangesKey | internal/provider/dns_records_resource.go:971-972 | A new A/AAAA address, beyond a case change, changes the key. |
| Signature.TlsaAssociationDataNormalised | internal/provider/dns_records_resource.go:992-994 | TLSA association data is compared with spaces removed and case folded. |
| Signature.TlsaSpacingAndCaseExample | internal/provider/dns_records_resource_unit_test.go:325-355 | Association data in two space-separated groups, in any case, signs like the lower-case data in one group. |
| Signature.TextValuesKeepCase | internal/provider/dns_records_resource.go:975-996 | TXT and CAA records that differ only in `value`, even only in its case, have different signatures. |
| Signature.HostnamesIgnoreCase | internal/provider/dns_records_resource.go:970-996 | For every supported type, lower-casing every hostname field keeps the signature. An unsupported type signs its address as written (lines 997-998), so it is not covered. |
| Signature.SrvSignatureCoverage | internal/provider/dns_records_resource.go:988-989 | For service and protocol without `|`, two SRV signatures match exactly when service and protocol (up to case), priority and weight match. Port and target play no part. |
| Signature.SvcPriorityDistinguishes | internal/provider/dns_records_resource.go:979-991 | HTTPS/SVCB records that differ only in service priority have different signatures. |
| Signature.IntToStringInjective | internal/provider/dns_records_resource.go:1003-1008 | Two optional numbers render alike exactly when they are equal. |
| Diff.IndexByKey | internal/provider/dns_records_resource.go:878-881 | The loop builds the map from each key to the last desired record with that key. |
| Diff.IndexAndCollectDeletions | internal/provider/dns_records_resource.go:883-889 | The loop builds the live map, and collects the live records whose key is not desired, in live order. |
| Diff.CollectUpserts | internal/provider/dns_records_resource.go:891-906 | The loop collects the changed desired records, skipping keys already sent. |
| Diff.DiffDNSRecords | internal/provider/dns_records_resource.go:877-909 | The delete list and the upsert list are the two specification functions applied with the provider's key. |
| Diff.LastByKeyDomain | internal/provider/dns_records_resource.go:878-889 | The map's keys are the list's keys, each bound to a record of the list with that key. |
| Diff.LastByKeyIsLast | internal/provider/dns_records_resource.go:883-885 | The map holds the last record of each key. |
| Diff.DeletionsArePicked | internal/provider/dns_records_resource.go:883-889 | The delete list is the live list at the positions whose key is not desired, in order; so it is a subsequence of the live list. |
| Diff.DeletionsExactly | internal/provider/dns_records_resource.go:883-889 | A record is deleted exactly when it is live and no desired record has its key. |
| Diff.UpsertsAreKept | internal/provider/dns_records_resource.go:891-906 | The upserts are the desired list at the kept positions, in order; so they are a subsequence of the desired list. |
| Diff.FirstChangedIsKept | internal/provider/dns_records_resource.go:891-906 | For every changed desired record, the earliest changed record with its key is sent. |
| Diff.UpsertsDistinctKeys | internal/provider/dns_records_resource.go:899-905 | No two upserted records share a key. |
| Diff.UnchangedIff | internal/provider/dns_records_resource.go:895-897 | A desired record is skipped as unchanged exactly when the live map holds a record with its key and its TTL. |
| Diff.DiffOfSelfIsEmpty | internal/provider/dns_records_resource_unit_test.go:231-245 | A list with distinct keys, diffed against itself, deletes and upserts nothing. |
| Diff.DesiredWithinExistingNeedsNoUpsert | internal/provider/dns_records_resource.go:891-906 | Desired records that are all live, with distinct live keys, need no upsert. |
| Diff.NothingUnwantedNoDeletions | internal/provider/dns_records_resource.go:883-889 | Nothing is deleted when every live key is desired. |
| Diff.SingleKept | internal/provider/dns_records_resource.go:891-906 | When one desired record alone is kept, it is the whole upsert. |
| Diff.TtlChangeUpsertsOnly | internal/provider/dns_records_resource_unit_test.go:266-283 | Under a TTL-blind key, changing one record's TTL deletes nothing and upserts exactly that record. |
| Diff.SpaceshipTtlChange | internal/provider/dns_records_resource_unit_test.go:266-283 | The same holds with the provider's key. |
| Diff.KeyChangeReplaces | internal/provider/dns_records_resource.go:886-887 | A desired record whose key differs from the live one deletes the live record and upserts itself. |
| Diff.AddressChangeReplaces | internal/provider/dns_records_resource_unit_test.go:247-264 | A new A/AAAA address deletes the old record and upserts the new one. |
| Order.FirstUnclaimed | internal/provider/dns_records_resource.go:938-947 | The scan stops at the first unclaimed record with the key. Every record it skips is claimed or has another key. |
| Order.Keyed | internal/provider/dns_records_resource.go:926-932 | The working list pairs each fetched record with its key and claim flag. |
| Order.ClaimFirst | internal/provider/dns_records_resource.go:936-948 | One reference scan claims and appends the first unclaimed record with the key, and changes nothing else. |
| Order.ClaimNext | internal/provider/dns_records_resource.go:936-948 | The scan for one more reference entry moves the working list and the output from the claims of the entries before it to the claims including it. |
| Order.AppendUnclaimed | internal/provider/dns_records_resource.go:950-954 | The final pass appends the unclaimed records in fetched order. |
| Order.OrderRecordsLike | internal/provider/dns_records_resource.go:915-957 | The in-place algorithm returns the specified reordering, or the records unchanged when at most one was fetched or the reference is empty. |
| Order.ClaimsDistinct | internal/provider/dns_records_resource.go:936-948 | Each fetched record is used at most once, and its flag is set exactly when it was claimed. |
| Order.ClaimsFollowReference | internal/provider/dns_records_resource.go:936-948 | Matched records come out in reference order, each with its reference entry's key. |
| Order.ClaimsEarliest | internal/provider/dns_records_resource.go:938-946 | Ties go to the earliest unclaimed position. |
| Order.ClaimsUnmatched | internal/provider/dns_records_resource.go:936-948 | A reference entry stays unmatched only when every record with its key is already claimed. |
| Order.OrderIndicesPermute | internal/provider/dns_records_resource.go:936-954 | The output positions list every fetched position exactly once. |
| Order.OrderedIsPermutation | internal/provider/dns_records_resource.go:915-957 | The output has the same multiset and length as the fetched records. |
| Order.OrderedLayout | internal/provider/dns_records_resource.go:936-954 | The output is the claimed records in claiming order, then the unclaimed ones in fetched order. |
| Order.ReorderingRestoresReference | internal/provider/dns_records_resource_unit_test.go:305-323 | A reordering of the reference with distinct keys comes back exactly in reference order. |
| Expand.Checks | internal/provider/dns_records_resource.go:591-605 | A run of required-attribute checks reports nothing exactly when every check passes. |
| Expand.Fill | internal/provider/dns_records_resource.go:576-580 | The built record carries the given type, name and TTL. |
| Expand.ExpandTyped | internal/provider/dns_records_resource.go:555-802 | An entry yields a record exactly when it has no problem. |
| Expand.Render | internal/provider/dns_records_resource.go:591-605 | Each diagnostic points at the entry's offending attribute. A missing attribute reads "Missing <attr>", with its type's detail text. |
| Expand.RenderAll | internal/provider/dns_records_resource.go:555-802 | An entry gets one diagnostic per problem, in order. |
| Expand.KeptUpTo | internal/provider/dns_records_resource.go:800-802 | No more records are kept than entries were read. |
| Expand.Expanded | internal/provider/dns_records_resource.go:540-545 | A null or unknown list expands to nothing, without diagnostics. |
| Expand.ExpandEntries | internal/provider/dns_records_resource.go:555-804 | The loop's records and diagnostics are the specified ones. |
| Expand.ExpandDNSRecords | internal/provider/dns_records_resource.go:540-806 | The whole expansion is the specified one. |
| ExpandProperties.ExpandRejects | internal/provider/dns_records_resource.go:558-568 | A blank type, else a blank name, else an unsupported type is the entry's one problem, and the entry is dropped. |
| ExpandProperties.ExpandKeeps | internal/provider/dns_records_resource.go:555-802 | An entry is kept exactly when type and name are non-blank, the type is supported, every check passes, and an HTTPS port comes with a scheme. |
| ExpandProperties.ChecksReportFailing | internal/provider/dns_records_resource.go:591-605 | Every failing check is reported. |
| ExpandProperties.ChecksOnlyFailing | internal/provider/dns_records_resource.go:591-605 | Every reported problem is a failing check of that kind. |
| ExpandProperties.EntryProblems | internal/provider/dns_records_resource.go:607-798 | For a supported kind, the problems are exactly the failing checks, plus HTTPS's scheme rule. |
| ExpandProperties.SingleFillComplete | internal/provider/dns_records_resource.go:607-797 | For the one-attribute types, a record whose checks pass holds its required field. |
| ExpandProperties.PairFillComplete | internal/provider/dns_records_resource.go:622-684 | For CAA, HTTPS, SVCB and MX, a record whose checks pass holds its required fields. |
| ExpandProperties.SrvFillComplete | internal/provider/dns_records_resource.go:699-730 | An SRV record whose checks pass holds service, protocol, priority, weight, a numeric port and target. |
| ExpandProperties.TlsaFillComplete | internal/provider/dns_records_resource.go:754-788 | A TLSA record whose checks pass holds port, protocol, usage, selector, matching and association data. |
| ExpandProperties.FillComplete | internal/provider/dns_records_resource.go:607-798 | A record built from an entry whose checks all pass holds every field its type requires. |
| ExpandProperties.KeptRecordHolds | internal/provider/dns_records_resource.go:576-580 | A kept record has a supported kind and carries its type, name, TTL and required fields. |
| ExpandProperties.KeptRecordComplete | internal/provider/dns_records_resource.go:555-802 | A kept record has the entry's upper-cased supported type, its trimmed non-empty name, its TTL or 3600, and every required field. |
| ExpandProperties.KeptFrom | internal/provider/dns_records_resource.go:800-802 | Every kept record is the record of one of the entries read. |
| ExpandProperties.ExpandedComplete | internal/provider/dns_records_resource.go:555-804 | Every expanded record is complete. |
| ExpandProperties.CleanExpansionKeepsAll | internal/provider/dns_records_resource.go:555-804 | There are no diagnostics exactly when every entry is kept; the records then follow the entries in order. |
| ExpandProperties.CleanListKeepsAll | internal/provider/dns_records_resource.go:540-806 | The same holds for `expandDNSRecords` on a known list. |
| Driver.Reconcile | internal/provider/dns_records_resource.go:346-403 | Create and Update follow the specified step sequence. |
| Driver.Apply | internal/provider/dns_records_resource.go:365-371 | The first read, then the diff, follow the specification. |
| Driver.Push | internal/provider/dns_records_resource.go:372-400 | Delete, upsert, re-read and reorder follow the specification. |
| Driver.ReadRecords | internal/provider/dns_records_resource.go:405-446 | Read follows the specified step sequence. |
| DriverProperties.MessageShape | internal/provider/dns_records_resource.go:346-403 | A stop reports one error on the whole resource. An API failure is a "Spaceship API error" whose detail ends with the API's error text. |
| DriverProperties.UnconfiguredWording | internal/provider/dns_records_resource.go:448-451 | Read words the unconfigured provider like Create; Update adds a final period. |
| DriverProperties.CreateAndUpdateWording | internal/provider/dns_records_resource.go:465-484 | Create and Update word a failed first read and a failed upsert differently, and the rest alike. |
| DriverProperties.PushStopsAtFirstFailure | internal/provider/dns_records_resource.go:372-400 | The calls are a prefix of read, delete, optional upsert, re-read, ending at the failing call. That failure is the one diagnostic. The state is written exactly when nothing failed: ID = domain, force flag, re-read zone reordered like the plan. |
| DriverProperties.PushDeletesOnce | internal/provider/dns_records_resource.go:371-375 | The delete is always the second call, even when nothing is deleted, and there is only one. |
| DriverProperties.PushUpsertsOnlyWhenNeeded | internal/provider/dns_records_resource.go:377-382 | An upsert is sent exactly when the delete succeeded and the upsert list is non-empty. It carries that list and the force flag. |
| DriverProperties.PushAlike | internal/provider/dns_records_resource.go:372-400 | Any two of Create and Update make the same calls and leave the same state after the diff. |
| DriverProperties.ReconcileGate | internal/provider/dns_records_resource.go:347-363 | An unconfigured provider or a plan with errors stops before any API call. Otherwise the API steps run on the expanded records, with force defaulting to true. |
| DriverProperties.AppliedSteps | internal/provider/dns_records_resource.go:365-371 | A failed first read is the only call. Otherwise the diff's two lists are pushed. |
| DriverProperties.AppliedKeepsZone | internal/provider/dns_records_resource.go:384-400 | A successful run stores exactly the re-read records (same multiset, same length). |
| DriverProperties.NothingDesiredDeleted | internal/provider/dns_records_resource.go:371-375 | Only live records are ever deleted, and none whose key is desired. |
| DriverProperties.CreateAndUpdateAlike | internal/provider/dns_records_resource.go:448-505 | Any two of Create and Update make the same calls and leave the same state for every input. |
| DriverProperties.ReadOutcomes | internal/provider/dns_records_resource.go:405-446 | Read makes at most one call. Not-found removes the resource silently; a successful read keeps ID and force and stores the zone reordered like the state, same multiset. Every other stop reports an error. |
| Nameservers.IsDefaultBasicNameservers | internal/provider/nameservers_validator.go:88-106 | The length check, set fill and scan compute the specified default-hosts match. |
| Nameservers.ValidateObject | internal/provider/nameservers_validator.go:25-81 | The validator reports the specified diagnostics. |
| Nameservers.UndecidedIsSilent | internal/provider/nameservers_validator.go:26-43 | A null or unknown object, a provider that is null, unknown or not a string, or hosts unknown or not a set, give no diagnostic. |
| Nameservers.AtMostOneError | internal/provider/nameservers_validator.go:48-80 | There is at most one diagnostic, always on `hosts`. |
| Nameservers.CustomRule | internal/provider/nameservers_validator.go:46-71 | Under "custom", null or empty hosts give "Missing Required Hosts". Other hosts give "Invalid Hosts Configuration" exactly when they match the defaults. |
| Nameservers.BasicAndOtherRules | internal/provider/nameservers_validator.go:72-80 | Under "basic", there is an error exactly when hosts are given. Any other provider gives none. |
| Nameservers.LengthMismatchNeverMatches | internal/provider/nameservers_validator.go:90-92 | Lists of different lengths never match. |
| Nameservers.DefaultsInAnyCaseMatch | internal/provider/nameservers_validator.go:95-105 | The default hosts, in any case and any order, match. |
| Nameservers.LowerSetSizeDistinct | internal/provider/nameservers_validator.go:95-98 | Hosts distinct ignoring case give as many lower-cased entries as hosts. |
| Nameservers.MatchIsSetEquality | internal/provider/nameservers_validator.go:88-106 | For hosts distinct ignoring case, the check is case-insensitive set equality with the defaults. |
| Nameservers.CaseVariantsMatch | internal/provider/nameservers_validator.go:88-106 | Two spellings of one default host match a two-host default list they do not cover. |

## Left out

- The HTTP client is not modelled: requests, pagination, authentication, and the client's own
  handling of a delete (`internal/provider/client.go`, `internal/client/`). Its answers are inputs
  to the driver.
- Terraform framework conversions are not modelled: `Plan.Get`, `State.Get`, `State.Set`,
  `ElementsAs` and `flattenDNSRecords`, and the diagnostics they may add. The stored records are
  the list the driver hands to the flattening.
- Expand.ExpandDNSRecords: a list whose elements fail `ElementsAs` conversion is not modelled;
  the entries are taken as converted.
- Nameservers.ValidateObject: the hosts are taken as known strings; `ElementsAs` failures on
  unknown elements are not modelled.
- The nil-client check is the `configured` input of the driver.
- Delete, ImportState, Configure, Schema and Metadata of the resource are not modelled. They are
  API plumbing and schema declarations.
- The domain resource and data sources, `provider.go` and `main.go` are not modelled. They are
  field copying, credential lookup and process wiring.
- `nameserver_validation.go` is not modelled. It is an older copy of the validator without the
  default-hosts check.
- The JSON codec of the port value is not modelled. It is foreign `encoding/json` behaviour.
- Spaceship's default nameserver list is the `defaults` parameter. Its contents are not part of
  this model.
- Case mapping is ASCII-only. Go's `strings.ToLower`/`ToUpper` also map non-ASCII letters.
- Integers are unbounded. Go's 64-bit `int`/`int64` overflow is not modelled; the configured values
  are passed through unchanged.
- Expand.Render: the unsupported-type message quotes the type as `"` + type + `"`. Go's `%q` also
  escapes quotes, backslashes and non-printable characters inside it.
- Signature.JoinedInjective: stated only for parts without `|`. With a `|` inside a part, two
  different part lists can give the same output.
- Signature.SignatureEqualIff: stated only for segments without `|`, for the same reason.
- Signature.KeyEqualIff: stated only for types and names without `|`, for the same reason.
- Signature.SrvSignatureCoverage: stated only for service and protocol without `|`, for the same
  reason.
- Diff.UnchangedIff: stated only for types and names without `|`, for the same reason.
- The API record's `group` field (`Group` in `client.go`) is not modelled. No step of the reconciliation
  reads it. Fetched records carry it back into the delete request, which the model does not show.
