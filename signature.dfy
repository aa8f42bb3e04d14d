/** The canonical value signature of a record (recordValueSignature, intToString,
    portValueSignature) and the record key built from it (recordKey). */
module Signature {
  import opened Text
  import opened Records

  /** intToString: an absent number renders as the empty string, a present one as `%d`. */
  function IntToString(v: Option<int>): (r: string)
    ensures v.None? <==> r == ""
    ensures NoSep(r)
    ensures v.Some? ==> ParseDecimal(r) == Some(v.value)
  {
    match v
    case None => ""
    case Some(n) =>
      DecimalRoundTrip(n);
      Decimal(n)
  }

  /** portValueSignature: the number when there is one, else the lower-cased label, else empty. */
  function PortValueSignature(p: Option<PortValue>): (r: string)
    ensures p.None? ==> r == ""
    ensures p.Some? && p.value.number.Some? ==> ParseDecimal(r) == p.value.number
    ensures p.Some? && p.value.number.None? && p.value.text.Some? ==> r == ToLower(p.value.text.value)
    ensures p.Some? && p.value.number.None? && p.value.text.None? ==> r == ""
    ensures (p.Some? && p.value.number.None? && p.value.text.Some? ==> NoSep(p.value.text.value)) ==> NoSep(r)
  {
    match p
    case None => ""
    case Some(PortValue(text, number)) =>
      if number.Some? then IntToString(number)
      else if text.Some? then
        CaseKeepsSep(text.value);
        ToLower(text.value)
      else ""
  }

  /** What the `write` closure leaves in the builder after writing `parts` in order: each part is
      preceded by a separator unless the builder is still empty at that point, so leading empty
      parts leave no trace. */
  function Joined(parts: seq<string>): (r: string)
    ensures r == "" <==> forall i :: 0 <= i < |parts| ==> parts[i] == ""
  {
    if parts == [] then ""
    else
      var b := Joined(parts[..|parts| - 1]);
      if |b| > 0 then b + [Sep] + parts[|parts| - 1] else parts[|parts| - 1]
  }

  /** The segments recordValueSignature writes for a record, chosen by its upper-cased type. */
  function SignatureParts(r: DNSRecord): seq<string> {
    var t := ToUpper(r.rtype);
    if t == "A" || t == "AAAA" then [ToLower(r.address)]
    else if t == "ALIAS" then [ToLower(r.aliasName)]
    else if t == "CAA" then [IntToString(r.flag), ToLower(r.tag), r.value]
    else if t == "CNAME" then [ToLower(r.cname)]
    else if t == "HTTPS" || t == "SVCB" then
      [IntToString(r.svcPriority), ToLower(r.targetName), r.svcParams, PortValueSignature(r.port), ToLower(r.scheme)]
    else if t == "MX" then [ToLower(r.exchange), IntToString(r.preference)]
    else if t == "NS" then [ToLower(r.nameserver)]
    else if t == "PTR" then [ToLower(r.pointer)]
    else if t == "SRV" then [ToLower(r.service), ToLower(r.protocol), IntToString(r.priority), IntToString(r.weight)]
    else if t == "TLSA" then
      [PortValueSignature(r.port), ToLower(r.protocol), IntToString(r.usage), IntToString(r.selector),
       IntToString(r.matching), RemoveSpaces(ToLower(r.associationData))]
    else if t == "TXT" then [r.value]
    else [r.address]
  }

  function ValueSignature(r: DNSRecord): string {
    Joined(SignatureParts(r))
  }

  /** recordKey: upper(type) `|` lower(name) `|` signature. */
  function RecordKey(r: DNSRecord): string {
    ToUpper(r.rtype) + [Sep] + ToLower(r.name) + [Sep] + ValueSignature(r)
  }

  /** recordValueSignature as the source computes it, writing into a string builder. */
  method RecordValueSignature(r: DNSRecord) returns (sig: string)
    ensures sig == ValueSignature(r)
  {
    var parts := SignatureParts(r);
    sig := "";
    for i := 0 to |parts|
      invariant sig == Joined(parts[..i])
    {
      assert parts[..i + 1][..i] == parts[..i];
      if |sig| > 0 {
        sig := sig + [Sep];
      }
      sig := sig + parts[i];
    }
    assert parts[..|parts|] == parts;
  }

  // ---------------------------------------------------------------------------
  // Splitting at a separator

  predicate AllNoSep(parts: seq<string>) {
    forall i :: 0 <= i < |parts| ==> NoSep(parts[i])
  }

  /** Index of the last separator in `s`, or -1. */
  function LastSep(s: string): int {
    if s == [] then -1 else if s[|s| - 1] == Sep then |s| - 1 else LastSep(s[..|s| - 1])
  }

  /** Index of the first separator in `s`, or -1. */
  function FirstSep(s: string): int {
    if s == [] then -1 else if s[0] == Sep then 0 else if FirstSep(s[1..]) < 0 then -1 else FirstSep(s[1..]) + 1
  }

  lemma {:induction false} LastSepOf(b: string, p: string)
    requires NoSep(p)
    ensures LastSep(b + [Sep] + p) == |b|
  {
    if p != [] {
      var p' := p[..|p| - 1];
      assert (b + [Sep] + p)[..|b + [Sep] + p| - 1] == b + [Sep] + p';
      LastSepOf(b, p');
    }
  }

  lemma {:induction false} FirstSepOf(a: string, x: string)
    requires NoSep(a)
    ensures FirstSep(a + [Sep] + x) == |a|
  {
    if a != [] {
      assert (a + [Sep] + x)[1..] == a[1..] + [Sep] + x;
      FirstSepOf(a[1..], x);
    }
  }

  /** Two strings that end in a separator followed by a separator-free tail split the same way. */
  lemma LastSepSplit(b: string, p: string, c: string, q: string)
    requires NoSep(p) && NoSep(q)
    requires b + [Sep] + p == c + [Sep] + q
    ensures b == c && p == q
  {
    var s := b + [Sep] + p;
    LastSepOf(b, p);
    LastSepOf(c, q);
    assert b == s[..|b|] && c == s[..|c|];
    assert p == s[|b| + 1..] && q == s[|c| + 1..];
  }

  /** Two strings that start with a separator-free head followed by a separator split the same way. */
  lemma FirstSepSplit(a: string, x: string, b: string, y: string)
    requires NoSep(a) && NoSep(b)
    requires a + [Sep] + x == b + [Sep] + y
    ensures a == b && x == y
  {
    var s := a + [Sep] + x;
    FirstSepOf(a, x);
    FirstSepOf(b, y);
    assert a == s[..|a|] && b == s[..|b|];
    assert x == s[|a| + 1..] && y == s[|b| + 1..];
  }

  /** The builder output holds a separator exactly when some part before the last one was non-empty. */
  lemma JoinedSepAtEnd(ps: seq<string>)
    requires ps != [] && AllNoSep(ps)
    ensures NoSep(Joined(ps)) <==> Joined(ps[..|ps| - 1]) == ""
  {
    var b := Joined(ps[..|ps| - 1]);
    if b != "" {
      assert Joined(ps)[|b|] == Sep;
    } else {
      assert Joined(ps) == ps[|ps| - 1];
    }
  }

  /** The builder output determines the parts when there are as many on both sides and none of
      them contains the separator. */
  lemma {:induction false} JoinedInjective(ps: seq<string>, qs: seq<string>)
    requires |ps| == |qs| && AllNoSep(ps) && AllNoSep(qs)
    requires Joined(ps) == Joined(qs)
    ensures ps == qs
  {
    if ps != [] {
      var n := |ps|;
      JoinedLastSplit(ps, qs);
      assert AllNoSep(ps[..n - 1]) && AllNoSep(qs[..n - 1]);
      JoinedInjective(ps[..n - 1], qs[..n - 1]);
      assert ps == ps[..n - 1] + [ps[n - 1]] && qs == qs[..n - 1] + [qs[n - 1]];
    }
  }

  /** Equal builder outputs of separator-free parts agree on the last part and on the output of
      the parts before it. */
  lemma JoinedLastSplit(ps: seq<string>, qs: seq<string>)
    requires |ps| == |qs| > 0 && AllNoSep(ps) && AllNoSep(qs)
    requires Joined(ps) == Joined(qs)
    ensures Joined(ps[..|ps| - 1]) == Joined(qs[..|qs| - 1]) && ps[|ps| - 1] == qs[|qs| - 1]
  {
    var n := |ps|;
    var b, c := Joined(ps[..n - 1]), Joined(qs[..n - 1]);
    var p, q := ps[n - 1], qs[n - 1];
    assert NoSep(p) && NoSep(q);
    JoinedSepAtEnd(ps);
    JoinedSepAtEnd(qs);
    if |b| > 0 {
      LastSepSplit(b, p, c, q);
    }
  }

  /** Two part lists that differ only in their last part give different outputs, whatever the
      parts contain. */
  lemma JoinedLastDiffers(ps: seq<string>, a: string, b: string)
    requires a != b
    ensures Joined(ps + [a]) != Joined(ps + [b])
  {
    assert (ps + [a])[..|ps|] == ps && (ps + [b])[..|ps|] == ps;
    var x := Joined(ps);
    if |x| > 0 {
      var p := x + [Sep];
      assert Joined(ps + [a]) == p + a && Joined(ps + [b]) == p + b;
      assert (p + a)[|p|..] == a && (p + b)[|p|..] == b;
    }
  }

  /** What follows the first part in the builder output: a separator before each later part. */
  function Tail(rs: seq<string>): string {
    if rs == [] then "" else Tail(rs[..|rs| - 1]) + [Sep] + rs[|rs| - 1]
  }

  /** The builder output of some parts is never longer than those parts each preceded by a
      separator. */
  lemma {:induction false} JoinedWithinTail(rs: seq<string>)
    ensures |Joined(rs)| <= |Tail(rs)|
  {
    if rs != [] {
      JoinedWithinTail(rs[..|rs| - 1]);
    }
  }

  /** One more part at the end of the builder output. */
  lemma JoinedSnoc(ps: seq<string>, last: string)
    ensures Joined(ps + [last]) == if |Joined(ps)| > 0 then Joined(ps) + [Sep] + last else last
  {
    assert (ps + [last])[..|ps|] == ps;
  }

  /** An empty first part leaves no trace in the builder output. */
  lemma {:induction false} JoinedConsEmpty(rs: seq<string>)
    ensures Joined([""] + rs) == Joined(rs)
  {
    if rs != [] {
      var rs', last := rs[..|rs| - 1], rs[|rs| - 1];
      assert rs == rs' + [last];
      assert [""] + rs == ([""] + rs') + [last];
      JoinedConsEmpty(rs');
      JoinedSnoc([""] + rs', last);
      JoinedSnoc(rs', last);
    }
  }

  /** A non-empty first part `x` is followed by a separator before each later part. */
  lemma {:induction false} JoinedConsNonEmpty(x: string, rs: seq<string>)
    requires x != ""
    ensures Joined([x] + rs) == x + Tail(rs)
  {
    if rs != [] {
      var rs', last := rs[..|rs| - 1], rs[|rs| - 1];
      assert [x] + rs == ([x] + rs') + [last];
      JoinedConsNonEmpty(x, rs');
      JoinedSnoc([x] + rs', last);
      assert Tail(rs) == Tail(rs') + [Sep] + last;
      assert x + Tail(rs') + [Sep] + last == x + Tail(rs);
    }
  }

  /** Two part lists that differ only in their first part give different outputs, whatever the
      later parts contain. */
  lemma JoinedFirstDiffers(x1: string, x2: string, rs: seq<string>)
    requires x1 != x2
    ensures Joined([x1] + rs) != Joined([x2] + rs)
  {
    JoinedWithinTail(rs);
    if x1 == "" {
      JoinedConsEmpty(rs);
      JoinedConsNonEmpty(x2, rs);
    } else if x2 == "" {
      JoinedConsNonEmpty(x1, rs);
      JoinedConsEmpty(rs);
    } else {
      JoinedConsNonEmpty(x1, rs);
      JoinedConsNonEmpty(x2, rs);
      if |x1| == |x2| {
        assert (x1 + Tail(rs))[..|x1|] == x1 && (x2 + Tail(rs))[..|x2|] == x2;
      }
    }
  }

  // ---------------------------------------------------------------------------
  // What the signature and the key promise

  /** The number of segments depends on the upper-cased type alone. */
  lemma PartsArity(r1: DNSRecord, r2: DNSRecord)
    requires ToUpper(r1.rtype) == ToUpper(r2.rtype)
    ensures |SignatureParts(r1)| == |SignatureParts(r2)|
  {
  }

  /** Two records of the same type are value-equal exactly when their signatures are, provided
      no segment contains the separator. */
  lemma SignatureEqualIff(r1: DNSRecord, r2: DNSRecord)
    requires ToUpper(r1.rtype) == ToUpper(r2.rtype)
    requires AllNoSep(SignatureParts(r1)) && AllNoSep(SignatureParts(r2))
    ensures ValueSignature(r1) == ValueSignature(r2) <==> SignatureParts(r1) == SignatureParts(r2)
  {
    if ValueSignature(r1) == ValueSignature(r2) {
      PartsArity(r1, r2);
      JoinedInjective(SignatureParts(r1), SignatureParts(r2));
    }
  }

  /** Keys match exactly when the types match up to case, the names match up to case and the
      signatures match; TTL never takes part. Type and name are taken to be separator-free. */
  lemma KeyEqualIff(r1: DNSRecord, r2: DNSRecord)
    requires NoSep(r1.rtype) && NoSep(r2.rtype) && NoSep(r1.name) && NoSep(r2.name)
    ensures RecordKey(r1) == RecordKey(r2) <==>
      ToUpper(r1.rtype) == ToUpper(r2.rtype) && ToLower(r1.name) == ToLower(r2.name)
      && ValueSignature(r1) == ValueSignature(r2)
  {
    var u1, u2 := ToUpper(r1.rtype), ToUpper(r2.rtype);
    var l1, l2 := ToLower(r1.name), ToLower(r2.name);
    var s1, s2 := ValueSignature(r1), ValueSignature(r2);
    CaseKeepsSep(r1.rtype);
    CaseKeepsSep(r2.rtype);
    CaseKeepsSep(r1.name);
    CaseKeepsSep(r2.name);
    assert RecordKey(r1) == u1 + [Sep] + (l1 + [Sep] + s1);
    assert RecordKey(r2) == u2 + [Sep] + (l2 + [Sep] + s2);
    if RecordKey(r1) == RecordKey(r2) {
      FirstSepSplit(u1, l1 + [Sep] + s1, u2, l2 + [Sep] + s2);
      FirstSepSplit(l1, s1, l2, s2);
    }
  }

  /** Only the value fields of a record and its type and name decide the key: a TTL change or a
      change of case in type or name keeps it. */
  lemma KeyIgnoresTtlAndCase(r: DNSRecord, ttl: int)
    ensures RecordKey(r.(ttl := ttl)) == RecordKey(r)
    ensures RecordKey(r.(rtype := ToUpper(r.rtype), name := ToLower(r.name))) == RecordKey(r)
  {
    var r' := r.(rtype := ToUpper(r.rtype), name := ToLower(r.name));
    assert ToUpper(ToUpper(r.rtype)) == ToUpper(r.rtype);
    assert ToLower(ToLower(r.name)) == ToLower(r.name);
    assert SignatureParts(r') == SignatureParts(r);
  }

  /** A changed address on an A or AAAA record changes its key (unless only its case changed). */
  lemma AddressChangeChangesKey(r1: DNSRecord, r2: DNSRecord)
    requires ToUpper(r1.rtype) in {"A", "AAAA"} && r2 == r1.(address := r2.address)
    requires ToLower(r1.address) != ToLower(r2.address)
    ensures RecordKey(r1) != RecordKey(r2)
  {
    var prefix := ToUpper(r1.rtype) + [Sep] + ToLower(r1.name) + [Sep];
    assert RecordKey(r1) == prefix + ToLower(r1.address);
    assert RecordKey(r2) == prefix + ToLower(r2.address);
    assert RecordKey(r1)[|prefix|..] == ToLower(r1.address);
    assert RecordKey(r2)[|prefix|..] == ToLower(r2.address);
  }

  /** TLSA association data is compared with its spaces removed and its case folded. */
  lemma TlsaAssociationDataNormalised(r: DNSRecord)
    requires ToUpper(r.rtype) == "TLSA"
    ensures ValueSignature(r.(associationData := ToLower(RemoveSpaces(r.associationData)))) == ValueSignature(r)
  {
    var a := r.associationData;
    RemoveSpacesLower(a);
    RemoveSpacesKeepsSpaceFree(ToLower(RemoveSpaces(a)));
    assert ' ' !in ToLower(RemoveSpaces(a)) by {
      assert ToLower(RemoveSpaces(a)) == RemoveSpaces(ToLower(a));
    }
    ToLowerIdempotent(RemoveSpaces(a));
  }

  /** Association data written in two space-separated groups and in either case (the unit test
      uses `7F83B1 657FF1FC53` against `7f83b1657ff1fc53`) gives the signature of the data written
      as one lower-case group. */
  lemma TlsaSpacingAndCaseExample(r: DNSRecord, a: string, b: string)
    requires ToUpper(r.rtype) == "TLSA"
    requires ' ' !in a && ' ' !in b
    ensures ValueSignature(r.(associationData := a + (" " + b)))
         == ValueSignature(r.(associationData := ToLower(a + b)))
  {
    RemoveOneSpace(a, b);
    RemoveSpacesLower(a + (" " + b));
    RemoveSpacesLower(ToLower(a + b));
    ToLowerIdempotent(a + b);
    assert ' ' !in ToLower(a + b) by {
      RemoveSpacesLower(a + b);
      RemoveSpacesKeepsSpaceFree(a + b);
    }
    RemoveSpacesKeepsSpaceFree(ToLower(a + b));
    assert SignatureParts(r.(associationData := a + (" " + b)))
        == SignatureParts(r.(associationData := ToLower(a + b)));
  }

  /** TXT and CAA values keep their case: records that differ only in `value` have different
      signatures, even when the values differ only in case. */
  lemma TextValuesKeepCase(r1: DNSRecord, r2: DNSRecord)
    requires ToUpper(r1.rtype) in {"TXT", "CAA"} && r2 == r1.(value := r2.value)
    requires r1.value != r2.value
    ensures ValueSignature(r1) != ValueSignature(r2)
  {
    if ToUpper(r1.rtype) == "CAA" {
      var ps := [IntToString(r1.flag), ToLower(r1.tag)];
      assert SignatureParts(r1) == ps + [r1.value];
      assert SignatureParts(r2) == ps + [r2.value];
      JoinedLastDiffers(ps, r1.value, r2.value);
    } else {
      JoinedLastDiffers([], r1.value, r2.value);
    }
  }

  /** Hostname fields are compared without regard to case. */
  lemma HostnamesIgnoreCase(r: DNSRecord)
    ensures ValueSignature(r.(address := ToLower(r.address), aliasName := ToLower(r.aliasName),
      cname := ToLower(r.cname), exchange := ToLower(r.exchange), nameserver := ToLower(r.nameserver),
      pointer := ToLower(r.pointer), targetName := ToLower(r.targetName)))
      == ValueSignature(r) || ToUpper(r.rtype) !in SupportedTypes
  {
    ToLowerIdempotent(r.address);
    ToLowerIdempotent(r.aliasName);
    ToLowerIdempotent(r.cname);
    ToLowerIdempotent(r.exchange);
    ToLowerIdempotent(r.nameserver);
    ToLowerIdempotent(r.pointer);
    ToLowerIdempotent(r.targetName);
  }

  /** The SRV signature covers service, protocol, priority and weight: port and target do not
      take part, and the four covered fields are told apart. */
  lemma SrvSignatureCoverage(r1: DNSRecord, r2: DNSRecord)
    requires ToUpper(r1.rtype) == "SRV" && ToUpper(r2.rtype) == "SRV"
    requires NoSep(r1.service) && NoSep(r1.protocol) && NoSep(r2.service) && NoSep(r2.protocol)
    ensures ValueSignature(r1) == ValueSignature(r2) <==>
      ToLower(r1.service) == ToLower(r2.service) && ToLower(r1.protocol) == ToLower(r2.protocol)
      && r1.priority == r2.priority && r1.weight == r2.weight
  {
    CaseKeepsSep(r1.service);
    CaseKeepsSep(r1.protocol);
    CaseKeepsSep(r2.service);
    CaseKeepsSep(r2.protocol);
    SignatureEqualIff(r1, r2);
    if SignatureParts(r1) == SignatureParts(r2) {
      assert IntToString(r1.priority) == IntToString(r2.priority);
      assert IntToString(r1.weight) == IntToString(r2.weight);
      IntToStringInjective(r1.priority, r2.priority);
      IntToStringInjective(r1.weight, r2.weight);
    }
  }

  /** HTTPS and SVCB signatures include the service priority: two records that differ only in
      priority are distinct records, not one record to update. */
  lemma SvcPriorityDistinguishes(r1: DNSRecord, r2: DNSRecord)
    requires ToUpper(r1.rtype) in {"HTTPS", "SVCB"} && r2 == r1.(svcPriority := r2.svcPriority)
    requires r1.svcPriority != r2.svcPriority
    ensures ValueSignature(r1) != ValueSignature(r2)
  {
    var rest := [ToLower(r1.targetName), r1.svcParams, PortValueSignature(r1.port), ToLower(r1.scheme)];
    var x1, x2 := IntToString(r1.svcPriority), IntToString(r2.svcPriority);
    assert SignatureParts(r1) == [x1] + rest;
    assert SignatureParts(r2) == [x2] + rest;
    IntToStringInjective(r1.svcPriority, r2.svcPriority);
    JoinedFirstDiffers(x1, x2, rest);
  }

  lemma IntToStringInjective(a: Option<int>, b: Option<int>)
    ensures IntToString(a) == IntToString(b) <==> a == b
  {
  }
}
